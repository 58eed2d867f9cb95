/** The canonical text that requests are signed over: internal/dkpg/canonical.go.

    A value is what json.Unmarshal yields. A number is identified with the shortest decimal text
    that encoding/json prints for it. */
module CanonicalJson {
  import opened Sorting

  datatype Json =
    | Null
    | Bool(b: bool)
    | Number(literal: string)
    | String(s: string)
    | Array(items: seq<Json>)
    | Object(fields: map<string, Json>)

  predicate NumberChar(c: char) {
    '0' <= c <= '9' || c in "+-.eE"
  }

  predicate IsNumber(s: string) {
    s != "" && ('0' <= s[0] <= '9' || s[0] == '-') && forall i :: 0 <= i < |s| ==> NumberChar(s[i])
  }

  /** Every number in the value is a number. */
  ghost predicate WellFormed(v: Json) {
    match v
    case Number(literal) => IsNumber(literal)
    case Array(items) => forall i :: 0 <= i < |items| ==> WellFormed(items[i])
    case Object(fields) => forall k :: k in fields ==> WellFormed(fields[k])
    case _ => true
  }

  // ---- Strings --------------------------------------------------------------------------

  function Hex(n: nat): char
    requires n < 16
  {
    "0123456789abcdef"[n]
  }

  /** json.Marshal of one rune, with its default HTML escaping. */
  function Escape(c: char): string {
    if c == '"' then "\\\"" else if c == '\\' then "\\\\"
    else if c == '\U{0008}' then "\\b" else if c == '\U{000C}' then "\\f"
    else if c == '\n' then "\\n" else if c == '\r' then "\\r" else if c == '\t' then "\\t"
    else if c < ' ' || c == '<' || c == '>' || c == '&' then "\\u00" + [Hex(c as int / 16), Hex(c as int % 16)]
    else if c == '\U{2028}' then "\\u2028" else if c == '\U{2029}' then "\\u2029"
    else [c]
  }

  function Escaped(s: string): string {
    if s == "" then "\"" else Escape(s[0]) + Escaped(s[1..])
  }

  /** A quoted string: an opening quote, the escaped runes, a closing quote. */
  function Quote(s: string): string {
    "\"" + Escaped(s)
  }

  function HexValue(c: char): int {
    if '0' <= c <= '9' then c as int - '0' as int else c as int - 'a' as int + 10
  }

  /** The rune at the head of escaped text. */
  function Unescape(s: string): char
    requires s != ""
  {
    if s[0] != '\\' || |s| < 2 then s[0]
    else if s[1] == 'b' then '\U{0008}' else if s[1] == 'f' then '\U{000C}'
    else if s[1] == 'n' then '\n' else if s[1] == 'r' then '\r' else if s[1] == 't' then '\t'
    else if s[1] != 'u' || |s| < 6 then s[1]
    else if s[2] == '2' then (if s[5] == '8' then '\U{2028}' else '\U{2029}')
    else
      var n := 16 * HexValue(s[4]) + HexValue(s[5]);
      if 0 <= n < 256 then n as char else s[1]
  }

  lemma HexRoundTrip(n: nat)
    requires n < 16
    ensures HexValue(Hex(n)) == n
  {
  }

  lemma UnescapeEscape(c: char, rest: string)
    ensures Escape(c) != "" && Escape(c)[0] != '"'
    ensures Unescape(Escape(c) + rest) == c
  {
    var s := Escape(c) + rest;
    if |Escape(c)| == 6 && c != '\U{2028}' && c != '\U{2029}' {
      HexRoundTrip(c as int / 16);
      HexRoundTrip(c as int % 16);
      assert s[4] == Hex(c as int / 16) && s[5] == Hex(c as int % 16);
    }
  }

  lemma EscapeUnambiguous(c: char, d: char, x: string, y: string)
    requires Escape(c) + x == Escape(d) + y
    ensures c == d && x == y
  {
    UnescapeEscape(c, x);
    UnescapeEscape(d, y);
    var n := |Escape(c)|;
    assert (Escape(c) + x)[n..] == x && (Escape(d) + y)[n..] == y;
  }

  lemma Reassociate(a: string, b: string, c: string)
    ensures (a + b) + c == a + (b + c)
    ensures a != "" ==> ((a + b) + c)[0] == a[0]
  {
  }

  /** Only the empty string's text begins with a quote. */
  lemma EscapedHead(s: string, x: string)
    ensures (Escaped(s) + x)[0] == '"' <==> s == ""
    ensures s == "" ==> (Escaped(s) + x)[1..] == x
    ensures s != "" ==> Escaped(s) + x == Escape(s[0]) + (Escaped(s[1..]) + x)
  {
    if s != "" {
      UnescapeEscape(s[0], "");
      Reassociate(Escape(s[0]), Escaped(s[1..]), x);
    }
  }

  /** Escaped text is self-delimiting and determines its string. */
  lemma {:induction false} EscapedUnambiguous(s: string, t: string, x: string, y: string)
    requires Escaped(s) + x == Escaped(t) + y
    ensures s == t && x == y
    decreases |s|
  {
    EscapedHead(s, x);
    EscapedHead(t, y);
    if s != "" {
      EscapeUnambiguous(s[0], t[0], Escaped(s[1..]) + x, Escaped(t[1..]) + y);
      EscapedUnambiguous(s[1..], t[1..], x, y);
      assert s == [s[0]] + s[1..] && t == [t[0]] + t[1..];
    }
  }

  // ---- The text -------------------------------------------------------------------------

  ghost function Text(v: Json): string
    decreases v, 1, 0
  {
    match v
    case Null => "null"
    case Bool(b) => if b then "true" else "false"
    case Number(literal) => literal
    case String(s) => Quote(s)
    case Array(items) => "[" + ItemsText(items)
    case Object(fields) => "{" + FieldsText(v, SortedKeys(fields.Keys))
  }

  /** The items up to and including the closing bracket. */
  ghost function ItemsText(items: seq<Json>): string
    decreases items, 0, 0
  {
    if items == [] then "]" else Text(items[0]) + ItemsTail(items[1..])
  }

  ghost function ItemsTail(items: seq<Json>): string
    decreases items, 0, 1
  {
    if items == [] then "]" else "," + ItemsText(items)
  }

  /** The fields with these keys, up to and including the closing brace. */
  ghost function FieldsText(v: Json, keys: seq<string>): string
    requires v.Object? && forall i :: 0 <= i < |keys| ==> keys[i] in v.fields
    decreases v, 0, 2 * |keys|
  {
    if keys == [] then "}" else Quote(keys[0]) + (":" + (Text(v.fields[keys[0]]) + FieldsTail(v, keys[1..])))
  }

  ghost function FieldsTail(v: Json, keys: seq<string>): string
    requires v.Object? && forall i :: 0 <= i < |keys| ==> keys[i] in v.fields
    decreases v, 0, 2 * |keys| + 1
  {
    if keys == [] then "}" else "," + FieldsText(v, keys)
  }

  // ---- No two values share a text -------------------------------------------------------

  /** What can follow a value inside a text. */
  ghost predicate Delimited(x: string) {
    x != "" ==> x[0] == ',' || x[0] == ']' || x[0] == '}'
  }

  /** The first character gives the kind of value away. */
  ghost predicate Announces(c: char, v: Json) {
    match v
    case Null => c == 'n'
    case Bool(b) => c == if b then 't' else 'f'
    case Number(_) => '0' <= c <= '9' || c == '-'
    case String(_) => c == '"'
    case Array(_) => c == '['
    case Object(_) => c == '{'
  }

  lemma TextAnnounces(v: Json, x: string)
    requires WellFormed(v)
    ensures Text(v) != "" && Announces((Text(v) + x)[0], v)
  {
  }

  lemma DropHead(c: char, a: string, b: string, x: string, y: string)
    requires ([c] + a) + x == ([c] + b) + y
    ensures a + x == b + y
  {
    var s := ([c] + a) + x;
    assert s[1..] == a + x && s[1..] == b + y;
  }

  function NumberLength(s: string): nat {
    if s == "" || !NumberChar(s[0]) then 0 else 1 + NumberLength(s[1..])
  }

  lemma {:induction false} NumberEndsAtDelimiter(literal: string, x: string)
    requires Delimited(x) && forall i :: 0 <= i < |literal| ==> NumberChar(literal[i])
    ensures NumberLength(literal + x) == |literal|
  {
    if literal == "" {
      assert literal + x == x;
    } else {
      NumberEndsAtDelimiter(literal[1..], x);
      assert (literal + x)[1..] == literal[1..] + x;
    }
  }

  lemma NumbersUnambiguous(l: string, m: string, x: string, y: string)
    requires IsNumber(l) && IsNumber(m) && Delimited(x) && Delimited(y) && l + x == m + y
    ensures l == m && x == y
  {
    NumberEndsAtDelimiter(l, x);
    NumberEndsAtDelimiter(m, y);
    assert (l + x)[..|l|] == l && (m + y)[..|m|] == m && (l + x)[|l|..] == x && (m + y)[|m|..] == y;
  }

  /** A value's text, followed by a delimiter or the end, determines the value and what follows. */
  lemma {:induction false} Unambiguous(v: Json, w: Json, x: string, y: string)
    requires WellFormed(v) && WellFormed(w) && Delimited(x) && Delimited(y)
    requires Text(v) + x == Text(w) + y
    ensures v == w && x == y
    decreases v, 1, 0
  {
    TextAnnounces(v, x);
    TextAnnounces(w, y);
    match v {
      case Number(l) => NumbersUnambiguous(l, w.literal, x, y);
      case String(s) =>
        DropHead('"', Escaped(s), Escaped(w.s), x, y);
        EscapedUnambiguous(s, w.s, x, y);
      case Array(items) =>
        DropHead('[', ItemsText(items), ItemsText(w.items), x, y);
        ItemsUnambiguous(items, w.items, x, y);
      case Object(fields) =>
        var ks, ls := SortedKeys(fields.Keys), SortedKeys(w.fields.Keys);
        DropHead('{', FieldsText(v, ks), FieldsText(w, ls), x, y);
        FieldsUnambiguous(v, w, ks, ls, x, y);
        SameFields(fields, w.fields, ks);
      case _ => PrefixCancels(Text(v), x, y);
    }
  }

  lemma SameFields(m: map<string, Json>, n: map<string, Json>, keys: seq<string>)
    requires Lists(keys, m.Keys) && Lists(keys, n.Keys)
    requires forall i :: 0 <= i < |keys| ==> m[keys[i]] == n[keys[i]]
    ensures m == n
  {
    forall k | k in m ensures k in n && m[k] == n[k] {
      assert k in keys;
    }
    forall k | k in n ensures k in m {
      assert k in keys;
    }
  }

  lemma ItemsTextHead(items: seq<Json>, x: string)
    requires forall i :: 0 <= i < |items| ==> WellFormed(items[i])
    ensures ItemsText(items) != ""
    ensures (ItemsText(items) + x)[0] == ']' <==> items == []
    ensures items == [] ==> (ItemsText(items) + x)[1..] == x
    ensures items != [] ==> ItemsText(items) + x == Text(items[0]) + (ItemsTail(items[1..]) + x)
  {
    if items != [] {
      TextAnnounces(items[0], "");
      assert Text(items[0]) + "" == Text(items[0]);
      Reassociate(Text(items[0]), ItemsTail(items[1..]), x);
    }
  }

  lemma {:induction false} ItemsUnambiguous(items: seq<Json>, others: seq<Json>, x: string, y: string)
    requires forall i :: 0 <= i < |items| ==> WellFormed(items[i])
    requires forall i :: 0 <= i < |others| ==> WellFormed(others[i])
    requires Delimited(x) && Delimited(y) && ItemsText(items) + x == ItemsText(others) + y
    ensures items == others && x == y
    decreases items, 0, 0
  {
    ItemsTextHead(items, x);
    ItemsTextHead(others, y);
    if items != [] {
      Unambiguous(items[0], others[0], ItemsTail(items[1..]) + x, ItemsTail(others[1..]) + y);
      TailsUnambiguous(items[1..], others[1..], x, y);
      assert items == [items[0]] + items[1..] && others == [others[0]] + others[1..];
    }
  }

  lemma {:induction false} TailsUnambiguous(items: seq<Json>, others: seq<Json>, x: string, y: string)
    requires forall i :: 0 <= i < |items| ==> WellFormed(items[i])
    requires forall i :: 0 <= i < |others| ==> WellFormed(others[i])
    requires Delimited(x) && Delimited(y) && ItemsTail(items) + x == ItemsTail(others) + y
    ensures items == others && x == y
    decreases items, 0, 1
  {
    assert (ItemsTail(items) + x)[0] == if items == [] then ']' else ',';
    assert (ItemsTail(others) + y)[0] == if others == [] then ']' else ',';
    if items == [] {
      PrefixCancels("]", x, y);
    } else {
      DropHead(',', ItemsText(items), ItemsText(others), x, y);
      ItemsUnambiguous(items, others, x, y);
    }
  }

  ghost predicate Selects(v: Json, keys: seq<string>) {
    v.Object? && forall i :: 0 <= i < |keys| ==> keys[i] in v.fields
  }

  lemma FieldsTextHead(v: Json, keys: seq<string>, x: string)
    requires Selects(v, keys)
    ensures FieldsText(v, keys) != ""
    ensures (FieldsText(v, keys) + x)[0] == if keys == [] then '}' else '"'
    ensures keys == [] ==> (FieldsText(v, keys) + x)[1..] == x
    ensures keys != [] ==>
      FieldsText(v, keys) + x == Quote(keys[0]) + (":" + (Text(v.fields[keys[0]]) + (FieldsTail(v, keys[1..]) + x)))
  {
    if keys != [] {
      var q, t, f := Quote(keys[0]), Text(v.fields[keys[0]]), FieldsTail(v, keys[1..]);
      Reassociate(q, ":" + (t + f), x);
      Reassociate(":", t + f, x);
      Reassociate(t, f, x);
    }
  }

  lemma FirstAndRestAgree(v: Json, w: Json, ks: seq<string>, ls: seq<string>)
    requires Selects(v, ks) && Selects(w, ls) && ks != [] && ls != []
    requires ks[0] == ls[0] && v.fields[ks[0]] == w.fields[ls[0]] && ks[1..] == ls[1..]
    requires forall i :: 0 <= i < |ks[1..]| ==> v.fields[ks[1..][i]] == w.fields[ks[1..][i]]
    ensures ks == ls && forall i :: 0 <= i < |ks| ==> v.fields[ks[i]] == w.fields[ks[i]]
  {
    assert ks == [ks[0]] + ks[1..] && ls == [ls[0]] + ls[1..];
    forall i | 0 <= i < |ks| ensures v.fields[ks[i]] == w.fields[ks[i]] {
      if i > 0 { assert ks[i] == ks[1..][i - 1]; }
    }
  }

  lemma FieldNamesUnambiguous(k: string, l: string, x: string, y: string)
    requires Quote(k) + (":" + x) == Quote(l) + (":" + y)
    ensures k == l && x == y
  {
    DropHead('"', Escaped(k), Escaped(l), ":" + x, ":" + y);
    EscapedUnambiguous(k, l, ":" + x, ":" + y);
    PrefixCancels(":", x, y);
  }

  lemma {:induction false} FieldsUnambiguous(v: Json, w: Json, ks: seq<string>, ls: seq<string>, x: string, y: string)
    requires Selects(v, ks) && Selects(w, ls) && WellFormed(v) && WellFormed(w)
    requires Delimited(x) && Delimited(y) && FieldsText(v, ks) + x == FieldsText(w, ls) + y
    ensures ks == ls && x == y && forall i :: 0 <= i < |ks| ==> v.fields[ks[i]] == w.fields[ks[i]]
    decreases v, 0, 2 * |ks|
  {
    FieldsTextHead(v, ks, x);
    FieldsTextHead(w, ls, y);
    if ks != [] {
      var k, l := ks[0], ls[0];
      var a, b := FieldsTail(v, ks[1..]) + x, FieldsTail(w, ls[1..]) + y;
      FieldNamesUnambiguous(k, l, Text(v.fields[k]) + a, Text(w.fields[l]) + b);
      Unambiguous(v.fields[k], w.fields[l], a, b);
      FieldTailsUnambiguous(v, w, ks[1..], ls[1..], x, y);
      FirstAndRestAgree(v, w, ks, ls);
    }
  }

  lemma {:induction false} FieldTailsUnambiguous(v: Json, w: Json, ks: seq<string>, ls: seq<string>, x: string, y: string)
    requires Selects(v, ks) && Selects(w, ls) && WellFormed(v) && WellFormed(w)
    requires Delimited(x) && Delimited(y) && FieldsTail(v, ks) + x == FieldsTail(w, ls) + y
    ensures ks == ls && x == y && forall i :: 0 <= i < |ks| ==> v.fields[ks[i]] == w.fields[ks[i]]
    decreases v, 0, 2 * |ks| + 1
  {
    assert (FieldsTail(v, ks) + x)[0] == if ks == [] then '}' else ',';
    assert (FieldsTail(w, ls) + y)[0] == if ls == [] then '}' else ',';
    if ks == [] {
      PrefixCancels("}", x, y);
    } else {
      DropHead(',', FieldsText(v, ks), FieldsText(w, ls), x, y);
      FieldsUnambiguous(v, w, ks, ls, x, y);
    }
  }

  /** Two values have the same canonical text exactly when they are the same JSON value, objects
      being finite maps. */
  lemma SameTextIffSameValue(v: Json, w: Json)
    requires WellFormed(v) && WellFormed(w)
    ensures Text(v) == Text(w) <==> v == w
  {
    assert Text(v) + "" == Text(v) && Text(w) + "" == Text(w);
    if Text(v) == Text(w) { Unambiguous(v, w, "", ""); }
  }

  // ---- What the text looks like ---------------------------------------------------------

  /** Nothing that would end a script, start a tag or break a line. */
  predicate Harmless(s: string) {
    forall i :: 0 <= i < |s| ==> s[i] >= ' ' && s[i] !in "<>&\U{2028}\U{2029}"
  }

  lemma HarmlessConcat(a: string, b: string)
    ensures Harmless(a + b) <==> Harmless(a) && Harmless(b)
  {
    if Harmless(a + b) {
      assert forall i :: 0 <= i < |a| ==> a[i] == (a + b)[i];
      assert forall i :: 0 <= i < |b| ==> b[i] == (a + b)[|a| + i];
    }
  }

  lemma HexIsHarmless(n: nat)
    requires n < 16
    ensures '0' <= Hex(n) <= '9' || 'a' <= Hex(n) <= 'f'
  {
  }

  lemma EscapeIsHarmless(c: char)
    ensures Harmless(Escape(c))
  {
    if |Escape(c)| == 6 && c < '\U{2028}' {
      HexIsHarmless(c as int / 16);
      HexIsHarmless(c as int % 16);
      assert Escape(c) == "\\u00" + [Hex(c as int / 16), Hex(c as int % 16)];
    }
  }

  lemma {:induction false} EscapedIsHarmless(s: string)
    ensures Harmless(Escaped(s))
  {
    if s != "" {
      EscapedIsHarmless(s[1..]);
      EscapeIsHarmless(s[0]);
      HarmlessConcat(Escape(s[0]), Escaped(s[1..]));
    }
  }

  lemma QuoteIsHarmless(s: string)
    ensures Harmless(Quote(s))
  {
    EscapedIsHarmless(s);
    HarmlessConcat("\"", Escaped(s));
  }

  lemma OpenedIsHarmless(c: string, s: string)
    requires (c == "[" || c == "{") && Harmless(s)
    ensures Harmless(c + s)
  {
    HarmlessConcat(c, s);
  }

  lemma LiteralIsHarmless(v: Json)
    requires WellFormed(v) && !v.String? && !v.Array? && !v.Object?
    ensures Harmless(Text(v))
  {
  }

  /** The signed text holds no control character, no angle bracket, ampersand or Unicode line end. */
  lemma {:induction false} TextIsHarmless(v: Json)
    requires WellFormed(v)
    ensures Harmless(Text(v))
    decreases v, 1, 0
  {
    match v {
      case String(s) => QuoteIsHarmless(s);
      case Array(items) =>
        ItemsAreHarmless(items);
        OpenedIsHarmless("[", ItemsText(items));
      case Object(fields) =>
        FieldsAreHarmless(v, SortedKeys(fields.Keys));
        OpenedIsHarmless("{", FieldsText(v, SortedKeys(fields.Keys)));
        ObjectText(fields, SortedKeys(fields.Keys));
      case _ => LiteralIsHarmless(v);
    }
  }

  lemma {:induction false} ItemsAreHarmless(items: seq<Json>)
    requires forall i :: 0 <= i < |items| ==> WellFormed(items[i])
    ensures Harmless(ItemsText(items)) && Harmless(ItemsTail(items))
    decreases items, 0, 0
  {
    if items != [] {
      TextIsHarmless(items[0]);
      ItemsAreHarmless(items[1..]);
      HarmlessConcat(Text(items[0]), ItemsTail(items[1..]));
      HarmlessConcat(",", ItemsText(items));
    }
  }

  lemma {:induction false} FieldsAreHarmless(v: Json, keys: seq<string>)
    requires Selects(v, keys) && WellFormed(v)
    ensures Harmless(FieldsText(v, keys)) && Harmless(FieldsTail(v, keys))
    decreases v, 0, 2 * |keys|
  {
    if keys != [] {
      var q, t, f := Quote(keys[0]), Text(v.fields[keys[0]]), FieldsTail(v, keys[1..]);
      QuoteIsHarmless(keys[0]);
      TextIsHarmless(v.fields[keys[0]]);
      FieldsAreHarmless(v, keys[1..]);
      HarmlessConcat(t, f);
      HarmlessConcat(":", t + f);
      HarmlessConcat(q, ":" + (t + f));
      HarmlessConcat(",", FieldsText(v, keys));
    }
  }

  /** The escapes of encoding/json. */
  lemma EscapesAreStandard()
    ensures Escape('"') == "\\\"" && Escape('\\') == "\\\\" && Escape('/') == "/"
    ensures Escape('\n') == "\\n" && Escape('\r') == "\\r" && Escape('\t') == "\\t" && Escape('\U{0008}') == "\\b" && Escape('\U{000C}') == "\\f"
    ensures Escape('\U{2028}') == "\\u2028" && Escape('\U{2029}') == "\\u2029"
  {
  }

  lemma HexEscapesAreStandard()
    ensures Escape('<') == "\\u003c" && Escape('>') == "\\u003e" && Escape('&') == "\\u0026" && Escape('\U{001F}') == "\\u001f"
  {
    assert Hex(3) == '3' && Hex(12) == 'c' && Hex(14) == 'e' && Hex(2) == '2' && Hex(6) == '6' && Hex(1) == '1' && Hex(15) == 'f';
  }

  /** The text of the simplest values (section 3 of RFC 8259), and of collections of none or one. */
  lemma SmallTexts(v: Json, k: string)
    ensures Text(Null) == "null" && Text(Bool(true)) == "true" && Text(Bool(false)) == "false"
    ensures Text(Array([])) == "[]" && Text(Object(map[])) == "{}"
    ensures Text(Array([v])) == "[" + (Text(v) + "]")
    ensures Text(Object(map[k := v])) == "{" + (Quote(k) + (":" + (Text(v) + "}")))
  {
    assert [v][1..] == [] && ItemsText([v]) == Text(v) + ItemsTail([]);
    var o := Object(map[k := v]);
    assert Lists([k], {k}) && o.fields.Keys == {k};
    SortedListingIsUnique([k], SortedKeys({k}), {k});
    assert [k][1..] == [] && FieldsText(o, [k]) == Quote(k) + (":" + (Text(v) + FieldsTail(o, [])));
    assert Lists([], {}) && Object(map[]).fields.Keys == {};
    SortedListingIsUnique([], SortedKeys({}), {});
  }

  /** All of a text but its last character. */
  function Front(s: string): string {
    if s == "" then "" else s[..|s| - 1]
  }

  lemma FrontOfConcat(a: string, b: string)
    requires b != ""
    ensures Front(a + b) == a + Front(b)
  {
  }

  /** One more item goes before the closing bracket, after a comma. */
  lemma ArrayGrows(items: seq<Json>, v: Json)
    requires items != []
    ensures Text(Array(items + [v])) == Front(Text(Array(items))) + ("," + (Text(v) + "]"))
  {
    ItemsGrow(items, v);
    FrontOfConcat("[", ItemsText(items));
    Reassociate("[", Front(ItemsText(items)), "," + (Text(v) + "]"));
  }

  lemma {:induction false} ItemsGrow(items: seq<Json>, v: Json)
    requires items != []
    ensures ItemsText(items) != "" && ItemsText(items + [v]) == Front(ItemsText(items)) + ("," + (Text(v) + "]"))
    decreases |items|
  {
    var more, rest, t, end := items + [v], items[1..], Text(items[0]), "," + (Text(v) + "]");
    assert more[0] == items[0] && more[1..] == rest + [v];
    FrontOfConcat(t, ItemsTail(rest));
    if rest == [] {
      assert [v][1..] == [] && ItemsText([v]) == Text(v) + "]";
    } else {
      ItemsGrow(rest, v);
      FrontOfConcat(",", ItemsText(rest));
      Reassociate(",", Front(ItemsText(rest)), end);
    }
    Reassociate(t, Front(ItemsTail(rest)), end);
  }

  lemma ObjectText(fields: map<string, Json>, keys: seq<string>)
    requires keys == SortedKeys(fields.Keys)
    ensures Text(Object(fields)) == "{" + FieldsText(Object(fields), keys)
  {
  }

  /** One more field whose key is beyond all others goes before the closing brace, after a comma. */
  lemma ObjectGrows(fields: map<string, Json>, k: string, v: Json)
    requires fields != map[] && forall l :: l in fields ==> Less(l, k)
    ensures Text(Object(fields[k := v])) == Front(Text(Object(fields))) + ("," + (Quote(k) + (":" + (Text(v) + "}"))))
  {
    LessIrreflexive(k);
    var keys, more := SortedKeys(fields.Keys), fields[k := v];
    assert more.Keys == fields.Keys + {k};
    LargestKeyIsLast(fields.Keys, k);
    ObjectText(fields, keys);
    ObjectText(more, keys + [k]);
    ListedFieldsGrow(fields, keys, k, v);
    OpeningCharacter("{", FieldsText(Object(fields), keys), "," + (Quote(k) + (":" + (Text(v) + "}"))));
  }

  lemma ListedFieldsGrow(fields: map<string, Json>, keys: seq<string>, k: string, v: Json)
    requires fields != map[] && k !in fields && Lists(keys, fields.Keys)
    ensures Selects(Object(fields), keys) && Selects(Object(fields[k := v]), keys + [k]) && FieldsText(Object(fields), keys) != ""
    ensures FieldsText(Object(fields[k := v]), keys + [k]) ==
            Front(FieldsText(Object(fields), keys)) + ("," + (Quote(k) + (":" + (Text(v) + "}"))))
  {
    SomeKeyIsListed(fields, keys);
    FieldsGrow(Object(fields), Object(fields[k := v]), keys, k);
  }

  lemma SomeKeyIsListed(fields: map<string, Json>, keys: seq<string>)
    requires fields != map[] && Lists(keys, fields.Keys)
    ensures keys != []
  {
    var k :| k in fields;
    assert k in keys;
  }

  lemma OpeningCharacter(c: string, text: string, more: string)
    requires text != ""
    ensures c + (Front(text) + more) == Front(c + text) + more
  {
    FrontOfConcat(c, text);
    Reassociate(c, Front(text), more);
  }

  lemma {:induction false} FieldsGrow(o: Json, more: Json, keys: seq<string>, k: string)
    requires Selects(o, keys) && keys != [] && Selects(more, keys) && k in more.fields && Selects(more, keys + [k])
    requires forall i :: 0 <= i < |keys| ==> more.fields[keys[i]] == o.fields[keys[i]]
    ensures FieldsText(o, keys) != ""
    ensures FieldsText(more, keys + [k]) == Front(FieldsText(o, keys)) + ("," + (Quote(k) + (":" + (Text(more.fields[k]) + "}"))))
    decreases |keys|
  {
    var all, rest, end := keys + [k], keys[1..], "," + (Quote(k) + (":" + (Text(more.fields[k]) + "}")));
    var q, t := Quote(keys[0]), Text(o.fields[keys[0]]);
    assert all[0] == keys[0] && all[1..] == rest + [k];
    FrontOfConcat(t, FieldsTail(o, rest));
    FrontOfConcat(":", t + FieldsTail(o, rest));
    FrontOfConcat(q, ":" + (t + FieldsTail(o, rest)));
    if rest == [] {
      assert [k][1..] == [] && FieldsText(more, [k]) == Quote(k) + (":" + (Text(more.fields[k]) + "}"));
    } else {
      FieldsGrow(o, more, rest, k);
      FrontOfConcat(",", FieldsText(o, rest));
      Reassociate(",", Front(FieldsText(o, rest)), end);
    }
    Reassociate(t, Front(FieldsTail(o, rest)), end);
    Reassociate(":", t + Front(FieldsTail(o, rest)), end);
    Reassociate(q, ":" + (t + Front(FieldsTail(o, rest))), end);
  }

  // ---- The writer -----------------------------------------------------------------------

  /** json.Marshal of a string. */
  method MarshalString(s: string) returns (text: string)
    ensures text == Quote(s)
  {
    text := "\"";
    for i := 0 to |s|
      invariant text + Escaped(s[i..]) == Quote(s)
    {
      assert s[i..][1..] == s[i + 1..];
      Reassociate(text, Escape(s[i]), Escaped(s[i + 1..]));
      text := text + Escape(s[i]);
    }
    text := text + "\"";
  }

  class Buffer {
    var data: string

    constructor ()
      ensures data == ""
    {
      data := "";
    }

    method Write(text: string)
      modifies this
      ensures data == old(data) + text
    {
      data := data + text;
    }
  }

  /** The comma before every item or field but the first. */
  function Separator(i: nat): string {
    if i > 0 then "," else ""
  }

  lemma Reassociated(a: string, b: string, c: string, d: string, e: string)
    ensures (((a + b) + c) + d) + e == a + (b + (c + (d + e)))
  {
    Reassociate((a + b) + c, d, e);
    Reassociate(a + b, c, d + e);
    Reassociate(a, b, c + (d + e));
  }

  /** What is still to be written once `i` items have been. */
  ghost function ItemsFrom(items: seq<Json>, i: nat): string
    requires i <= |items|
  {
    if i == 0 then ItemsText(items) else ItemsTail(items[i..])
  }

  lemma ItemsStep(items: seq<Json>, i: nat)
    requires i < |items|
    ensures ItemsFrom(items, i) == (Separator(i) + Text(items[i])) + ItemsFrom(items, i + 1)
  {
    var rest := items[i..];
    assert rest[0] == items[i] && rest[1..] == items[i + 1..];
    assert "" + Text(items[i]) == Text(items[i]);
    if i == 0 {
      assert rest == items;
    } else {
      assert ItemsText(rest) == Text(items[i]) + ItemsTail(rest[1..]);
      Reassociate(",", Text(items[i]), ItemsTail(rest[1..]));
    }
  }

  lemma ItemsEnd(items: seq<Json>)
    ensures ItemsFrom(items, |items|) == "]"
  {
  }

  /** What is still to be written once the fields with the first `i` keys have been. */
  ghost function FieldsFrom(v: Json, keys: seq<string>, i: nat): string
    requires Selects(v, keys) && i <= |keys|
  {
    if i == 0 then FieldsText(v, keys) else FieldsTail(v, keys[i..])
  }

  lemma FieldsEnd(v: Json, keys: seq<string>)
    requires Selects(v, keys)
    ensures FieldsFrom(v, keys, |keys|) == "}"
  {
  }

  ghost function FieldText(key: string, value: Json): string {
    Quote(key) + (":" + Text(value))
  }

  lemma FieldsStep(v: Json, keys: seq<string>, i: nat)
    requires Selects(v, keys) && i < |keys|
    ensures FieldsFrom(v, keys, i) ==
            (Separator(i) + FieldText(keys[i], v.fields[keys[i]])) + FieldsFrom(v, keys, i + 1)
  {
    var rest := keys[i..];
    var q, t, f := Quote(keys[i]), Text(v.fields[keys[i]]), FieldsTail(v, keys[i + 1..]);
    assert rest[0] == keys[i] && rest[1..] == keys[i + 1..];
    Reassociate(q, ":" + t, f);
    Reassociate(":", t, f);
    assert "" + (q + (":" + t)) == q + (":" + t);
    if i == 0 {
      assert rest == keys;
    } else {
      assert FieldsText(v, rest) == q + (":" + (t + f));
      Reassociate(",", q + (":" + t), f);
    }
  }

  method WriteField(buf: Buffer, i: nat, key: string, value: Json)
    modifies buf
    ensures buf.data == old(buf.data) + (Separator(i) + FieldText(key, value))
    decreases value, 1, 0
  {
    if i > 0 { buf.Write(","); }
    var quoted := MarshalString(key);
    buf.Write(quoted);
    buf.Write(":");
    WriteCanonical(buf, value);
    Reassociated(old(buf.data), Separator(i), quoted, ":", Text(value));
    assert i == 0 ==> old(buf.data) + "" == old(buf.data);
  }

  method WriteItem(buf: Buffer, i: nat, item: Json)
    modifies buf
    ensures buf.data == old(buf.data) + (Separator(i) + Text(item))
    decreases item, 1, 0
  {
    if i > 0 { buf.Write(","); }
    WriteCanonical(buf, item);
    Reassociate(old(buf.data), Separator(i), Text(item));
    assert i == 0 ==> old(buf.data) + "" == old(buf.data);
  }

  method WriteObject(buf: Buffer, v: Json)
    requires v.Object?
    modifies buf
    ensures buf.data == old(buf.data) + Text(v)
    decreases v, 0, 0
  {
    var keys := CollectKeys(v.fields);
    keys := SortStrings(keys, v.fields.Keys);
    ghost var text := FieldsText(v, keys);
    buf.Write("{");
    ghost var start := buf.data;
    Reassociate(old(buf.data), "{", text);
    for i := 0 to |keys|
      invariant buf.data + FieldsFrom(v, keys, i) == start + text
    {
      FieldsStep(v, keys, i);
      Reassociate(buf.data, Separator(i) + FieldText(keys[i], v.fields[keys[i]]), FieldsFrom(v, keys, i + 1));
      WriteField(buf, i, keys[i], v.fields[keys[i]]);
    }
    FieldsEnd(v, keys);
    buf.Write("}");
  }

  method WriteArray(buf: Buffer, v: Json)
    requires v.Array?
    modifies buf
    ensures buf.data == old(buf.data) + Text(v)
    decreases v, 0, 0
  {
    var items := v.items;
    ghost var text := ItemsText(items);
    buf.Write("[");
    ghost var start := buf.data;
    Reassociate(old(buf.data), "[", text);
    for i := 0 to |items|
      invariant buf.data + ItemsFrom(items, i) == start + text
    {
      ghost var before, rest := buf.data, ItemsFrom(items, i + 1);
      ItemsStep(items, i);
      WriteItem(buf, i, items[i]);
      Reassociate(before, Separator(i) + Text(items[i]), rest);
    }
    ItemsEnd(items);
    buf.Write("]");
  }

  /** Writes the canonical text, whatever order the maps are ranged over in. */
  method WriteCanonical(buf: Buffer, v: Json)
    modifies buf
    ensures buf.data == old(buf.data) + Text(v)
    decreases v, 0, 1
  {
    match v {
      case Object(fields) => WriteObject(buf, v);
      case Array(items) => WriteArray(buf, v);
      case String(s) =>
        var quoted := MarshalString(s);
        buf.Write(quoted);
      case Number(literal) => buf.Write(literal);
      case Bool(b) => buf.Write(if b then "true" else "false");
      case Null => buf.Write("null");
    }
  }

  /** The string that is signed. */
  method CanonicalJSON(v: Json) returns (text: string)
    ensures text == Text(v)
  {
    var buf := new Buffer();
    WriteCanonical(buf, v);
    text := buf.data;
  }
}
