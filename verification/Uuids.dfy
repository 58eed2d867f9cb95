/** The uuid columns of PostgreSQL, as far as their text matters: the column reads several spellings
    of a uuid and writes one (section 8.12 of the PostgreSQL manual).

    A uuid here has 32 hexadecimal digits or more, so that there is always a fresh one. */
module Uuids {
  import opened Options
  import opened Text

  datatype Id = Uuid(digits: string)

  predicate IsLowerHex(c: char) {
    '0' <= c <= '9' || 'a' <= c <= 'f'
  }

  predicate IsHex(c: char) {
    IsLowerHex(c) || 'A' <= c <= 'F'
  }

  predicate AllLowerHex(s: string) {
    forall i :: 0 <= i < |s| ==> IsLowerHex(s[i])
  }

  predicate Canonical(id: Id) {
    |id.digits| >= 32 && AllLowerHex(id.digits)
  }

  function LowerHex(c: char): char
    requires IsHex(c)
  {
    if 'A' <= c <= 'F' then (c as int + 32) as char else c
  }

  function UpperHex(c: char): char {
    if 'a' <= c <= 'f' then (c as int - 32) as char else c
  }

  function Upper(s: string): string {
    seq(|s|, i requires 0 <= i < |s| => UpperHex(s[i]))
  }

  /** id::text. */
  function TextOf(id: Id): string {
    var d := id.digits;
    if |d| < 20 then d
    else d[..8] + ("-" + (d[8..12] + ("-" + (d[12..16] + ("-" + (d[16..20] + ("-" + d[20..])))))))
  }

  function Cons(c: char, rest: Option<string>): Option<string> {
    if rest.Some? then Some([c] + rest.value) else None
  }

  /** Digits in either case, with a hyphen allowed after every fourth one read. */
  function Digits(s: string, read: nat): Option<string> {
    if s == "" then (if read >= 32 then Some("") else None)
    else if s[0] == '-' && read > 0 && read % 4 == 0 && |s| > 1 && IsHex(s[1]) then Cons(LowerHex(s[1]), Digits(s[2..], read + 1))
    else if IsHex(s[0]) then Cons(LowerHex(s[0]), Digits(s[1..], read + 1))
    else None
  }

  function Inside(text: string): Option<string> {
    if text == "" || text[0] != '{' then Some(text)
    else if |text| >= 2 && text[|text| - 1] == '}' then Some(text[1..|text| - 1])
    else None
  }

  /** What text::uuid is, or None where the cast fails. */
  function Stored(text: string): Option<Id> {
    if Inside(text).None? then None
    else
      var digits := Digits(Inside(text).value, 0);
      if digits.Some? then Some(Uuid(digits.value)) else None
  }

  lemma {:induction false} DigitsAreCanonical(s: string, read: nat)
    ensures Digits(s, read).Some? ==> AllLowerHex(Digits(s, read).value) && read + |Digits(s, read).value| >= 32
    decreases |s|
  {
    if s == "" {
    } else if s[0] == '-' && read > 0 && read % 4 == 0 && |s| > 1 && IsHex(s[1]) {
      DigitsAreCanonical(s[2..], read + 1);
    } else if IsHex(s[0]) {
      DigitsAreCanonical(s[1..], read + 1);
    }
  }

  lemma StoredIsCanonical(text: string)
    ensures Stored(text).Some? ==> Canonical(Stored(text).value)
  {
    if Inside(text).Some? { DigitsAreCanonical(Inside(text).value, 0); }
  }

  function Join(a: string, rest: Option<string>): Option<string> {
    if rest.Some? then Some(a + rest.value) else None
  }

  lemma {:induction false} ReadGroup(group: string, rest: string, read: nat)
    requires AllLowerHex(group)
    ensures Digits(group + rest, read) == Join(group, Digits(rest, read + |group|))
    decreases |group|
  {
    if group == "" {
      assert group + rest == rest;
      if Digits(rest, read).Some? { assert group + Digits(rest, read).value == Digits(rest, read).value; }
    } else {
      assert (group + rest)[0] == group[0] && (group + rest)[1..] == group[1..] + rest;
      ReadGroup(group[1..], rest, read + 1);
      var d := Digits(rest, read + |group|);
      if d.Some? { assert [group[0]] + (group[1..] + d.value) == group + d.value; }
    }
  }

  /** A hyphen, and the group after it. */
  lemma ReadHyphen(group: string, rest: string, read: nat)
    requires AllLowerHex(group) && group != "" && read > 0 && read % 4 == 0
    ensures Digits("-" + (group + rest), read) == Digits(group + rest, read)
  {
    var s := "-" + (group + rest);
    assert s[0] == '-' && s[1] == group[0] && s[1..] == group + rest && s[2..] == (group + rest)[1..];
  }

  lemma ReadNextGroup(group: string, rest: string, read: nat)
    requires AllLowerHex(group) && group != "" && read > 0 && read % 4 == 0
    ensures Digits("-" + (group + rest), read) == Join(group, Digits(rest, read + |group|))
  {
    ReadHyphen(group, rest, read);
    ReadGroup(group, rest, read);
  }

  lemma ReadLastGroup(group: string, read: nat)
    requires AllLowerHex(group) && read + |group| >= 32
    ensures Digits(group, read) == Some(group)
  {
    ReadGroup(group, "", read);
    assert group + "" == group;
  }

  lemma Groups(d: string)
    requires |d| >= 20
    ensures d[..8] + (d[8..12] + (d[12..16] + (d[16..20] + d[20..]))) == d
  {
    assert d[16..20] + d[20..] == d[16..];
    assert d[12..16] + d[16..] == d[12..];
    assert d[8..12] + d[12..] == d[8..];
  }

  lemma ReadText(id: Id)
    requires Canonical(id)
    ensures Digits(TextOf(id), 0) == Some(id.digits)
  {
    var d := id.digits;
    ReadLastGroup(d[20..], 20);
    var last := d[20..];
    assert "-" + (last + "") == "-" + last && last + "" == last;
    ReadHyphen(last, "", 20);
    var e := "-" + last;
    ReadNextGroup(d[16..20], e, 16);
    var f := "-" + (d[16..20] + e);
    ReadNextGroup(d[12..16], f, 12);
    var g := "-" + (d[12..16] + f);
    ReadNextGroup(d[8..12], g, 8);
    ReadGroup(d[..8], "-" + (d[8..12] + g), 0);
    Groups(d);
  }

  /** A uuid's own text is read back as that uuid. */
  lemma TextIsStored(id: Id)
    requires Canonical(id)
    ensures Stored(TextOf(id)) == Some(id)
  {
    ReadText(id);
    assert TextOf(id)[0] == id.digits[0];
  }

  lemma TextDetermines(a: Id, b: Id)
    requires Canonical(a) && Canonical(b) && TextOf(a) == TextOf(b)
    ensures a == b
  {
    TextIsStored(a);
    TextIsStored(b);
  }

  /** Nothing to trim at either end, and no colon inside. */
  predicate Plain(s: string) {
    Trimmed(s) && ':' !in s
  }

  lemma TextIsPlain(id: Id)
    requires Canonical(id)
    ensures Plain(TextOf(id)) && TextOf(id) != ""
  {
    var s := TextOf(id);
    TextEnds(id);
    HexIsNoSpace(s[0]);
    HexIsNoSpace(s[|s| - 1]);
    TextChars(id, ':');
  }

  // ---- Other spellings ------------------------------------------------------------------

  lemma {:induction false} CaseIgnored(s: string, read: nat)
    ensures Digits(Upper(s), read) == Digits(s, read)
    decreases |s|
  {
    if s != "" {
      assert Upper(s)[1..] == Upper(s[1..]);
      CaseIgnored(s[1..], read + 1);
      if |s| > 1 {
        assert Upper(s)[2..] == Upper(s[2..]);
        CaseIgnored(s[2..], read + 1);
      }
    }
  }

  lemma TextChars(id: Id, c: char)
    requires Canonical(id)
    ensures c in TextOf(id) <==> c in id.digits || c == '-'
  {
    var d := id.digits;
    Groups(d);
    assert c in d <==> c in d[..8] || c in d[8..12] || c in d[12..16] || c in d[16..20] || c in d[20..] by {
      assert forall a: string, b: string :: c in a + b <==> c in a || c in b;
    }
  }

  predicate HasLetter(id: Id) {
    exists i :: 0 <= i < |id.digits| && id.digits[i] > '9'
  }

  /** Upper case is read as the same uuid; it is the uuid's own text only where there is no letter. */
  lemma UpperCaseIsStored(id: Id)
    requires Canonical(id)
    ensures Stored(Upper(TextOf(id))) == Some(id) && TrimSpace(Upper(TextOf(id))) == Upper(TextOf(id))
    ensures Upper(TextOf(id)) == TextOf(id) <==> !HasLetter(id)
  {
    var s := TextOf(id);
    ReadText(id);
    CaseIgnored(s, 0);
    TextIsPlain(id);
    UpperStaysPlain(s, id);
    UpperText(id);
  }

  lemma UpperStaysPlain(s: string, id: Id)
    requires Canonical(id) && s == TextOf(id)
    ensures Upper(s) != "" && Upper(s)[0] != '{' && TrimSpace(Upper(s)) == Upper(s)
  {
    TextEnds(id);
    HexIsNoSpace(s[0]);
    HexIsNoSpace(s[|s| - 1]);
    TrimmedStays(Upper(s));
  }

  lemma TextEnds(id: Id)
    requires Canonical(id)
    ensures var s := TextOf(id); s != "" && IsLowerHex(s[0]) && IsLowerHex(s[|s| - 1])
  {
    var s := TextOf(id);
    assert s[0] == id.digits[0] && s[|s| - 1] == id.digits[|id.digits| - 1];
  }

  lemma HexIsNoSpace(c: char)
    requires IsLowerHex(c)
    ensures !IsSpace(c) && !IsSpace(UpperHex(c)) && UpperHex(c) != '{'
  {
  }

  lemma UpperText(id: Id)
    requires Canonical(id)
    ensures Upper(TextOf(id)) == TextOf(id) <==> !HasLetter(id)
  {
    var s := TextOf(id);
    if HasLetter(id) {
      var i :| 0 <= i < |id.digits| && id.digits[i] > '9';
      TextChars(id, id.digits[i]);
      var j :| 0 <= j < |s| && s[j] == id.digits[i];
      assert Upper(s)[j] == UpperHex(s[j]) != s[j];
    } else {
      forall j | 0 <= j < |s| ensures UpperHex(s[j]) == s[j] {
        TextChars(id, s[j]);
      }
    }
  }

  /** Braces are read away, and are never part of a uuid's own text. */
  lemma BracedIsStored(id: Id)
    requires Canonical(id)
    ensures var braced := "{" + TextOf(id) + "}"; Stored(braced) == Some(id) && braced != TextOf(id) && TrimSpace(braced) == braced
  {
    var s := TextOf(id);
    ReadText(id);
    var braced := "{" + s + "}";
    assert |braced| == |s| + 2 && braced[1..|braced| - 1] == s;
    assert braced[0] == '{' && braced[|braced| - 1] == '}';
    TrimmedStays(braced);
  }
}
