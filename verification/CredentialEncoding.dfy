/** How a new API credential reaches the administrator: encodeCredential in
    controllers/apps_management_controller.go marks its base64 text with stars, and views/app.js takes
    the stars out and calls atob. */
module CredentialEncoding {
  import opened Options
  import opened Text

  newtype byte = x: int | 0 <= x < 256

  // ---- base64, section 4 of RFC 4648 ----------------------------------------------------

  type sextet = x: int | 0 <= x < 64

  function Char(n: sextet): char {
    if n < 26 then ('A' as int + n) as char
    else if n < 52 then ('a' as int + n - 26) as char
    else if n < 62 then ('0' as int + n - 52) as char
    else if n == 62 then '+' else '/'
  }

  predicate InAlphabet(c: char) {
    'A' <= c <= 'Z' || 'a' <= c <= 'z' || '0' <= c <= '9' || c == '+' || c == '/'
  }

  function Sextet(c: char): sextet
    requires InAlphabet(c)
  {
    if c <= '+' then 62 else if c <= '/' then 63
    else if c <= '9' then c as int - '0' as int + 52
    else if c <= 'Z' then c as int - 'A' as int
    else c as int - 'a' as int + 26
  }

  lemma CharRoundTrip(n: sextet)
    ensures InAlphabet(Char(n)) && Sextet(Char(n)) == n
  {
  }

  /** Table 1 of RFC 4648: three runs of characters and two more. */
  lemma CharsAreInOrder(n: sextet)
    ensures Char(0) == 'A' && Char(25) == 'Z' && Char(26) == 'a' && Char(51) == 'z' && Char(52) == '0' && Char(61) == '9'
    ensures Char(62) == '+' && Char(63) == '/'
    ensures n < 61 && n != 25 && n != 51 ==> Char(n + 1) as int == Char(n) as int + 1
  {
  }

  /** Three bytes as four characters. */
  function Quad(x: byte, y: byte, z: byte): string {
    var a, b, c := x as int, y as int, z as int;
    [Char(a / 4), Char(a % 4 * 16 + b / 16), Char(b % 16 * 4 + c / 64), Char(c % 64)]
  }

  /** The text before padding. */
  function Body(b: seq<byte>): string {
    if |b| == 0 then ""
    else if |b| == 1 then Quad(b[0], 0, 0)[..2]
    else if |b| == 2 then Quad(b[0], b[1], 0)[..3]
    else Quad(b[0], b[1], b[2]) + Body(b[3..])
  }

  function Padding(n: nat): string {
    if n % 3 == 1 then "==" else if n % 3 == 2 then "=" else ""
  }

  /** StdEncoding.EncodeToString. */
  function Encode(b: seq<byte>): string {
    Body(b) + Padding(|b|)
  }

  /** The test vectors of section 10 of RFC 4648: f, fo, foo, foob, fooba, foobar. */
  lemma TestVectors()
    ensures Encode([]) == "" && Encode([102]) == "Zg==" && Encode([102, 111]) == "Zm8=" && Encode([102, 111, 111]) == "Zm9v"
    ensures Encode([102, 111, 111, 98]) == "Zm9vYg==" && Encode([102, 111, 111, 98, 97]) == "Zm9vYmE="
    ensures Encode([102, 111, 111, 98, 97, 114]) == "Zm9vYmFy"
  {
    var b: seq<byte> := [102, 111, 111, 98, 97, 114];
    assert [102, 111, 111, 98][3..] == [b[3]] && [102, 111, 111, 98, 97][3..] == [b[3], b[4]] && b[3..] == [b[3], b[4], b[5]];
  }

  predicate AllInAlphabet(s: string) {
    forall i :: 0 <= i < |s| ==> InAlphabet(s[i])
  }

  function Triple(s: string): seq<byte>
    requires |s| == 4 && AllInAlphabet(s)
  {
    var p, q, r, t := Sextet(s[0]), Sextet(s[1]), Sextet(s[2]), Sextet(s[3]);
    [(p * 4 + q / 16) as byte, (q % 16 * 16 + r / 4) as byte, (r % 4 * 64 + t) as byte]
  }

  /** The bytes of unpadded text; the spare bits of a short last group are dropped. */
  function Bytes(s: string): seq<byte>
    requires AllInAlphabet(s)
  {
    if |s| < 2 then []
    else if |s| == 2 then Triple(s + "AA")[..1]
    else if |s| == 3 then Triple(s + "A")[..2]
    else Triple(s[..4]) + Bytes(s[4..])
  }

  predicate IsWhitespace(c: char) {
    c in "\t\n\r \U{000C}"
  }

  function Without(s: string, drop: char -> bool): string {
    if s == "" then "" else if drop(s[0]) then Without(s[1..], drop) else [s[0]] + Without(s[1..], drop)
  }

  /** One or two padding characters at the end of whole groups are taken off. */
  function Unpadded(s: string): string {
    if |s| % 4 != 0 || s == "" || s[|s| - 1] != '=' then s
    else if s[|s| - 2] != '=' then s[..|s| - 1] else s[..|s| - 2]
  }

  /** atob, which throws on anything else. */
  function Atob(s: string): Option<seq<byte>> {
    var t := Unpadded(Without(s, IsWhitespace));
    if |t| % 4 == 1 || !AllInAlphabet(t) then None else Some(Bytes(t))
  }

  lemma GroupRoundTrip(x: int, y: int, z: int)
    requires 0 <= x < 256 && 0 <= y < 256 && 0 <= z < 256
    ensures var p, q, r, s := x / 4, x % 4 * 16 + y / 16, y % 16 * 4 + z / 64, z % 64;
      p < 64 && q < 64 && r < 64 && p * 4 + q / 16 == x && q % 16 * 16 + r / 4 == y && r % 4 * 64 + s == z
  {
  }

  lemma QuadRoundTrip(x: byte, y: byte, z: byte)
    ensures AllInAlphabet(Quad(x, y, z)) && Triple(Quad(x, y, z)) == [x, y, z]
  {
    var a, b, c := x as int, y as int, z as int;
    GroupRoundTrip(a, b, c);
    CharRoundTrip(a / 4);
    CharRoundTrip(a % 4 * 16 + b / 16);
    CharRoundTrip(b % 16 * 4 + c / 64);
    CharRoundTrip(c % 64);
  }

  /** A short last group is a whole one whose missing bytes are zero. */
  lemma ShortQuad(x: byte, y: byte)
    ensures Quad(x, y, 0) == Quad(x, y, 0)[..3] + "A"
    ensures Quad(x, 0, 0) == Quad(x, 0, 0)[..2] + "AA"
  {
    assert Quad(x, y, 0)[3] == Char(0) == 'A' && Quad(x, 0, 0)[2] == Char(0) && Quad(x, 0, 0)[3] == Char(0);
  }

  /** Decoding the unpadded text gives every byte string back. */
  lemma {:induction false} BodyRoundTrip(b: seq<byte>)
    ensures AllInAlphabet(Body(b)) && Bytes(Body(b)) == b
    decreases |b|
  {
    if |b| == 0 {
    } else if |b| == 1 {
      QuadRoundTrip(b[0], 0, 0);
      ShortQuad(b[0], 0);
    } else if |b| == 2 {
      QuadRoundTrip(b[0], b[1], 0);
      ShortQuad(b[0], b[1]);
    } else {
      var quad, rest := Quad(b[0], b[1], b[2]), Body(b[3..]);
      QuadRoundTrip(b[0], b[1], b[2]);
      BodyRoundTrip(b[3..]);
      assert (quad + rest)[..4] == quad && (quad + rest)[4..] == rest;
    }
  }

  // ---- The way through the browser ------------------------------------------------------

  lemma {:induction false} NothingToDrop(s: string, drop: char -> bool)
    requires forall i :: 0 <= i < |s| ==> !drop(s[i])
    ensures Without(s, drop) == s
  {
    if s != "" { NothingToDrop(s[1..], drop); }
  }

  lemma {:induction false} WithoutConcat(s: string, t: string, drop: char -> bool)
    ensures Without(s + t, drop) == Without(s, drop) + Without(t, drop)
  {
    if s == "" {
      assert s + t == t;
    } else {
      WithoutConcat(s[1..], t, drop);
      assert (s + t)[0] == s[0] && (s + t)[1..] == s[1..] + t;
      if !drop(s[0]) {
        assert [s[0]] + (Without(s[1..], drop) + Without(t, drop)) == ([s[0]] + Without(s[1..], drop)) + Without(t, drop);
      }
    }
  }

  /** Padding fills the last group. */
  lemma {:induction false} PaddingFillsGroup(b: seq<byte>) returns (groups: nat)
    ensures |Body(b)| + |Padding(|b|)| == 4 * groups
    decreases |b|
  {
    if |b| >= 3 {
      groups := PaddingFillsGroup(b[3..]);
      groups := groups + 1;
      assert Padding(|b| - 3) == Padding(|b|);
    } else {
      groups := if |b| == 0 then 0 else 1;
    }
  }

  lemma PaddingComesOff(t: string, n: nat, groups: nat)
    requires AllInAlphabet(t) && |t| + |Padding(n)| == 4 * groups
    ensures Unpadded(t + Padding(n)) == t && |t| % 4 != 1
  {
    var s := t + Padding(n);
    assert |s| % 4 == 0;
    assert |Padding(n)| <= 2;
    if |Padding(n)| == 2 {
      assert s[..|s| - 2] == t;
    } else if |Padding(n)| == 1 {
      assert s[..|s| - 1] == t;
    } else {
      assert s == t;
    }
  }

  predicate Plain(c: char) {
    InAlphabet(c) || c == '='
  }

  lemma EncodeIsPlain(b: seq<byte>)
    ensures forall i :: 0 <= i < |Encode(b)| ==> Plain(Encode(b)[i])
  {
    BodyRoundTrip(b);
  }

  lemma AtobOf(s: string, t: string)
    requires Without(s, IsWhitespace) == s && Unpadded(s) == t && AllInAlphabet(t) && |t| % 4 != 1
    ensures Atob(s) == Some(Bytes(t))
  {
  }

  lemma AtobInvertsEncode(b: seq<byte>)
    ensures Atob(Encode(b)) == Some(b)
  {
    BodyRoundTrip(b);
    var groups := PaddingFillsGroup(b);
    PaddingComesOff(Body(b), |b|, groups);
    EncodeIsPlain(b);
    NothingToDrop(Encode(b), IsWhitespace);
    AtobOf(Encode(b), Body(b));
  }

  function IsStar(c: char): bool {
    c == '*'
  }

  /** What the page does to the answer before decoding it. */
  function WithoutStars(s: string): string {
    Without(s, IsStar)
  }

  /** The stars around and between the quarters of a text. */
  function Starred(b64: string): string {
    if |b64| <= 8 then "**" + b64 + "**"
    else
      var q := |b64| / 4;
      "**" + b64[..q] + "**" + b64[q..q * 2] + "**" + b64[q * 2..q * 3] + "**" + b64[q * 3..] + "**"
  }

  lemma Section(whole: string, before: string, piece: string)
    requires before + piece <= whole
    ensures whole[|before|..|before| + |piece|] == piece && before <= whole
  {
    assert (before + piece)[|before|..] == piece;
  }

  /** Where the stars are in a text of more than eight characters: two at either end, and two after each
      of its first three quarters. */
  lemma StarsArePlaced(b64: string)
    requires |b64| > 8
    ensures var s, q := Starred(b64), |b64| / 4;
      && |s| == |b64| + 10
      && s[..2] == "**" && s[q + 2..q + 4] == "**" && s[2 * q + 4..2 * q + 6] == "**" && s[3 * q + 6..3 * q + 8] == "**"
      && s[|b64| + 8..] == "**" && s[2..q + 2] == b64[..q] && s[q + 4..2 * q + 4] == b64[q..q * 2]
      && s[2 * q + 6..3 * q + 6] == b64[q * 2..q * 3] && s[3 * q + 8..|b64| + 8] == b64[q * 3..]
  {
    var s, q := Starred(b64), |b64| / 4;
    var a, b, c, d := b64[..q], b64[q..q * 2], b64[q * 2..q * 3], b64[q * 3..];
    var s1 := "**" + a;
    var s2 := s1 + "**" + b;
    var s3 := s2 + "**" + c;
    var s4 := s3 + "**" + d;
    assert s == s4 + "**";
    Section(s, s4, "**");
    Section(s, s3, "**");
    Section(s, s2, "**");
    Section(s, s1, "**");
    Section(s, "", "**");
    QuartersAreKept(b64);
  }

  lemma QuartersAreKept(b64: string)
    requires |b64| > 8
    ensures var s, q := Starred(b64), |b64| / 4;
      && |s| == |b64| + 10 && s[2..q + 2] == b64[..q] && s[q + 4..2 * q + 4] == b64[q..q * 2]
      && s[2 * q + 6..3 * q + 6] == b64[q * 2..q * 3] && s[3 * q + 8..|b64| + 8] == b64[q * 3..]
  {
    var s, q := Starred(b64), |b64| / 4;
    var a, b, c, d := b64[..q], b64[q..q * 2], b64[q * 2..q * 3], b64[q * 3..];
    var s1 := "**" + a + "**";
    var s2 := s1 + b + "**";
    var s3 := s2 + c + "**";
    assert s == s3 + d + "**";
    Section(s, s3, d);
    Section(s, s2, c);
    Section(s, s1, b);
    Section(s, "**", a);
  }

  lemma ShortTextIsStarred(b64: string)
    requires |b64| <= 8
    ensures |Starred(b64)| == |b64| + 4 && Starred(b64)[..2] == "**" && Starred(b64)[2..|b64| + 2] == b64
            && Starred(b64)[|b64| + 2..] == "**"
  {
  }

  lemma StarsVanish(s: string)
    ensures WithoutStars("**" + s) == WithoutStars(s) == WithoutStars(s + "**")
  {
    WithoutConcat("**", s, IsStar);
    WithoutConcat(s, "**", IsStar);
    assert WithoutStars("**") == "";
  }

  lemma StarsBetween(s: string, t: string)
    requires forall i :: 0 <= i < |t| ==> !IsStar(t[i])
    ensures WithoutStars((s + "**") + t) == WithoutStars(s) + t
  {
    StarsVanish(s);
    WithoutConcat(s + "**", t, IsStar);
    NothingToDrop(t, IsStar);
  }

  lemma Quarters(s: string, q: nat)
    requires 3 * q <= |s|
    ensures ((s[..q] + s[q..q * 2]) + s[q * 2..q * 3]) + s[q * 3..] == s
  {
  }

  /** Taking the stars out leaves the text. */
  lemma StarsComeOut(b64: string)
    requires forall i :: 0 <= i < |b64| ==> !IsStar(b64[i])
    ensures WithoutStars(Starred(b64)) == b64
  {
    if |b64| <= 8 {
      NothingToDrop(b64, IsStar);
      StarsVanish(b64);
      StarsVanish("**" + b64);
    } else {
      var q := |b64| / 4;
      Quarters(b64, q);
      var s := "**" + b64[..q];
      NothingToDrop(b64[..q], IsStar);
      StarsVanish(b64[..q]);
      StarsBetween(s, b64[q..q * 2]);
      s := s + "**" + b64[q..q * 2];
      StarsBetween(s, b64[q * 2..q * 3]);
      s := s + "**" + b64[q * 2..q * 3];
      StarsBetween(s, b64[q * 3..]);
      s := s + "**" + b64[q * 3..];
      StarsVanish(s);
    }
  }

  // ---- Credentials ----------------------------------------------------------------------

  /** UTF-8, section 3 of RFC 3629. */
  function Utf8(c: char): seq<byte> {
    var n := c as int;
    if n < 0x80 then [n as byte]
    else if n < 0x800 then [(0xC0 + n / 64) as byte, (0x80 + n % 64) as byte]
    else if n < 0x10000 then [(0xE0 + n / 4096) as byte, (0x80 + n / 64 % 64) as byte, (0x80 + n % 64) as byte]
    else [(0xF0 + n / 262144) as byte, (0x80 + n / 4096 % 64) as byte, (0x80 + n / 64 % 64) as byte, (0x80 + n % 64) as byte]
  }

  function ToBytes(s: string): seq<byte> {
    if s == "" then [] else Utf8(s[0]) + ToBytes(s[1..])
  }

  function EncodeCredential(cred: string): string {
    Starred(Encode(ToBytes(TrimSpace(cred))))
  }

  /** atob returns a string with one character per byte. */
  function Latin1(b: seq<byte>): string {
    seq(|b|, i requires 0 <= i < |b| => b[i] as char)
  }

  /** What the page shows, or None when atob throws. */
  function Shown(answer: string): Option<string> {
    var b := Atob(WithoutStars(answer));
    if b.Some? then Some(Latin1(b.value)) else None
  }

  predicate Ascii(s: string) {
    forall i :: 0 <= i < |s| ==> s[i] < '\U{0080}'
  }

  /** For every byte string, taking out the stars and decoding gives it back. */
  lemma BytesRoundTrip(b: seq<byte>)
    ensures Atob(WithoutStars(Starred(Encode(b)))) == Some(b)
  {
    EncodeIsPlain(b);
    StarsComeOut(Encode(b));
    AtobInvertsEncode(b);
  }

  /** For every credential the page gets the bytes of the trimmed credential back. */
  lemma CredentialRoundTrip(cred: string)
    ensures Atob(WithoutStars(EncodeCredential(cred))) == Some(ToBytes(TrimSpace(cred)))
  {
    BytesRoundTrip(ToBytes(TrimSpace(cred)));
  }

  lemma {:induction false} BytesAreCharsIffAscii(s: string)
    ensures |ToBytes(s)| >= |s|
    ensures Ascii(s) ==> Latin1(ToBytes(s)) == s
    ensures !Ascii(s) ==> |ToBytes(s)| > |s|
  {
    if s != "" {
      BytesAreCharsIffAscii(s[1..]);
      assert Ascii(s) <==> s[0] < '\U{0080}' && Ascii(s[1..]);
      if Ascii(s) {
        assert Latin1(ToBytes(s)) == [s[0]] + Latin1(ToBytes(s[1..]));
      }
    }
  }

  /** It shows the credential itself exactly when that is ASCII: atob does not decode UTF-8. */
  lemma ShownIffAscii(cred: string)
    ensures Shown(EncodeCredential(cred)) == Some(TrimSpace(cred)) <==> Ascii(TrimSpace(cred))
  {
    CredentialRoundTrip(cred);
    BytesAreCharsIffAscii(TrimSpace(cred));
  }

  // ---- Issued credentials ---------------------------------------------------------------

  function UrlChar(c: char): char {
    if c == '+' then '-' else if c == '/' then '_' else c
  }

  /** URLEncoding.EncodeToString, section 5 of RFC 4648. */
  function UrlEncode(b: seq<byte>): string {
    seq(|Encode(b)|, i requires 0 <= i < |Encode(b)| => UrlChar(Encode(b)[i]))
  }

  /** It is safe in a URL: RFC 4648 puts '-' and '_' in the places of '+' and '/'. */
  lemma UrlEncodeIsSafe(b: seq<byte>)
    ensures forall i :: 0 <= i < |UrlEncode(b)| ==> UrlEncode(b)[i] != '+' && UrlEncode(b)[i] != '/'
    ensures UrlEncode([251, 255, 191]) == "-_-_"
  {
    assert [251 as byte, 255, 191][3..] == [];
    assert Encode([251, 255, 191]) == "+/+/";
  }

  function APIKey(random: seq<byte>): string {
    "sk_live_" + UrlEncode(random)
  }

  lemma UrlEncodeIsPlain(b: seq<byte>)
    ensures forall i :: 0 <= i < |UrlEncode(b)| ==> UrlEncode(b)[i] < '\U{0080}' && !IsSpace(UrlEncode(b)[i])
  {
    EncodeIsPlain(b);
    forall i | 0 <= i < |UrlEncode(b)| ensures UrlEncode(b)[i] < '\U{0080}' && !IsSpace(UrlEncode(b)[i]) {
      assert Plain(Encode(b)[i]);
      PlainIsNoSpace(Encode(b)[i]);
    }
  }

  lemma PlainIsNoSpace(c: char)
    requires Plain(c)
    ensures UrlChar(c) < '\U{0080}' && !IsSpace(UrlChar(c))
  {
  }

  /** Every issued API key and API secret is shown exactly as it was generated. */
  lemma IssuedCredentialsAreShown(random: seq<byte>)
    ensures Shown(EncodeCredential(APIKey(random))) == Some(APIKey(random))
    ensures Shown(EncodeCredential(UrlEncode(random))) == Some(UrlEncode(random))
  {
    UrlEncodeIsPlain(random);
    var key, secret := APIKey(random), UrlEncode(random);
    assert "sk_live_"[0] == 's' && "sk_live_"[7] == '_';
    assert forall i :: 0 <= i < |key| ==> key[i] == if i < 8 then "sk_live_"[i] else secret[i - 8];
    PrefixIsPlain();
    assert Trimmed(key) && Trimmed(secret) && Ascii(key) && Ascii(secret);
    TrimmedStays(key);
    TrimmedStays(secret);
    ShownIffAscii(key);
    ShownIffAscii(secret);
  }

  lemma PrefixIsPlain()
    ensures forall i :: 0 <= i < 8 ==> "sk_live_"[i] < '\U{0080}' && !IsSpace("sk_live_"[i])
  {
  }
}
