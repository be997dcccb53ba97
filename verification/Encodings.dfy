/** Hexadecimal and padded base64 (sections 8 and 4 of RFC 4648), as Go's decoders read them. */
module Encodings {
  import opened Bytes
  import opened Outcomes
  import opened Text

  // ---------------------------------------------------------------- hexadecimal

  function HexChar(d: nat): (c: char)
    requires d < 16
  {
    if d < 10 then '0' + d as char else 'a' + (d - 10) as char
  }

  function HexValue(c: char): (d: Option<nat>)
    ensures d.Some? ==> d.value < 16
  {
    if '0' <= c <= '9' then Some((c - '0') as nat)
    else if 'a' <= c <= 'f' then Some((c - 'a') as nat + 10)
    else if 'A' <= c <= 'F' then Some((c - 'A') as nat + 10)
    else None
  }

  function LowerChar(c: char): char {
    if 'A' <= c <= 'F' then c - 'A' + 'a' else c
  }

  function Lower(s: string): (r: string)
    ensures |r| == |s| && forall i :: 0 <= i < |s| ==> r[i] == LowerChar(s[i])
  {
    seq(|s|, i requires 0 <= i < |s| => LowerChar(s[i]))
  }

  function EncodeHex(b: bytes): string {
    if b == [] then []
    else [HexChar(b[0] as nat / 16), HexChar(b[0] as nat % 16)] + EncodeHex(b[1..])
  }

  function FromNibbles(high: nat, low: nat): (x: byte)
    requires high < 16 && low < 16
    ensures x as nat / 16 == high && x as nat % 16 == low
  {
    (high * 16 + low) as byte
  }

  function DecodeHex(s: string): Option<bytes> {
    if s == [] then Some([])
    else if |s| == 1 then None
    else
      match (HexValue(s[0]), HexValue(s[1]), DecodeHex(s[2..]))
      case (Some(high), Some(low), Some(rest)) => Some([FromNibbles(high, low)] + rest)
      case _ => None
  }

  lemma HexDigit(c: char)
    ensures HexValue(c).Some? ==> HexChar(HexValue(c).value) == LowerChar(c)
    ensures HexValue(LowerChar(c)) == HexValue(c)
  {
    if '0' <= c <= '9' {
      assert '0' + ((c - '0') as nat) as char == c;
    } else if 'a' <= c <= 'f' {
      assert 'a' + ((c - 'a') as nat) as char == c;
    } else if 'A' <= c <= 'F' {
      assert LowerChar(c) == 'a' + ((c - 'A') as nat) as char;
    }
  }

  lemma HexDigitBack(d: nat)
    requires d < 16
    ensures HexValue(HexChar(d)) == Some(d) && LowerChar(HexChar(d)) == HexChar(d)
  {
    if d < 10 {
      assert ('0' + d as char - '0') as nat == d;
    } else {
      assert ('a' + (d - 10) as char - 'a') as nat == d - 10;
    }
  }

  lemma {:induction false} HexRoundTrip(b: bytes)
    ensures DecodeHex(EncodeHex(b)) == Some(b)
  {
    if b != [] {
      HexDigitBack(b[0] as nat / 16);
      HexDigitBack(b[0] as nat % 16);
      HexRoundTrip(b[1..]);
      assert EncodeHex(b)[2..] == EncodeHex(b[1..]);
      assert [b[0]] + b[1..] == b;
    }
  }

  lemma {:induction false} HexIgnoresCase(s: string)
    ensures DecodeHex(Lower(s)) == DecodeHex(s)
  {
    if |s| >= 2 {
      HexDigit(s[0]);
      HexDigit(s[1]);
      HexIgnoresCase(s[2..]);
      assert Lower(s)[2..] == Lower(s[2..]);
    }
  }

  lemma {:induction false} HexPrintsBack(s: string)
    requires DecodeHex(s).Some?
    ensures EncodeHex(DecodeHex(s).value) == Lower(s)
  {
    if s != [] {
      HexDigit(s[0]);
      HexDigit(s[1]);
      HexPrintsBack(s[2..]);
      assert DecodeHex(s).value[1..] == DecodeHex(s[2..]).value;
      assert Lower(s) == [LowerChar(s[0]), LowerChar(s[1])] + Lower(s[2..]);
    }
  }

  /** A string decodes to `b` exactly when it is `b` spelled in hex digits of either case. */
  lemma HexSpellings(s: string, b: bytes)
    ensures DecodeHex(s) == Some(b) <==> Lower(s) == EncodeHex(b)
  {
    HexIgnoresCase(s);
    HexRoundTrip(b);
    if DecodeHex(s).Some? {
      HexPrintsBack(s);
    }
  }

  lemma {:induction false} HexDigitsOnly(b: bytes)
    ensures |EncodeHex(b)| == 2 * |b| && Lower(EncodeHex(b)) == EncodeHex(b)
    ensures forall i :: 0 <= i < |EncodeHex(b)| ==> HexValue(EncodeHex(b)[i]).Some?
  {
    if b != [] {
      HexDigitBack(b[0] as nat / 16);
      HexDigitBack(b[0] as nat % 16);
      HexDigitsOnly(b[1..]);
    }
  }

  lemma {:induction false} HexHasOnlyDigits(s: string, i: nat)
    requires i < |s| && DecodeHex(s).Some?
    ensures HexValue(s[i]).Some?
  {
    if i >= 2 {
      HexHasOnlyDigits(s[2..], i - 2);
    }
  }

  /** The published key: the client's trimmed hex decoding of what the server serves gives the key back. */
  lemma PublishedKeyRoundTrip(pk: bytes, left: string, right: string)
    requires AllSpace(left) && AllSpace(right) && pk != []
    ensures DecodeHex(Trim(left + EncodeHex(pk) + right)) == Some(pk)
  {
    HexDigitsOnly(pk);
    TrimPadding(left, EncodeHex(pk), right);
    HexRoundTrip(pk);
  }

  // ---------------------------------------------------------------- base64

  function Base64Char(d: nat): (c: char)
    requires d < 64
  {
    if d < 26 then 'A' + d as char
    else if d < 52 then 'a' + (d - 26) as char
    else if d < 62 then '0' + (d - 52) as char
    else if d == 62 then '+' else '/'
  }

  function Base64Value(c: char): (d: Option<nat>)
    ensures d.Some? ==> d.value < 64
  {
    if 'A' <= c <= 'Z' then Some((c - 'A') as nat)
    else if 'a' <= c <= 'z' then Some((c - 'a') as nat + 26)
    else if '0' <= c <= '9' then Some((c - '0') as nat + 52)
    else if c == '+' then Some(62)
    else if c == '/' then Some(63)
    else None
  }

  lemma Base64DigitBack(d: nat)
    requires d < 64
    ensures Base64Value(Base64Char(d)) == Some(d)
  {
    if d < 26 {
      assert ('A' + d as char - 'A') as nat == d;
    } else if d < 52 {
      assert ('a' + (d - 26) as char - 'a') as nat == d - 26;
    } else if d < 62 {
      assert ('0' + (d - 52) as char - '0') as nat == d - 52;
    }
  }

  type sextet = d: nat | d < 64

  /** Three bytes make four 6-bit digits; one or two left over make two or three. */
  function Sextets(b: bytes): seq<sextet> {
    if b == [] then []
    else if |b| == 1 then [b[0] as nat / 4, b[0] as nat % 4 * 16]
    else if |b| == 2 then [b[0] as nat / 4, b[0] as nat % 4 * 16 + b[1] as nat / 16, b[1] as nat % 16 * 4]
    else [b[0] as nat / 4, b[0] as nat % 4 * 16 + b[1] as nat / 16,
          b[1] as nat % 16 * 4 + b[2] as nat / 64, b[2] as nat % 64] + Sextets(b[3..])
  }

  function FirstByte(v0: nat, v1: nat): byte
    requires v0 < 64 && v1 < 64
  {
    (v0 * 4 + v1 / 16) as byte
  }

  function SecondByte(v1: nat, v2: nat): byte
    requires v1 < 64 && v2 < 64
  {
    (v1 % 16 * 16 + v2 / 4) as byte
  }

  function ThirdByte(v2: nat, v3: nat): byte
    requires v2 < 64 && v3 < 64
  {
    (v2 % 4 * 64 + v3) as byte
  }

  /** The bytes that digits spell; the unused bits of the last digit are not checked. */
  function BytesOf(v: seq<sextet>): bytes {
    if |v| < 2 then []
    else if |v| == 2 then [FirstByte(v[0], v[1])]
    else if |v| == 3 then [FirstByte(v[0], v[1]), SecondByte(v[1], v[2])]
    else [FirstByte(v[0], v[1]), SecondByte(v[1], v[2]), ThirdByte(v[2], v[3])] + BytesOf(v[4..])
  }

  function Chars(v: seq<sextet>): (s: string)
    ensures |s| == |v|
  {
    seq(|v|, i requires 0 <= i < |v| => Base64Char(v[i]))
  }

  function Digits(s: string): Option<seq<sextet>> {
    if forall i :: 0 <= i < |s| ==> Base64Value(s[i]).Some?
    then Some(seq(|s|, i requires 0 <= i < |s| => Base64Value(s[i]).value))
    else None
  }

  function Padding(len: nat): string {
    if len % 3 == 0 then "" else if len % 3 == 1 then "==" else "="
  }

  function EncodeBase64(b: bytes): string {
    Chars(Sextets(b)) + Padding(|b|)
  }

  /** How many padding characters end `s`, at most two. */
  function PaddingIn(s: string): (n: nat)
    ensures n <= |s|
  {
    if s == "" || s[|s| - 1] != '=' then 0
    else if |s| >= 2 && s[|s| - 2] == '=' then 2 else 1
  }

  /** Go's decoder skips carriage returns and line feeds wherever they stand. */
  function WithoutBreaks(s: string): string {
    if s == [] then []
    else if s[0] == '\r' || s[0] == '\n' then WithoutBreaks(s[1..])
    else [s[0]] + WithoutBreaks(s[1..])
  }

  function DecodeBase64(s: string): Option<bytes> {
    var t := WithoutBreaks(s);
    if |t| % 4 != 0 then None
    else
      match Digits(t[..|t| - PaddingIn(t)])
      case Some(v) => Some(BytesOf(v))
      case None => None
  }

  lemma DigitsBack(a: byte, b: byte, c: byte)
    ensures var x, y, z := a as nat, b as nat, c as nat;
      && FirstByte(x / 4, x % 4 * 16 + y / 16) == a
      && SecondByte(x % 4 * 16 + y / 16, y % 16 * 4 + z / 64) == b
      && ThirdByte(y % 16 * 4 + z / 64, z % 64) == c
  {
  }

  lemma {:induction false} SextetsBack(b: bytes)
    ensures BytesOf(Sextets(b)) == b
  {
    if |b| == 1 {
      DigitsBack(b[0], 0, 0);
    } else if |b| == 2 {
      DigitsBack(b[0], b[1], 0);
    } else if |b| >= 3 {
      DigitsBack(b[0], b[1], b[2]);
      SextetsBack(b[3..]);
      assert Sextets(b)[4..] == Sextets(b[3..]);
      assert BytesOf(Sextets(b)) == [b[0], b[1], b[2]] + b[3..];
    }
  }

  lemma {:induction false} SextetsCount(b: bytes)
    ensures |Sextets(b)| + |Padding(|b|)| == (|b| + 2) / 3 * 4
    ensures b != [] ==> Sextets(b) != []
  {
    if |b| >= 3 {
      SextetsCount(b[3..]);
      assert |Padding(|b|)| == |Padding(|b| - 3)|;
    }
  }

  lemma {:induction false} BytesOfLength(v: seq<sextet>)
    requires |v| % 4 == 0
    ensures |BytesOf(v)| % 3 == 0
  {
    if v != [] {
      BytesOfLength(v[4..]);
    }
  }

  lemma DigitsOfChars(v: seq<sextet>)
    ensures Digits(Chars(v)) == Some(v)
  {
    var s := Chars(v);
    forall i | 0 <= i < |s| ensures Base64Value(s[i]) == Some(v[i]) {
      Base64DigitBack(v[i]);
    }
    assert Digits(s).value == v;
  }

  predicate IsBase64Text(s: string) {
    forall i :: 0 <= i < |s| ==> s[i] == '=' || Base64Value(s[i]).Some?
  }

  lemma Base64Alphabet(b: bytes)
    ensures IsBase64Text(EncodeBase64(b)) && (b != [] ==> EncodeBase64(b) != [])
  {
    var v := Sextets(b);
    DigitsOfChars(v);
    var s := EncodeBase64(b);
    forall i | 0 <= i < |s| ensures s[i] == '=' || Base64Value(s[i]).Some? {
      if i < |v| {
        assert s[i] == Chars(v)[i];
      }
    }
  }

  lemma {:induction false} NoBreaksToSkip(s: string)
    requires IsBase64Text(s)
    ensures WithoutBreaks(s) == s
  {
    if s != [] {
      NoBreaksToSkip(s[1..]);
    }
  }

  lemma PaddingFound(body: string, n: nat)
    requires body != [] ==> body[|body| - 1] != '='
    requires body == [] ==> n % 3 == 0
    ensures var s := body + Padding(n); PaddingIn(s) == |Padding(n)| && s[..|s| - PaddingIn(s)] == body
  {
    var s := body + Padding(n);
    assert s[..|body|] == body;
  }

  lemma LastCharIsDigit(v: seq<sextet>)
    requires v != []
    ensures Chars(v)[|v| - 1] != '='
  {
    assert Chars(v)[|v| - 1] == Base64Char(v[|v| - 1]);
    Base64DigitBack(v[|v| - 1]);
  }

  lemma WholeGroups(n: nat, total: nat)
    requires total == (n + 2) / 3 * 4
    ensures total % 4 == 0
  {
  }

  /** A printed text is its digits, then its padding, and fills whole groups of four. */
  lemma TextShape(b: bytes)
    ensures var s := EncodeBase64(b); |s| % 4 == 0 && s[..|s| - PaddingIn(s)] == Chars(Sextets(b))
  {
    SextetsCount(b);
    WholeGroups(|b|, |EncodeBase64(b)|);
    if Sextets(b) != [] {
      LastCharIsDigit(Sextets(b));
    }
    PaddingFound(Chars(Sextets(b)), |b|);
  }

  lemma Base64RoundTrip(b: bytes)
    ensures DecodeBase64(EncodeBase64(b)) == Some(b)
  {
    SextetsBack(b);
    DigitsOfChars(Sextets(b));
    Base64Alphabet(b);
    NoBreaksToSkip(EncodeBase64(b));
    TextShape(b);
  }

  /** A text that decodes to a number of bytes not divisible by three ends in the padding character. */
  lemma UnevenEndsInPadding(s: string)
    requires DecodeBase64(s).Some? && |DecodeBase64(s).value| % 3 != 0
    ensures var t := WithoutBreaks(s); t != [] && t[|t| - 1] == '='
  {
    var t := WithoutBreaks(s);
    if PaddingIn(t) == 0 {
      BytesOfLength(Digits(t[..|t|]).value);
    }
  }

  lemma {:induction false} BreaksHideNothing(s: string, i: nat)
    requires i < |WithoutBreaks(s)|
    ensures WithoutBreaks(s)[i] in s
  {
    if s[0] == '\r' || s[0] == '\n' {
      BreaksHideNothing(s[1..], i);
    } else if i > 0 {
      BreaksHideNothing(s[1..], i - 1);
    }
  }
}
