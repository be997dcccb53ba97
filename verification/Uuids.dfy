/** The spellings of a UUID that a Postgres `uuid` column reads, and the one it prints. */
module Uuids {
  import opened Outcomes
  import opened Encodings

  predicate AllHex(s: string) {
    forall i :: 0 <= i < |s| ==> HexValue(s[i]).Some?
  }

  /** What follows the first of `n` groups: a hyphen may stand between any two, but not after the last. */
  function AfterGroup(s: string, n: nat): string
    requires |s| >= 4
  {
    if n > 1 && |s| > 4 && s[4] == '-' then s[5..] else s[4..]
  }

  /** `n` groups of four hex digits, in lower case. */
  function ReadGroups(s: string, n: nat): (digits: Option<string>)
    ensures digits.Some? ==> |digits.value| == 4 * n
    decreases |s|
  {
    if n == 0 then if s == "" then Some("") else None
    else if |s| < 4 || !AllHex(s[..4]) then None
    else
      match ReadGroups(AfterGroup(s, n), n - 1)
      case Some(more) => Some(Lower(s[..4]) + more)
      case None => None
  }

  /** Braces come in pairs or not at all. */
  function Unbraced(s: string): Option<string> {
    if s == "" || s[0] != '{' then Some(s)
    else if |s| >= 2 && s[|s| - 1] == '}' then Some(s[1..|s| - 1])
    else None
  }

  /** Hex digits in groups of four, with a hyphen after each group that `hyphens` marks. */
  function Spelled(digits: string, hyphens: seq<bool>): string
    requires |digits| == 4 * (|hyphens| + 1)
  {
    if hyphens == [] then digits
    else digits[..4] + (if hyphens[0] then "-" else "") + Spelled(digits[4..], hyphens[1..])
  }

  const STANDARD_HYPHENS: seq<bool> := [false, true, true, true, true, false, false]

  /** A `uuid` column compares values, so it sees one spelling of each. */
  function CanonicalId(s: string): Option<string> {
    match Unbraced(s)
    case None => None
    case Some(inner) =>
      match ReadGroups(inner, 8)
      case Some(digits) => Some(Spelled(digits, STANDARD_HYPHENS))
      case None => None
  }

  predicate IsCanonical(id: string) {
    CanonicalId(id) == Some(id)
  }

  // ---------------------------------------------------------------- exactly which texts are read

  lemma LowerIsIdempotent(s: string)
    ensures Lower(Lower(s)) == Lower(s) && (AllHex(Lower(s)) <==> AllHex(s))
  {
    forall i | 0 <= i < |s| ensures HexValue(Lower(s)[i]) == HexValue(s[i]) {
      HexDigit(s[i]);
    }
  }

  lemma LowerSplits(s: string, k: nat)
    requires k <= |s|
    ensures Lower(s)[..k] == Lower(s[..k]) && Lower(s)[k..] == Lower(s[k..])
    ensures Lower(s) == Lower(s[..k]) + Lower(s[k..])
  {
  }

  lemma OneGroup(d: string, h: seq<bool>)
    requires |d| == 4 * (|h| + 1) && h != []
    ensures Spelled(d, h) == d[..4] + (if h[0] then "-" else "") + Spelled(d[4..], h[1..])
  {
  }

  lemma {:induction false} SpelledIsRead(digits: string, hyphens: seq<bool>)
    requires |digits| == 4 * (|hyphens| + 1) && AllHex(digits)
    ensures ReadGroups(Spelled(digits, hyphens), |hyphens| + 1) == Some(Lower(digits))
    ensures Spelled(digits, hyphens) != "" && Spelled(digits, hyphens)[0] == digits[0]
  {
    var s := Spelled(digits, hyphens);
    if hyphens == [] {
      assert s[..4] == digits && s[4..] == "";
      assert ReadGroups(s[4..], 0) == Some("");
      assert Lower(digits) == Lower(s[..4]) + "";
    } else {
      var rest := Spelled(digits[4..], hyphens[1..]);
      SpelledIsRead(digits[4..], hyphens[1..]);
      OneGroup(digits, hyphens);
      assert s[..4] == digits[..4];
      assert rest[0] == digits[4] && rest[0] != '-';
      assert rest == AfterGroup(s, |hyphens| + 1);
      LowerSplits(digits, 4);
    }
  }

  lemma {:induction false} ReadIsSpelled(s: string, n: nat) returns (digits: string, hyphens: seq<bool>)
    requires n > 0 && ReadGroups(s, n).Some?
    ensures |hyphens| == n - 1 && |digits| == 4 * n && AllHex(digits)
    ensures s == Spelled(digits, hyphens) && ReadGroups(s, n) == Some(Lower(digits))
    decreases n
  {
    if n == 1 {
      digits, hyphens := s[..4], [];
      assert ReadGroups(s[4..], 0) == Some("");
      assert s == s[..4] && Lower(s) == Lower(s[..4]) + "";
    } else {
      var hyphen := |s| > 4 && s[4] == '-';
      var rest := AfterGroup(s, n);
      var d, h := ReadIsSpelled(rest, n - 1);
      digits, hyphens := s[..4] + d, [hyphen] + h;
      assert digits[4..] == d && digits[..4] == s[..4] && hyphens[1..] == h;
      assert s == s[..4] + (if hyphen then "-" else "") + rest;
      LowerSplits(digits, 4);
    }
  }

  /** `s` writes these 32 digits with these hyphens, in braces or not. */
  predicate SpelledAs(s: string, digits: string, hyphens: seq<bool>, braced: bool) {
    && |digits| == 32 && AllHex(digits) && |hyphens| == 7
    && s == if braced then "{" + Spelled(digits, hyphens) + "}" else Spelled(digits, hyphens)
  }

  lemma SpellingIsRead(s: string, digits: string, hyphens: seq<bool>, braced: bool)
    requires SpelledAs(s, digits, hyphens, braced)
    ensures CanonicalId(s) == Some(Spelled(Lower(digits), STANDARD_HYPHENS))
  {
    SpelledIsRead(digits, hyphens);
    if braced {
      assert s[1..|s| - 1] == Spelled(digits, hyphens);
    } else {
      assert s[0] != '{';
    }
  }

  lemma SpellingOf(s: string) returns (digits: string, hyphens: seq<bool>, braced: bool)
    requires CanonicalId(s).Some?
    ensures SpelledAs(s, digits, hyphens, braced)
    ensures CanonicalId(s) == Some(Spelled(Lower(digits), STANDARD_HYPHENS))
  {
    var inner := Unbraced(s).value;
    digits, hyphens := ReadIsSpelled(inner, 8);
    braced := s != "" && s[0] == '{';
    assert braced ==> s == "{" + inner + "}";
  }

  /**
   The column reads a text as `id` exactly when the text spells `id`'s digits in either case, with a hyphen
   or none between any two groups of four, in braces or not.
   */
  lemma UuidSpellings(s: string, id: string)
    ensures CanonicalId(s) == Some(id) <==>
      exists digits, hyphens, braced ::
        SpelledAs(s, digits, hyphens, braced) && id == Spelled(Lower(digits), STANDARD_HYPHENS)
  {
    if CanonicalId(s) == Some(id) {
      var digits, hyphens, braced := SpellingOf(s);
    }
    forall digits, hyphens, braced | SpelledAs(s, digits, hyphens, braced)
      ensures CanonicalId(s) == Some(Spelled(Lower(digits), STANDARD_HYPHENS))
    {
      SpellingIsRead(s, digits, hyphens, braced);
    }
  }

  /** What the column prints is in canonical spelling. */
  lemma CanonicalIsCanonical(s: string)
    requires CanonicalId(s).Some?
    ensures IsCanonical(CanonicalId(s).value)
  {
    var digits, _, _ := SpellingOf(s);
    LowerIsIdempotent(digits);
    SpellingIsRead(CanonicalId(s).value, Lower(digits), STANDARD_HYPHENS, false);
  }

  // ---------------------------------------------------------------- the canonical spelling

  lemma {:induction false} WithoutHyphens(digits: string, hyphens: seq<bool>)
    requires |digits| == 4 * (|hyphens| + 1) && forall i :: 0 <= i < |hyphens| ==> !hyphens[i]
    ensures Spelled(digits, hyphens) == digits
  {
    if hyphens != [] {
      WithoutHyphens(digits[4..], hyphens[1..]);
    }
  }

  lemma HeadShape(d: string)
    requires |d| == 32
    ensures Spelled(d, STANDARD_HYPHENS) == d[..8] + ("-" + d[8..12] + ("-" + Spelled(d[12..], STANDARD_HYPHENS[3..])))
  {
    var h := STANDARD_HYPHENS;
    assert h[2..][1..] == h[3..] && h[1..][1..] == h[2..];
    assert d[4..][4..] == d[8..] && d[8..][4..] == d[12..];
    var tail := Spelled(d[12..], h[3..]);
    OneGroup(d[8..], h[2..]);
    assert Spelled(d[8..], h[2..]) == d[8..12] + ("-" + tail);
    OneGroup(d[4..], h[1..]);
    assert Spelled(d[4..], h[1..]) == d[4..8] + ("-" + Spelled(d[8..], h[2..]));
    OneGroup(d, h);
    assert Spelled(d, h) == d[..4] + Spelled(d[4..], h[1..]);
    assert d[..4] + d[4..8] == d[..8];
  }

  lemma TailShape(d: string)
    requires |d| == 20
    ensures Spelled(d, [true, true, false, false]) == d[..4] + ("-" + d[4..8] + ("-" + d[8..]))
  {
    assert [true, true, false, false][1..] == [true, false, false] && [true, false, false][1..] == [false, false];
    WithoutHyphens(d[8..], [false, false]);
    assert d[4..][4..] == d[8..] && d[4..][..4] == d[4..8];
  }

  lemma SlicesOf(a: string, b: string, c: string)
    ensures var t := a + ("-" + b + ("-" + c)); var m, n := |a| + 1, |a| + 1 + |b|;
      |t| == n + 1 + |c| && t[..|a|] == a && t[m..n] == b && t[n + 1..] == c
  {
  }

  /** Its digits, between the hyphens. */
  lemma StandardSlices(d: string)
    requires |d| == 32
    ensures var id := Spelled(d, STANDARD_HYPHENS);
      |id| == 36 && id[..8] + id[9..13] + id[14..18] + id[19..23] + id[24..] == d
  {
    var id := Spelled(d, STANDARD_HYPHENS);
    var tail := Spelled(d[12..], [true, true, false, false]);
    assert STANDARD_HYPHENS[3..] == [true, true, false, false];
    HeadShape(d);
    SlicesOf(d[..8], d[8..12], tail);
    TailShape(d[12..]);
    SlicesOf(d[12..][..4], d[12..][4..8], d[12..][8..]);
    assert id[14..18] == tail[..4] && id[19..23] == tail[5..9] && id[24..] == tail[10..];
    assert d[12..] == tail[..4] + tail[5..9] + tail[10..];
    assert d == d[..8] + d[8..12] + d[12..];
  }

  predicate IsDash(i: int) {
    i == 8 || i == 13 || i == 18 || i == 23
  }

  /** The 36-character spelling of a UUID, in either case. */
  predicate UuidText(s: string) {
    |s| == 36 && forall i :: 0 <= i < 36 ==> if IsDash(i) then s[i] == '-' else HexValue(s[i]).Some?
  }

  /** Where the digits of a canonical ID sit. */
  function DigitAt(i: int): int {
    if i < 8 then i else if i < 13 then i - 1 else if i < 18 then i - 2 else if i < 23 then i - 3 else i - 4
  }

  lemma ShapeAt(d: string, i: nat)
    requires |d| == 32 && i < 36
    ensures |Spelled(d, STANDARD_HYPHENS)| == 36
    ensures Spelled(d, STANDARD_HYPHENS)[i] == if IsDash(i) then '-' else d[DigitAt(i)]
  {
    HeadShape(d);
    TailShape(d[12..]);
    assert STANDARD_HYPHENS[3..] == [true, true, false, false];
  }

  /** The digits a canonical ID spells. */
  lemma CanonicalDigits(id: string) returns (d: string)
    requires IsCanonical(id)
    ensures |d| == 32 && AllHex(d) && Lower(d) == d && id == Spelled(d, STANDARD_HYPHENS)
  {
    var digits, _, _ := SpellingOf(id);
    d := Lower(digits);
    LowerIsIdempotent(digits);
  }

  lemma CanonicalShape(id: string)
    requires IsCanonical(id)
    ensures UuidText(id) && Lower(id) == id
  {
    var d := CanonicalDigits(id);
    forall i | 0 <= i < 36
      ensures |id| == 36 && if IsDash(i) then id[i] == '-' else HexValue(id[i]).Some?
      ensures LowerChar(id[i]) == id[i]
    {
      ShapeAt(d, i);
      assert !IsDash(i) ==> Lower(d)[DigitAt(i)] == d[DigitAt(i)];
    }
    ShapeAt(d, 0);
  }

  lemma {:induction false} GroupsIgnoreCase(s: string, n: nat)
    ensures ReadGroups(Lower(s), n) == ReadGroups(s, n)
    decreases n
  {
    if n > 0 && |s| >= 4 {
      LowerSplits(s, 4);
      LowerIsIdempotent(s[..4]);
      AfterGroupIgnoresCase(s, n);
      GroupsIgnoreCase(AfterGroup(s, n), n - 1);
    }
  }

  lemma AfterGroupIgnoresCase(s: string, n: nat)
    requires |s| >= 4
    ensures AfterGroup(Lower(s), n) == Lower(AfterGroup(s, n))
  {
    LowerSplits(s, 4);
    if |s| > 4 {
      LowerSplits(s, 5);
    }
  }

  lemma UnbracedIgnoresCase(s: string)
    ensures Unbraced(Lower(s)) == match Unbraced(s) case Some(inner) => Some(Lower(inner)) case None => None
  {
    if |s| >= 2 {
      assert Lower(s)[1..|s| - 1] == Lower(s[1..|s| - 1]);
    }
  }

  lemma CanonicalIgnoresCase(s: string)
    ensures CanonicalId(Lower(s)) == CanonicalId(s)
  {
    UnbracedIgnoresCase(s);
    if Unbraced(s).Some? {
      GroupsIgnoreCase(Unbraced(s).value, 8);
    }
  }

  /** Other spellings of one ID: without hyphens, in braces, in upper case. */
  lemma OtherSpellings(d: string)
    requires |d| == 32 && AllHex(d) && Lower(d) == d
    ensures var id := Spelled(d, STANDARD_HYPHENS);
      && CanonicalId(d) == Some(id) && CanonicalId("{" + id + "}") == Some(id)
      && forall u: string :: Lower(u) == id || Lower(u) == d ==> CanonicalId(u) == Some(id)
  {
    var id := Spelled(d, STANDARD_HYPHENS);
    var none := seq(7, _ => false);
    WithoutHyphens(d, none);
    SpellingIsRead(d, d, none, false);
    SpellingIsRead(id, d, STANDARD_HYPHENS, false);
    SpellingIsRead("{" + id + "}", d, STANDARD_HYPHENS, true);
    forall u: string | Lower(u) == id || Lower(u) == d ensures CanonicalId(u) == Some(id) {
      CanonicalIgnoresCase(u);
    }
  }

  /** Writing any letter of a canonical ID in upper case makes another spelling of it. */
  lemma UpperCaseIsAnAlias(id: string, i: nat)
    requires IsCanonical(id) && i < |id| && 'a' <= id[i] <= 'f'
    ensures var alias := id[i := id[i] - 'a' + 'A'];
      alias != id && CanonicalId(alias) == Some(id)
  {
    var alias := id[i := id[i] - 'a' + 'A'];
    assert alias[i] - 'A' + 'a' == id[i];
    CanonicalShape(id);
    forall k | 0 <= k < |id| ensures LowerChar(alias[k]) == id[k] {
      assert LowerChar(id[k]) == Lower(id)[k];
    }
    assert Lower(alias) == id;
    CanonicalIgnoresCase(alias);
  }

  // ---------------------------------------------------------------- an example

  const EXAMPLE_DIGITS: string := "a0000000000040008000000000000000"

  /** a0000000-0000-4000-8000-000000000000 */
  const EXAMPLE_ID: string := Spelled(EXAMPLE_DIGITS, STANDARD_HYPHENS)

  lemma ExampleDigits()
    ensures AllHex(EXAMPLE_DIGITS) && Lower(EXAMPLE_DIGITS) == EXAMPLE_DIGITS
  {
    var d := EXAMPLE_DIGITS;
    assert forall i :: 0 <= i < 32 ==> HexValue(d[i]).Some? && LowerChar(d[i]) == d[i];
  }

  lemma ExampleIsCanonical()
    ensures IsCanonical(EXAMPLE_ID)
  {
    ExampleDigits();
    SpellingIsRead(EXAMPLE_ID, EXAMPLE_DIGITS, STANDARD_HYPHENS, false);
  }

  /** The example without hyphens, and in braces. */
  lemma ExampleSpellings()
    ensures CanonicalId(EXAMPLE_DIGITS) == Some(EXAMPLE_ID)
    ensures CanonicalId("{" + EXAMPLE_ID + "}") == Some(EXAMPLE_ID)
  {
    ExampleDigits();
    OtherSpellings(EXAMPLE_DIGITS);
  }

  /** And in upper case. */
  lemma UpperCaseExample()
    ensures |EXAMPLE_ID| == 36 && CanonicalId(EXAMPLE_ID[0 := 'A']) == Some(EXAMPLE_ID)
  {
    ExampleIsCanonical();
    StartsWithLetter(EXAMPLE_DIGITS);
    UpperCaseIsAnAlias(EXAMPLE_ID, 0);
  }

  lemma StartsWithLetter(d: string)
    requires |d| == 32 && 'a' <= d[0] <= 'f'
    ensures |Spelled(d, STANDARD_HYPHENS)| == 36 && 'a' <= Spelled(d, STANDARD_HYPHENS)[0] <= 'f'
    ensures 'a' - 'a' + 'A' == 'A' && Spelled(d, STANDARD_HYPHENS)[0] == d[0]
  {
    ShapeAt(d, 0);
  }
}
