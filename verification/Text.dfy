/** Whitespace trimming and decimal 64-bit integers, as the rollback marker and the signing seed use them. */
module Text {
  import opened Bytes
  import opened Outcomes

  /** The Unicode White_Space characters, which both Go and Rust trim. */
  predicate IsSpace(c: char) {
    || '\U{0009}' <= c <= '\U{000D}'
    || c == ' ' || c == '\U{0085}' || c == '\U{00A0}' || c == '\U{1680}'
    || c == '\U{2028}' || c == '\U{2029}' || c == '\U{202F}' || c == '\U{205F}' || c == '\U{3000}'
    || '\U{2000}' <= c <= '\U{200A}'
  }

  predicate AllSpace(s: string) {
    forall i :: 0 <= i < |s| ==> IsSpace(s[i])
  }

  function TrimStart(s: string): string {
    if s != [] && IsSpace(s[0]) then TrimStart(s[1..]) else s
  }

  function TrimEnd(s: string): string {
    if s != [] && IsSpace(s[|s| - 1]) then TrimEnd(s[..|s| - 1]) else s
  }

  function Trim(s: string): string {
    TrimEnd(TrimStart(s))
  }

  /** `s` neither starts nor ends with whitespace, and is not empty. */
  predicate Tight(s: string) {
    s != [] && !IsSpace(s[0]) && !IsSpace(s[|s| - 1])
  }

  lemma {:induction false} TrimStartPadding(left: string, s: string)
    requires AllSpace(left) && s != [] && !IsSpace(s[0])
    ensures TrimStart(left + s) == s
  {
    if left == [] {
      assert left + s == s;
    } else {
      assert (left + s)[1..] == left[1..] + s;
      TrimStartPadding(left[1..], s);
    }
  }

  lemma {:induction false} TrimEndPadding(s: string, right: string)
    requires AllSpace(right) && s != [] && !IsSpace(s[|s| - 1])
    ensures TrimEnd(s + right) == s
  {
    if right == [] {
      assert s + right == s;
    } else {
      assert (s + right)[..|s + right| - 1] == s + right[..|right| - 1];
      TrimEndPadding(s, right[..|right| - 1]);
    }
  }

  lemma TrimPadding(left: string, s: string, right: string)
    requires AllSpace(left) && AllSpace(right) && Tight(s)
    ensures Trim(left + s + right) == s
  {
    assert left + s + right == left + (s + right);
    TrimStartPadding(left, s + right);
    TrimEndPadding(s, right);
  }

  function DigitChar(d: nat): (c: char)
    requires d < 10
    ensures '0' <= c <= '9'
  {
    '0' + d as char
  }

  function PrintNat(n: nat): string {
    if n < 10 then [DigitChar(n)] else PrintNat(n / 10) + [DigitChar(n % 10)]
  }

  function ParseNat(s: string): Option<nat> {
    if s == [] then Some(0)
    else
      var c := s[|s| - 1];
      match ParseNat(s[..|s| - 1])
      case Some(high) => if '0' <= c <= '9' then Some(high * 10 + (c - '0') as nat) else None
      case None => None
  }

  function PrintI64(x: int): string {
    if x < 0 then "-" + PrintNat(-x) else PrintNat(x)
  }

  /** Rust's `str::parse::<i64>`: an optional sign, at least one digit, and no overflow. */
  function ParseI64(s: string): Option<i64> {
    if s == [] then None
    else
      var signed := s[0] == '-' || s[0] == '+';
      var digits := if signed then s[1..] else s;
      match ParseNat(digits)
      case None => None
      case Some(n) =>
        var value: int := if s[0] == '-' then 0 - n else n;
        if digits != [] && MIN_I64 <= value <= MAX_I64 then Some(value) else None
  }

  lemma {:induction false} PrintNatRoundTrip(n: nat)
    ensures ParseNat(PrintNat(n)) == Some(n)
    ensures PrintNat(n) != [] && forall i :: 0 <= i < |PrintNat(n)| ==> '0' <= PrintNat(n)[i] <= '9'
  {
    if n < 10 {
      assert ParseNat(PrintNat(n)[..0]) == Some(0);
      assert (DigitChar(n) - '0') as nat == n;
    } else {
      PrintNatRoundTrip(n / 10);
      assert PrintNat(n)[..|PrintNat(n)| - 1] == PrintNat(n / 10);
      assert (DigitChar(n % 10) - '0') as nat == n % 10;
    }
  }

  lemma SignsAndDigitsAreNotSpace(c: char)
    requires c == '-' || '0' <= c <= '9'
    ensures !IsSpace(c)
  {
  }

  lemma PrintI64IsTight(x: i64)
    ensures Tight(PrintI64(x))
  {
    var n: int := x;
    var digits := PrintNat(if n < 0 then -n else n);
    PrintNatRoundTrip(if n < 0 then -n else n);
    var printed := PrintI64(x);
    assert printed[|printed| - 1] == digits[|digits| - 1];
    assert printed[0] == if n < 0 then '-' else digits[0];
    SignsAndDigitsAreNotSpace(printed[0]);
    SignsAndDigitsAreNotSpace(printed[|printed| - 1]);
  }

  /** A decimal number without a sign is read unless 64 bits cannot hold it. */
  lemma UnsignedIsRead(s: string, n: int)
    requires s != [] && '0' <= s[0] <= '9' && n >= 0 && ParseNat(s) == Some(n)
    ensures ParseI64(s) == if n <= MAX_I64 then Some(n) else None
  {
  }

  /** With a sign it is read likewise; a plus sign makes no difference. */
  lemma SignedIsRead(s: string, n: int)
    requires s != [] && n >= 0 && ParseNat(s) == Some(n)
    ensures ParseI64(['+'] + s) == (if n <= MAX_I64 then Some(n) else None)
    ensures ParseI64(['-'] + s) == (if -n >= MIN_I64 then Some(-n) else None)
  {
    var plus, minus := ['+'] + s, ['-'] + s;
    assert plus[0] == '+' && minus[0] == '-';
    assert plus[1..] == s && minus[1..] == s;
  }

  lemma PrintI64Parses(x: i64)
    ensures ParseI64(PrintI64(x)) == Some(x)
  {
    var n: int := x;
    if n < 0 {
      PrintNatRoundTrip(-n);
      SignedIsRead(PrintNat(-n), -n);
    } else {
      PrintNatRoundTrip(n);
      UnsignedIsRead(PrintNat(n), n);
    }
  }

  /** What the marker file holds is read back as the value written, with or without surrounding whitespace. */
  lemma PrintI64RoundTrip(x: i64, left: string, right: string)
    requires AllSpace(left) && AllSpace(right)
    ensures ParseI64(Trim(left + PrintI64(x) + right)) == Some(x)
  {
    PrintI64IsTight(x);
    PrintI64Parses(x);
    TrimPadding(left, PrintI64(x), right);
  }

  lemma PrintI64Reads(x: i64)
    ensures ParseI64(Trim(PrintI64(x))) == Some(x)
  {
    PrintI64RoundTrip(x, [], []);
    assert [] + PrintI64(x) + [] == PrintI64(x);
  }

  predicate AllDigits(s: string) {
    forall i :: 0 <= i < |s| ==> '0' <= s[i] <= '9'
  }

  lemma {:induction false} ParseNatIff(s: string)
    ensures ParseNat(s).Some? <==> AllDigits(s)
  {
    if s != [] {
      var n := |s| - 1;
      ParseNatIff(s[..n]);
      assert AllDigits(s) <==> AllDigits(s[..n]) && '0' <= s[n] <= '9';
    }
  }

  /** Only an optional sign and digits are read, and there is at least one digit. */
  lemma ParseI64Shape(s: string)
    ensures ParseI64(s).Some? ==>
      var digits := if s[0] == '-' || s[0] == '+' then s[1..] else s; digits != [] && AllDigits(digits)
  {
    if s != [] {
      ParseNatIff(if s[0] == '-' || s[0] == '+' then s[1..] else s);
    }
  }

  /** Trimming leaves nothing exactly of what is all whitespace. */
  lemma {:induction false} TrimmedAwayIff(s: string)
    ensures Trim(s) == "" <==> AllSpace(s)
    decreases |s|
  {
    if s != [] && IsSpace(s[0]) {
      TrimmedAwayIff(s[1..]);
      assert AllSpace(s) <==> AllSpace(s[1..]);
    } else if s != [] {
      assert !AllSpace(s);
      TrimEndKeepsFirst(s);
    }
  }

  lemma {:induction false} TrimEndKeepsFirst(s: string)
    requires s != [] && !IsSpace(s[0])
    ensures TrimEnd(s) != ""
    decreases |s|
  {
    if IsSpace(s[|s| - 1]) {
      TrimEndKeepsFirst(s[..|s| - 1]);
    }
  }
}
