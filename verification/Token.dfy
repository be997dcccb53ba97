/**
 The binary licence token: what the server prints (server/internal/token/token.go)
 and what the client parses and verifies (client/src/token.rs).
 */
module Token {
  import opened Bytes
  import opened Outcomes
  import opened Signatures

  const TOKEN_VERSION: byte := 1
  const CLOCK_SKEW_SECS: int := 60
  const MAX_ENTITLEMENTS_LEN: nat := 64 * 1024

  datatype LicenseToken = LicenseToken(
    version: byte,
    licenseId: bytes,
    machineId: bytes,
    issuedAt: i64,
    expiresAt: i64,
    entitlements: bytes,
    nonce: bytes,
    signature: bytes)
  {
    /** The fixed array sizes of the wire format. */
    predicate Sized() {
      |licenseId| == 16 && |machineId| == 32 && |nonce| == 32 && |signature| == 64
    }
  }

  // ---------------------------------------------------------------- the server's printer

  /** The length field is a `uint32` conversion, so it wraps. */
  function LengthField(entitlements: bytes): u32 {
    |entitlements| % TWO_32
  }

  function UnsignedBody(t: LicenseToken): bytes {
    [t.version] + t.licenseId + t.machineId + I64Bytes(t.issuedAt) + I64Bytes(t.expiresAt)
    + U32Bytes(LengthField(t.entitlements)) + t.entitlements + t.nonce
  }

  function SignedToken(t: LicenseToken): bytes {
    UnsignedBody(t) + t.signature
  }

  method MarshalUnsigned(t: LicenseToken) returns (buf: bytes)
    ensures buf == UnsignedBody(t)
  {
    buf := [];
    buf := buf + [t.version];
    buf := buf + t.licenseId;
    buf := buf + t.machineId;
    buf := buf + I64Bytes(t.issuedAt);
    buf := buf + I64Bytes(t.expiresAt);
    buf := buf + U32Bytes(|t.entitlements| % TWO_32);
    buf := buf + t.entitlements;
    buf := buf + t.nonce;
  }

  method MarshalSigned(t: LicenseToken) returns (buf: bytes)
    ensures buf == SignedToken(t)
  {
    buf := MarshalUnsigned(t);
    buf := buf + t.signature;
  }

  // ---------------------------------------------------------------- the client's parser

  /** The fields of `data` at their offsets. */
  function FieldsOf(data: bytes, entLen: nat): (t: LicenseToken)
    requires 165 + entLen <= |data|
    ensures t.Sized() && |t.entitlements| == entLen
  {
    LicenseToken(data[0], data[1..17], data[17..49], I64FromBytes(data[49..57]), I64FromBytes(data[57..65]),
                 data[69..69 + entLen], data[69 + entLen..101 + entLen], data[101 + entLen..165 + entLen])
  }

  function Parse(data: bytes): Result<LicenseToken> {
    if |data| < 165 then Err(InvalidToken)
    else
      var entLen := U32FromBytes(data[65..69]);
      if entLen > MAX_ENTITLEMENTS_LEN || 165 + entLen > |data| then Err(InvalidToken)
      else Ok(FieldsOf(data, entLen))
  }

  /** Copies `dst.Length` bytes out of `src`, starting at `from`. */
  method CopyFromSlice(dst: array<byte>, src: array<byte>, from: nat)
    requires dst != src && from + dst.Length <= src.Length
    modifies dst
    ensures dst[..] == src[from..from + dst.Length]
  {
    for i := 0 to dst.Length
      invariant dst[..i] == src[from..from + i]
    {
      dst[i] := src[from + i];
    }
  }

  /**
   The cursor-based decoder. No read is out of bounds, and the result is the one `ParseExactly`
   characterizes: the token printed at the start of the buffer, if there is one.
   */
  method ParseWithCursor(data: array<byte>) returns (r: Result<LicenseToken>)
    ensures r == Parse(data[..])
  {
    if data.Length < 1 + 16 + 32 + 8 + 8 + 4 + 32 + 64 {
      return Err(InvalidToken);
    }
    var at := 0;
    var version := data[at];
    at := at + 1;
    var licenseId := new byte[16];
    CopyFromSlice(licenseId, data, at);
    at := at + 16;
    var machineId := new byte[32];
    CopyFromSlice(machineId, data, at);
    at := at + 32;
    var issuedAt := I64FromBytes(data[at..at + 8]);
    at := at + 8;
    var expiresAt := I64FromBytes(data[at..at + 8]);
    at := at + 8;
    var entLen := U32FromBytes(data[at..at + 4]);
    at := at + 4;
    assert data[..][65..69] == data[65..69];
    if entLen > MAX_ENTITLEMENTS_LEN {
      return Err(InvalidToken);
    }
    if at + entLen + 32 + 64 > data.Length {
      return Err(InvalidToken);
    }
    var entitlements := data[at..at + entLen];
    at := at + entLen;
    var nonce := new byte[32];
    CopyFromSlice(nonce, data, at);
    at := at + 32;
    var signature := new byte[64];
    CopyFromSlice(signature, data, at);
    r := Ok(LicenseToken(version, licenseId[..], machineId[..], issuedAt, expiresAt,
                         entitlements, nonce[..], signature[..]));
    assert data[..][49..57] == data[49..57] && data[..][57..65] == data[57..65];
    assert r.value == FieldsOf(data[..], entLen);
  }

  /** Some token within the cap, printed, is a prefix of `data`. */
  ghost predicate StartsWithToken(data: bytes) {
    exists t: LicenseToken :: PrintedAtStart(t, data)
  }

  ghost predicate PrintedAtStart(t: LicenseToken, data: bytes) {
    t.Sized() && |t.entitlements| <= MAX_ENTITLEMENTS_LEN && SignedToken(t) <= data
  }

  // ---------------------------------------------------------------- codec inverses

  /** Where each field of a printed body sits, for entitlements of any length. */
  lemma BodyLayout(t: LicenseToken)
    requires t.Sized()
    ensures var b, n := UnsignedBody(t), |t.entitlements|;
      && |b| == 101 + n
      && b[0] == t.version && b[1..17] == t.licenseId && b[17..49] == t.machineId
      && b[49..57] == I64Bytes(t.issuedAt) && b[57..65] == I64Bytes(t.expiresAt)
      && b[65..69] == U32Bytes(LengthField(t.entitlements))
      && b[69..69 + n] == t.entitlements && b[69 + n..101 + n] == t.nonce
  {
  }

  /** The same for any buffer that starts with a printed token. */
  lemma PrefixLayout(t: LicenseToken, data: bytes)
    requires t.Sized() && SignedToken(t) <= data
    ensures var n := |t.entitlements|;
      && 165 + n <= |data|
      && data[..101 + n] == UnsignedBody(t) && data[101 + n..165 + n] == t.signature
      && data[0] == t.version && data[1..17] == t.licenseId && data[17..49] == t.machineId
      && data[49..57] == I64Bytes(t.issuedAt) && data[57..65] == I64Bytes(t.expiresAt)
      && data[65..69] == U32Bytes(LengthField(t.entitlements))
      && data[69..69 + n] == t.entitlements && data[69 + n..101 + n] == t.nonce
  {
    BodyLayout(t);
    var n := |t.entitlements|;
    var b := UnsignedBody(t);
    assert data[..165 + n] == SignedToken(t);
    assert data[..101 + n] == data[..165 + n][..101 + n] == b;
    assert data[101 + n..165 + n] == data[..165 + n][101 + n..] == t.signature;
    assert forall i, j :: 0 <= i <= j <= 101 + n ==> data[i..j] == data[..101 + n][i..j];
  }

  lemma FieldsOfPrinted(t: LicenseToken, data: bytes)
    requires t.Sized() && SignedToken(t) <= data
    ensures 165 + |t.entitlements| <= |data|
    ensures FieldsOf(data, |t.entitlements|) == t
  {
    PrefixLayout(t, data);
    assert I64FromBytes(data[49..57]) == t.issuedAt by {
      I64RoundTrip(t.issuedAt);
    }
    assert I64FromBytes(data[57..65]) == t.expiresAt by {
      I64RoundTrip(t.expiresAt);
    }
  }

  /** The length field of a printed token reads back as its entitlements length, wrapped to 32 bits. */
  lemma LengthOfPrinted(t: LicenseToken, data: bytes)
    requires t.Sized() && SignedToken(t) <= data
    ensures 165 + |t.entitlements| <= |data|
    ensures U32FromBytes(data[65..69]) == LengthField(t.entitlements)
  {
    PrefixLayout(t, data);
    U32RoundTrip(LengthField(t.entitlements));
  }

  /** Parsing a printed token, with any bytes after it, gives the token back. */
  lemma ParseOfPrinted(t: LicenseToken, data: bytes)
    requires PrintedAtStart(t, data)
    ensures Parse(data) == Ok(t)
  {
    FieldsOfPrinted(t, data);
    LengthOfPrinted(t, data);
  }

  /** The leading bytes of a long enough buffer, field by field. */
  lemma PrefixInFields(data: bytes, n: nat)
    requires 165 + n <= |data|
    ensures data[..101 + n] == data[..1] + data[1..17] + data[17..49] + data[49..57] + data[57..65]
                               + data[65..69] + data[69..69 + n] + data[69 + n..101 + n]
    ensures data[..165 + n] == data[..101 + n] + data[101 + n..165 + n]
  {
  }

  lemma NumbersPrintBack(data: bytes, n: nat)
    requires 165 + n <= |data| && U32FromBytes(data[65..69]) == n
    ensures I64Bytes(I64FromBytes(data[49..57])) == data[49..57]
    ensures I64Bytes(I64FromBytes(data[57..65])) == data[57..65]
    ensures n < TWO_32 && U32Bytes(n) == data[65..69]
  {
    I64FromRoundTrip(data[49..57]);
    I64FromRoundTrip(data[57..65]);
    U32FromRoundTrip(data[65..69]);
  }

  lemma FieldsPrintBack(data: bytes, n: nat)
    requires 165 + n <= |data| && U32FromBytes(data[65..69]) == n
    ensures UnsignedBody(FieldsOf(data, n)) == data[..101 + n]
  {
    NumbersPrintBack(data, n);
    PrefixInFields(data, n);
    assert data[..1] == [data[0]];
  }

  /** Printing the fields parsed from `data` gives the leading bytes of `data` back. */
  lemma PrintedOfParse(data: bytes)
    requires Parse(data).Ok?
    ensures PrintedAtStart(Parse(data).value, data)
  {
    var n := U32FromBytes(data[65..69]);
    FieldsPrintBack(data, n);
    PrefixInFields(data, n);
    assert data[..165 + n] == SignedToken(Parse(data).value);
  }

  /** The parser succeeds exactly on the buffers that start with a printed token. */
  lemma ParseExactly(data: bytes)
    ensures Parse(data).Ok? <==> StartsWithToken(data)
    ensures Parse(data).Err? ==> Parse(data).error == InvalidToken
    ensures forall t: LicenseToken :: PrintedAtStart(t, data) <==> Parse(data) == Ok(t)
  {
    if Parse(data).Ok? {
      PrintedOfParse(data);
    }
    forall t: LicenseToken | PrintedAtStart(t, data) ensures Parse(data) == Ok(t) {
      ParseOfPrinted(t, data);
    }
  }

  /** On buffers with no surplus bytes the two directions are inverse to each other. */
  lemma CodecInverse(t: LicenseToken, data: bytes)
    requires t.Sized() && |t.entitlements| <= MAX_ENTITLEMENTS_LEN
    ensures Parse(SignedToken(t)) == Ok(t)
    ensures Parse(data) == Ok(t) && |data| == 165 + |t.entitlements| <==> data == SignedToken(t)
  {
    ParseOfPrinted(t, SignedToken(t));
    BodyLayout(t);
    if Parse(data) == Ok(t) && |data| == 165 + |t.entitlements| {
      PrintedOfParse(data);
    }
  }

  // ---------------------------------------------------------------- the client's verifier

  function Verify(s: Scheme, data: bytes, pk: bytes, now: i64): Result<LicenseToken> {
    var token :- Parse(data);
    if token.version != TOKEN_VERSION then Err(InvalidToken)
    else if token.issuedAt > token.expiresAt then Err(InvalidToken)
    else if !s.validKey(pk) then Err(Crypto)
    else if !s.verify(pk, data[..|data| - 64], token.signature) then Err(InvalidToken)
    else if Wrap64(now + CLOCK_SKEW_SECS) < token.issuedAt then Err(InvalidToken)
    else if Wrap64(now - CLOCK_SKEW_SECS) > token.expiresAt then Err(Expired)
    else Ok(token)
  }

  /** Readings of the clock at which the skew allowance does not overflow. */
  predicate ClockInRange(now: int) {
    MIN_I64 + CLOCK_SKEW_SECS <= now <= MAX_I64 - CLOCK_SKEW_SECS
  }

  /** What the skewed window says at `now`: too early, inside, or too late. */
  function WindowVerdict(t: LicenseToken, now: int): Result<LicenseToken> {
    if now < t.issuedAt - CLOCK_SKEW_SECS then Err(InvalidToken)
    else if now > t.expiresAt + CLOCK_SKEW_SECS then Err(Expired)
    else Ok(t)
  }

  /**
   Nothing is told of a token's window before its signature has been found good: a token of an unknown version, one
   whose window is upside down and one with a bad signature are invalid at all times, expired or not.
   */
  lemma UnauthenticIsInvalid(s: Scheme, data: bytes, pk: bytes, now: i64)
    requires Parse(data).Ok? && s.validKey(pk)
    requires var t := Parse(data).value;
      t.version != TOKEN_VERSION || t.issuedAt > t.expiresAt || !s.verify(pk, data[..|data| - 64], t.signature)
    ensures Verify(s, data, pk, now) == Err(InvalidToken)
  {
  }

  /** A token that would verify under no key at all is told from one that fails under a good key. */
  lemma BadKeyIsCryptoError(s: Scheme, data: bytes, pk: bytes, now: i64)
    ensures Verify(s, data, pk, now) == Err(Crypto) <==>
      !s.validKey(pk) && Parse(data).Ok?
      && Parse(data).value.version == TOKEN_VERSION && Parse(data).value.issuedAt <= Parse(data).value.expiresAt
  {
  }

  /** The only answers there are; an expired or accepted token is authentic, sane, and in the window the answer says. */
  lemma VerdictMeans(s: Scheme, data: bytes, pk: bytes, now: i64)
    requires ClockInRange(now)
    ensures var verdict := Verify(s, data, pk, now);
      && (verdict.Err? ==> verdict.error in {InvalidToken, Crypto, Expired})
      && (verdict.Ok? || verdict == Err(Expired) ==>
            && Parse(data).Ok?
            && var t := Parse(data).value;
              && t.version == TOKEN_VERSION && t.issuedAt <= t.expiresAt && s.validKey(pk)
              && s.verify(pk, data[..|data| - 64], t.signature) && verdict == WindowVerdict(t, now))
  {
  }

  // ---------------------------------------------------------------- acceptance is canonical

  /** `data` without its last 64 bytes, which is what the signature is checked over. */
  function SignedPart(data: bytes): bytes {
    if |data| < 64 then [] else data[..|data| - 64]
  }

  /**
   Suppose the signed part of an accepted buffer is the body of some token `t`, of any length. Then the
   parsed entitlements have the length the wrapped field says, so the bytes the parser ignores
   number exactly what the wrap-around lost: none if and only if `t`'s entitlements are shorter than 2^32.
   */
  lemma SurplusIsTheWrap(s: Scheme, data: bytes, pk: bytes, now: i64, t: LicenseToken)
    requires Verify(s, data, pk, now).Ok? && t.Sized() && SignedPart(data) == UnsignedBody(t)
    ensures var parsed := Verify(s, data, pk, now).value; var surplus := |data| - |SignedToken(parsed)|;
      && |parsed.entitlements| == |t.entitlements| % TWO_32
      && surplus == |t.entitlements| - |t.entitlements| % TWO_32
      && (surplus == 0 <==> |t.entitlements| < TWO_32)
  {
    var parsed := Verify(s, data, pk, now).value;
    BodyLayout(t);
    BodyLayout(parsed);
    assert data[65..69] == SignedPart(data)[65..69];
    U32RoundTrip(LengthField(t.entitlements));
  }

  /** Every message in `log` is the body of a token whose entitlements are shorter than 2^32. */
  ghost predicate OnlyBodies(log: set<bytes>) {
    forall m :: m in log ==> exists t: LicenseToken :: IsBodyOf(t, m)
  }

  ghost predicate IsBodyOf(t: LicenseToken, m: bytes) {
    t.Sized() && |t.entitlements| < TWO_32 && m == UnsignedBody(t)
  }

  /** Two tokens with the same body agree on every field but the signature. */
  lemma BodyDeterminesFields(t: LicenseToken, u: LicenseToken)
    requires t.Sized() && u.Sized() && UnsignedBody(t) == UnsignedBody(u)
    ensures u == t.(signature := u.signature)
  {
    BodyLayout(t);
    BodyLayout(u);
    I64RoundTrip(t.issuedAt);
    I64RoundTrip(t.expiresAt);
    I64RoundTrip(u.issuedAt);
    I64RoundTrip(u.expiresAt);
  }

  /** The signature that `data` presents is no forgery. */
  ghost predicate NotForged(s: Scheme, data: bytes, pk: bytes, log: set<bytes>) {
    Parse(data).Ok? ==> Genuine(s, pk, log, SignedPart(data), Parse(data).value.signature)
  }

  /**
   Canonical acceptance. If the key has only ever signed printed bodies, any buffer the client accepts
   is one printed token with nothing after it, its signed part is one of the signed bodies, and it
   parses to that body's fields, although the parser alone ignores trailing bytes.
   */
  lemma AcceptanceIsCanonical(s: Scheme, data: bytes, pk: bytes, now: i64, log: set<bytes>)
    requires OnlyBodies(log) && NotForged(s, data, pk, log)
    requires Verify(s, data, pk, now).Ok?
    ensures var parsed := Verify(s, data, pk, now).value;
      && data == SignedToken(parsed)
      && UnsignedBody(parsed) in log
      && forall t: LicenseToken :: IsBodyOf(t, UnsignedBody(parsed)) ==> parsed == t.(signature := parsed.signature)
  {
    var parsed := Verify(s, data, pk, now).value;
    assert SignedPart(data) in log;
    var t: LicenseToken :| IsBodyOf(t, SignedPart(data));
    SurplusIsTheWrap(s, data, pk, now, t);
    PrintedOfParse(data);
    assert data == SignedToken(parsed);
    assert SignedPart(data) == UnsignedBody(parsed);
    forall u: LicenseToken | IsBodyOf(u, UnsignedBody(parsed)) ensures parsed == u.(signature := parsed.signature) {
      BodyDeterminesFields(u, parsed);
    }
  }

  // ---------------------------------------------------------------- build, then verify

  /** The token `Build` fills in before signing; `ttl` is the lifetime in whole seconds. */
  function Draft(licenseId: bytes, machineId: bytes, entitlements: bytes, ttl: int, now: i64, nonce: bytes)
    : LicenseToken
  {
    LicenseToken(TOKEN_VERSION, licenseId, machineId, now, Wrap64(now + ttl), entitlements, nonce, seq(64, _ => 0))
  }

  function Signed(s: Scheme, seed: bytes, draft: LicenseToken): LicenseToken {
    draft.(signature := s.sign(seed, UnsignedBody(draft)))
  }

  /** Builds a token for a licence whose textual ID parsed to `licenseId`, or did not, with a nonce if there is one. */
  method Build(signer: Signer, licenseId: Option<bytes>, machineId: bytes, entitlements: bytes, ttl: int, now: i64,
               random: Option<bytes>)
    returns (r: Option<bytes>)
    requires licenseId.Some? ==> |licenseId.value| == 16
    requires random.Some? ==> |random.value| == 32
    requires |machineId| == 32 && Sound(signer.scheme)
    modifies signer
    ensures licenseId.None? || random.None? ==> r.None? && signer.signed == old(signer.signed)
    ensures licenseId.Some? && random.Some? ==>
      var draft := Draft(licenseId.value, machineId, entitlements, ttl, now, random.value);
      && r == Some(SignedToken(Signed(signer.scheme, signer.seed, draft)))
      && signer.signed == old(signer.signed) + {UnsignedBody(draft)}
  {
    if licenseId.None? {
      return None;
    }
    var tok := Draft([], machineId, entitlements, ttl, now, []);
    tok := tok.(licenseId := licenseId.value);
    if random.None? {
      return None;
    }
    tok := tok.(nonce := random.value);
    var body := MarshalUnsigned(tok);
    var sig := signer.Sign(body);
    tok := tok.(signature := sig);
    var out := MarshalSigned(tok);
    return Some(out);
  }

  /**
   A server-built token verifies to exactly the fields it was built from if and only if its entitlements
   are within the cap, its window did not wrap, and `now` is inside the skewed window. Within the cap it
   is expired after the window and invalid before it; a token over the cap, or one whose
   expiry precedes its issue, is invalid at all times.
   */
  lemma BuiltTokenVerdict(s: Scheme, seed: bytes, licenseId: bytes, machineId: bytes, entitlements: bytes,
                          ttl: int, issued: i64, nonce: bytes, now: i64)
    requires Sound(s) && ClockInRange(now)
    requires |licenseId| == 16 && |machineId| == 32 && |nonce| == 32
    ensures
      var t := Signed(s, seed, Draft(licenseId, machineId, entitlements, ttl, issued, nonce));
      var verdict := Verify(s, SignedToken(t), s.publicKey(seed), now);
      && (verdict == Ok(t) <==>
          && |entitlements| <= MAX_ENTITLEMENTS_LEN
          && t.issuedAt <= t.expiresAt
          && issued - CLOCK_SKEW_SECS <= now <= t.expiresAt + CLOCK_SKEW_SECS)
      && (|entitlements| < TWO_32 ==>
            verdict == if |entitlements| <= MAX_ENTITLEMENTS_LEN && t.issuedAt <= t.expiresAt
                       then WindowVerdict(t, now) else Err(InvalidToken))
  {
    var draft := Draft(licenseId, machineId, entitlements, ttl, issued, nonce);
    var t := Signed(s, seed, draft);
    var data := SignedToken(t);
    assert UnsignedBody(t) == UnsignedBody(draft);
    assert s.verify(s.publicKey(seed), UnsignedBody(draft), t.signature);
    PrefixLayout(t, data);
    assert data[..|data| - 64] == UnsignedBody(t);
    LengthOfPrinted(t, data);
    if |entitlements| <= MAX_ENTITLEMENTS_LEN {
      ParseOfPrinted(t, data);
    }
  }

  /** With a non-negative lifetime and no overflow the window is the one asked for. */
  lemma LifetimeIsKept(licenseId: bytes, machineId: bytes, entitlements: bytes, ttl: int, issued: i64, nonce: bytes)
    requires MIN_I64 <= issued + ttl <= MAX_I64
    ensures var t := Draft(licenseId, machineId, entitlements, ttl, issued, nonce);
      t.expiresAt == issued + ttl && (t.issuedAt <= t.expiresAt <==> 0 <= ttl)
  {
  }

  /**
   Outside that clock range the window check is not the one intended. The sum or difference wraps, and a
   token is accepted only if it was issued within 60 s of the smallest 64-bit time (late clock) or expires
   within 60 s of the largest (early clock).
   */
  lemma OverflowingClockRejects(s: Scheme, data: bytes, pk: bytes, now: i64)
    requires Verify(s, data, pk, now).Ok?
    ensures var t := Verify(s, data, pk, now).value;
      && (now > MAX_I64 - CLOCK_SKEW_SECS ==> t.issuedAt <= now + CLOCK_SKEW_SECS - TWO_64)
      && (now < MIN_I64 + CLOCK_SKEW_SECS ==> t.expiresAt >= now - CLOCK_SKEW_SECS + TWO_64)
  {
    assert now > MAX_I64 - CLOCK_SKEW_SECS ==> Wrap64(now + CLOCK_SKEW_SECS) == now + CLOCK_SKEW_SECS - TWO_64;
    assert now < MIN_I64 + CLOCK_SKEW_SECS ==> Wrap64(now - CLOCK_SKEW_SECS) == now - CLOCK_SKEW_SECS + TWO_64;
  }
}
