/**
 The offline client (client/src/lib.rs): its in-memory fields, the encrypted cache file and the
 `.seen` rollback marker. Clocks, network replies, file-write results and the digest of the host
 binary are arguments; the two files are fields holding their contents.
 */
module Client {
  import opened Bytes
  import opened Outcomes
  import opened Text
  import opened Signatures
  import opened Token
  import opened Cache
  import opened Entitlements
  import opened Certificates
  import Comparison
  import Encodings
  import Uuids

  /** What the client computes with but the model does not look into. */
  datatype Platform = Platform(
    scheme: Scheme,
    pki: Pki,
    vault: Vault,
    sha256: bytes -> bytes,
    readJson: bytes -> Option<Json>)

  datatype ValidationSource = Online | OfflineCache

  datatype LicenseStatus =
    | Valid(expiresAt: Option<i64>, source: ValidationSource)
    | Expired
    | Invalid
    | OfflineGrace(daysRemaining: u32)
    | TrialExpired

  /** A torn write truncates the file and fails when `kept` elements of the new content are in it. */
  datatype WriteOutcome = Written | Refused | Torn(kept: nat)

  function FileAfter<T>(file: Option<seq<T>>, content: seq<T>, write: WriteOutcome): Option<seq<T>> {
    match write
    case Written => Some(content)
    case Refused => file
    case Torn(kept) => Some(if kept < |content| then content[..kept] else content)
  }

  /** The certificates of a registration, each `None` where its bytes are not DER, and the clock they are checked at. */
  datatype Presented = Presented(
    root: Option<Certificate>,
    intermediate: Option<Certificate>,
    leaf: Option<Certificate>,
    clock: Result<i64>)

  /**
   The network side of an activation. `keyText` is the served hex text of the signing key, `chain` what the registration
   presented, if it got that far and presented any, and `token` the issued bytes or the error that broke it off.
   */
  datatype Exchange =
    | NoServer
    | KeyUnavailable(error: LicenseError)
    | KeyServed(keyText: string, chain: Option<Presented>, token: Result<bytes>)
  {
    predicate IssuesToken() {
      KeyServed? && token.Ok?
    }
  }

  datatype ClientState = ClientState(
    serverKey: bytes,
    expectedDigest: Option<bytes>,
    licenseKey: Option<string>,
    entitlements: Option<Entitlements>,
    lastOnlineError: Option<LicenseError>,
    cache: Option<bytes>,       // the cache file, if it can be read
    marker: Option<string>)     // the rollback marker file, if it can be read

  // ---------------------------------------------------------------- the rollback marker

  function ReadMarker(file: Option<string>): Option<i64> {
    match file
    case Some(text) => ParseI64(Trim(text))
    case None => None
  }

  /** The marker as a lower bound: an unreadable one bounds nothing. */
  function MarkerValue(file: Option<string>): i64 {
    match ReadMarker(file)
    case Some(seen) => seen
    case None => MIN_I64
  }

  function Max(a: int, b: int): int {
    if a < b then b else a
  }

  function RaisedText(file: Option<string>, issuedAt: i64): string {
    PrintI64(Max(issuedAt, MarkerValue(file)))
  }

  function RaisedMarker(file: Option<string>, issuedAt: i64): Option<string> {
    Some(RaisedText(file, issuedAt))
  }

  lemma RaisedMarkerValue(file: Option<string>, issuedAt: i64)
    ensures ReadMarker(RaisedMarker(file, issuedAt)) == Some(Max(issuedAt, MarkerValue(file)))
  {
    PrintI64Reads(Max(issuedAt, MarkerValue(file)));
  }

  // ---------------------------------------------------------------- check

  /** The host binary must be readable and, when a digest is pinned, must match it. */
  function Gate(expected: Option<bytes>, digest: Result<bytes>): Option<LicenseError> {
    match digest
    case Err(_) => Some(Io)
    case Ok(actual) => if expected.Some? && actual != expected.value then Some(Crypto) else None
  }

  datatype Finding = Stop(status: LicenseStatus) | Honour(token: LicenseToken)

  /** Everything `check` decides before it touches a file. */
  function Examine(p: Platform, s: ClientState, machine: bytes, now: i64): Finding {
    if s.cache.None? then Stop(Invalid)
    else
      match Decrypted(p.vault, machine, s.cache.value)
      case Err(_) => Stop(Invalid)
      case Ok(tokenBytes) =>
        match Verify(p.scheme, tokenBytes, s.serverKey, now)
        case Err(e) => if e.Expired? then Stop(LicenseStatus.Expired) else Stop(Invalid)
        case Ok(token) =>
          var seen := ReadMarker(s.marker);
          if token.machineId != p.sha256(machine) then Stop(Invalid)
          else if seen.Some? && token.issuedAt < Wrap64(seen.value - CLOCK_SKEW_SECS) then Stop(Invalid)
          else Honour(token)
  }

  /** The state after a step, what it reported, and the issue time it honoured by raising the marker. */
  datatype Outcome<T> = Outcome(state: ClientState, report: T, honoured: Option<i64>)

  function GrantedBy(p: Platform, token: LicenseToken): Option<Entitlements> {
    match p.readJson(token.entitlements)
    case Some(tree) => ParseTree(tree)
    case None => None
  }

  function Checked(p: Platform, s: ClientState, digest: Result<bytes>, clock: Result<i64>, machine: bytes,
                   write: WriteOutcome)
    : Outcome<Result<LicenseStatus>>
  {
    if Gate(s.expectedDigest, digest).Some? then Outcome(s, Err(Gate(s.expectedDigest, digest).value), None)
    else if clock.Err? then Outcome(s, Err(clock.error), None)
    else
      match Examine(p, s, machine, clock.value)
      case Stop(status) => Outcome(s, Ok(status), None)
      case Honour(token) =>
        if write != Written
        then Outcome(s.(marker := FileAfter(s.marker, RaisedText(s.marker, token.issuedAt), write)), Err(Io), None)
        else
          var granted := GrantedBy(p, token);
          Outcome(s.(marker := RaisedMarker(s.marker, token.issuedAt),
                     entitlements := if granted.Some? then granted else s.entitlements),
                  Ok(Valid(Some(token.expiresAt), OfflineCache)), Some(token.issuedAt))
  }

  // ---------------------------------------------------------------- activate

  /** The served key text, hex-decoded; only 32 bytes will do. */
  function LearntKey(keyText: string): Option<bytes> {
    match Encodings.DecodeHex(Trim(keyText))
    case Some(key) => if |key| == 32 then Some(key) else None
    case None => None
  }

  datatype Device = Device(
    clock: Result<i64>,
    machine: bytes,
    nonce: bytes,
    cacheWrite: WriteOutcome,
    markerWrite: WriteOutcome)

  /** The last step of an online activation: verify, bind to the machine, persist, raise the marker. */
  function Accepted(p: Platform, s: ClientState, tokenBytes: bytes, d: Device): Outcome<Result<Option<Entitlements>>> {
    if d.clock.Err? then Outcome(s, Err(d.clock.error), None)
    else
      match Verify(p.scheme, tokenBytes, s.serverKey, d.clock.value)
      case Err(e) => Outcome(s, Err(e), None)
      case Ok(token) =>
        if token.machineId != p.sha256(d.machine) then Outcome(s, Err(MachineMismatch), None)
        else
          match Encrypted(p.vault, d.machine, d.nonce, tokenBytes)
          case Err(e) => Outcome(s, Err(e), None)
          case Ok(blob) =>
            var cached := s.(cache := FileAfter(s.cache, blob, d.cacheWrite));
            var marked := cached.(marker := FileAfter(s.marker, RaisedText(s.marker, token.issuedAt), d.markerWrite));
            if d.cacheWrite != Written then Outcome(cached, Err(Io), None)
            else if d.markerWrite != Written then Outcome(marked, Err(Io), None)
            else
              var granted := GrantedBy(p, token);
              var shown := if granted.Some? then granted.value else DEFAULT_ENTITLEMENTS;
              Outcome(marked, Ok(Some(shown)), Some(token.issuedAt))
  }

  function ChainVerdict(p: Platform, chain: Presented): Result<()> {
    if chain.clock.Err? then Err(chain.clock.error)
    else VerifyChainAt(p.pki, chain.root, chain.intermediate, chain.leaf, chain.clock.value)
  }

  /** A new server key is kept even when a later step of the exchange fails. */
  function TriedOnline(p: Platform, s: ClientState, x: Exchange, d: Device): Outcome<Result<Option<Entitlements>>> {
    match x
    case NoServer => Outcome(s, Ok(None), None)
    case KeyUnavailable(e) => Outcome(s, Err(e), None)
    case KeyServed(keyText, chain, token) =>
      if LearntKey(keyText).None? then Outcome(s, Err(Crypto), None)
      else
        var learnt := s.(serverKey := LearntKey(keyText).value);
        if chain.Some? && ChainVerdict(p, chain.value).Err?
        then Outcome(learnt, Err(ChainVerdict(p, chain.value).error), None)
        else if token.Err? then Outcome(learnt, Err(token.error), None)
        else Accepted(p, learnt, token.value, d)
  }

  function Activated(p: Platform, s: ClientState, key: string, x: Exchange, d: Device): Outcome<Result<Entitlements>> {
    if key == "" then Outcome(s, Err(Inactive), None)
    else
      var tried := TriedOnline(p, s.(licenseKey := Some(key), lastOnlineError := None), x, d);
      var online := tried.report.Ok? && tried.report.value.Some?;
      var granted := if online then tried.report.value.value else DEFAULT_ENTITLEMENTS;
      var error := if tried.report.Err? then Some(tried.report.error) else None;
      Outcome(tried.state.(lastOnlineError := error, entitlements := Some(granted)), Ok(granted), tried.honoured)
  }

  function Deactivated(s: ClientState, cacheRemoved: bool, markerRemoved: bool): ClientState {
    s.(licenseKey := None, entitlements := None,
       cache := if cacheRemoved then None else s.cache,
       marker := if markerRemoved then None else s.marker)
  }

  /** The reported licence ID is this machine's, in UUID spelling; the server's own is in the token. */
  datatype ActivationResult = ActivationResult(licenseId: string, entitlements: Entitlements)

  function UuidString(machine: bytes): string
    requires |machine| == 32
  {
    Encodings.HexDigitsOnly(machine[..16]);
    Uuids.Spelled(Encodings.EncodeHex(machine[..16]), Uuids.STANDARD_HYPHENS)
  }

  lemma UuidStringIsCanonical(machine: bytes)
    requires |machine| == 32
    ensures Uuids.IsCanonical(UuidString(machine))
  {
    var digits := Encodings.EncodeHex(machine[..16]);
    Encodings.HexDigitsOnly(machine[..16]);
    Uuids.SpellingIsRead(UuidString(machine), digits, Uuids.STANDARD_HYPHENS, false);
  }

  /** It spells the first 16 bytes of the machine ID and no others. */
  lemma UuidStringSpells(machine: bytes)
    requires |machine| == 32
    ensures var digits := Uuids.ReadGroups(UuidString(machine), 8);
      digits.Some? && Encodings.DecodeHex(digits.value) == Some(machine[..16])
  {
    var digits := Encodings.EncodeHex(machine[..16]);
    Encodings.HexDigitsOnly(machine[..16]);
    Encodings.HexRoundTrip(machine[..16]);
    Uuids.SpelledIsRead(digits, Uuids.STANDARD_HYPHENS);
  }

  /** So two machines report the same ID exactly when those bytes agree. */
  lemma UuidStringsAgreeIff(machine: bytes, other: bytes)
    requires |machine| == 32 && |other| == 32
    ensures UuidString(machine) == UuidString(other) <==> machine[..16] == other[..16]
  {
    UuidStringSpells(machine);
    UuidStringSpells(other);
  }

  // ---------------------------------------------------------------- the client object

  class LicensifyClient {
    const p: Platform
    var serverKey: bytes
    var expectedDigest: Option<bytes>
    var licenseKey: Option<string>
    var entitlements: Option<Entitlements>
    var lastOnlineError: Option<LicenseError>
    var cacheFile: Option<bytes>
    var markerFile: Option<string>

    function State(): ClientState
      reads this
    {
      ClientState(serverKey, expectedDigest, licenseKey, entitlements, lastOnlineError, cacheFile, markerFile)
    }

    constructor (p: Platform, serverKey: bytes, expectedDigest: Option<bytes>,
                 cacheFile: Option<bytes>, markerFile: Option<string>)
      ensures this.p == p
      ensures State() == ClientState(serverKey, expectedDigest, None, None, None, cacheFile, markerFile)
    {
      this.p := p;
      this.serverKey := serverKey;
      this.expectedDigest := expectedDigest;
      this.licenseKey, this.entitlements, this.lastOnlineError := None, None, None;
      this.cacheFile, this.markerFile := cacheFile, markerFile;
    }

    method SetServerKey(key: bytes)
      modifies this`serverKey
      ensures State() == old(State()).(serverKey := key)
    {
      serverKey := key;
    }

    method SetExpectedDigest(digest: Option<bytes>)
      modifies this`expectedDigest
      ensures State() == old(State()).(expectedDigest := digest)
    {
      expectedDigest := digest;
    }

    method IntegrityCheck(digest: Result<bytes>) returns (failure: Option<LicenseError>)
      ensures failure == Gate(expectedDigest, digest)
      ensures failure.None? <==> digest.Ok? && (expectedDigest.None? || digest.value == expectedDigest.value)
      ensures failure.Some? ==> failure.value == if digest.Err? then Io else Crypto
    {
      if digest.Err? {
        return Some(Io);
      }
      if expectedDigest.Some? {
        var same := Comparison.CtEq(digest.value, expectedDigest.value);
        if !same {
          return Some(Crypto);
        }
      }
      return None;
    }

    method WriteRollbackMarker(issuedAt: i64, write: WriteOutcome) returns (failure: Option<LicenseError>)
      modifies this`markerFile
      ensures failure == if write == Written then None else Some(Io)
      ensures markerFile == FileAfter(old(markerFile), RaisedText(old(markerFile), issuedAt), write)
    {
      var prev := MIN_I64;
      var seen := ReadMarker(markerFile);
      if seen.Some? {
        prev := seen.value;
      }
      var newest := issuedAt;
      if newest < prev {
        newest := prev;
      }
      markerFile := FileAfter(markerFile, PrintI64(newest), write);
      if write != Written {
        return Some(Io);
      }
      return None;
    }

    method TryOnlineActivation(x: Exchange, d: Device)
      returns (r: Result<Option<Entitlements>>, ghost honoured: Option<i64>)
      requires |d.nonce| == NONCE_LEN
      modifies this`serverKey, this`cacheFile, this`markerFile
      ensures Outcome(State(), r, honoured) == TriedOnline(p, old(State()), x, d)
    {
      honoured := None;
      if x.NoServer? {
        return Ok(None), None;
      }
      if x.KeyUnavailable? {
        return Err(x.error), None;
      }
      var keyBytes := Encodings.DecodeHex(Trim(x.keyText));
      if keyBytes.None? || |keyBytes.value| != 32 {
        return Err(Crypto), None;
      }
      serverKey := keyBytes.value;
      if x.chain.Some? {
        var chain := x.chain.value;
        if chain.clock.Err? {
          return Err(chain.clock.error), None;
        }
        var verdict := VerifyChainAt(p.pki, chain.root, chain.intermediate, chain.leaf, chain.clock.value);
        if verdict.Err? {
          return Err(verdict.error), None;
        }
      }
      if x.token.Err? {
        return Err(x.token.error), None;
      }
      var tokenBytes := x.token.value;
      if d.clock.Err? {
        return Err(d.clock.error), None;
      }
      var verified := Verify(p.scheme, tokenBytes, serverKey, d.clock.value);
      if verified.Err? {
        return Err(verified.error), None;
      }
      var parsed := verified.value;
      var bound := Comparison.CtEq(parsed.machineId, p.sha256(d.machine));
      if !bound {
        return Err(MachineMismatch), None;
      }
      var blob := EncryptToken(p.vault, d.machine, d.nonce, tokenBytes);
      if blob.Err? {
        return Err(blob.error), None;
      }
      cacheFile := FileAfter(cacheFile, blob.value, d.cacheWrite);
      if d.cacheWrite != Written {
        return Err(Io), None;
      }
      var failure := WriteRollbackMarker(parsed.issuedAt, d.markerWrite);
      if failure.Some? {
        return Err(failure.value), None;
      }
      honoured := Some(parsed.issuedAt);
      var granted := GrantedBy(p, parsed);
      if granted.None? {
        granted := Some(DEFAULT_ENTITLEMENTS);
      }
      r := Ok(granted);
    }

    method Activate(key: string, x: Exchange, d: Device)
      returns (r: Result<ActivationResult>, ghost honoured: Option<i64>)
      requires |d.nonce| == NONCE_LEN && |d.machine| == 32
      modifies this
      ensures var o := Activated(p, old(State()), key, x, d);
        && State() == o.state && honoured == o.honoured
        && r == match o.report
                case Ok(granted) => Ok(ActivationResult(UuidString(d.machine), granted))
                case Err(e) => Err(e)
    {
      if key == "" {
        return Err(Inactive), None;
      }
      licenseKey := Some(key);
      lastOnlineError := None;
      var attempt;
      attempt, honoured := TryOnlineActivation(x, d);
      var granted := DEFAULT_ENTITLEMENTS;
      if attempt.Err? {
        lastOnlineError := Some(attempt.error);
      } else if attempt.value.Some? {
        granted := attempt.value.value;
      }
      entitlements := Some(granted);
      r := Ok(ActivationResult(UuidString(d.machine), granted));
    }

    /** The part of `check` that only reads. */
    method ExamineCache(machine: bytes, now: i64) returns (f: Finding)
      ensures f == Examine(p, State(), machine, now)
    {
      if cacheFile.None? {
        return Stop(Invalid);
      }
      var decrypted := Decrypted(p.vault, machine, cacheFile.value);
      if decrypted.Err? {
        return Stop(Invalid);
      }
      var verified := Verify(p.scheme, decrypted.value, serverKey, now);
      if verified.Err? {
        return Stop(if verified.error.Expired? then LicenseStatus.Expired else Invalid);
      }
      var parsed := verified.value;
      var bound := Comparison.CtEq(parsed.machineId, p.sha256(machine));
      if !bound {
        return Stop(Invalid);
      }
      var seen := ReadMarker(markerFile);
      if seen.Some? && parsed.issuedAt < Wrap64(seen.value - CLOCK_SKEW_SECS) {
        return Stop(Invalid);
      }
      return Honour(parsed);
    }

    method Check(digest: Result<bytes>, clock: Result<i64>, machine: bytes, write: WriteOutcome)
      returns (r: Result<LicenseStatus>, ghost honoured: Option<i64>)
      modifies this`markerFile, this`entitlements
      ensures Outcome(State(), r, honoured) == Checked(p, old(State()), digest, clock, machine, write)
    {
      var tampered := IntegrityCheck(digest);
      if tampered.Some? {
        return Err(tampered.value), None;
      }
      if clock.Err? {
        return Err(clock.error), None;
      }
      var finding := ExamineCache(machine, clock.value);
      if finding.Stop? {
        return Ok(finding.status), None;
      }
      var parsed := finding.token;
      var failure := WriteRollbackMarker(parsed.issuedAt, write);
      if failure.Some? {
        return Err(failure.value), None;
      }
      honoured := Some(parsed.issuedAt);
      var granted := GrantedBy(p, parsed);
      if granted.Some? {
        entitlements := granted;
      }
      r := Ok(Valid(Some(parsed.expiresAt), OfflineCache));
    }

    method Deactivate(cacheRemoved: bool, markerRemoved: bool)
      modifies this`licenseKey, this`entitlements, this`cacheFile, this`markerFile
      ensures State() == Deactivated(old(State()), cacheRemoved, markerRemoved)
    {
      licenseKey := None;
      entitlements := None;
      if cacheRemoved {
        cacheFile := None;
      }
      if markerRemoved {
        markerFile := None;
      }
    }
  }
}
