/** What holds over whole runs of the client, whatever the network, the clock and the cache file do. */
module ClientRuns {
  import opened Bytes
  import opened Outcomes
  import opened Token
  import opened Cache
  import opened Client

  /** One step of a run; `CacheReplaced` is the environment swapping or losing the cache file. */
  datatype Event =
    | Activate(key: string, exchange: Exchange, device: Device)
    | Check(digest: Result<bytes>, clock: Result<i64>, machine: bytes, write: WriteOutcome)
    | Deactivate(cacheRemoved: bool, markerRemoved: bool)
    | SetServerKey(serverKey: bytes)
    | SetExpectedDigest(expected: Option<bytes>)
    | CacheReplaced(blob: Option<bytes>)

  /** A run step reports a status only when it is a check. */
  function Step(p: Platform, s: ClientState, e: Event): Outcome<Option<Result<LicenseStatus>>> {
    match e
    case Activate(key, x, d) => var o := Activated(p, s, key, x, d); Outcome(o.state, None, o.honoured)
    case Check(digest, clock, machine, write) =>
      var o := Checked(p, s, digest, clock, machine, write); Outcome(o.state, Some(o.report), o.honoured)
    case Deactivate(c, m) => Outcome(Deactivated(s, c, m), None, None)
    case SetServerKey(key) => Outcome(s.(serverKey := key), None, None)
    case SetExpectedDigest(digest) => Outcome(s.(expectedDigest := digest), None, None)
    case CacheReplaced(blob) => Outcome(s.(cache := blob), None, None)
  }

  /** A step can lose the marker in two ways: a deactivation removes it, or writing it is torn. */
  predicate KeepsMarker(e: Event) {
    match e
    case Deactivate(_, markerRemoved) => !markerRemoved
    case Activate(_, _, device) => !device.markerWrite.Torn?
    case Check(_, _, _, write) => !write.Torn?
    case _ => true
  }

  /** A run: the states around each event, what each step reported, and what it honoured. */
  datatype Run = Run(
    states: seq<ClientState>,
    events: seq<Event>,
    reports: seq<Option<Result<LicenseStatus>>>,
    honoured: seq<Option<i64>>)
  {
    predicate Sized() {
      |states| == |events| + 1 && |reports| == |events| && |honoured| == |events|
    }

    function Marker(k: nat): i64
      requires k < |states|
    {
      MarkerValue(states[k].marker)
    }

    predicate MarkerKept(from: nat, to: nat)
      requires from <= to <= |events|
    {
      forall k :: from <= k < to ==> KeepsMarker(events[k])
    }
  }

  ghost predicate StepsAt(p: Platform, r: Run, k: nat)
    requires r.Sized() && k < |r.events|
  {
    Step(p, r.states[k], r.events[k]) == Outcome(r.states[k + 1], r.reports[k], r.honoured[k])
  }

  ghost predicate IsRun(p: Platform, r: Run) {
    r.Sized() && forall k :: 0 <= k < |r.events| ==> StepsAt(p, r, k)
  }

  /** Every list of events has a run from every state: no step is ever stuck. */
  lemma {:induction false} EveryEventListRuns(p: Platform, s: ClientState, es: seq<Event>) returns (r: Run)
    ensures IsRun(p, r) && r.events == es && r.states[0] == s
  {
    if es == [] {
      r := Run([s], [], [], []);
    } else {
      var n := |es| - 1;
      var q := EveryEventListRuns(p, s, es[..n]);
      var o := Step(p, q.states[n], es[n]);
      r := Run(q.states + [o.state], q.events + [es[n]], q.reports + [o.report], q.honoured + [o.honoured]);
      forall k | 0 <= k < |r.events| ensures StepsAt(p, r, k) {
        if k < n {
          assert StepsAt(p, q, k);
        }
      }
    }
  }

  predicate IsValid(report: Option<Result<LicenseStatus>>) {
    report.Some? && report.value.Ok? && report.value.value.Valid?
  }

  // ---------------------------------------------------------------- the marker

  /** The marker file is rewritten exactly when something was honoured, and then raised to it. */
  predicate MarkerFollows(before: ClientState, after: ClientState, honoured: Option<i64>) {
    after.marker == if honoured.Some? then RaisedMarker(before.marker, honoured.value) else before.marker
  }

  lemma CheckMovesMarker(p: Platform, s: ClientState, digest: Result<bytes>, clock: Result<i64>, machine: bytes,
                         write: WriteOutcome)
    requires !write.Torn?
    ensures var o := Checked(p, s, digest, clock, machine, write); MarkerFollows(s, o.state, o.honoured)
  {
  }

  lemma ActivationMovesMarker(p: Platform, s: ClientState, key: string, x: Exchange, d: Device)
    requires !d.markerWrite.Torn?
    ensures MarkerFollows(s, Activated(p, s, key, x, d).state, Activated(p, s, key, x, d).honoured)
  {
  }

  /** One step raises the marker to what it honoured, and otherwise leaves its value alone. */
  lemma MarkerStep(p: Platform, s: ClientState, e: Event)
    requires KeepsMarker(e)
    ensures var o := Step(p, s, e);
      MarkerValue(o.state.marker)
      == if o.honoured.Some? then Max(o.honoured.value, MarkerValue(s.marker)) else MarkerValue(s.marker)
  {
    if e.Check? {
      CheckMovesMarker(p, s, e.digest, e.clock, e.machine, e.write);
    } else if e.Activate? {
      ActivationMovesMarker(p, s, e.key, e.exchange, e.device);
    }
    var o := Step(p, s, e);
    assert MarkerFollows(s, o.state, o.honoured);
    if o.honoured.Some? {
      RaisedMarkerValue(s.marker, o.honoured.value);
    }
  }

  /** `MarkerStep`, for the step at `k`. */
  predicate RaisedAt(r: Run, k: nat)
    requires r.Sized() && k < |r.events|
  {
    r.Marker(k + 1) == if r.honoured[k].Some? then Max(r.honoured[k].value, r.Marker(k)) else r.Marker(k)
  }

  lemma MarkerSteps(p: Platform, r: Run, from: nat, to: nat)
    requires IsRun(p, r) && from <= to <= |r.events| && r.MarkerKept(from, to)
    ensures forall k :: from <= k < to ==> RaisedAt(r, k)
  {
    forall k | from <= k < to ensures RaisedAt(r, k) {
      assert StepsAt(p, r, k);
      MarkerStep(p, r.states[k], r.events[k]);
    }
  }

  lemma {:induction false} RaisesAddUp(r: Run, from: nat, to: nat)
    requires r.Sized() && from <= to <= |r.events|
    requires forall k :: from <= k < to ==> RaisedAt(r, k)
    ensures r.Marker(from) <= r.Marker(to)
    ensures forall k :: from <= k < to && r.honoured[k].Some? ==> r.honoured[k].value <= r.Marker(to)
    ensures r.Marker(to) == r.Marker(from) || exists k :: from <= k < to && r.honoured[k] == Some(r.Marker(to))
  {
    if from < to {
      RaisesAddUp(r, from, to - 1);
      assert RaisedAt(r, to - 1);
    }
  }

  /**
   As long as no step loses the marker, it is the maximum of its starting value and every issue time honoured so far: it
   bounds them all, and it is one of them. The cache file may be swapped at will.
   */
  lemma MarkerIsTheRunningMaximum(p: Platform, r: Run, from: nat, to: nat)
    requires IsRun(p, r) && from <= to <= |r.events| && r.MarkerKept(from, to)
    ensures r.Marker(from) <= r.Marker(to)
    ensures forall k :: from <= k < to && r.honoured[k].Some? ==> r.honoured[k].value <= r.Marker(to)
    ensures r.Marker(to) == r.Marker(from) || exists k :: from <= k < to && r.honoured[k] == Some(r.Marker(to))
  {
    MarkerSteps(p, r, from, to);
    RaisesAddUp(r, from, to);
  }

  /** A valid check honours a token no more than the tolerance below the marker, even where the difference wraps. */
  lemma ValidRespectsMarker(p: Platform, s: ClientState, e: Event)
    requires e.Check? && IsValid(Step(p, s, e).report)
    ensures var o := Step(p, s, e);
      o.honoured.Some? && o.honoured.value >= MarkerValue(s.marker) - CLOCK_SKEW_SECS
  {
    var seen := ReadMarker(s.marker);
    if seen.Some? {
      assert Wrap64(seen.value - CLOCK_SKEW_SECS) >= seen.value - CLOCK_SKEW_SECS;
    }
  }

  /**
   No drift. Take any two steps of any run between which no step loses the marker. If the earlier honoured an issue time
   and the later is a valid check, the later token is at most 60 s older, however many tolerated steps back lie between.
   */
  lemma ToleranceDoesNotDrift(p: Platform, r: Run, j: nat, i: nat)
    requires IsRun(p, r) && j < i < |r.events| && r.MarkerKept(j, i)
    requires r.honoured[j].Some?
    requires r.events[i].Check? && IsValid(r.reports[i])
    ensures r.honoured[i].Some? && r.honoured[i].value >= r.honoured[j].value - CLOCK_SKEW_SECS
  {
    MarkerIsTheRunningMaximum(p, r, j, i);
    assert StepsAt(p, r, i);
    ValidRespectsMarker(p, r.states[i], r.events[i]);
  }

  /** After a deactivation that removes the marker nothing bounds the next token; one that cannot forgets nothing. */
  lemma DeactivationForgets(s: ClientState, cacheRemoved: bool, markerRemoved: bool)
    ensures MarkerValue(Deactivated(s, cacheRemoved, markerRemoved).marker)
         == if markerRemoved then MIN_I64 else MarkerValue(s.marker)
  {
  }

  /** A marker write that tears right after truncating leaves an empty file, which bounds nothing. */
  lemma TornWriteForgets(p: Platform, s: ClientState, digest: Result<bytes>, machine: bytes, now: i64)
    requires Gate(s.expectedDigest, digest).None? && Examine(p, s, machine, now).Honour?
    ensures var o := Checked(p, s, digest, Ok(now), machine, Torn(0));
      && o.report == Err(Io) && o.state == s.(marker := Some("")) && ReadMarker(o.state.marker) == None
  {
  }

  /** Honouring a token at `now` and then examining the same cache again at `now` honours it again. */
  lemma HonouredAgain(p: Platform, s: ClientState, machine: bytes, now: i64)
    requires Examine(p, s, machine, now).Honour?
    requires Examine(p, s, machine, now).token.issuedAt >= MIN_I64 + CLOCK_SKEW_SECS
    ensures var t := Examine(p, s, machine, now).token;
      Examine(p, s.(marker := RaisedMarker(s.marker, t.issuedAt)), machine, now) == Honour(t)
  {
    RaisedMarkerValue(s.marker, Examine(p, s, machine, now).token.issuedAt);
  }

  /** What one more check does where the cache is honoured. */
  lemma HonouringCheck(p: Platform, s: ClientState, digest: Result<bytes>, machine: bytes, now: i64)
    requires Gate(s.expectedDigest, digest).None? && Examine(p, s, machine, now).Honour?
    ensures var o := Checked(p, s, digest, Ok(now), machine, Written); var t := Examine(p, s, machine, now).token;
      && o.report == Ok(Valid(Some(t.expiresAt), OfflineCache)) && o.honoured == Some(t.issuedAt)
      && o.state == s.(marker := RaisedMarker(s.marker, t.issuedAt), entitlements := o.state.entitlements)
  {
  }

  /** After a torn write a swapped-in token is examined as if there were no marker. */
  lemma SwapAfterTornWrite(p: Platform, s: ClientState, digest: Result<bytes>, machine: bytes, now: i64,
                           older: Option<bytes>)
    requires Gate(s.expectedDigest, digest).None? && Examine(p, s, machine, now).Honour?
    ensures var torn := Step(p, s, Check(digest, Ok(now), machine, Torn(0))).state;
      var swapped := Step(p, torn, CacheReplaced(older)).state;
      && Examine(p, swapped, machine, now) == Examine(p, s.(cache := older, marker := None), machine, now)
      && swapped.expectedDigest == s.expectedDigest
  {
    TornWriteForgets(p, s, digest, machine, now);
  }

  /**
   So the bound does fail there: honour a token, tear the next marker write, swap in any older token that is still in
   its window, and the next check honours that one, however much older it is.
   */
  lemma DriftAfterTornWrite(p: Platform, s: ClientState, digest: Result<bytes>, machine: bytes, now: i64,
                            older: Option<bytes>)
    requires Gate(s.expectedDigest, digest).None? && Examine(p, s, machine, now).Honour?
    requires Examine(p, s, machine, now).token.issuedAt >= MIN_I64 + CLOCK_SKEW_SECS
    requires Examine(p, s.(cache := older, marker := None), machine, now).Honour?
    ensures
      var check, torn := Check(digest, Ok(now), machine, Written), Check(digest, Ok(now), machine, Torn(0));
      var replaced := s.(cache := older, marker := None);
      var s1 := Step(p, s, check).state;
      var s3 := Step(p, Step(p, s1, torn).state, CacheReplaced(older)).state;
      && Step(p, s, check).honoured == Some(Examine(p, s, machine, now).token.issuedAt)
      && IsValid(Step(p, s3, check).report)
      && Step(p, s3, check).honoured == Some(Examine(p, replaced, machine, now).token.issuedAt)
  {
    var check := Check(digest, Ok(now), machine, Written);
    var s1 := Step(p, s, check).state;
    HonouringCheck(p, s, digest, machine, now);
    HonouredAgain(p, s, machine, now);
    var raised := s.(marker := RaisedMarker(s.marker, Examine(p, s, machine, now).token.issuedAt));
    assert Examine(p, s1, machine, now) == Examine(p, raised, machine, now);
    SwapAfterTornWrite(p, s1, digest, machine, now, older);
    assert Examine(p, s1.(cache := older, marker := None), machine, now)
        == Examine(p, s.(cache := older, marker := None), machine, now);
    HonouringCheck(p, Step(p, Step(p, s1, Check(digest, Ok(now), machine, Torn(0))).state, CacheReplaced(older)).state,
                   digest, machine, now);
  }

  // ---------------------------------------------------------------- the time phases of a cached token

  /** A token that verified once is judged by its window alone at every other time. */
  lemma OnlyTheWindowDepends(p: Platform, data: bytes, pk: bytes, first: i64, now: i64)
    requires Verify(p.scheme, data, pk, first).Ok? && ClockInRange(now)
    ensures Verify(p.scheme, data, pk, now) == WindowVerdict(Verify(p.scheme, data, pk, first).value, now)
  {
  }

  /** The status of a cached token at `now`, given whether the marker admits it. */
  function PhaseAt(issuedAt: i64, expiresAt: i64, admitted: bool, now: i64): LicenseStatus {
    if now < issuedAt - CLOCK_SKEW_SECS then Invalid
    else if now > expiresAt + CLOCK_SKEW_SECS then LicenseStatus.Expired
    else if admitted then Valid(Some(expiresAt), OfflineCache)
    else Invalid
  }

  /** The status a state shows at every time, once its cached bytes are known to verify at one time. */
  lemma PhasesOfCached(p: Platform, s: ClientState, machine: bytes, tokenBytes: bytes, first: i64, now: i64,
                       digest: Result<bytes>)
    requires s.cache.Some? && Decrypted(p.vault, machine, s.cache.value) == Ok(tokenBytes)
    requires Verify(p.scheme, tokenBytes, s.serverKey, first).Ok?
    requires Verify(p.scheme, tokenBytes, s.serverKey, first).value.machineId == p.sha256(machine)
    requires ReadMarker(s.marker).Some? && MarkerValue(s.marker) >= MIN_I64 + CLOCK_SKEW_SECS
    requires Gate(s.expectedDigest, digest).None? && ClockInRange(now)
    ensures var t := Verify(p.scheme, tokenBytes, s.serverKey, first).value;
      Checked(p, s, digest, Ok(now), machine, Written).report
      == Ok(PhaseAt(t.issuedAt, t.expiresAt, t.issuedAt >= MarkerValue(s.marker) - CLOCK_SKEW_SECS, now))
  {
    OnlyTheWindowDepends(p, tokenBytes, s.serverKey, first, now);
  }

  /**
   From a state that a valid check left, with files, key and machine unchanged, the status as a function of
   time is Invalid, then Valid, then Expired, with boundaries at issued - 60 and expires + 60; and no check, valid or
   not, changes the state again.
   */
  lemma StatusPhases(p: Platform, before: ClientState, digest: Result<bytes>, first: i64, machine: bytes, now: i64)
    requires var o := Checked(p, before, digest, Ok(first), machine, Written); o.report.Ok? && o.report.value.Valid?
    requires ClockInRange(now)
    requires var o := Checked(p, before, digest, Ok(first), machine, Written);
      MarkerValue(o.state.marker) >= MIN_I64 + CLOCK_SKEW_SECS
    ensures var o := Checked(p, before, digest, Ok(first), machine, Written);
      var again := Checked(p, o.state, digest, Ok(now), machine, Written);
      && again.report == Ok(PhaseAt(o.honoured.value, o.report.value.expiresAt.value, true, now))
      && again.state == o.state
  {
    var o := Checked(p, before, digest, Ok(first), machine, Written);
    var token := Examine(p, before, machine, first).token;
    ValidRespectsMarker(p, before, Check(digest, Ok(first), machine, Written));
    RaisedMarkerValue(before.marker, token.issuedAt);
    var tokenBytes := Decrypted(p.vault, machine, before.cache.value).value;
    PhasesOfCached(p, o.state, machine, tokenBytes, first, now, digest);
    OnlyTheWindowDepends(p, tokenBytes, before.serverKey, first, now);
    var again := Checked(p, o.state, digest, Ok(now), machine, Written);
    if again.honoured.Some? {
      assert RaisedMarker(o.state.marker, token.issuedAt) == o.state.marker;
    }
  }

  /**
   Where those phases fail: a marker within 60 s of the smallest 64-bit time makes the difference wrap, and
   then only tokens issued within 60 s of the largest are ever valid.
   */
  lemma UnderflowingMarkerRejects(p: Platform, s: ClientState, e: Event)
    requires e.Check? && IsValid(Step(p, s, e).report)
    requires ReadMarker(s.marker).Some? && MarkerValue(s.marker) < MIN_I64 + CLOCK_SKEW_SECS
    ensures Step(p, s, e).honoured.value >= MarkerValue(s.marker) - CLOCK_SKEW_SECS + TWO_64
  {
    assert Wrap64(MarkerValue(s.marker) - CLOCK_SKEW_SECS) == MarkerValue(s.marker) - CLOCK_SKEW_SECS + TWO_64;
  }

  /** A check that is not valid, for whatever reason, changes nothing, unless its marker write is torn. */
  lemma OnlyValidChecksChange(p: Platform, s: ClientState, e: Event)
    requires e.Check? && !IsValid(Step(p, s, e).report)
    ensures Step(p, s, e).honoured.None?
    ensures Step(p, s, e).state == s.(marker := Step(p, s, e).state.marker)
    ensures !e.write.Torn? ==> Step(p, s, e).state == s
  {
  }

  // ---------------------------------------------------------------- activation, then check

  /** What the last step of an online activation leaves behind when it succeeds. */
  lemma AcceptedPersists(p: Platform, s: ClientState, tokenBytes: bytes, d: Device)
    requires Exact(p.vault) && |d.nonce| == NONCE_LEN && Accepted(p, s, tokenBytes, d).report.Ok?
    ensures var o := Accepted(p, s, tokenBytes, d);
      && d.clock.Ok? && Verify(p.scheme, tokenBytes, s.serverKey, d.clock.value).Ok?
      && var t := Verify(p.scheme, tokenBytes, s.serverKey, d.clock.value).value;
      && t == Parse(tokenBytes).value && t.machineId == p.sha256(d.machine)
      && o.state.cache.Some? && Decrypted(p.vault, d.machine, o.state.cache.value) == Ok(tokenBytes)
      && ReadMarker(o.state.marker) == Some(Max(t.issuedAt, MarkerValue(s.marker)))
      && o.honoured == Some(t.issuedAt)
      && o.state.serverKey == s.serverKey && o.state.expectedDigest == s.expectedDigest
  {
    DecryptedOfEncrypted(p.vault, d.machine, d.nonce, tokenBytes);
    RaisedMarkerValue(s.marker, Parse(tokenBytes).value.issuedAt);
  }

  /** What an online activation that reported no error leaves behind. */
  lemma ActivationPersists(p: Platform, s: ClientState, key: string, x: Exchange, d: Device)
    requires Exact(p.vault) && |d.nonce| == NONCE_LEN
    requires key != "" && x.IssuesToken() && Activated(p, s, key, x, d).state.lastOnlineError.None?
    ensures var after := Activated(p, s, key, x, d).state;
      && d.clock.Ok? && Verify(p.scheme, x.token.value, after.serverKey, d.clock.value).Ok?
      && var t := Verify(p.scheme, x.token.value, after.serverKey, d.clock.value).value;
      && t == Parse(x.token.value).value && t.machineId == p.sha256(d.machine)
      && after.cache.Some? && Decrypted(p.vault, d.machine, after.cache.value) == Ok(x.token.value)
      && ReadMarker(after.marker) == Some(Max(t.issuedAt, MarkerValue(s.marker)))
      && Activated(p, s, key, x, d).honoured == Some(t.issuedAt)
      && after.expectedDigest == s.expectedDigest
      && (x.chain.Some? ==> ChainVerdict(p, x.chain.value).Ok?)
  {
    var started := s.(licenseKey := Some(key), lastOnlineError := None, serverKey := LearntKey(x.keyText).value);
    AcceptedPersists(p, started, x.token.value, d);
  }

  /**
   After an online activation that reported no error, the cache file decrypts to the issued bytes, and a
   check on the same machine with the gate passing follows the token's time phases; inside the window it is valid
   exactly when the token was no more than 60 s older than the previous marker, which activation itself does not test.
   */
  lemma ActivationThenCheck(p: Platform, s: ClientState, key: string, x: Exchange, d: Device, now: i64,
                            digest: Result<bytes>)
    requires Exact(p.vault) && |d.nonce| == NONCE_LEN
    requires key != "" && x.IssuesToken() && Activated(p, s, key, x, d).state.lastOnlineError.None?
    requires Gate(s.expectedDigest, digest).None? && ClockInRange(now)
    requires MarkerValue(Activated(p, s, key, x, d).state.marker) >= MIN_I64 + CLOCK_SKEW_SECS
    ensures var after := Activated(p, s, key, x, d).state; var t := Parse(x.token.value).value;
      && after.cache.Some? && Decrypted(p.vault, d.machine, after.cache.value) == Ok(x.token.value)
      && MarkerValue(after.marker) == Max(t.issuedAt, MarkerValue(s.marker))
      && Checked(p, after, digest, Ok(now), d.machine, Written).report
         == Ok(PhaseAt(t.issuedAt, t.expiresAt, t.issuedAt >= MarkerValue(s.marker) - CLOCK_SKEW_SECS, now))
  {
    ActivationPersists(p, s, key, x, d);
    var after := Activated(p, s, key, x, d).state;
    PhasesOfCached(p, after, d.machine, x.token.value, d.clock.value, now, digest);
  }

  /** An activation that gets no token leaves both files alone; one that reaches no key also leaves the server key. */
  lemma OfflineActivationKeepsFiles(p: Platform, s: ClientState, key: string, x: Exchange, d: Device)
    requires !x.IssuesToken()
    ensures var after := Activated(p, s, key, x, d).state;
      && after.cache == s.cache && after.marker == s.marker && after.expectedDigest == s.expectedDigest
      && (x.KeyServed? || after.serverKey == s.serverKey)
  {
  }

  /** So a check after an activation that reached no key reports what it would have reported before. */
  lemma OfflineActivationKeepsStatus(p: Platform, s: ClientState, key: string, x: Exchange, d: Device, c: Event)
    requires (x.NoServer? || x.KeyUnavailable?) && c.Check?
    ensures Step(p, Activated(p, s, key, x, d).state, c).report == Step(p, s, c).report
  {
    OfflineActivationKeepsFiles(p, s, key, x, d);
    var after := Activated(p, s, key, x, d).state;
    if c.clock.Ok? {
      assert Examine(p, after, c.machine, c.clock.value) == Examine(p, s, c.machine, c.clock.value);
    }
  }
}
