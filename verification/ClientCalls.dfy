/** What single calls of the client answer and leave behind, case by case. */
module ClientCalls {
  import opened Bytes
  import opened Outcomes
  import opened Text
  import opened Token
  import opened Cache
  import opened Entitlements
  import opened Certificates
  import opened Client
  import opened ClientRuns
  import Encodings

  // ---------------------------------------------------------------- check

  /** The host binary can be read, and has the pinned digest if one is pinned. */
  predicate Untampered(pinned: Option<bytes>, digest: Result<bytes>) {
    digest.Ok? && (pinned.Some? ==> digest.value == pinned.value)
  }

  /** A check on any other binary fails, as unreadable or as tampered with, and does nothing. */
  lemma TamperedBinaryFails(p: Platform, s: ClientState, digest: Result<bytes>, clock: Result<i64>, machine: bytes,
                            write: WriteOutcome)
    requires !Untampered(s.expectedDigest, digest)
    ensures Checked(p, s, digest, clock, machine, write) == Outcome(s, Err(if digest.Err? then Io else Crypto), None)
  {
  }

  /** Past the binary, a clock that cannot be read fails the check. */
  lemma BadClockFails(p: Platform, s: ClientState, digest: Result<bytes>, clock: Result<i64>, machine: bytes,
                      write: WriteOutcome)
    requires Untampered(s.expectedDigest, digest) && clock.Err?
    ensures Checked(p, s, digest, clock, machine, write) == Outcome(s, Err(clock.error), None)
  {
  }

  /** A cache file that is missing or does not open on this machine is an invalid licence. */
  lemma NoCacheIsInvalid(p: Platform, s: ClientState, digest: Result<bytes>, now: i64, machine: bytes,
                         write: WriteOutcome)
    requires Untampered(s.expectedDigest, digest)
    requires s.cache.None? || Decrypted(p.vault, machine, s.cache.value).Err?
    ensures Checked(p, s, digest, Ok(now), machine, write) == Outcome(s, Ok(Invalid), None)
  {
  }

  /** Expired is said exactly of an authentic token after its skewed window, whosever machine it is for. */
  lemma ExpiredIff(p: Platform, s: ClientState, digest: Result<bytes>, now: i64, machine: bytes, write: WriteOutcome,
                   tokenBytes: bytes)
    requires Untampered(s.expectedDigest, digest) && ClockInRange(now)
    requires s.cache.Some? && Decrypted(p.vault, machine, s.cache.value) == Ok(tokenBytes)
    ensures Checked(p, s, digest, Ok(now), machine, write) == Outcome(s, Ok(LicenseStatus.Expired), None) <==>
      && Parse(tokenBytes).Ok? && p.scheme.validKey(s.serverKey)
      && var t := Parse(tokenBytes).value;
        && t.version == 1 && t.issuedAt <= t.expiresAt
        && p.scheme.verify(s.serverKey, tokenBytes[..|tokenBytes| - 64], t.signature)
        && now > t.expiresAt + 60 && now >= t.issuedAt - 60
  {
  }

  /** A token that verifies but is another machine's is an invalid licence. */
  lemma OtherMachineIsInvalid(p: Platform, s: ClientState, digest: Result<bytes>, now: i64, machine: bytes,
                              write: WriteOutcome, tokenBytes: bytes)
    requires Untampered(s.expectedDigest, digest)
    requires s.cache.Some? && Decrypted(p.vault, machine, s.cache.value) == Ok(tokenBytes)
    requires Verify(p.scheme, tokenBytes, s.serverKey, now).Ok?
    requires Verify(p.scheme, tokenBytes, s.serverKey, now).value.machineId != p.sha256(machine)
    ensures Checked(p, s, digest, Ok(now), machine, write) == Outcome(s, Ok(Invalid), None)
  {
  }

  /** Where the marker cannot be written, what would have been a valid check fails, and only a torn write changes it. */
  lemma UnwrittenMarkerFails(p: Platform, s: ClientState, digest: Result<bytes>, clock: Result<i64>, machine: bytes,
                             write: WriteOutcome)
    requires write != Written && IsValid(Some(Checked(p, s, digest, clock, machine, Written).report))
    ensures var o := Checked(p, s, digest, clock, machine, write);
      && o.report == Err(Io) && o.honoured == None && o.state == s.(marker := o.state.marker)
      && (write == Refused ==> o.state == s)
  {
  }

  /** A check says Valid, Expired or Invalid; it changes the marker and the shown entitlements at most. */
  lemma CheckTouchesLittle(p: Platform, s: ClientState, digest: Result<bytes>, clock: Result<i64>, machine: bytes,
                           write: WriteOutcome)
    ensures var o := Checked(p, s, digest, clock, machine, write);
      && (o.report.Ok? ==> o.report.value.Valid? || o.report.value in {LicenseStatus.Expired, Invalid})
      && o.state == s.(marker := o.state.marker, entitlements := o.state.entitlements)
  {
  }

  // ---------------------------------------------------------------- activate

  /** What an activation grants when it does not get a token: a perpetual licence with the base feature. */
  lemma OfflineGrant(p: Platform, s: ClientState, key: string, x: Exchange, d: Device)
    requires key != "" && (x.NoServer? || Activated(p, s, key, x, d).state.lastOnlineError.Some?)
    ensures Activated(p, s, key, x, d).report == Ok(Entitlements(Perpetual, ["base"], None, None, None, None, 7, map[]))
  {
  }

  /** An empty key is refused and changes nothing; any other activates, whatever the network does. */
  lemma ActivationSucceedsIff(p: Platform, s: ClientState, key: string, x: Exchange, d: Device)
    ensures key == "" ==> Activated(p, s, key, x, d) == Outcome(s, Err(Inactive), None)
    ensures key != "" ==>
      var o := Activated(p, s, key, x, d);
      && o.report.Ok? && o.state.licenseKey == Some(key) && o.state.entitlements == Some(o.report.value)
      && o.state.expectedDigest == s.expectedDigest
  {
  }

  /** The key that is learnt: 32 bytes, spelled in hex digits of either case, inside any whitespace. */
  lemma LearntKeyIff(keyText: string, key: bytes)
    ensures LearntKey(keyText) == Some(key) <==>
      |key| == 32 && Encodings.Lower(Trim(keyText)) == Encodings.EncodeHex(key)
  {
    Encodings.HexSpellings(Trim(keyText), key);
  }

  /** Without a server there is no error; a key that is not served or not learnt is one, and touches no file. */
  lemma ExchangeErrors(p: Platform, s: ClientState, key: string, x: Exchange, d: Device)
    requires key != ""
    ensures var after := Activated(p, s, key, x, d).state;
      && (x.NoServer? ==> after.lastOnlineError == None)
      && (x.KeyUnavailable? ==> after.lastOnlineError == Some(x.error))
      && (x.KeyServed? && LearntKey(x.keyText).None? ==> after.lastOnlineError == Some(Crypto))
      && (!x.KeyServed? || LearntKey(x.keyText).None? ==>
            after.serverKey == s.serverKey && after.cache == s.cache && after.marker == s.marker)
      && (x.KeyServed? && LearntKey(x.keyText).Some? ==> after.serverKey == LearntKey(x.keyText).value)
  {
  }

  /** So does a chain that is not accepted, and then a token that is not received. */
  lemma ChainAndTokenErrors(p: Platform, s: ClientState, key: string, x: Exchange, d: Device)
    requires key != "" && x.KeyServed? && LearntKey(x.keyText).Some?
    requires (x.chain.Some? && ChainVerdict(p, x.chain.value).Err?) || x.token.Err?
    ensures var o := Activated(p, s, key, x, d);
      && o.state.lastOnlineError == Some(if x.chain.Some? && ChainVerdict(p, x.chain.value).Err?
                                         then ChainVerdict(p, x.chain.value).error else x.token.error)
      && o.state.cache == s.cache && o.state.marker == s.marker && o.honoured == None
  {
  }

  /** The chain is checked by a clock of its own; one that cannot be read fails the chain. */
  lemma ChainClockErrors(p: Platform, chain: Presented)
    ensures chain.clock.Err? ==> ChainVerdict(p, chain) == Err(chain.clock.error)
    ensures chain.clock.Ok? ==>
      ChainVerdict(p, chain) == VerifyChainAt(p.pki, chain.root, chain.intermediate, chain.leaf, chain.clock.value)
  {
  }

  /** The token is received, under a key that was learnt, with an acceptable chain or none. */
  predicate Received(p: Platform, key: string, x: Exchange) {
    && key != "" && x.IssuesToken() && LearntKey(x.keyText).Some?
    && (x.chain.Some? ==> ChainVerdict(p, x.chain.value).Ok?)
  }

  /** The received token verifies now, under the learnt key, and is this machine's. */
  predicate Acceptable(p: Platform, x: Exchange, d: Device)
    requires x.IssuesToken() && LearntKey(x.keyText).Some?
  {
    && d.clock.Ok?
    && var verdict := Verify(p.scheme, x.token.value, LearntKey(x.keyText).value, d.clock.value);
      verdict.Ok? && verdict.value.machineId == p.sha256(d.machine)
  }

  /** No file is written, torn or whole, unless the token is received and acceptable. */
  lemma OnlyAcceptableTokensAreStored(p: Platform, s: ClientState, key: string, x: Exchange, d: Device)
    ensures var o := Activated(p, s, key, x, d);
      o.state.cache != s.cache || o.state.marker != s.marker || o.honoured.Some? ==>
        Received(p, key, x) && Acceptable(p, x, d)
  {
  }

  /** A received token that is not: a bad clock, a token that does not verify, another machine's token. */
  lemma UnacceptableTokenErrors(p: Platform, s: ClientState, key: string, x: Exchange, d: Device)
    requires Received(p, key, x) && !Acceptable(p, x, d)
    ensures Activated(p, s, key, x, d).state.lastOnlineError == Some(
              if d.clock.Err? then d.clock.error
              else
                match Verify(p.scheme, x.token.value, LearntKey(x.keyText).value, d.clock.value)
                case Err(e) => e
                case Ok(_) => MachineMismatch)
  {
  }

  /** An acceptable token that cannot be sealed or stored. */
  lemma StoringErrors(p: Platform, s: ClientState, key: string, x: Exchange, d: Device)
    requires Received(p, key, x) && Acceptable(p, x, d)
    ensures var o := Activated(p, s, key, x, d);
      var sealed := p.vault.seal(p.vault.cacheKey(d.machine), d.nonce, x.token.value);
      && o.state.lastOnlineError ==
           (if sealed.None? then Some(Crypto)
            else if d.cacheWrite != Written || d.markerWrite != Written then Some(Io) else None)
      && (o.honoured.Some? <==> o.state.lastOnlineError.None?)
      && (sealed.None? || d.cacheWrite == Refused ==> o.state.cache == s.cache && o.state.marker == s.marker)
      && (sealed.Some? && d.cacheWrite == Written ==> o.state.cache == Some([2] + d.nonce + sealed.value))
      && (sealed.Some? && d.cacheWrite.Torn? ==>
            && o.state.cache.Some? && o.state.cache.value <= [CACHE_FORMAT_V2] + d.nonce + sealed.value
            && o.state.marker == s.marker)
  {
  }

  /** A token that is honoured but whose entitlements cannot be read grants what an offline activation grants. */
  lemma UnreadableGrantIsBase(p: Platform, s: ClientState, key: string, x: Exchange, d: Device)
    requires Received(p, key, x) && Acceptable(p, x, d) && Activated(p, s, key, x, d).honoured.Some?
    requires p.readJson(Parse(x.token.value).value.entitlements) == None
    ensures Activated(p, s, key, x, d).report == Ok(Entitlements(Perpetual, ["base"], None, None, None, None, 7, map[]))
  {
  }

  // ---------------------------------------------------------------- deactivate

  /** After any deactivation the key and the shown entitlements are gone; each file stays unless it is removed. */
  lemma DeactivationClears(s: ClientState, cacheRemoved: bool, markerRemoved: bool)
    ensures var after := Deactivated(s, cacheRemoved, markerRemoved);
      && after.licenseKey == None && after.entitlements == None
      && after.cache == (if cacheRemoved then None else s.cache)
      && after.marker == (if markerRemoved then None else s.marker)
      && after.serverKey == s.serverKey && after.expectedDigest == s.expectedDigest
      && after.lastOnlineError == s.lastOnlineError
  {
  }

  /** One that removed neither file changes no status: the next check reports what it would have reported. */
  lemma FailedRemovalKeepsStatus(p: Platform, s: ClientState, digest: Result<bytes>, clock: Result<i64>, machine: bytes,
                                 write: WriteOutcome)
    ensures Checked(p, Deactivated(s, false, false), digest, clock, machine, write).report
         == Checked(p, s, digest, clock, machine, write).report
  {
    var t := Deactivated(s, false, false);
    if clock.Ok? {
      assert Examine(p, t, machine, clock.value) == Examine(p, s, machine, clock.value);
    }
  }

  // ---------------------------------------------------------------- over whole runs

  /** The digest pinned last by these events, or to begin with. */
  function LastPinned(events: seq<Event>, start: Option<bytes>): Option<bytes> {
    if events == [] then start
    else
      var n := |events| - 1;
      if events[n].SetExpectedDigest? then events[n].expected else LastPinned(events[..n], start)
  }

  lemma {:induction false} PinnedDigestIsTheLast(p: Platform, r: Run, k: nat)
    requires IsRun(p, r) && k <= |r.events|
    ensures r.states[k].expectedDigest == LastPinned(r.events[..k], r.states[0].expectedDigest)
  {
    if k > 0 {
      PinnedDigestIsTheLast(p, r, k - 1);
      assert StepsAt(p, r, k - 1);
      assert r.events[..k][..k - 1] == r.events[..k - 1];
      PinnedDigestStep(p, r.states[k - 1], r.events[k - 1]);
    }
  }

  lemma PinnedDigestStep(p: Platform, s: ClientState, e: Event)
    ensures Step(p, s, e).state.expectedDigest == if e.SetExpectedDigest? then e.expected else s.expectedDigest
  {
    if e.Activate? && e.key != "" {
      ActivationSucceedsIff(p, s, e.key, e.exchange, e.device);
    }
  }

  /** In every run, every valid check had a readable binary with the digest pinned last, if any was. */
  lemma ValidMeansUntampered(p: Platform, r: Run, i: nat)
    requires IsRun(p, r) && i < |r.events| && r.events[i].Check? && IsValid(r.reports[i])
    ensures Untampered(LastPinned(r.events[..i], r.states[0].expectedDigest), r.events[i].digest)
  {
    assert StepsAt(p, r, i);
    PinnedDigestIsTheLast(p, r, i);
    var e := r.events[i];
    if !Untampered(r.states[i].expectedDigest, e.digest) {
      TamperedBinaryFails(p, r.states[i], e.digest, e.clock, e.machine, e.write);
    }
  }

  /** The server key set or learnt last by these events, or to begin with. */
  function LastServerKey(events: seq<Event>, start: bytes): bytes {
    if events == [] then start
    else
      var n := |events| - 1;
      match events[n]
      case SetServerKey(key) => key
      case Activate(key, KeyServed(keyText, _, _), _) =>
        if key != "" && LearntKey(keyText).Some? then LearntKey(keyText).value else LastServerKey(events[..n], start)
      case _ => LastServerKey(events[..n], start)
  }

  lemma {:induction false} ServerKeyIsTheLast(p: Platform, r: Run, k: nat)
    requires IsRun(p, r) && k <= |r.events|
    ensures r.states[k].serverKey == LastServerKey(r.events[..k], r.states[0].serverKey)
  {
    if k > 0 {
      ServerKeyIsTheLast(p, r, k - 1);
      assert StepsAt(p, r, k - 1);
      assert r.events[..k][..k - 1] == r.events[..k - 1];
      ServerKeyStep(p, r.states[k - 1], r.events[k - 1]);
    }
  }

  lemma ServerKeyStep(p: Platform, s: ClientState, e: Event)
    ensures Step(p, s, e).state.serverKey == LastServerKey([e], s.serverKey)
  {
    assert [e][..0] == [];
    if e.Activate? && e.key != "" {
      ExchangeErrors(p, s, e.key, e.exchange, e.device);
    }
  }

  /** Only these steps can bring a cache file: a swap from outside, or an activation that writes one. */
  predicate MayFillCache(e: Event) {
    match e
    case CacheReplaced(blob) => blob.Some?
    case Activate(_, exchange, device) => exchange.IssuesToken() && device.cacheWrite != Refused
    case _ => false
  }

  lemma EmptyCacheStays(p: Platform, s: ClientState, e: Event)
    requires s.cache.None? && !MayFillCache(e)
    ensures Step(p, s, e).state.cache.None?
  {
    if e.Activate? && e.key != "" && !e.exchange.IssuesToken() {
      OfflineActivationKeepsFiles(p, s, e.key, e.exchange, e.device);
    }
  }

  lemma {:induction false} CacheStaysEmpty(p: Platform, r: Run, from: nat, to: nat)
    requires IsRun(p, r) && from <= to <= |r.events| && r.states[from].cache.None?
    requires forall k :: from <= k < to ==> !MayFillCache(r.events[k])
    ensures r.states[to].cache.None?
  {
    if from < to {
      CacheStaysEmpty(p, r, from, to - 1);
      assert StepsAt(p, r, to - 1);
      EmptyCacheStays(p, r.states[to - 1], r.events[to - 1]);
    }
  }

  /**
   A deactivation that removed the cache file ends the licence: until some step brings another, no check is valid, on
   any machine, at any time, with any keys, and where the binary and the clock are good it says Invalid.
   */
  lemma DeactivationEnds(p: Platform, r: Run, j: nat, i: nat)
    requires IsRun(p, r) && j < i < |r.events|
    requires r.events[j].Deactivate? && r.events[j].cacheRemoved && r.events[i].Check?
    requires forall k :: j < k < i ==> !MayFillCache(r.events[k])
    ensures !IsValid(r.reports[i]) && r.honoured[i].None?
    ensures Untampered(r.states[i].expectedDigest, r.events[i].digest) && r.events[i].clock.Ok? ==>
      r.reports[i] == Some(Ok(Invalid))
  {
    assert StepsAt(p, r, j) && StepsAt(p, r, i);
    CacheStaysEmpty(p, r, j + 1, i);
    var e, s := r.events[i], r.states[i];
    if Untampered(s.expectedDigest, e.digest) && e.clock.Ok? {
      NoCacheIsInvalid(p, s, e.digest, e.clock.value, e.machine, e.write);
    } else if Untampered(s.expectedDigest, e.digest) {
      BadClockFails(p, s, e.digest, e.clock, e.machine, e.write);
    } else {
      TamperedBinaryFails(p, s, e.digest, e.clock, e.machine, e.write);
    }
  }

  /**
   An activation can end that without honouring anything: one that stores the token and then cannot write the marker
   reports an error, and yet the next check finds the token.
   */
  lemma UnhonouredActivationFillsCache(p: Platform, s: ClientState, key: string, x: Exchange, d: Device)
    requires Exact(p.vault) && |d.nonce| == NONCE_LEN && Received(p, key, x) && Acceptable(p, x, d)
    requires p.vault.seal(p.vault.cacheKey(d.machine), d.nonce, x.token.value).Some?
    requires d.cacheWrite == Written && d.markerWrite == Refused
    ensures var o := Activated(p, s, key, x, d);
      && o.honoured.None? && o.state.lastOnlineError == Some(Io) && o.state.marker == s.marker
      && o.state.cache.Some? && Decrypted(p.vault, d.machine, o.state.cache.value) == Ok(x.token.value)
  {
    DecryptedOfEncrypted(p.vault, d.machine, d.nonce, x.token.value);
  }

  // ---------------------------------------------------------------- the object takes these steps

  /** What the client object does for an event of a run, or what its environment does. */
  method Perform(c: LicensifyClient, e: Event)
    returns (report: Option<Result<LicenseStatus>>, ghost honoured: Option<i64>)
    requires e.Activate? ==> |e.device.nonce| == NONCE_LEN && |e.device.machine| == 32
    modifies c
    ensures Outcome(c.State(), report, honoured) == Step(c.p, old(c.State()), e)
  {
    report, honoured := None, None;
    match e
    case Activate(key, exchange, device) =>
      var result;
      result, honoured := c.Activate(key, exchange, device);
    case Check(digest, clock, machine, write) =>
      var status;
      status, honoured := c.Check(digest, clock, machine, write);
      report := Some(status);
    case Deactivate(cacheRemoved, markerRemoved) => c.Deactivate(cacheRemoved, markerRemoved);
    case SetServerKey(key) => c.SetServerKey(key);
    case SetExpectedDigest(digest) => c.SetExpectedDigest(digest);
    case CacheReplaced(blob) => c.cacheFile := blob;
  }
}
