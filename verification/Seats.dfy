/** Floating seats (server/internal/api/server.go:231-274): a map of maps behind one mutex. */
module Seats {
  import opened Outcomes

  type Table = map<string, map<string, int>>    // licence, machine, time of acquisition

  datatype Call =
    | Acquire(id: string, machine: string, at: int)
    | Release(id: string, machine: string)

  /** A call without a machine ID is refused. */
  predicate Succeeds(c: Call) {
    c.machine != ""
  }

  /** The machines holding a seat of a licence. */
  function Active(t: Table, id: string): set<string> {
    if id in t then t[id].Keys else {}
  }

  class SeatTable {
    var seats: Table

    constructor ()
      ensures seats == map[]
    {
      seats := map[];
    }

    method SeatAcquire(id: string, machine: string, now: int) returns (active: Option<nat>)
      modifies this
      ensures seats == After(old(seats), Acquire(id, machine, now))
      ensures active == if machine == "" then None else Some(|Active(seats, id)|)
    {
      if machine == "" {
        return None;
      }
      if id !in seats {
        seats := seats[id := map[]];
      }
      seats := seats[id := seats[id][machine := now]];
      return Some(|seats[id]|);
    }

    method SeatRelease(id: string, machine: string) returns (active: Option<nat>)
      modifies this
      ensures seats == After(old(seats), Release(id, machine))
      ensures active == if machine == "" then None else Some(|Active(seats, id)|)
    {
      if machine == "" {
        return None;
      }
      if id in seats {
        seats := seats[id := seats[id] - {machine}];
        return Some(|seats[id]|);
      }
      return Some(0);
    }

    method SeatStatus(id: string) returns (machines: seq<string>)
      ensures (set i | 0 <= i < |machines| :: machines[i]) == Active(seats, id)
      ensures |machines| == |Active(seats, id)|
    {
      machines := [];
      var unseen := if id in seats then seats[id].Keys else {};
      while unseen != {}
        invariant unseen <= Active(seats, id)
        invariant (set i | 0 <= i < |machines| :: machines[i]) == Active(seats, id) - unseen
        invariant |machines| + |unseen| == |Active(seats, id)|
        decreases |unseen|
      {
        var machine :| machine in unseen;
        ghost var before := machines;
        machines := machines + [machine];
        unseen := unseen - {machine};
        assert (set i | 0 <= i < |machines| :: machines[i]) == (set i | 0 <= i < |before| :: before[i]) + {machine} by {
          assert machines[|before|] == machine;
          assert forall i :: 0 <= i < |before| ==> machines[i] == before[i];
        }
      }
    }
  }

  /** The table after one call. */
  function After(t: Table, c: Call): Table {
    if !Succeeds(c) then t
    else
      match c
      case Acquire(id, machine, at) =>
        t[id := (if id in t then t[id] else map[])[machine := at]]
      case Release(id, machine) =>
        if id in t then t[id := t[id] - {machine}] else t
  }

  function AfterAll(calls: seq<Call>): Table {
    if calls == [] then map[] else After(AfterAll(calls[..|calls| - 1]), calls[|calls| - 1])
  }

  /** The latest successful call about a machine of a licence. */
  function Latest(calls: seq<Call>, id: string, machine: string): Option<Call> {
    if calls == [] then None
    else
      var last := calls[|calls| - 1];
      if Succeeds(last) && last.id == id && last.machine == machine then Some(last)
      else Latest(calls[..|calls| - 1], id, machine)
  }

  /**
   After any interleaving of calls, a machine holds a seat exactly when the latest successful call about it
   acquired one, and the recorded time is that call's.
   */
  lemma {:induction false} SeatsFollowLatestCalls(calls: seq<Call>, id: string, machine: string)
    ensures var t, last := AfterAll(calls), Latest(calls, id, machine);
      && (machine in Active(t, id) <==> last.Some? && last.value.Acquire?)
      && (machine in Active(t, id) ==> t[id][machine] == last.value.at)
  {
    if calls != [] {
      SeatsFollowLatestCalls(calls[..|calls| - 1], id, machine);
    }
  }

  /** A call without a machine takes no seat, and nothing but a machine ever holds one. */
  lemma {:induction false} SeatsAreMachines(calls: seq<Call>, id: string)
    ensures "" !in Active(AfterAll(calls), id)
  {
    if calls != [] {
      SeatsAreMachines(calls[..|calls| - 1], id);
    }
  }

  /** A call touches no other licence, and only acquiring creates an entry for one. */
  lemma OtherLicencesUntouched(t: Table, c: Call, id: string)
    requires id != c.id || !Succeeds(c) || (c.Release? && id !in t)
    ensures (id in After(t, c) <==> id in t) && (id in t ==> After(t, c)[id] == t[id])
  {
  }

  /** The `k`th call acquires a seat of `id`. */
  predicate AcquiresAt(calls: seq<Call>, id: string, k: nat)
    requires k < |calls|
  {
    calls[k].Acquire? && calls[k].id == id && Succeeds(calls[k])
  }

  /** A licence has an entry exactly when some machine acquired a seat of it, since released or not. */
  lemma {:induction false} EntriesComeFromAcquiring(calls: seq<Call>, id: string)
    ensures id in AfterAll(calls) <==> exists k :: 0 <= k < |calls| && AcquiresAt(calls, id, k)
  {
    if calls != [] {
      var n := |calls| - 1;
      EntriesComeFromAcquiring(calls[..n], id);
      if id in AfterAll(calls[..n]) {
        var k :| 0 <= k < n && AcquiresAt(calls[..n], id, k);
        assert AcquiresAt(calls, id, k);
      }
      if AcquiresAt(calls, id, n) {
        assert id in AfterAll(calls);
      }
      forall k | 0 <= k < n && AcquiresAt(calls, id, k) ensures id in AfterAll(calls[..n]) {
        assert AcquiresAt(calls[..n], id, k);
      }
    }
  }
}
