/** Ownership of native client handles in the C++ wrapper (sdk/cpp/include/licensify.hpp:71-105). */
module Handles {
  import opened Outcomes

  /** An allocation, not an address: a freed address may come back as a new handle. */
  type Handle = nat

  // ---------------------------------------------------------------- any number of wrappers

  /** The wrappers alive by name, what each holds, every handle ever created, and how often each was freed. */
  datatype World = World(held: map<nat, Option<Handle>>, created: set<Handle>, freed: multiset<Handle>)

  datatype Operation =
    | Construct(w: nat)                              // the default constructor
    | Create(w: nat, native: Option<Handle>)         // `create`, with what the native call returned
    | MoveConstruct(w: nat, from: nat)
    | MoveAssign(w: nat, from: nat)
    | Close(w: nat)
    | Destroy(w: nat)

  /** Constructed wrappers are new, used ones are alive, and the native call returns a new handle or none. */
  predicate Allowed(s: World, op: Operation) {
    match op
    case Construct(w) => w !in s.held
    case Create(w, native) => w !in s.held && (native.Some? ==> native.value !in s.created)
    case MoveConstruct(w, from) => w !in s.held && from in s.held
    case MoveAssign(w, from) => w in s.held && from in s.held
    case Close(w) => w in s.held
    case Destroy(w) => w in s.held
  }

  function Closed(s: World, w: nat): World
    requires w in s.held
  {
    if s.held[w].Some?
    then s.(held := s.held[w := None], freed := s.freed + multiset{s.held[w].value})
    else s
  }

  function Moved(s: World, w: nat, from: nat): World
    requires w in s.held && from in s.held
  {
    if w == from then s
    else
      var closed := Closed(s, w);
      closed.(held := closed.held[w := closed.held[from]][from := None])
  }

  /** Destroying closes; a failed `create` throws and leaves no wrapper. */
  function Step(s: World, op: Operation): World
    requires Allowed(s, op)
  {
    match op
    case Construct(w) => s.(held := s.held[w := None])
    case Create(w, native) =>
      if native.None? then s else s.(held := s.held[w := native], created := s.created + {native.value})
    case MoveConstruct(w, from) => Moved(s.(held := s.held[w := None]), w, from)
    case MoveAssign(w, from) => Moved(s, w, from)
    case Close(w) => Closed(s, w)
    case Destroy(w) => var closed := Closed(s, w); closed.(held := closed.held - {w})
  }

  /** Wrapper `w` holds handle `h`. */
  predicate HeldBy(s: World, w: nat, h: Handle) {
    w in s.held && s.held[w] == Some(h)
  }

  /** Every created handle is either held by one wrapper and not freed, or freed once and held by none. */
  ghost predicate Owned(s: World) {
    && (forall w, h :: HeldBy(s, w, h) ==> h in s.created && s.freed[h] == 0)
    && (forall v, w, h :: HeldBy(s, v, h) && HeldBy(s, w, h) ==> v == w)
    && (forall h :: h in s.created ==> s.freed[h] <= 1 && (s.freed[h] == 0 ==> exists w :: HeldBy(s, w, h)))
    && (forall h :: h in s.freed ==> h in s.created)
  }

  lemma ClosedKeepsOwned(s: World, w: nat)
    requires Owned(s) && w in s.held
    ensures Owned(Closed(s, w)) && Closed(s, w).held[w] == None
  {
    var t := Closed(s, w);
    if s.held[w].Some? {
      assert HeldBy(s, w, s.held[w].value);
      assert forall v, h :: HeldBy(t, v, h) <==> v != w && HeldBy(s, v, h);
      forall h | h in t.created && t.freed[h] == 0 ensures exists v :: HeldBy(t, v, h) {
        var v :| HeldBy(s, v, h);
        assert HeldBy(t, v, h);
      }
    }
  }

  /** Passing a handle from one wrapper to an empty one. */
  lemma HandoverKeepsOwned(s: World, w: nat, from: nat)
    requires Owned(s) && w in s.held && from in s.held && w != from && s.held[w] == None
    ensures Owned(s.(held := s.held[w := s.held[from]][from := None]))
  {
    var t := s.(held := s.held[w := s.held[from]][from := None]);
    assert forall v, h :: HeldBy(t, v, h) <==>
                            (v == w && HeldBy(s, from, h)) || (v != w && v != from && HeldBy(s, v, h));
    forall h | h in t.created && t.freed[h] == 0 ensures exists v :: HeldBy(t, v, h) {
      var v :| HeldBy(s, v, h);
      assert HeldBy(t, if v == from then w else v, h);
    }
  }

  lemma MovedKeepsOwned(s: World, w: nat, from: nat)
    requires Owned(s) && w in s.held && from in s.held
    ensures Owned(Moved(s, w, from))
  {
    if w != from {
      ClosedKeepsOwned(s, w);
      HandoverKeepsOwned(Closed(s, w), w, from);
    }
  }

  /** A wrapper that holds nothing may come or go. */
  lemma EmptyWrapperIsHarmless(s: World, w: nat)
    requires Owned(s) && (w in s.held ==> s.held[w] == None)
    ensures Owned(s.(held := s.held[w := None])) && Owned(s.(held := s.held - {w}))
  {
    var t, u := s.(held := s.held[w := None]), s.(held := s.held - {w});
    assert forall v, h :: HeldBy(s, v, h) <==> HeldBy(t, v, h);
    assert forall v, h :: HeldBy(s, v, h) <==> HeldBy(u, v, h);
  }

  lemma CreateKeepsOwned(s: World, w: nat, h: Handle)
    requires Owned(s) && w !in s.held && h !in s.created
    ensures Owned(s.(held := s.held[w := Some(h)], created := s.created + {h}))
  {
    var t := s.(held := s.held[w := Some(h)], created := s.created + {h});
    assert forall v, k :: HeldBy(t, v, k) <==> (v == w && k == h) || HeldBy(s, v, k);
    assert HeldBy(t, w, h);
    forall k | k in t.created && t.freed[k] == 0 ensures exists v :: HeldBy(t, v, k) {
      if k != h {
        var v :| HeldBy(s, v, k);
        assert HeldBy(t, v, k);
      }
    }
  }

  lemma StepKeepsOwned(s: World, op: Operation)
    requires Owned(s) && Allowed(s, op)
    ensures Owned(Step(s, op))
  {
    match op
    case Construct(w) => EmptyWrapperIsHarmless(s, w);
    case Create(w, native) =>
      if native.Some? {
        CreateKeepsOwned(s, w, native.value);
      }
    case MoveConstruct(w, from) =>
      EmptyWrapperIsHarmless(s, w);
      MovedKeepsOwned(s.(held := s.held[w := None]), w, from);
    case MoveAssign(w, from) => MovedKeepsOwned(s, w, from);
    case Close(w) => ClosedKeepsOwned(s, w);
    case Destroy(w) =>
      ClosedKeepsOwned(s, w);
      EmptyWrapperIsHarmless(Closed(s, w), w);
  }

  /** A sequence of operations that a program can perform, one after the other. */
  predicate Runs(s: World, ops: seq<Operation>)
    decreases |ops|
  {
    ops == [] || (Allowed(s, ops[0]) && Runs(Step(s, ops[0]), ops[1..]))
  }

  function AfterAll(s: World, ops: seq<Operation>): World
    requires Runs(s, ops)
    decreases |ops|
  {
    if ops == [] then s else AfterAll(Step(s, ops[0]), ops[1..])
  }

  lemma {:induction false} RunKeepsOwned(s: World, ops: seq<Operation>)
    requires Owned(s) && Runs(s, ops)
    ensures Owned(AfterAll(s, ops))
    decreases |ops|
  {
    if ops != [] {
      StepKeepsOwned(s, ops[0]);
      RunKeepsOwned(Step(s, ops[0]), ops[1..]);
    }
  }

  const NO_WRAPPERS := World(map[], {}, multiset{})

  /**
   Over any program, no two wrappers hold the same handle and no handle is freed twice; and once every wrapper is
   gone, every handle created was freed exactly once.
   */
  lemma HandlesAreFreedOnce(ops: seq<Operation>, h: Handle)
    requires Runs(NO_WRAPPERS, ops)
    ensures var s := AfterAll(NO_WRAPPERS, ops);
      && (forall v, w :: HeldBy(s, v, h) && HeldBy(s, w, h) ==> v == w)
      && s.freed[h] <= 1
      && (s.held == map[] ==> s.freed[h] == if h in s.created then 1 else 0)
  {
    RunKeepsOwned(NO_WRAPPERS, ops);
    var s := AfterAll(NO_WRAPPERS, ops);
    if s.held == map[] {
      assert forall w :: !HeldBy(s, w, h);
    }
  }

  // ---------------------------------------------------------------- the wrapper object

  /** The native library, with a ghost account of what it allocated and freed and of the wrappers that use it. */
  class Library {
    var nextHandle: Handle
    ghost var world: World

    constructor ()
      ensures Valid() && world == NO_WRAPPERS
    {
      nextHandle := 0;
      world := NO_WRAPPERS;
    }

    /** Every handle created so far is below the next one. */
    ghost predicate Valid()
      reads this
    {
      Owned(world) && forall h :: h in world.created ==> h < nextHandle
    }

    /** `licensify_new`, which may fail. */
    method New(available: bool) returns (handle: Option<Handle>)
      modifies this
      ensures handle == if available then Some(old(nextHandle)) else None
      ensures nextHandle == old(nextHandle) + if available then 1 else 0
      ensures world == if available then old(world).(created := old(world).created + {old(nextHandle)}) else old(world)
    {
      if !available {
        return None;
      }
      handle := Some(nextHandle);
      world := world.(created := world.created + {nextHandle});
      nextHandle := nextHandle + 1;
    }

    /** `licensify_free` */
    method Free(handle: Handle)
      modifies this`world
      ensures world == old(world).(freed := old(world).freed + multiset{handle})
    {
      world := world.(freed := world.freed + multiset{handle});
    }

    /** The account of what a wrapper holds follows the wrapper's field. */
    ghost method Record(name: nat, held: Option<Handle>)
      modifies this`world
      ensures world == old(world).(held := old(world).held[name := held])
    {
      world := world.(held := world.held[name := held]);
    }

    ghost method Forget(name: nat)
      modifies this`world
      ensures world == old(world).(held := old(world).held - {name})
    {
      world := world.(held := world.held - {name});
    }
  }

  /** A wrapper, under the name by which the account knows it. */
  class Client {
    const library: Library
    ghost const name: nat
    var client: Option<Handle>
    var logger: Option<nat>

    /** The account knows this wrapper and what it holds. */
    ghost predicate Known()
      reads this, library
    {
      name in library.world.held && library.world.held[name] == client
    }

    constructor (library: Library, ghost name: nat)
      modifies library`world
      ensures this.library == library && this.name == name && client == None && logger == None
      ensures library.world == old(library.world).(held := old(library.world).held[name := None])
    {
      this.library := library;
      this.name := name;
      client, logger := None, None;
      new;
      library.Record(name, None);
    }

    /** `create`; the exceptions are the null results. */
    static method Create(library: Library, ghost name: nat, serverUrl: string, cachePath: string, log: Option<nat>,
                         available: bool)
      returns (c: Client?)
      requires library.Valid() && name !in library.world.held
      modifies library
      ensures c != null <==> serverUrl != "" && cachePath != "" && available
      ensures c != null ==> fresh(c) && c.library == library && c.name == name && c.Known() && c.logger == log
      ensures library.Valid()
      ensures var native := if c == null then None else Some(old(library.nextHandle));
        library.world == Step(old(library.world), Operation.Create(name, native))
    {
      if serverUrl == "" {
        return null;
      }
      if cachePath == "" {
        return null;
      }
      ghost var native := if available then Some(library.nextHandle) else None;
      StepKeepsOwned(library.world, Operation.Create(name, native));
      var handle := library.New(available);
      if handle.None? {
        return null;
      }
      c := new Client(library, name);
      ghost var empty := library.world.held;
      c.client := handle;
      library.Record(name, handle);
      c.logger := log;
      assert empty[name := handle] == old(library.world).held[name := handle];
    }

    method Close()
      requires library.Valid() && Known()
      modifies this`client, library`world
      ensures library.Valid() && Known() && client == None
      ensures library.world == Step(old(library.world), Operation.Close(name))
    {
      StepKeepsOwned(library.world, Operation.Close(name));
      if client.Some? {
        library.Free(client.value);
        client := None;
        library.Record(name, None);
      }
    }

    /** Move assignment; assigning a wrapper to itself does nothing. */
    method MoveAssign(other: Client)
      requires other.library == library && library.Valid() && Known() && other.Known()
      requires this != other ==> name != other.name
      modifies this`client, this`logger, other`client, other`logger, library`world
      ensures library.Valid() && Known() && other.Known()
      ensures library.world == Step(old(library.world), Operation.MoveAssign(name, other.name))
      ensures this == other ==> client == old(client) && logger == old(logger)
      ensures this != other ==> logger == old(other.logger) && other.client == None && other.logger == None
    {
      StepKeepsOwned(library.world, Operation.MoveAssign(name, other.name));
      if this != other {
        Close();
        client := other.client;
        library.Record(name, client);
        logger := other.logger;
        other.client := None;
        library.Record(other.name, None);
        other.logger := None;
      }
    }

    /** Move construction is move assignment to a default-constructed wrapper. */
    static method MoveConstruct(other: Client, ghost name: nat) returns (c: Client)
      requires other.library.Valid() && other.Known() && name !in other.library.world.held
      modifies other, other.library`world
      ensures fresh(c) && c.library == other.library && c.name == name
      ensures c.library.Valid() && c.Known() && other.Known()
      ensures c.library.world == Step(old(other.library.world), Operation.MoveConstruct(name, other.name))
      ensures c.logger == old(other.logger) && other.client == None && other.logger == None
    {
      StepKeepsOwned(other.library.world, Operation.Construct(name));
      c := new Client(other.library, name);
      c.MoveAssign(other);
    }

    /** The destructor; the wrapper is not used again. */
    method Destroy()
      requires library.Valid() && Known()
      modifies this`client, library`world
      ensures library.Valid() && library.world == Step(old(library.world), Operation.Destroy(name))
    {
      StepKeepsOwned(library.world, Operation.Destroy(name));
      Close();
      library.Forget(name);
    }
  }
}
