// The self-spawning call machines of an asynchronous gRPC server (include/bofwebrpc/bofgrpc.h):
// AsyncCallStateMachine and the loop of HandleRpc. A machine is named by its address, which a new
// machine may reuse once the old one is deleted; the completion queue returns the tags of posted
// operations in any order.

module GrpcCalls {
  datatype CallStatus = CREATE | PROCESS | FINISH

  datatype Calls = Calls(
    machines: map<nat, CallStatus>,  // the live machines
    pending: multiset<nat>,          // tags posted and not returned yet
    created: nat,
    deleted: nat,
    aborted: bool,                   // HandleRpc called abort()
    dangling: bool)                  // an event reached a deleted machine

  const NO_CALLS := Calls(map[], multiset{}, 0, 0, false, false)

  /**
   * What `Next` brings: a tag, whether its operation succeeded, and the address the allocator gives
   * if one is asked for; or nothing more, once the queue is shut down.
   */
  datatype Event = Event(tag: nat, ok: bool, address: nat) | Drained

  predicate Succeeds(e: Event) {
    e.Event? && e.ok
  }

  /** The constructor, and the CREATE part of Proceed that it runs: the new machine posts its tag. */
  function Spawned(s: Calls, address: nat): Calls {
    s.(machines := s.machines[address := PROCESS], pending := s.pending + multiset{address}, created := s.created + 1)
  }

  function Proceeded(s: Calls, tag: nat, address: nat): Calls
    requires tag in s.machines
  {
    match s.machines[tag]
    case CREATE => s.(machines := s.machines[tag := PROCESS], pending := s.pending + multiset{tag})
    case PROCESS =>
      var spawned := Spawned(s, address);
      spawned.(machines := spawned.machines[tag := FINISH], pending := spawned.pending + multiset{tag})
    case FINISH => s.(machines := s.machines - {tag}, deleted := s.deleted + 1)
  }

  /** Only a posted tag comes back, and an address in use is not handed out. */
  predicate Possible(s: Calls, e: Event) {
    !s.aborted && !s.dangling && (e.Event? ==> e.tag in s.pending && e.address !in s.machines)
  }

  /** HandleRpc stops the process unless it gets a tag whose operation succeeded. */
  function Handled(s: Calls, e: Event): Calls {
    var taken := if e.Event? then s.(pending := s.pending - multiset{e.tag}) else s;
    if !Succeeds(e) then taken.(aborted := true)
    else if e.tag !in s.machines then taken.(dangling := true)
    else Proceeded(taken, e.tag, e.address)
  }

  function Step(s: Calls, e: Event): Calls {
    if Possible(s, e) then Handled(s, e) else s
  }

  function After(s: Calls, es: seq<Event>): Calls {
    if es == [] then s else Step(After(s, es[..|es| - 1]), es[|es| - 1])
  }

  // ---- Ownership ----

  function Finishing(s: Calls): set<nat> {
    set m <- s.machines | s.machines[m] == FINISH
  }

  /** The one machine that waits for a new call. */
  ghost predicate Listens(s: Calls, m: nat) {
    && m in s.machines && s.machines[m] == PROCESS
    && forall k <- s.machines :: k != m ==> s.machines[k] == FINISH
  }

  /** Every live machine has exactly one tag outstanding, and there are no others. */
  ghost predicate OneTagEach(s: Calls) {
    forall m: nat :: s.pending[m] == if m in s.machines then 1 else 0
  }

  ghost predicate Owned(s: Calls) {
    && !s.dangling && OneTagEach(s) && (exists m :: Listens(s, m))
    && s.created == s.deleted + |s.machines|
  }

  lemma OwnedSpawn(address: nat)
    ensures Owned(Spawned(NO_CALLS, address))
  {
    var s := Spawned(NO_CALLS, address);
    assert Listens(s, address);
    assert s.machines.Keys == {address};
  }

  lemma OwnedProcess(s: Calls, tag: nat, address: nat)
    requires Owned(s) && tag in s.machines && s.machines[tag] == PROCESS && address !in s.machines
    ensures Owned(Proceeded(s.(pending := s.pending - multiset{tag}), tag, address))
  {
    var s' := Proceeded(s.(pending := s.pending - multiset{tag}), tag, address);
    assert Listens(s', address);
    assert s'.machines.Keys == s.machines.Keys + {address};
  }

  lemma OwnedFinish(s: Calls, tag: nat)
    requires Owned(s) && tag in s.machines && s.machines[tag] == FINISH
    ensures Owned(Proceeded(s.(pending := s.pending - multiset{tag}), tag, 0))
  {
    var s' := Proceeded(s.(pending := s.pending - multiset{tag}), tag, 0);
    var m :| Listens(s, m);
    assert Listens(s', m);
    assert s.machines.Keys == s'.machines.Keys + {tag};
  }

  lemma OwnedStep(s: Calls, e: Event)
    requires Owned(s) && Succeeds(e)
    ensures Owned(Step(s, e))
  {
    if Possible(s, e) {
      assert s.pending[e.tag] > 0;
      var m :| Listens(s, m);
      if s.machines[e.tag] == PROCESS {
        OwnedProcess(s, e.tag, e.address);
      } else {
        OwnedFinish(s, e.tag);
      }
    }
  }

  /** Who is left once the calls being finished are taken away. */
  lemma OneMoreThanFinishing(s: Calls)
    requires exists m :: Listens(s, m)
    ensures |s.machines| == 1 + |Finishing(s)|
  {
    var m :| Listens(s, m);
    assert s.machines.Keys == Finishing(s) + {m};
  }

  /**
   * Call ownership: over every run in which each operation succeeds, exactly one machine is in
   * PROCESS and the others in FINISH, every live machine has exactly one tag outstanding, no event
   * reaches a deleted machine, and created minus deleted is one plus those in FINISH.
   */
  lemma {:induction false} CallOwnership(address: nat, es: seq<Event>)
    requires forall i :: 0 <= i < |es| ==> Succeeds(es[i])
    ensures var s := After(Spawned(NO_CALLS, address), es);
            && !s.dangling && OneTagEach(s)
            && (exists m :: Listens(s, m))
            && s.created - s.deleted == 1 + |Finishing(s)|
            && Owned(s)
  {
    hide Step;
    if es == [] {
      OwnedSpawn(address);
    } else {
      CallOwnership(address, es[..|es| - 1]);
      OwnedStep(After(Spawned(NO_CALLS, address), es[..|es| - 1]), es[|es| - 1]);
    }
    OneMoreThanFinishing(After(Spawned(NO_CALLS, address), es));
  }

  // ---- Failures ----

  /** The run meets an operation that failed, or the end of the queue. */
  predicate Fails(s: Calls, es: seq<Event>) {
    es != [] &&
    var (front, e) := (es[..|es| - 1], es[|es| - 1]);
    Fails(s, front) || (Possible(After(s, front), e) && !Succeeds(e))
  }

  /** Over every run, HandleRpc has aborted exactly if it met a failure. */
  lemma {:induction false} AbortsExactly(address: nat, es: seq<Event>)
    ensures After(Spawned(NO_CALLS, address), es).aborted <==> Fails(Spawned(NO_CALLS, address), es)
  {
    hide Spawned;
    if es == [] {
      assert !Spawned(NO_CALLS, address).aborted by { NewIsLive(address); }
    } else {
      AbortsExactly(address, es[..|es| - 1]);
      AbortStep(After(Spawned(NO_CALLS, address), es[..|es| - 1]), es[|es| - 1]);
    }
  }

  lemma NewIsLive(address: nat)
    ensures !Spawned(NO_CALLS, address).aborted
  {
  }

  /** A failure takes its tag and touches no machine. */
  lemma AbortStep(s: Calls, e: Event)
    ensures Step(s, e).aborted <==> s.aborted || (Possible(s, e) && !Succeeds(e))
    ensures Possible(s, e) && !Succeeds(e) ==>
              Step(s, e) == s.(aborted := true,
                               pending := if e.Event? then s.pending - multiset{e.tag} else s.pending)
    ensures s.aborted ==> Step(s, e) == s
  {
  }

  // ---- The server ----

  class GrpcServer {
    var machines: map<nat, CallStatus>
    var pending: multiset<nat>
    var created: nat
    var deleted: nat
    var aborted: bool
    var dangling: bool

    function View(): (s: Calls)
      reads this
    {
      Calls(machines, pending, created, deleted, aborted, dangling)
    }

    constructor ()
      ensures View() == NO_CALLS
    {
      machines, pending, created, deleted, aborted, dangling := map[], multiset{}, 0, 0, false, false;
    }

    /** service_->f and service_->g, as far as they matter here. */
    method Post(tag: nat)
      modifies this`pending
      ensures pending == old(pending) + multiset{tag}
    {
      pending := pending + multiset{tag};
    }

    /** `new AsyncCallStateMachine(...)` at a free address. */
    method New(address: nat)
      requires address !in machines
      modifies this`machines, this`pending, this`created
      ensures View() == Spawned(old(View()), address)
    {
      created := created + 1;
      machines := machines[address := CREATE];
      machines := machines[address := PROCESS];
      Post(address);
    }

    method Proceed(tag: nat, address: nat)
      requires tag in machines && address !in machines
      modifies this`machines, this`pending, this`created, this`deleted
      ensures View() == Proceeded(old(View()), tag, address)
    {
      match machines[tag] {
        case CREATE =>
          machines := machines[tag := PROCESS];
          Post(tag);
        case PROCESS =>
          New(address);
          Post(tag);
          machines := machines[tag := FINISH];
        case FINISH =>
          machines := machines - {tag};
          deleted := deleted + 1;
      }
    }

    /** One event: the tag that comes back is a live machine, so the cast and the call are safe. */
    method Next(e: Event)
      requires Owned(View()) && !aborted
      modifies this
      ensures View() == Step(old(View()), e)
      ensures !dangling && (!aborted ==> Owned(View()))
    {
      if Succeeds(e) {
        OwnedStep(View(), e);
      }
      match e {
        case Drained => aborted := true;
        case Event(tag, ok, address) =>
          if tag in pending && address !in machines {
            assert View().pending[tag] > 0;
            pending := pending - multiset{tag};
            if ok {
              Proceed(tag, address);
            } else {
              aborted := true;
            }
          }
      }
    }

    /**
     * The loop, for the events the completion queue returns, until one reports a failure
     * or the queue is shut down.
     */
    method HandleRpc(first: nat, es: seq<Event>) returns (n: nat)
      requires View() == NO_CALLS
      modifies this
      ensures n <= |es| && (n < |es| ==> aborted)
      ensures aborted <==> Fails(Spawned(NO_CALLS, first), es[..n])
      ensures View() == After(Spawned(NO_CALLS, first), es[..n])
      ensures !dangling && (!aborted ==> Owned(View()))
    {
      New(first);
      OwnedSpawn(first);
      n := 0;
      hide Step, Owned, Fails;
      while n < |es| && !aborted
        invariant n <= |es|
        invariant View() == After(Spawned(NO_CALLS, first), es[..n])
        invariant !dangling && (!aborted ==> Owned(View()))
      {
        var e := es[n];
        assert es[..n + 1][..n] == es[..n];
        Next(e);
        n := n + 1;
      }
      AbortsExactly(first, es[..n]);
    }
  }
}
