// Where the tickets of the client engine are (src/bofwebsocket.cpp): over every run, each accepted
// ticket is in exactly one place, exactly as long as no step loses or doubles one.

module Tickets {
  import opened Words
  import opened Engine

  /** What happened since the start or the last honoured cancellation. */
  datatype Ledger = Ledger(
    accepted: map<nat, Command>,  // the commands the parameter queue took, by ticket
    collected: seq<Result>,       // the results users took
    queued: seq<WriteOp>,         // the writes put into the write queue
    done: seq<WriteOp>,           // the writes completed
    handed: seq<Byte>)            // the bytes lws_write was given from the write queue

  const NOTHING := Ledger(map[], [], [], [], [])

  datatype World = World(s: State, l: Ledger)

  /** The popped command is a write that reaches the write queue. */
  predicate Queues(s: State) {
    s.params != [] && !s.ioPending && MayQueue(s, s.params[0])
  }

  predicate MayQueue(s: State, p: Param) {
    p.cmd.Write? && p.cmd.data != [] && Online(s.link) && |s.writes| <= s.capacity
  }

  /** The callback hands the first queued write over. */
  predicate Completes(s: State, c: Callback) {
    c.ClientWriteable? && s.writes != [] && s.writes[0].data != [] && c.sent == |s.writes[0].data|
  }

  function Recorded(w: World, e: Event): Ledger {
    var (s, l) := (w.s, w.l);
    match e
    case Program(cmd, _) => if |s.params| < s.capacity then l.(accepted := l.accepted[s.nextTicket := cmd]) else l
    case Collect => if s.results == [] then l else l.(collected := l.collected + [s.results[0]])
    case Call(c) =>
      if Completes(s, c) then l.(done := l.done + [s.writes[0]], handed := l.handed + s.writes[0].data) else l
    case Fetch(a) => if Queues(s) then l.(queued := l.queued + Fetched(s, a).writes[|s.writes|..]) else l
    case HonourCancel => if s.cancel then NOTHING else l
    case _ => l
  }

  function Next(w: World, e: Event): World {
    if Enabled(w.s, e) then World(Effect(w.s, e), Recorded(w, e)) else w
  }

  function Run(w: World, es: seq<Event>): World {
    if es == [] then w else Next(Run(w, es[..|es| - 1]), es[|es| - 1])
  }

  function Start(capacity: nat, now: nat): World {
    World(Initial(capacity, now), NOTHING)
  }

  /** The ledger only watches. */
  lemma {:induction false} RunIsAfter(w: World, es: seq<Event>)
    ensures Run(w, es).s == After(w.s, es)
  {
    if es != [] {
      RunIsAfter(w, es[..|es| - 1]);
    }
  }

  // ---- The places of a ticket ----

  function One(b: bool): nat {
    if b then 1 else 0
  }

  function InParams(q: seq<Param>, t: nat): nat {
    if q == [] then 0 else InParams(q[..|q| - 1], t) + One(q[|q| - 1].ticket == t)
  }

  function InWrites(q: seq<WriteOp>, t: nat): nat {
    if q == [] then 0 else InWrites(q[..|q| - 1], t) + One(q[|q| - 1].result.ticket == t)
  }

  function InResults(q: seq<Result>, t: nat): nat {
    if q == [] then 0 else InResults(q[..|q| - 1], t) + One(q[|q| - 1].ticket == t)
  }

  /** Result_X holds the ticket while the loop owes its result; a queued write owes its own. */
  function InFlight(s: State, t: nat): nat {
    One(s.result.ticket == t && if s.ioPending then s.result.op != WRITE else s.sendResult)
  }

  /** In how many places the ticket is. */
  function Places(w: World, t: nat): nat {
    InParams(w.s.params, t) + InFlight(w.s, t) + InWrites(w.s.writes, t) + InResults(w.s.results,
      t) + InResults(w.l.collected, t)
  }

  /** Every accepted ticket is in exactly one place, and no other ticket is anywhere. */
  ghost predicate Conserved(w: World) {
    forall t: nat :: Places(w, t) == One(t in w.l.accepted)
  }

  lemma {:induction false} ParamsPop(q: seq<Param>, t: nat)
    requires q != []
    ensures InParams(q, t) == One(q[0].ticket == t) + InParams(q[1..], t)
  {
    if |q| > 1 {
      ParamsPop(q[..|q| - 1], t);
      assert q[1..][..|q| - 2] == q[..|q| - 1][1..];
    }
  }

  lemma {:induction false} WritesPop(q: seq<WriteOp>, t: nat)
    requires q != []
    ensures InWrites(q, t) == One(q[0].result.ticket == t) + InWrites(q[1..], t)
  {
    if |q| > 1 {
      WritesPop(q[..|q| - 1], t);
      assert q[1..][..|q| - 2] == q[..|q| - 1][1..];
    }
  }

  lemma {:induction false} ResultsPop(q: seq<Result>, t: nat)
    requires q != []
    ensures InResults(q, t) == One(q[0].ticket == t) + InResults(q[1..], t)
  {
    if |q| > 1 {
      ResultsPop(q[..|q| - 1], t);
      assert q[1..][..|q| - 2] == q[..|q| - 1][1..];
    }
  }

  lemma ParamsPush(q: seq<Param>, p: Param, t: nat)
    ensures InParams(q + [p], t) == InParams(q, t) + One(p.ticket == t)
  {
    assert (q + [p])[..|q|] == q;
  }

  lemma WritesPush(q: seq<WriteOp>, o: WriteOp, t: nat)
    ensures InWrites(q + [o], t) == InWrites(q, t) + One(o.result.ticket == t)
  {
    assert (q + [o])[..|q|] == q;
  }

  lemma ResultsPush(q: seq<Result>, r: Result, t: nat)
    ensures InResults(q + [r], t) == InResults(q, t) + One(r.ticket == t)
  {
    assert (q + [r])[..|q|] == q;
  }

  // ---- Which steps keep them ----

  /** What the loop may assume about its pending operation as long as nothing overwrote it. */
  ghost predicate Coherent(s: State) {
    && s.now > 0
    && (s.sendResult ==> s.phase in {Checking, Cancelling, Sending})
    && (s.sendResult && s.phase != Checking ==> !s.ioPending)
    && (s.ioPending && s.result.op == DISCONNECT ==> s.result.sts == NoError)
    && (s.ioPending ==>
          if s.result.op == WRITE then s.phase == Checking && s.current.cmd.Write?
          else
            || s.current == NO_PARAM
            || (s.result.op in {CONNECT, DISCONNECT, READ} && Kind(s.current.cmd) == s.result.op))
  }

  ghost predicate Sound(w: World) {
    && Coherent(w.s) && Conserved(w)
    && forall t <- w.l.accepted :: t < w.s.nextTicket
  }

  /**
   * The step pops no command while one is pending, overflows no result queue, gets a positive
   * answer from `lws_callback_on_writable` after a push and empties no queue from outside.
   */
  predicate Fair(s: State, e: Event) {
    Enabled(s, e) ==>
      match e
      case Fetch(a) => NoOverlap(s, e) && (Queues(s) ==> a.writable)
      case Call(c) => Completes(s, c) ==> HasRoom(s)
      case Send(_) => s.sendResult ==> HasRoom(s)
      case ResetQueues => s.params == [] && s.results == []
      case _ => true
  }

  /** The loop pops no command while one is pending. */
  predicate NoOverlap(s: State, e: Event) {
    Enabled(s, e) && e.Fetch? && s.params != [] ==> !s.ioPending
  }

  lemma CoherentFetch(s: State, a: Answers)
    requires Coherent(s) && s.phase == Fetching && (s.params != [] ==> !s.ioPending)
    ensures Coherent(Fetched(s, a))
  {
  }

  lemma CoherentCheck(s: State, received: Option<nat>, junk: nat)
    requires Coherent(s) && s.phase == Checking
    ensures Coherent(Checked(s, received, junk))
  {
  }

  lemma CoherentStep(s: State, e: Event)
    requires Coherent(s) && NoOverlap(s, e)
    ensures Coherent(Step(s, e))
  {
    hide Fetched, Checked;
    if Enabled(s, e) {
      match e {
        case Fetch(a) => CoherentFetch(s, a);
        case Check(received, junk) => CoherentCheck(s, received, junk);
        case _ =>
      }
    }
  }

  /** A programmed command is accepted and waits, or is neither. */
  lemma ProgramPlaces(w: World, cmd: Command, timeout: nat, t: nat)
    requires Enabled(w.s, Program(cmd, timeout)) && w.s.nextTicket !in w.l.accepted
    requires Places(w, t) == One(t in w.l.accepted)
    ensures var w' := Next(w, Program(cmd, timeout)); Places(w', t) == One(t in w'.l.accepted)
  {
    hide InParams, InWrites, InResults;
    ParamsPush(w.s.params, Param(cmd, w.s.nextTicket, timeout, w.s.now), t);
  }

  /** A collected result moves from the queue to the user. */
  lemma CollectPlaces(w: World, t: nat)
    requires Enabled(w.s, Collect)
    ensures Next(w, Collect).l.accepted == w.l.accepted && Places(Next(w, Collect), t) == Places(w, t)
  {
    hide InParams, InWrites, InResults;
    if w.s.results != [] {
      ResultsPop(w.s.results, t);
      ResultsPush(w.l.collected, w.s.results[0], t);
    }
  }

  lemma ResetPlaces(w: World, t: nat)
    requires Enabled(w.s, ResetQueues) && Fair(w.s, ResetQueues)
    ensures Next(w, ResetQueues).l == w.l && Places(Next(w, ResetQueues), t) == Places(w, t)
  {
    hide InParams, InWrites, InResults;
  }

  /** What a callback moves: the first queued write to the results, if it completes it and there is room. */
  lemma CallbackMoves(s: State, c: Callback)
    ensures var s' := CalledBack(s, c);
            && s' == s.(writes := s'.writes, results := s'.results, link := s'.link, tx := s'.tx, phase := s'.phase)
            && (if Completes(s, c) then s'.writes == s.writes[1..] && s'.results == Pushed(s, WriteDone(s, s.writes[0]))
                else s'.writes == s.writes && s'.results == s.results)
  {
    hide WriteDone, Pushed;
    match c {
      case ClientWriteable(_) =>
      case _ =>
    }
  }

  lemma CallbackPlaces(w: World, c: Callback, t: nat)
    requires Enabled(w.s, Call(c))
    ensures Next(w, Call(c)).l.accepted == w.l.accepted
    ensures Places(Next(w, Call(c)), t) ==
            Places(w, t) - if Completes(w.s, c) && !HasRoom(w.s) then One(w.s.writes[0].result.ticket == t) else 0
  {
    hide InParams, InWrites, InResults, CalledBack;
    var s := w.s;
    CallbackMoves(s, c);
    if Completes(s, c) {
      WritesPop(s.writes, t);
      ResultsPush(s.results, WriteDone(s, s.writes[0]), t);
    }
  }

  /** An executed command is in flight, unless it is a write that was queued. */
  lemma ExecutedInFlight(s: State, a: Answers, t: nat)
    requires !s.ioPending
    ensures var s' := Executed(s, a);
            && s'.params == s.params && s'.results == s.results
            && (if MayQueue(s, s.current) then
                  |s'.writes| == |s.writes| + 1 && s'.writes[..|s.writes|] == s.writes
                  && s'.writes[|s.writes|].result.ticket == s.current.ticket
                else s'.writes == s.writes)
            && InFlight(s', t) == if MayQueue(s, s.current) && a.writable then 0 else One(s.current.ticket == t)
  {
  }

  lemma ExecutedPlaces(s: State, a: Answers, t: nat)
    requires !s.ioPending
    ensures var s' := Executed(s, a);
            && s'.params == s.params && s'.results == s.results
            && InFlight(s', t) + InWrites(s'.writes, t) ==
               InWrites(s.writes, t) + One(s.current.ticket == t) + if MayQueue(s, s.current) &&
                 !a.writable then One(s.current.ticket == t) else 0
  {
    hide Executed, InFlight;
    ExecutedInFlight(s, a, t);
    if MayQueue(s, s.current) {
      var s' := Executed(s, a);
      assert s'.writes == s.writes + [s'.writes[|s.writes|]];
      WritesPush(s.writes, s'.writes[|s.writes|], t);
    }
  }

  /** How the places of a ticket change when the loop fetches. */
  function FetchGain(s: State, a: Answers, t: nat): int {
    if s.params == [] || s.params[0].ticket != t then 0
    else if s.ioPending then -1
    else if Queues(s) && !a.writable then 1
    else 0
  }

  lemma FetchPlaces(w: World, a: Answers, t: nat)
    requires Coherent(w.s) && Enabled(w.s, Fetch(a))
    ensures Next(w, Fetch(a)).l.accepted == w.l.accepted
    ensures Places(Next(w, Fetch(a)), t) == Places(w, t) + FetchGain(w.s, a, t)
  {
    hide Executed, InParams, InWrites, InResults;
    var s := w.s;
    if s.params != [] {
      ParamsPop(s.params, t);
      if !s.ioPending {
        ExecutedPlaces(s.(phase := Checking, current := s.params[0], params := s.params[1..]), a, t);
      }
    }
  }

  lemma CheckedInFlight(s: State, received: Option<nat>, junk: nat, t: nat)
    requires Coherent(s) && s.phase == Checking
    ensures InFlight(Checked(s, received, junk), t) == InFlight(s, t)
    ensures var s' := Checked(s, received, junk);
            s'.params == s.params && s'.writes == s.writes && s'.results == s.results
  {
    if s.ioPending {
      var p := Progressed(s, received, junk);
      assert p.result.ticket == s.result.ticket && p.result.op == s.result.op;
      assert Expired(p).result.ticket == p.result.ticket && Expired(p).result.op == p.result.op;
    }
  }

  /**
   * A pending operation stays pending exactly while it is in time and still waits: a CONNECT for
   * the connection, a READ for data. Otherwise its result is sent, with its ticket: timed out if it
   * is late, also when its operation was reset with the context, and else done. A write has no
   * result here: the callback that completes it sends it.
   */
  lemma PendingUntil(s: State, received: Option<nat>, junk: nat)
    requires Coherent(s) && s.phase == Checking && s.ioPending
    ensures var s' := Checked(s, received, junk);
            var late := s.current == NO_PARAM || (s.result.op != WRITE && s.now - s.current.timer > s.current.timeout);
            && (s'.ioPending <==>
                  !late && ((s.result.op == CONNECT && !s.link.connectDone) || (s.result.op == READ && received.None?)))
            && (s'.sendResult <==> !s'.ioPending && s.result.op != WRITE)
            && (s'.sendResult ==>
                  && s'.result.op == s.result.op && s'.result.ticket == s.result.ticket
                  && (s'.result.sts == if late then TimedOut else NoError)
                  && (!late && s.result.op == READ ==> s'.result.size == received.value))
  {
    var p := Progressed(s, received, junk);
    assert p.result.ticket == s.result.ticket && p.result.op == s.result.op;
  }

  lemma CheckPlaces(w: World, received: Option<nat>, junk: nat, t: nat)
    requires Coherent(w.s) && Enabled(w.s, Check(received, junk))
    ensures Next(w, Check(received, junk)).l.accepted == w.l.accepted
    ensures Places(Next(w, Check(received, junk)), t) == Places(w, t)
  {
    hide InParams, InWrites, InResults, InFlight, Checked;
    CheckedInFlight(w.s, received, junk, t);
  }

  lemma SendPlaces(w: World, mustExit: bool, t: nat)
    requires Coherent(w.s) && Enabled(w.s, Send(mustExit))
    ensures Next(w, Send(mustExit)).l.accepted == w.l.accepted
    ensures Places(Next(w, Send(mustExit)), t) ==
            Places(w, t) - if w.s.sendResult && !HasRoom(w.s) then One(w.s.result.ticket == t) else 0
  {
    var s := w.s;
    ResultsPush(s.results, s.result.(time := s.now - s.current.timer), t);
  }

  /** An honoured cancellation empties the places and the ledger. */
  lemma CancelPlaces(w: World, t: nat)
    requires Coherent(w.s) && Enabled(w.s, HonourCancel)
    requires Places(w, t) == One(t in w.l.accepted)
    ensures Places(Next(w, HonourCancel), t) == One(t in Next(w, HonourCancel).l.accepted)
  {
    assert InParams([], t) == InResults([], t) == InWrites([], t) == 0;
    hide InParams, InWrites, InResults;
    if !w.s.cancel {
      assert Next(w, HonourCancel) == w.(s := w.s.(phase := Sending));
    }
  }

  lemma OtherPlaces(w: World, e: Event, t: nat)
    requires Coherent(w.s) && Enabled(w.s, e)
    requires e.RequestCancel? || e.ClearCancel? || e.Tick? || e.Enter? || e.EndService?
    ensures Places(Next(w, e), t) == Places(w, t)
    ensures Next(w, e).l == w.l
  {
    hide InParams, InWrites, InResults;
  }

  lemma FairPlaces(w: World, e: Event, t: nat)
    requires Sound(w) && Fair(w.s, e)
    ensures Places(Next(w, e), t) == One(t in Next(w, e).l.accepted)
  {
    hide Places, Next;
    assert Places(w, t) == One(t in w.l.accepted);
    if Enabled(w.s, e) {
      match e {
        case Call(c) => CallbackPlaces(w, c, t);
        case Fetch(a) => FetchPlaces(w, a, t);
        case Check(received, junk) => CheckPlaces(w, received, junk, t);
        case Send(mustExit) => SendPlaces(w, mustExit, t);
        case Program(cmd, timeout) => ProgramPlaces(w, cmd, timeout, t);
        case Collect => CollectPlaces(w, t);
        case ResetQueues => ResetPlaces(w, t);
        case HonourCancel => CancelPlaces(w, t);
        case _ => OtherPlaces(w, e, t);
      }
    } else {
      assert Next(w, e) == w by { Disabled(w, e); }
    }
  }

  lemma Disabled(w: World, e: Event)
    requires !Enabled(w.s, e)
    ensures Next(w, e) == w
  {
  }

  /** A step that is not fair loses or doubles a ticket. */
  lemma UnfairPlaces(w: World, e: Event) returns (t: nat)
    requires Sound(w) && !Fair(w.s, e)
    ensures Places(Next(w, e), t) != One(t in Next(w, e).l.accepted)
  {
    var s := w.s;
    t := 0;
    match e {
      case Call(c) =>
        t := s.writes[0].result.ticket;
        CallbackPlaces(w, c, t);
      case Fetch(a) =>
        t := s.params[0].ticket;
        FetchPlaces(w, a, t);
      case Send(mustExit) =>
        t := s.result.ticket;
        SendPlaces(w, mustExit, t);
      case ResetQueues =>
        t := if s.params != [] then s.params[0].ticket else s.results[0].ticket;
        if s.params != [] { ParamsPop(s.params, t); } else { ResultsPop(s.results, t); }
      case _ => assert false;
    }
    assert Places(w, t) == One(t in w.l.accepted);
  }

  lemma TicketsBelow(w: World, e: Event)
    requires forall t <- w.l.accepted :: t < w.s.nextTicket
    ensures Next(w, e).s == Step(w.s, e)
    ensures forall t <- Next(w, e).l.accepted :: t < Next(w, e).s.nextTicket
  {
    hide Executed, Progressed, Expired, CalledBack;
    if e.Call? {
      CallbackMoves(w.s, e.callback);
    }
  }

  /** A step keeps every accepted ticket in exactly one place exactly if it is fair. */
  lemma ConservedIffFair(w: World, e: Event)
    requires Sound(w)
    ensures Conserved(Next(w, e)) <==> Fair(w.s, e)
    ensures Fair(w.s, e) ==> Sound(Next(w, e))
  {
    hide Places, Next, Step;
    if Fair(w.s, e) {
      forall t: nat ensures Places(Next(w, e), t) == One(t in Next(w, e).l.accepted) {
        FairPlaces(w, e, t);
      }
      CoherentStep(w.s, e);
      TicketsBelow(w, e);
    } else {
      var _ := UnfairPlaces(w, e);
    }
  }

  // ---- Over whole runs ----

  /** Every step of the run is fair in the state it meets. */
  predicate FairRun(w: World, es: seq<Event>) {
    es == [] || (FairRun(w, es[..|es| - 1]) && Fair(Run(w, es[..|es| - 1]).s, es[|es| - 1]))
  }

  /** At every point of the run, each accepted ticket is in exactly one place. */
  ghost predicate AlwaysConserved(w: World, es: seq<Event>) {
    Conserved(Run(w, es)) && (es == [] || AlwaysConserved(w, es[..|es| - 1]))
  }

  lemma StartIsSound(capacity: nat, now: nat)
    requires now > 0
    ensures Sound(Start(capacity, now))
  {
  }

  /**
   * Ticket conservation: from the start or the last honoured cancellation on, every ticket
   * accepted is at all times in exactly one of the parameter queue, in flight, the write queue,
   * the result queue and the collected results, exactly if all steps are fair.
   */
  lemma {:induction false} TicketConservation(capacity: nat, now: nat, es: seq<Event>)
    requires now > 0
    ensures AlwaysConserved(Start(capacity, now), es) <==> FairRun(Start(capacity, now), es)
    ensures FairRun(Start(capacity, now), es) ==> Sound(Run(Start(capacity, now), es))
  {
    var w := Start(capacity, now);
    StartIsSound(capacity, now);
    if es != [] {
      TicketConservation(capacity, now, es[..|es| - 1]);
      if FairRun(w, es[..|es| - 1]) {
        ConservedIffFair(Run(w, es[..|es| - 1]), es[|es| - 1]);
      }
    }
  }

  /** Hence no ticket has two results, and each result has the ticket of an accepted command. */
  lemma AtMostOneResult(capacity: nat, now: nat, es: seq<Event>, t: nat)
    requires now > 0 && FairRun(Start(capacity, now), es)
    ensures var w := Run(Start(capacity, now), es);
            InResults(w.s.results, t) + InResults(w.l.collected, t) <= One(t in w.l.accepted)
  {
    TicketConservation(capacity, now, es);
    assert Places(Run(Start(capacity, now), es), t) <= 1;
  }
}
