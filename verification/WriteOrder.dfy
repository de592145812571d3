// Ordered writes in the client engine (src/bofwebsocket.cpp).

module WriteOrder {
  import opened Words
  import opened Engine
  import opened Tickets

  /** A write reported as done: its ticket and how many bytes. */
  datatype Completion = Completion(ticket: nat, size: nat)

  function Completions(ops: seq<WriteOp>): seq<Completion> {
    if ops == [] then [] else
      Completions(ops[..|ops| - 1]) + [Completion(ops[|ops| - 1].result.ticket, |ops[|ops| - 1].data|)]
  }

  predicate IsSuccess(r: Result) {
    r.op == WRITE && r.sts == NoError
  }

  /** The write results that report success, in order. */
  function Successes(rs: seq<Result>): seq<Completion> {
    if rs == [] then [] else
      var r := rs[|rs| - 1];
      Successes(rs[..|rs| - 1]) + if IsSuccess(r) then [Completion(r.ticket, r.size)] else []
  }

  function Payloads(ops: seq<WriteOp>): seq<Byte> {
    if ops == [] then [] else Payloads(ops[..|ops| - 1]) + ops[|ops| - 1].data
  }

  function Total(cs: seq<Completion>): nat {
    if cs == [] then 0 else Total(cs[..|cs| - 1]) + cs[|cs| - 1].size
  }

  function WriteTickets(q: seq<WriteOp>): seq<nat> {
    seq(|q|, i requires 0 <= i < |q| => q[i].result.ticket)
  }

  function ParamTickets(q: seq<Param>): seq<nat> {
    seq(|q|, i requires 0 <= i < |q| => q[i].ticket)
  }

  /** The tickets of the writes queued so far, then those of the commands still waiting. */
  function Line(w: World): seq<nat> {
    WriteTickets(w.l.queued) + ParamTickets(w.s.params)
  }

  ghost predicate Increasing(ts: seq<nat>, bound: nat) {
    && (forall i, j :: 0 <= i < j < |ts| ==> ts[i] < ts[j])
    && (forall i :: 0 <= i < |ts| ==> ts[i] < bound)
  }

  /** What was queued is what was accepted: the same ticket and the same bytes. */
  ghost predicate AsAccepted(w: World) {
    && (forall o <- w.l.queued :: o.result.ticket in w.l.accepted && w.l.accepted[o.result.ticket] == Write(o.data))
    && (forall p <- w.s.params :: p.ticket in w.l.accepted && w.l.accepted[p.ticket] == p.cmd)
    && (forall t <- w.l.accepted :: t < w.s.nextTicket)
  }

  /** The write queue is what is left of the writes queued, first in first out. */
  ghost predicate Flow(w: World) {
    && w.l.queued == w.l.done + w.s.writes
    && w.l.handed == Payloads(w.l.done)
    && w.s.tx == Total(Completions(w.l.done))
  }

  /** The results that report success are those of the writes done, in their order. */
  ghost predicate Reported(w: World) {
    Successes(w.l.collected + w.s.results) == Completions(w.l.done)
  }

  /** The loop itself never reports a write as done. */
  ghost predicate Silent(s: State) {
    && (s.sendResult ==> s.phase in {Checking, Cancelling, Sending})
    && (s.ioPending && s.result.op == WRITE ==> s.phase == Checking && s.current.cmd.Write?)
    && (s.sendResult && !s.ioPending ==> !IsSuccess(s.result))
  }

  /** A completed write finds room for its result, and a reset throws no success away. */
  predicate Kept(s: State, e: Event) {
    Enabled(s, e) ==>
      && (e.Call? && Completes(s, e.callback) ==> HasRoom(s))
      && (e.ResetQueues? ==> Successes(s.results) == [])
  }

  // ---- The loop is silent ----

  lemma SilentFetched(s: State, a: Answers)
    requires Silent(s) && s.phase == Fetching
    ensures Silent(Fetched(s, a))
  {
  }

  lemma SilentChecked(s: State, received: Option<nat>, junk: nat)
    requires Silent(s) && s.phase == Checking
    ensures Silent(Checked(s, received, junk))
  {
  }

  lemma SilentStep(s: State, e: Event)
    requires Silent(s)
    ensures Silent(Step(s, e))
  {
    hide Fetched, Checked;
    if Enabled(s, e) {
      match e {
        case Fetch(a) => SilentFetched(s, a);
        case Check(received, junk) => SilentChecked(s, received, junk);
        case _ =>
      }
    }
  }

  // ---- Bytes and results flow in order ----

  lemma CompletionsPush(ops: seq<WriteOp>, o: WriteOp)
    ensures Completions(ops + [o]) == Completions(ops) + [Completion(o.result.ticket, |o.data|)]
    ensures Payloads(ops + [o]) == Payloads(ops) + o.data
    ensures Total(Completions(ops + [o])) == Total(Completions(ops)) + |o.data|
  {
    assert (ops + [o])[..|ops|] == ops;
    var cs := Completions(ops) + [Completion(o.result.ticket, |o.data|)];
    assert cs[..|cs| - 1] == Completions(ops);
  }

  lemma SuccessesPush(rs: seq<Result>, r: Result)
    ensures Successes(rs + [r]) == Successes(rs) + if IsSuccess(r) then [Completion(r.ticket, r.size)] else []
  {
    assert (rs + [r])[..|rs|] == rs;
  }

  /** A queued write reports itself as a write. */
  ghost predicate Marked(q: seq<WriteOp>) {
    forall o <- q :: o.result.op == WRITE
  }

  lemma {:induction false} SuccessesJoin(a: seq<Result>, b: seq<Result>)
    ensures Successes(a + b) == Successes(a) + Successes(b)
  {
    if b == [] {
      assert a + b == a;
    } else {
      var (front, r) := (b[..|b| - 1], b[|b| - 1]);
      SuccessesJoin(a, front);
      SuccessesPush(a + front, r);
      SuccessesPush(front, r);
      assert a + b == a + front + [r] && front + [r] == b;
    }
  }

  /** A completed write flows on; its success is reported exactly if there is room. */
  lemma FlowCalled(w: World, c: Callback)
    requires Flow(w) && Marked(w.s.writes) && Enabled(w.s, Call(c))
    ensures Flow(Next(w, Call(c)))
    ensures Marked(Next(w, Call(c)).s.writes)
    ensures Reported(w) ==> (Reported(Next(w, Call(c))) <==> Kept(w.s, Call(c)))
  {
    var (s, l) := (w.s, w.l);
    hide Completions, Successes, Payloads, Total;
    if Completes(s, c) {
      var o := s.writes[0];
      assert o in s.writes;
      CompletionsPush(l.done, o);
      SuccessesPush(l.collected + s.results, WriteDone(s, o));
      assert l.collected + (s.results + [WriteDone(s, o)]) == l.collected + s.results + [WriteDone(s, o)];
      assert l.done + s.writes == l.done + [o] + s.writes[1..];
    }
  }

  lemma FlowFetched(w: World, a: Answers)
    requires Flow(w) && Marked(w.s.writes) && Enabled(w.s, Fetch(a))
    ensures Flow(Next(w, Fetch(a))) && (Reported(w) ==> Reported(Next(w, Fetch(a))))
    ensures Marked(Next(w, Fetch(a)).s.writes)
  {
    hide Completions, Successes, Payloads, Total;
    QueuedAtEnd(w.s, a);
    var s' := Fetched(w.s, a);
    hide Fetched;
    assert w.l.done + s'.writes == w.l.done + w.s.writes + s'.writes[|w.s.writes|..];
  }

  /** What a fetch adds to the write queue. */
  lemma QueuedAtEnd(s: State, a: Answers)
    ensures var s' := Fetched(s, a);
            && s' == s.(phase := Checking, params := s'.params, current := s'.current, result := s'.result,
                 sendResult := s'.sendResult,
                        ioPending := s'.ioPending, writes := s'.writes, link := s'.link, exiting := s'.exiting)
            && s'.params == (if s.params == [] then [] else s.params[1..])
            && if Queues(s) then
                 exists o: WriteOp ::
                   s'.writes == s.writes + [o] && o.result.op == WRITE &&
                   o.result.ticket == s.params[0].ticket && s.params[0].cmd == Write(o.data)
               else s'.writes == s.writes
  {
    if Queues(s) {
      var s' := Fetched(s, a);
      assert s'.writes == s.writes + [s'.writes[|s.writes|]];
    }
  }

  lemma FlowSent(w: World, mustExit: bool)
    requires Flow(w) && Enabled(w.s, Send(mustExit))
    ensures Flow(Next(w, Send(mustExit))) && Next(w, Send(mustExit)).s.writes == w.s.writes
    ensures Silent(w.s) && Reported(w) ==> Reported(Next(w, Send(mustExit)))
  {
    var (s, l) := (w.s, w.l);
    var r := s.result.(time := s.now - s.current.timer);
    SuccessesPush(l.collected + s.results, r);
    hide Completions, Payloads, Total, Successes;
    assert l.collected + (s.results + [r]) == l.collected + s.results + [r];
  }

  lemma FlowCollected(w: World)
    requires Flow(w) && Enabled(w.s, Collect)
    ensures Flow(Next(w, Collect)) && Next(w, Collect).s.writes == w.s.writes
    ensures Reported(w) ==> Reported(Next(w, Collect))
  {
    hide Completions, Successes, Payloads, Total;
    var (s, l) := (w.s, w.l);
    if s.results != [] {
      assert l.collected + [s.results[0]] + s.results[1..] == l.collected + s.results;
    }
  }

  lemma FlowHonoured(w: World)
    requires Flow(w) && Enabled(w.s, HonourCancel)
    ensures Flow(Next(w, HonourCancel)) && (Reported(w) ==> Reported(Next(w, HonourCancel)))
    ensures Marked(w.s.writes) ==> Marked(Next(w, HonourCancel).s.writes)
  {
    assert Completions([]) == Successes([]) == [] && Payloads([]) == [] && Total([]) == 0;
    hide Completions, Successes, Payloads, Total;
  }

  /** A reset of the queues throws exactly the uncollected successes away. */
  lemma FlowReset(w: World)
    requires Flow(w) && Enabled(w.s, ResetQueues)
    ensures Flow(Next(w, ResetQueues)) && Next(w, ResetQueues).s.writes == w.s.writes
    ensures Reported(w) ==> (Reported(Next(w, ResetQueues)) <==> Kept(w.s, ResetQueues))
  {
    SuccessesJoin(w.l.collected, w.s.results);
    hide Completions, Successes, Payloads, Total;
    assert w.l.collected + [] == w.l.collected;
  }

  /** The other steps touch neither the write queue nor the results. */
  lemma OtherSteps(w: World, e: Event)
    requires Enabled(w.s, e)
    requires !e.Call? && !e.Fetch? && !e.Send? && !e.Collect? && !e.HonourCancel? && !e.ResetQueues?
    ensures var w' := Next(w, e);
            && w'.s.writes == w.s.writes && w'.s.results == w.s.results && w'.s.tx == w.s.tx
            && w'.l == w.l.(accepted := w'.l.accepted)
    ensures !e.Program? ==> Next(w, e).s.params == w.s.params && Next(w, e).l == w.l
  {
    hide Progressed, Expired;
  }

  // ---- Acceptance order ----

  lemma Shorter(ts: seq<nat>, n: nat, bound: nat)
    requires Increasing(ts, bound) && n < |ts|
    ensures Increasing(ts[..n] + ts[n + 1..], bound)
  {
  }

  lemma TicketsMove(q: seq<WriteOp>, o: WriteOp, p: seq<Param>)
    requires p != []
    ensures WriteTickets(q + [o]) == WriteTickets(q) + [o.result.ticket]
    ensures ParamTickets(p) == [p[0].ticket] + ParamTickets(p[1..])
  {
  }

  /** The command fetched leaves the line, or moves from its second part to its first. */
  lemma LineFetched(w: World, a: Answers, bound: nat)
    requires Increasing(Line(w), bound) && Enabled(w.s, Fetch(a))
    ensures Increasing(Line(Next(w, Fetch(a))), bound)
  {
    var (s, s', w') := (w.s, Fetched(w.s, a), Next(w, Fetch(a)));
    QueuedAtEnd(s, a);
    hide Increasing, Fetched, Executed, WriteTickets, ParamTickets;
    var (before, after, n) := (Line(w), Line(w'), |WriteTickets(w.l.queued)|);
    if s.params != [] {
      if Queues(s) {
        var o := s'.writes[|s.writes|];
        assert s'.writes[|s.writes|..] == [o];
        TicketsMove(w.l.queued, o, s.params);
        assert after == before;
      } else {
        TicketsMove([], WriteOp(NO_RESULT, [], 0, 0), s.params);
        assert after == before[..n] + before[n + 1..];
        Shorter(before, n, bound);
      }
    }
  }

  lemma CallKept(s: State, c: Callback)
    ensures CalledBack(s, c).params == s.params && CalledBack(s, c).nextTicket == s.nextTicket
  {
  }

  /** Steps that neither accept nor fetch nor cancel keep the line and what was accepted. */
  lemma LineKept(w: World, e: Event)
    requires Enabled(w.s, e)
    requires !e.Program? && !e.Fetch? && !e.HonourCancel? && !e.ResetQueues?
    ensures var w' := Next(w, e);
            && w'.s.params == w.s.params && w'.s.nextTicket == w.s.nextTicket
            && w'.l.queued == w.l.queued && w'.l.accepted == w.l.accepted
  {
    hide Progressed, Expired, CalledBack;
    match e {
      case Call(c) => CallKept(w.s, c);
      case Check(_, _) =>
      case Send(_) =>
      case _ =>
    }
  }

  ghost predicate Lined(w: World) {
    AsAccepted(w) && Increasing(Line(w), w.s.nextTicket)
  }

  lemma LinedFetched(w: World, a: Answers)
    requires Lined(w) && Enabled(w.s, Fetch(a))
    ensures Lined(Next(w, Fetch(a)))
  {
    LineFetched(w, a, w.s.nextTicket);
    QueuedAtEnd(w.s, a);
    hide Increasing, Line, Fetched;
    var w' := Next(w, Fetch(a));
    forall o <- w'.l.queued ensures o.result.ticket in w.l.accepted && w.l.accepted[o.result.ticket] == Write(o.data) {
      if o !in w.l.queued {
        assert w.s.params[0] in w.s.params;
      }
    }
  }

  lemma LinedProgrammed(w: World, cmd: Command, timeout: nat)
    requires Lined(w) && Enabled(w.s, Program(cmd, timeout))
    ensures Lined(Next(w, Program(cmd, timeout)))
  {
    var w' := Next(w, Program(cmd, timeout));
    hide Fetched, Checked, CalledBack, Sent;
    if |w.s.params| < w.s.capacity {
      assert Line(w') == Line(w) + [w.s.nextTicket];
    } else {
      assert Line(w') == Line(w);
    }
  }

  /** A reset forgets the waiting commands, which is the end of the line. */
  lemma LinedReset(w: World)
    requires Lined(w) && Enabled(w.s, ResetQueues)
    ensures Lined(Next(w, ResetQueues))
  {
    var (before, after) := (Line(w), Line(Next(w, ResetQueues)));
    assert after == before[..|w.l.queued|];
  }

  lemma LinedHonoured(w: World)
    requires Lined(w) && Enabled(w.s, HonourCancel)
    ensures Lined(Next(w, HonourCancel))
  {
    if !w.s.cancel {
      assert Line(Next(w, HonourCancel)) == Line(w);
    }
  }

  lemma LinedStep(w: World, e: Event)
    requires Lined(w)
    ensures Lined(Next(w, e))
  {
    if Enabled(w.s, e) {
      if e.Program? {
        LinedProgrammed(w, e.cmd, e.timeout);
      } else if e.Fetch? {
        LinedFetched(w, e.answers);
      } else if e.HonourCancel? {
        LinedHonoured(w);
      } else if e.ResetQueues? {
        LinedReset(w);
      } else {
        LineKept(w, e);
        assert Line(Next(w, e)) == Line(w);
      }
    }
  }

  // ---- Over whole runs ----

  ghost predicate InOrder(w: World) {
    Flow(w) && Marked(w.s.writes) && Silent(w.s) && Lined(w)
  }

  lemma FlowStep(w: World, e: Event)
    requires Flow(w) && Marked(w.s.writes) && Silent(w.s)
    ensures Flow(Next(w, e)) && Marked(Next(w, e).s.writes)
    ensures Reported(w) ==> (Reported(Next(w, e)) <==> Kept(w.s, e))
  {
    hide Completions, Successes, Payloads, Total;
    if Enabled(w.s, e) {
      match e {
        case Call(c) => FlowCalled(w, c);
        case Fetch(a) => FlowFetched(w, a);
        case Send(mustExit) => FlowSent(w, mustExit);
        case Collect => FlowCollected(w);
        case HonourCancel => FlowHonoured(w);
        case ResetQueues => FlowReset(w);
        case _ => OtherSteps(w, e);
      }
    }
  }

  lemma InOrderStep(w: World, e: Event)
    requires InOrder(w)
    ensures InOrder(Next(w, e))
    ensures Reported(w) ==> (Reported(Next(w, e)) <==> Kept(w.s, e))
  {
    hide Flow, Reported, Silent, Lined, Next, Step, Kept;
    FlowStep(w, e);
    LinedStep(w, e);
    SilentStep(w.s, e);
    assert Next(w, e).s == Step(w.s, e) by { StepOfNext(w, e); }
  }

  lemma StepOfNext(w: World, e: Event)
    ensures Next(w, e).s == Step(w.s, e)
  {
  }

  lemma {:induction false} AlwaysInOrder(capacity: nat, now: nat, es: seq<Event>)
    ensures InOrder(Run(Start(capacity, now), es))
  {
    hide Next;
    if es == [] {
      assert Payloads([]) == [] && Completions([]) == [] && Total([]) == 0;
    } else {
      AlwaysInOrder(capacity, now, es[..|es| - 1]);
      InOrderStep(Run(Start(capacity, now), es[..|es| - 1]), es[|es| - 1]);
    }
  }

  /**
   * Ordered writes: over every run, also one that overlaps commands, overflows queues or resets
   * them: since the start or the last honoured cancellation, the writes queued are accepted ones,
   * with their bytes, in the order of their tickets; those done are a first part of them; lws_write
   * got exactly their bytes, one after the other; and the transmit counter is how many.
   */
  lemma OrderedWrites(capacity: nat, now: nat, es: seq<Event>)
    ensures var w := Run(Start(capacity, now), es);
            && w.l.queued == w.l.done + w.s.writes
            && w.l.handed == Payloads(w.l.done)
            && w.s.tx == |w.l.handed|
            && AsAccepted(w) && Increasing(Line(w), w.s.nextTicket)
  {
    AlwaysInOrder(capacity, now, es);
    BytesCounted(Run(Start(capacity, now), es).l.done);
  }

  lemma {:induction false} BytesCounted(ops: seq<WriteOp>)
    ensures Total(Completions(ops)) == |Payloads(ops)|
  {
    if ops != [] {
      BytesCounted(ops[..|ops| - 1]);
      CompletionsPush(ops[..|ops| - 1], ops[|ops| - 1]);
      assert ops[..|ops| - 1] + [ops[|ops| - 1]] == ops;
    }
  }

  /** Every step of the run keeps the successes of the writes done. */
  predicate KeptRun(w: World, es: seq<Event>) {
    es == [] || (KeptRun(w, es[..|es| - 1]) && Kept(Run(w, es[..|es| - 1]).s, es[|es| - 1]))
  }

  /** What users can see: the successes in order, and the counter as the sum of their sizes. */
  ghost predicate Visible(w: World) {
    var seen := Successes(w.l.collected + w.s.results);
    seen == Completions(w.l.done) && w.s.tx == Total(seen)
  }

  ghost predicate AlwaysVisible(w: World, es: seq<Event>) {
    Visible(Run(w, es)) && (es == [] || AlwaysVisible(w, es[..|es| - 1]))
  }

  /**
   * At all times the write results come out in order, one for each write done, and the transmit
   * counter is the sum of their sizes, exactly if no completed write finds the result queue full
   * and no reset meets a success that nobody collected.
   */
  lemma {:induction false} WritesReported(capacity: nat, now: nat, es: seq<Event>)
    ensures AlwaysVisible(Start(capacity, now), es) <==> KeptRun(Start(capacity, now), es)
  {
    hide Next, Kept;
    var w := Start(capacity, now);
    if es == [] {
      assert Completions([]) == [] && Successes([]) == [] && Total([]) == 0;
    } else {
      WritesReported(capacity, now, es[..|es| - 1]);
      AlwaysInOrder(capacity, now, es[..|es| - 1]);
      AlwaysInOrder(capacity, now, es);
      InOrderStep(Run(w, es[..|es| - 1]), es[|es| - 1]);
    }
  }

  /** A write completed on a full result queue: its bytes went out and are counted, its result is lost. */
  lemma OverflowLosesResult(w: World, c: Callback)
    requires InOrder(w) && Visible(w) && Enabled(w.s, Call(c)) && Completes(w.s, c)
    requires |w.s.results| == w.s.capacity + 1
    ensures var w' := Next(w, Call(c));
            && w'.l.handed == w.l.handed + w.s.writes[0].data
            && w'.s.results == w.s.results && w'.l.collected == w.l.collected
            && w'.s.tx > Total(Successes(w'.l.collected + w'.s.results))
  {
  }
}
