// No stale tickets in the client engine (src/bofwebsocket.cpp): once a cancellation is honoured,
// nothing that was accepted before it is ever reported again.

module Cancellation {
  import opened Words
  import opened Engine

  ghost predicate ParamsSince(q: seq<Param>, mark: nat) {
    forall p <- q :: mark <= p.ticket
  }

  ghost predicate WritesSince(q: seq<WriteOp>, mark: nat) {
    forall o <- q :: mark <= o.result.ticket
  }

  ghost predicate ResultsSince(q: seq<Result>, mark: nat) {
    forall r <- q :: mark <= r.ticket
  }

  /** Every ticket the engine holds, wherever it is, was given out at `mark` or later. */
  ghost predicate Since(s: State, mark: nat) {
    && mark <= s.nextTicket
    && ParamsSince(s.params, mark) && WritesSince(s.writes, mark) && ResultsSince(s.results, mark)
    && (s.current.cmd != Idle ==> mark <= s.current.ticket)
    && (s.ioPending || s.sendResult ==> mark <= s.result.ticket)
  }

  /**
   * A check finds a LISTEN popped over a pending operation while connected: the ticket it reports was
   * never set, and happens to be an old one.
   */
  predicate Misfires(s: State, e: Event, mark: nat) {
    Enabled(s, e) && e.Check? && s.ioPending && s.current.cmd.Listen? && s.link.connectDone && e.junk < mark
  }

  predicate MisfireFree(s: State, es: seq<Event>, mark: nat) {
    es == [] || (MisfireFree(s, es[..|es| - 1], mark) && !Misfires(After(s, es[..|es| - 1]), es[|es| - 1], mark))
  }

  /** At every point of the run. */
  ghost predicate AlwaysSince(s: State, es: seq<Event>, mark: nat) {
    Since(After(s, es), mark) && (es == [] || AlwaysSince(s, es[..|es| - 1], mark))
  }

  /** An honoured cancellation leaves no earlier ticket, nothing owed, no connection and the context. */
  lemma HonouredIsSince(s: State)
    requires s.cancel
    ensures Since(Honoured(s), s.nextTicket)
    ensures var s' := Honoured(s);
            && s'.params == [] && s'.writes == [] && s'.results == [] && s'.current.cmd == Idle
            && !s'.ioPending && !s'.sendResult && !s'.cancel && s'.tx == 0
            && s'.link == Link(s.link.context, false, None)
            && s'.nextTicket == s.nextTicket && s'.exiting == s.exiting && s'.phase == Sending
  {
  }

  lemma SinceExecuted(s: State, a: Answers, mark: nat)
    requires Since(s, mark) && mark <= s.current.ticket && !s.ioPending
    ensures Since(Executed(s, a), mark)
  {
    hide ParamsSince, ResultsSince;
    var w := Executed(s, a).writes;
    assert w == s.writes || (w == s.writes + [w[|s.writes|]] && w[|s.writes|].result.ticket == s.current.ticket);
  }

  lemma SinceFetched(s: State, a: Answers, mark: nat)
    requires Since(s, mark)
    ensures Since(Fetched(s, a), mark)
  {
    if s.params != [] {
      assert s.params[0] in s.params;
      assert ParamsSince(s.params[1..], mark);
      hide ParamsSince, ResultsSince, Executed;
      if !s.ioPending {
        SinceExecuted(s.(phase := Checking, current := s.params[0], params := s.params[1..]), a, mark);
      }
    }
  }

  lemma SinceChecked(s: State, received: Option<nat>, junk: nat, mark: nat)
    requires Since(s, mark) && s.phase == Checking
    ensures Since(Checked(s, received, junk), mark) <==> !Misfires(s, Check(received, junk), mark)
  {
    hide ParamsSince, WritesSince, ResultsSince;
  }

  lemma SinceCalled(s: State, c: Callback, mark: nat)
    requires Since(s, mark)
    ensures Since(CalledBack(s, c), mark)
  {
    if c.ClientWriteable? && s.writes != [] {
      assert s.writes[0] in s.writes;
    }
  }

  lemma SinceStep(s: State, e: Event, mark: nat)
    requires Since(s, mark)
    ensures Since(Step(s, e), mark) <==> !Misfires(s, e, mark)
  {
    hide Fetched, Checked, CalledBack;
    if Enabled(s, e) {
      match e {
        case Fetch(a) => SinceFetched(s, a, mark);
        case Check(received, junk) => SinceChecked(s, received, junk, mark);
        case Call(c) => SinceCalled(s, c, mark);
        case _ =>
      }
    }
  }

  /** Tickets are only ever given out upwards. */
  lemma GrowStep(s: State, e: Event)
    ensures s.nextTicket <= Step(s, e).nextTicket
  {
    hide Executed, Progressed, Expired, WriteDone, Pushed;
  }

  /**
   * No stale tickets: whatever happened before a cancellation is honoured and whatever is done
   * after it, also with commands overlapping and results lost: at all times every ticket in a
   * queue, in the current operation or in a pending result is one given out after it, exactly if
   * no LISTEN misfires.
   */
  lemma {:induction false} NoStaleTickets(s: State, es: seq<Event>)
    requires s.phase == Cancelling && s.cancel
    ensures AlwaysSince(Step(s, HonourCancel), es, s.nextTicket) <==>
              MisfireFree(Step(s, HonourCancel), es, s.nextTicket)
  {
    hide Step, Since, Misfires;
    if es == [] {
      assert Step(s, HonourCancel) == Honoured(s) by { HonourStep(s); }
      HonouredIsSince(s);
    } else {
      var before := es[..|es| - 1];
      NoStaleTickets(s, before);
      if AlwaysSince(Step(s, HonourCancel), before, s.nextTicket) {
        SinceStep(After(Step(s, HonourCancel), before), es[|es| - 1], s.nextTicket);
      }
    }
  }

  lemma HonourStep(s: State)
    requires s.phase == Cancelling
    ensures Step(s, HonourCancel) == Honoured(s)
  {
  }

  /** Then the next result a user collects carries no ticket given out at any time before. */
  lemma CollectedIsFresh(before: State, history: seq<Event>, es: seq<Event>)
    requires var s := After(before, history);
             s.phase == Cancelling && s.cancel && MisfireFree(Step(s, HonourCancel), es, s.nextTicket)
    ensures var after := After(Step(After(before, history), HonourCancel), es);
            after.results != [] ==>
              forall n :: 0 <= n <= |history| ==> After(before, history[..n]).nextTicket <= after.results[0].ticket
  {
    hide Step, MisfireFree;
    var s := After(before, history);
    NoStaleTickets(s, es);
    forall n | 0 <= n <= |history| ensures After(before, history[..n]).nextTicket <= s.nextTicket {
      GrowsBetween(before, history, n);
    }
  }

  // ---- Without LISTEN nothing misfires ----

  ghost predicate ListenFree(s: State) {
    !s.current.cmd.Listen? && forall p <- s.params :: !p.cmd.Listen?
  }

  predicate NoListen(e: Event) {
    e.Program? ==> !e.cmd.Listen?
  }

  lemma ListenFreeFetched(s: State, a: Answers)
    requires ListenFree(s)
    ensures ListenFree(Fetched(s, a))
  {
    hide Executed;
    if s.params != [] {
      assert s.params[0] in s.params;
      CommandKept(s.(phase := Checking, current := s.params[0], params := s.params[1..]), a);
    }
  }

  lemma ListenFreeChecked(s: State, received: Option<nat>, junk: nat)
    requires ListenFree(s)
    ensures ListenFree(Checked(s, received, junk))
  {
    hide Progressed, Expired, ListenFree;
    ProgressKeepsCommand(s, received, junk);
    SameCommands(s, Checked(s, received, junk));
  }

  lemma SameCommands(s: State, s': State)
    requires s'.params == s.params && s'.current.cmd == s.current.cmd
    ensures ListenFree(s) ==> ListenFree(s')
  {
  }

  lemma ListenFreeStep(s: State, e: Event)
    requires ListenFree(s) && NoListen(e)
    ensures ListenFree(Step(s, e))
  {
    hide Fetched, Checked, WriteDone, Pushed;
    if Enabled(s, e) {
      match e {
        case Fetch(a) => ListenFreeFetched(s, a);
        case Check(received, junk) => ListenFreeChecked(s, received, junk);
        case _ =>
      }
    }
  }

  lemma CommandKept(s: State, a: Answers)
    ensures Executed(s, a).current.cmd == s.current.cmd
  {
  }

  lemma ProgressKeepsCommand(s: State, received: Option<nat>, junk: nat)
    ensures Progressed(s, received, junk).current.cmd == s.current.cmd
  {
  }

  /** If no LISTEN is programmed after the cancel step, no run of the engine misfires. */
  lemma {:induction false} WithoutListen(s: State, es: seq<Event>, mark: nat)
    requires s.phase == Cancelling && s.cancel
    requires forall i :: 0 <= i < |es| ==> NoListen(es[i])
    ensures MisfireFree(Step(s, HonourCancel), es, mark) && ListenFree(After(Step(s, HonourCancel), es))
  {
    hide Step;
    if es == [] {
      assert Step(s, HonourCancel) == Honoured(s) by { HonourStep(s); }
    } else {
      WithoutListen(s, es[..|es| - 1], mark);
      assert NoListen(es[|es| - 1]);
      ListenFreeStep(After(Step(s, HonourCancel), es[..|es| - 1]), es[|es| - 1]);
    }
  }

  lemma {:induction false} GrowsBetween(s: State, es: seq<Event>, n: nat)
    requires n <= |es|
    ensures After(s, es[..n]).nextTicket <= After(s, es).nextTicket
  {
    if n == |es| {
      assert es[..n] == es;
    } else {
      assert es[..|es| - 1][..n] == es[..n];
      GrowsBetween(s, es[..|es| - 1], n);
      GrowStep(After(s, es[..|es| - 1]), es[|es| - 1]);
    }
  }
}
