// How the report of an operation gets from the loop of the client engine to its user
// (src/bofwebsocket.cpp): once it is due, it is sent once.

module Reports {
  import opened Words
  import opened Engine
  import opened Tickets

  /** The report of one operation: what it was, its ticket and how it may have ended. */
  datatype Report = Report(op: Operation, ticket: nat, endings: set<Sts>)

  predicate Says(r: Result, report: Report) {
    r.op == report.op && r.ticket == report.ticket && r.sts in report.endings
  }

  /** The report is the next one the loop sends. */
  predicate Due(s: State, report: Report) {
    && !s.ioPending && s.sendResult && Says(s.result, report)
    && (s.phase == Checking || s.phase == Cancelling || s.phase == Sending)
  }

  /** The report is there to be collected, or was. */
  ghost predicate Told(w: World, report: Report) {
    exists r :: r in w.l.collected + w.s.results && Says(r, report)
  }

  /** How many results have the ticket of the report. */
  function Results(w: World, report: Report): nat {
    InResults(w.l.collected, report.ticket) + InResults(w.s.results, report.ticket)
  }

  /** The step honours a cancellation, which gives everything up. */
  predicate Cancels(s: State, e: Event) {
    Enabled(s, e) && e.HonourCancel? && s.cancel
  }

  predicate CancelFree(w: World, es: seq<Event>) {
    es == [] || (CancelFree(w, es[..|es| - 1]) && !Cancels(Run(w, es[..|es| - 1]).s, es[|es| - 1]))
  }

  // ---- Single steps ----

  /** A due report is sent, and once sent it is there. */
  lemma DueStep(w: World, e: Event, report: Report)
    requires Due(w.s, report) && Fair(w.s, e) && !Cancels(w.s, e)
    ensures Due(Next(w, e).s, report) || Told(Next(w, e), report)
  {
    hide Fetched, CalledBack;
    if Enabled(w.s, e) && e.Send? {
      var r := w.s.result.(time := w.s.now - w.s.current.timer);
      assert Next(w, e).s.results == w.s.results + [r];
      assert r in w.l.collected + (w.s.results + [r]) && Says(r, report);
    }
  }

  lemma CollectedStays(w: World)
    requires Enabled(w.s, Collect)
    ensures w.l.collected + w.s.results == Next(w, Collect).l.collected + Next(w, Collect).s.results
  {
    if w.s.results != [] {
      assert w.s.results == [w.s.results[0]] + w.s.results[1..];
    }
  }

  /** Results are only added, or move from the queue to the collected ones. */
  lemma ResultsStay(w: World, e: Event)
    requires Fair(w.s, e) && !Cancels(w.s, e)
    ensures w.l.collected + w.s.results <= Next(w, e).l.collected + Next(w, e).s.results
  {
    if Enabled(w.s, e) && e.Collect? {
      CollectedStays(w);
    } else {
      hide Progressed, Expired, Executed, WriteDone, Collected, Completes;
      assert Next(w, e).l.collected == w.l.collected && w.s.results <= Next(w, e).s.results;
    }
  }

  lemma ToldStep(w: World, e: Event, report: Report)
    requires Told(w, report) && Fair(w.s, e) && !Cancels(w.s, e)
    ensures Told(Next(w, e), report)
  {
    hide Next, Fair;
    var r :| r in w.l.collected + w.s.results && Says(r, report);
    ResultsStay(w, e);
    assert r in Next(w, e).l.collected + Next(w, e).s.results;
  }

  lemma NextIsStep(w: World, e: Event)
    ensures Next(w, e).s == Step(w.s, e)
  {
  }

  lemma SoundIsCoherent(w: World)
    requires Sound(w)
    ensures Coherent(w.s)
  {
  }

  // ---- Whole runs ----

  lemma {:induction false} DueRun(w: World, report: Report, es: seq<Event>)
    requires Sound(w) && Due(w.s, report) && FairRun(w, es) && CancelFree(w, es)
    ensures Sound(Run(w, es)) && (Due(Run(w, es).s, report) || Told(Run(w, es), report))
  {
    hide Next, Due, Told, Fair, Sound, Cancels;
    if es != [] {
      var (front, e) := (es[..|es| - 1], es[|es| - 1]);
      DueRun(w, report, front);
      ConservedIffFair(Run(w, front), e);
      if Told(Run(w, front), report) {
        ToldStep(Run(w, front), e, report);
      } else {
        DueStep(Run(w, front), e, report);
      }
    }
  }

  /** In a sound state, what is due has no result yet, and what was told has exactly one. */
  lemma ToldOnce(w: World, report: Report)
    requires Sound(w)
    ensures Results(w, report) <= 1
    ensures InFlight(w.s, report.ticket) == 1 ==> Results(w, report) == 0
    ensures Due(w.s, report) ==> Results(w, report) == 0
    ensures Told(w, report) ==> Results(w, report) == 1 && InFlight(w.s, report.ticket) == 0
  {
    assert Places(w, report.ticket) == One(report.ticket in w.l.accepted);
    assert Due(w.s, report) ==> InFlight(w.s, report.ticket) == 1;
    hide InResults, InParams, InWrites;
    if Told(w, report) {
      var r :| r in w.l.collected + w.s.results && Says(r, report);
      Counted(w.l.collected, r);
      Counted(w.s.results, r);
    }
  }

  /**
   * A report that is due is told exactly once: after any fair run that honours no cancellation it is
   * still due, without any result, or exactly one result has its ticket and says it.
   */
  lemma DueIsTold(w: World, report: Report, es: seq<Event>)
    requires Sound(w) && Due(w.s, report) && FairRun(w, es) && CancelFree(w, es)
    ensures var w' := Run(w, es);
            || (Due(w'.s, report) && Results(w', report) == 0)
            || (Told(w', report) && Results(w', report) == 1)
  {
    DueRun(w, report, es);
    ToldOnce(Run(w, es), report);
    hide Run, Due, Told, Results, Sound;
  }

  lemma {:induction false} Counted(q: seq<Result>, r: Result)
    ensures r in q ==> InResults(q, r.ticket) >= 1
  {
    if r in q && r != q[|q| - 1] {
      assert r in q[..|q| - 1];
      Counted(q[..|q| - 1], r);
    }
  }
}
