// The connection-error route of the client engine (src/bofwebsocket.cpp): the error destroys the
// context while a CONNECT is pending, the loop resets the operation it no longer has a context for,
// and still owes its result.

module ErrorRoute {
  import opened Words
  import opened Engine
  import opened Tickets
  import opened Reports

  /** The report that the CONNECT with this ticket timed out. */
  function TimeoutOf(ticket: nat): Report {
    Report(CONNECT, ticket, {TimedOut})
  }

  /** The CONNECT is pending, and its context is gone. */
  predicate Orphaned(s: State, ticket: nat) {
    s.ioPending && s.result.op == CONNECT && s.result.ticket == ticket && s.link == NO_LINK
  }

  /** How many checks of the loop the run makes. */
  function ChecksIn(w: World, es: seq<Event>): nat {
    if es == [] then 0 else
      var (front, e) := (es[..|es| - 1], es[|es| - 1]);
      ChecksIn(w, front) + if Enabled(Run(w, front).s, e) && e.Check? then 1 else 0
  }

  /** Where an orphaned CONNECT can be after so many checks; the second one finds its operation reset. */
  predicate OnItsWay(s: State, checks: nat) {
    if checks == 0 then s.phase == Servicing || s.phase == Fetching || s.phase == Checking
    else
      checks == 1 &&
      if s.phase == Fetching || s.phase == Checking then s.current == NO_PARAM
      else s.phase == Cancelling || s.phase == Sending || s.phase == Top || s.phase == Stopped
  }

  // ---- One step ----

  lemma OrphanChecked(s: State, ticket: nat, checks: nat, received: Option<nat>, junk: nat)
    requires Coherent(s) && Orphaned(s, ticket) && OnItsWay(s, checks) && s.phase == Checking
    ensures var s' := Step(s, Check(received, junk));
            if s.current == NO_PARAM || s.now - s.current.timer > s.current.timeout then Due(s', TimeoutOf(ticket))
            else Orphaned(s', ticket) && OnItsWay(s', checks + 1)
  {
    PendingUntil(s, received, junk);
    hide Coherent;
  }

  /** An orphaned CONNECT stays on its way until a check makes its report due. */
  lemma OrphanStep(s: State, e: Event, ticket: nat, checks: nat)
    requires Coherent(s) && Orphaned(s, ticket) && OnItsWay(s, checks)
    requires NoOverlap(s, e) && !Cancels(s, e)
    ensures var s' := Step(s, e);
            if Enabled(s, e) && e.Check? then
              Due(s', TimeoutOf(ticket)) || (Orphaned(s', ticket) && OnItsWay(s', checks + 1))
            else Orphaned(s', ticket) && OnItsWay(s', checks)
  {
    if Enabled(s, e) && e.Check? {
      OrphanChecked(s, ticket, checks, e.received, e.junk);
    } else {
      hide Checked, Executed, Coherent, WriteDone, Pushed;
    }
  }

  // ---- Whole runs ----

  ghost predicate OnRoute(w: World, ticket: nat, checks: nat) {
    || (Orphaned(w.s, ticket) && OnItsWay(w.s, checks))
    || Due(w.s, TimeoutOf(ticket))
    || Told(w, TimeoutOf(ticket))
  }

  lemma RouteStep(w: World, e: Event, ticket: nat, checks: nat)
    requires Coherent(w.s) && OnRoute(w, ticket, checks) && Fair(w.s, e) && !Cancels(w.s, e)
    ensures OnRoute(Next(w, e), ticket, checks + if Enabled(w.s, e) && e.Check? then 1 else 0)
  {
    hide Step, Next, Orphaned, OnItsWay, Due, Told, Coherent;
    if Told(w, TimeoutOf(ticket)) {
      ToldStep(w, e, TimeoutOf(ticket));
    } else if Due(w.s, TimeoutOf(ticket)) {
      DueStep(w, e, TimeoutOf(ticket));
    } else {
      OrphanStep(w.s, e, ticket, checks);
      assert Next(w, e).s == Step(w.s, e) by { NextIsStep(w, e); }
    }
  }

  lemma {:induction false} Route(w: World, ticket: nat, es: seq<Event>)
    requires Sound(w) && OnRoute(w, ticket, 0) && FairRun(w, es) && CancelFree(w, es)
    ensures Sound(Run(w, es)) && OnRoute(Run(w, es), ticket, ChecksIn(w, es))
  {
    hide Next, OnRoute, Fair, Sound, Cancels;
    if es != [] {
      var (front, e) := (es[..|es| - 1], es[|es| - 1]);
      Route(w, ticket, front);
      var before := Run(w, front);
      assert Coherent(before.s) by { SoundIsCoherent(before); }
      ConservedIffFair(before, e);
      RouteStep(before, e, ticket, ChecksIn(w, front));
    }
  }

  /**
   * When the connection fails while a CONNECT is pending, the loop still reports that CONNECT exactly
   * once, as timed out: after any fair run that honours no cancellation, whatever is programmed and
   * collected meanwhile, it is still pending, or its report is due, or exactly one result has its
   * ticket. It is pending through at most one check: the next one finds its operation reset with the
   * context.
   */
  lemma ConnectionErrorReported(w: World, ticket: nat, es: seq<Event>)
    requires Sound(w) && w.s.phase == Servicing && w.s.link.context
    requires w.s.ioPending && w.s.result.op == CONNECT && w.s.result.ticket == ticket
    requires FairRun(Next(w, Call(ConnectionError)), es) && CancelFree(Next(w, Call(ConnectionError)), es)
    ensures var w' := Run(Next(w, Call(ConnectionError)), es);
            var results := InResults(w'.l.collected, ticket) + InResults(w'.s.results, ticket);
            && (Orphaned(w'.s, ticket) || Due(w'.s, TimeoutOf(ticket)) || Told(w', TimeoutOf(ticket)))
            && (Orphaned(w'.s, ticket) || Due(w'.s, TimeoutOf(ticket)) ==> results == 0)
            && (Told(w', TimeoutOf(ticket)) ==> results == 1)
            && (ChecksIn(Next(w, Call(ConnectionError)), es) >= 2 ==>
                  !Orphaned(w'.s, ticket) && (w'.s.phase == Top ==> Told(w', TimeoutOf(ticket))))
  {
    var failed := Next(w, Call(ConnectionError));
    ConservedIffFair(w, Call(ConnectionError));
    Route(failed, ticket, es);
    ToldOnce(Run(failed, es), TimeoutOf(ticket));
    hide Run, Next, InResults, Told;
  }
}
