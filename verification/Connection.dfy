// The connection state of the client engine (src/bofwebsocket.cpp).

module Connection {
  import opened Words
  import opened Engine
  import opened Tickets

  /** Connected only with a context and a socket; without a context, nothing is left of a link. */
  predicate Linked(l: Link) {
    (l.connectDone ==> l.context && l.socket.Some?) && (!l.context ==> l == NO_LINK)
  }

  /** That holds over every run, also one that overlaps commands. */
  lemma {:induction false} AlwaysLinked(capacity: nat, now: nat, es: seq<Event>)
    ensures Linked(After(Initial(capacity, now), es).link)
  {
    if es != [] {
      AlwaysLinked(capacity, now, es[..|es| - 1]);
      LinkedStep(After(Initial(capacity, now), es[..|es| - 1]), es[|es| - 1]);
    }
  }

  lemma LinkedFetched(s: State, a: Answers)
    requires Linked(s.link)
    ensures Linked(Fetched(s, a).link)
  {
  }

  lemma LinkedChecked(s: State, received: Option<nat>, junk: nat)
    requires Linked(s.link)
    ensures Linked(Checked(s, received, junk).link)
  {
  }

  lemma LinkedStep(s: State, e: Event)
    requires Linked(s.link)
    ensures Linked(Step(s, e).link)
  {
    hide Fetched, Checked, WriteDone;
    if Enabled(s, e) {
      match e {
        case Fetch(a) => LinkedFetched(s, a);
        case Check(received, junk) => LinkedChecked(s, received, junk);
        case _ =>
      }
    }
  }

  // ---- What a reported result says about the connection ----

  /** A result that says the engine is offline: a CONNECT timed out, or a DISCONNECT passed its check. */
  predicate TookDown(r: Result) {
    (r.op == CONNECT && r.sts == TimedOut) || (r.op == DISCONNECT && (r.sts == NoError || r.sts == TimedOut))
  }

  predicate CameUp(r: Result) {
    r.op == CONNECT && r.sts == NoError
  }

  /** If a result is about to be reported, the connection is as it says. */
  predicate Honest(s: State) {
    (s.phase == Cancelling || s.phase == Sending) && s.sendResult ==>
      && (CameUp(s.result) ==> s.link.context && Online(s.link))
      && (TookDown(s.result) ==> s.link == NO_LINK)
  }

  /** When the report that the check of a pending operation brings about is honest. */
  predicate Harmless(s: State, received: Option<nat>) {
    var late := s.now - s.current.timer > s.current.timeout;
    match s.current.cmd
    case Connect(_) => true
    case Write(_) => true
    case Listen => !s.link.connectDone && (late && s.result.op == CONNECT ==> s.link == NO_LINK)
    case _ =>
      s.result.op == CONNECT ==>
        if late then s.link == NO_LINK
        else if s.current.cmd.Disconnect? then s.result.sts == NoError ==> s.link.connectDone
        else s.current.cmd.Read? && received.Some? ==> s.link.connectDone
  }

  /** A check meets a pending operation only where its report will be honest. */
  predicate Fitting(s: State, e: Event) {
    Enabled(s, e) && e.Check? && s.ioPending ==> Harmless(s, e.received)
  }

  predicate FittingRun(s: State, es: seq<Event>) {
    es == [] || (FittingRun(s, es[..|es| - 1]) && Fitting(After(s, es[..|es| - 1]), es[|es| - 1]))
  }

  predicate AlwaysHonest(s: State, es: seq<Event>) {
    Honest(After(s, es)) && (es == [] || AlwaysHonest(s, es[..|es| - 1]))
  }

  /** What holds of the pending operation in every run, also when others overwrite it. */
  predicate Plain(s: State) {
    && (s.sendResult ==> s.phase in {Checking, Cancelling, Sending})
    && (s.phase == Checking && s.sendResult && !s.ioPending ==> !CameUp(s.result) && !TookDown(s.result))
    && (s.ioPending ==> s.result.sts == NoError || s.result.sts == Pending)
    && (s.ioPending && s.result.op == DISCONNECT ==>
          s.phase == Checking && s.current.cmd.Disconnect? && s.link == NO_LINK)
  }

  lemma PlainFetched(s: State, a: Answers)
    requires Plain(s) && s.phase == Fetching
    ensures Plain(Fetched(s, a))
  {
  }

  lemma PlainChecked(s: State, received: Option<nat>, junk: nat)
    requires Plain(s) && s.phase == Checking
    ensures Plain(Checked(s, received, junk))
  {
  }

  lemma PlainStep(s: State, e: Event)
    requires Plain(s)
    ensures Plain(Step(s, e))
  {
    hide Fetched, Checked, WriteDone, Pushed;
    if Enabled(s, e) {
      match e {
        case Fetch(a) => PlainFetched(s, a);
        case Check(received, junk) => PlainChecked(s, received, junk);
        case _ =>
      }
    }
  }

  /** What a check makes of a pending operation, whatever was popped over it, except a LISTEN while connected. */
  lemma CheckOutcome(s: State, received: Option<nat>, junk: nat)
    requires s.phase == Checking && s.ioPending && !(s.current.cmd.Listen? && s.link.connectDone)
    ensures var (s', c) := (Checked(s, received, junk), s.current.cmd);
            var late := !c.Write? && s.now - s.current.timer > s.current.timeout;
            && s'.phase == Cancelling && s'.result.op == s.result.op
            && s'.link == (if late && c.Connect? then NO_LINK else s.link)
            && (s'.sendResult <==>
                  late || (c.Connect? && s.link.connectDone) || c.Disconnect? || (c.Read? && received.Some?))
            && (late ==> s'.result.sts == TimedOut)
            && (!late && s'.sendResult ==> s'.result.sts == if c.Disconnect? then s.result.sts else NoError)
  {
  }

  /** A LISTEN popped over a pending operation while connected reports a connection and disowns it. */
  lemma ListenOutcome(s: State, received: Option<nat>, junk: nat)
    requires s.phase == Checking && s.ioPending && s.current.cmd.Listen? && s.link.connectDone
    ensures var s' := Checked(s, received, junk);
            && s'.phase == Cancelling && s'.sendResult && s'.ioPending && CameUp(s'.result) && s'.result.ticket == junk
            && !s'.link.connectDone
  {
  }

  lemma HonestChecked(s: State, received: Option<nat>, junk: nat)
    requires Plain(s) && Linked(s.link) && s.phase == Checking
    ensures Honest(Checked(s, received, junk)) <==> (s.ioPending ==> Harmless(s, received))
  {
    if s.ioPending {
      hide Checked;
      if s.current.cmd.Listen? && s.link.connectDone {
        ListenOutcome(s, received, junk);
      } else {
        CheckOutcome(s, received, junk);
      }
    }
  }

  /** From an honest state, a step stays honest exactly if it is fitting. */
  lemma HonestStep(s: State, e: Event)
    requires Plain(s) && Linked(s.link) && Honest(s)
    ensures Honest(Step(s, e)) <==> Fitting(s, e)
  {
    hide Fetched, Checked, Harmless, WriteDone, Pushed;
    if Enabled(s, e) {
      match e {
        case Fetch(a) => assert Fetched(s, a).phase == Checking by { FetchPhase(s, a); }
        case Check(received, junk) => HonestChecked(s, received, junk);
        case _ =>
      }
    }
  }

  lemma FetchPhase(s: State, a: Answers)
    ensures Fetched(s, a).phase == Checking
  {
  }

  lemma {:induction false} AlwaysPlain(capacity: nat, now: nat, es: seq<Event>)
    ensures Plain(After(Initial(capacity, now), es))
  {
    hide Step;
    if es != [] {
      AlwaysPlain(capacity, now, es[..|es| - 1]);
      PlainStep(After(Initial(capacity, now), es[..|es| - 1]), es[|es| - 1]);
    }
  }

  /**
   * Connection state: over every run, at all times a CONNECT is only reported as done while the
   * engine is connected, and the report of a CONNECT that timed out, or of a DISCONNECT that passed
   * its state check, finds no context, no connection and no socket, exactly if every check of a
   * pending operation is harmless.
   */
  lemma {:induction false} ReportsAreTrue(capacity: nat, now: nat, es: seq<Event>)
    ensures AlwaysHonest(Initial(capacity, now), es) <==> FittingRun(Initial(capacity, now), es)
  {
    hide Step, Fitting, Plain, Linked;
    if es != [] {
      var before := es[..|es| - 1];
      ReportsAreTrue(capacity, now, before);
      AlwaysPlain(capacity, now, before);
      AlwaysLinked(capacity, now, before);
      if AlwaysHonest(Initial(capacity, now), before) {
        HonestStep(After(Initial(capacity, now), before), es[|es| - 1]);
      }
    }
  }

  /**
   * A send that pushes a result leaves the link as that result says; a loop that stops destroys it.
   */
  predicate TrueReport(s: State, e: Event) {
    var s' := Step(s, e);
    Enabled(s, e) && e.Send? && s.sendResult && HasRoom(s) ==>
      && |s'.results| == |s.results| + 1
      && var r := s'.results[|s.results|];
         && (CameUp(r) && s'.phase == Top ==> s'.link.context && Online(s'.link))
         && (TookDown(r) ==> s'.link == NO_LINK)
  }

  /** Every report the run pushes is true when it is pushed. */
  predicate TrueReports(s: State, es: seq<Event>) {
    es == [] || (TrueReports(s, es[..|es| - 1]) && TrueReport(After(s, es[..|es| - 1]), es[|es| - 1]))
  }

  lemma HonestReport(s: State, e: Event)
    requires Honest(s)
    ensures TrueReport(s, e)
  {
  }

  /**
   * So in such a run every CONNECT success is pushed while connected, and every CONNECT time-out and
   * every DISCONNECT that passed its state check with nothing left of the link.
   */
  lemma {:induction false} PushedReportsAreTrue(capacity: nat, now: nat, es: seq<Event>)
    requires FittingRun(Initial(capacity, now), es)
    ensures TrueReports(Initial(capacity, now), es)
  {
    hide Step, TrueReport, Fitting, Honest;
    if es != [] {
      var before := es[..|es| - 1];
      PushedReportsAreTrue(capacity, now, before);
      ReportsAreTrue(capacity, now, before);
      HonestReport(After(Initial(capacity, now), before), es[|es| - 1]);
    }
  }

  // ---- Without overlap, every check is harmless ----

  predicate NoOverlapRun(s: State, es: seq<Event>) {
    es == [] || (NoOverlapRun(s, es[..|es| - 1]) && NoOverlap(After(s, es[..|es| - 1]), es[|es| - 1]))
  }

  /** An operation that was reset while pending lost its context before. */
  ghost predicate Undisturbed(s: State) {
    Linked(s.link) && Coherent(s) && (s.ioPending && s.current == NO_PARAM ==> s.link == NO_LINK)
  }

  lemma UndisturbedFetched(s: State, a: Answers)
    requires Undisturbed(s) && s.phase == Fetching && (s.params != [] ==> !s.ioPending)
    ensures Undisturbed(Fetched(s, a))
  {
    CoherentFetch(s, a);
    LinkedFetched(s, a);
    hide Linked, Coherent;
    if s.params != [] {
      hide Executed;
      ExecutedIsNoReset(s.(phase := Checking, current := s.params[0], params := s.params[1..]), a);
    }
  }

  lemma ExecutedIsNoReset(s: State, a: Answers)
    requires !s.ioPending
    ensures Executed(s, a).ioPending ==> Executed(s, a).current != NO_PARAM
  {
  }

  lemma UndisturbedChecked(s: State, received: Option<nat>, junk: nat)
    requires Undisturbed(s) && s.phase == Checking
    ensures Undisturbed(Checked(s, received, junk))
  {
    CoherentCheck(s, received, junk);
    LinkedChecked(s, received, junk);
    hide Linked;
    if s.ioPending && s.current == NO_PARAM {
      assert !Checked(s, received, junk).ioPending;
    }
  }

  lemma UndisturbedStep(s: State, e: Event)
    requires Undisturbed(s) && NoOverlap(s, e)
    ensures Undisturbed(Step(s, e))
  {
    if Enabled(s, e) && e.Fetch? {
      UndisturbedFetched(s, e.answers);
      hide Fetched;
    } else if Enabled(s, e) && e.Check? {
      UndisturbedChecked(s, e.received, e.junk);
      hide Checked;
    } else {
      CoherentStep(s, e);
      LinkedStep(s, e);
      hide Coherent;
      ResetWithoutContext(s, e);
    }
  }

  lemma ResetWithoutContext(s: State, e: Event)
    requires Linked(s.link) && (s.ioPending && s.current == NO_PARAM ==> s.link == NO_LINK)
    requires Enabled(s, e) ==> !e.Fetch? && !e.Check?
    ensures var s' := Step(s, e); s'.ioPending && s'.current == NO_PARAM ==> s'.link == NO_LINK
  {
    hide Fetched, Checked, WriteDone, Pushed;
  }

  lemma UndisturbedIsHarmless(s: State, e: Event)
    requires Undisturbed(s)
    ensures Fitting(s, e)
  {
  }

  /** So in a run that pops nothing while an operation is pending, every report is honest. */
  lemma {:induction false} NoOverlapIsHonest(capacity: nat, now: nat, es: seq<Event>)
    requires now > 0 && NoOverlapRun(Initial(capacity, now), es)
    ensures FittingRun(Initial(capacity, now), es) && AlwaysHonest(Initial(capacity, now), es)
    ensures Undisturbed(After(Initial(capacity, now), es))
  {
    hide Step, Fitting;
    if es != [] {
      var before := es[..|es| - 1];
      NoOverlapIsHonest(capacity, now, before);
      UndisturbedIsHarmless(After(Initial(capacity, now), before), es[|es| - 1]);
      UndisturbedStep(After(Initial(capacity, now), before), es[|es| - 1]);
    }
    ReportsAreTrue(capacity, now, es);
  }

  // ---- Connecting again ----

  /** The step executes a CONNECT. */
  predicate ExecutesConnect(s: State, e: Event) {
    Enabled(s, e) && e.Fetch? && s.params != [] && !s.ioPending && s.params[0].cmd.Connect?
  }

  predicate ConnectRun(s: State, es: seq<Event>) {
    es != [] && (ConnectRun(s, es[..|es| - 1]) || ExecutesConnect(After(s, es[..|es| - 1]), es[|es| - 1]))
  }

  lemma DownStep(s: State, e: Event)
    requires s.link == NO_LINK && !ExecutesConnect(s, e)
    ensures Step(s, e).link == NO_LINK
  {
    hide Fetched, Checked, WriteDone;
    if Enabled(s, e) {
      match e {
        case Fetch(a) => DownFetched(s, a);
        case Check(received, junk) => DownChecked(s, received, junk);
        case _ =>
      }
    }
  }

  lemma DownFetched(s: State, a: Answers)
    requires s.link == NO_LINK && (s.params != [] && !s.ioPending ==> !s.params[0].cmd.Connect?)
    ensures Fetched(s, a).link == NO_LINK
  {
  }

  lemma DownChecked(s: State, received: Option<nat>, junk: nat)
    requires s.link == NO_LINK
    ensures Checked(s, received, junk).link == NO_LINK
  {
  }

  /** Once down, the link stays down until a CONNECT is executed. */
  lemma {:induction false} StaysDown(s: State, es: seq<Event>)
    requires s.link == NO_LINK && !ConnectRun(s, es)
    ensures After(s, es).link == NO_LINK
  {
    hide Step, ExecutesConnect;
    if es != [] {
      StaysDown(s, es[..|es| - 1]);
      DownStep(After(s, es[..|es| - 1]), es[|es| - 1]);
    }
  }

  /**
   * So the next CONNECT, whatever happens before it, passes the context and connection guards: it
   * becomes pending exactly if its key has a legal length and libwebsockets plays along.
   */
  lemma ConnectsAgain(s: State, es: seq<Event>, a: Answers)
    requires s.link == NO_LINK && !ConnectRun(s, es)
    requires ExecutesConnect(After(s, es), Fetch(a))
    ensures var before := After(s, es);
            var after := Step(before, Fetch(a));
            var legal := 0 < before.params[0].cmd.keyLength < MAX_KEY;
            && after.result.op == CONNECT && after.result.ticket == before.params[0].ticket
            && (after.result.sts == InvalidState <==> !legal)
            && (after.ioPending <==> legal && a.created && a.connecting.Some?)
            && (after.ioPending ==> after.link == Link(true, false, a.connecting))
  {
    hide After;
    StaysDown(s, es);
  }

  // ---- What an overlap does ----

  /** The loop is about to pop a DISCONNECT that is in time, while a CONNECT is still pending. */
  predicate Overlapping(s: State) {
    && s.phase == Fetching && !s.cancel && s.ioPending && s.result.op == CONNECT && s.result.sts == NoError &&
         !s.link.connectDone
    && s.params != [] && s.params[0].cmd.Disconnect? && s.now - s.params[0].timer <= s.params[0].timeout
  }

  lemma OverlapIteration(s: State, a: Answers, received: Option<nat>, junk: nat)
    requires Overlapping(s) && HasRoom(s)
    ensures var s' := Iteration(s, a, received, junk);
            var r := s.result.(time := s.now - s.params[0].timer);
            && s'.results == s.results + [r] && s'.params == s.params[1..] && s'.writes == s.writes
            && !s'.ioPending && !s'.sendResult && !s'.link.connectDone
  {
    var fetched := Step(s, Fetch(a));
    PoppedOver(s, a);
    hide Step;
    DisconnectChecked(fetched, received, junk);
    ReportEnds(Step(fetched, Check(received, junk)));
  }

  lemma PoppedOver(s: State, a: Answers)
    requires s.phase == Fetching && s.ioPending && s.params != []
    ensures Step(s, Fetch(a)) == s.(phase := Checking, current := s.params[0], params := s.params[1..])
  {
  }

  lemma ReportEnds(s: State)
    requires s.phase == Cancelling && !s.cancel && s.sendResult && HasRoom(s)
    ensures var s' := Step(Step(s, HonourCancel), Send(false));
            && s'.results == s.results + [s.result.(time := s.now - s.current.timer)]
            && s'.params == s.params && s'.writes == s.writes && s'.ioPending == s.ioPending && !s'.sendResult
            && (s'.link == s.link || s'.link == NO_LINK)
  {
    hide Checked, Fetched, CalledBack;
  }

  lemma DisconnectChecked(s: State, received: Option<nat>, junk: nat)
    requires s.phase == Checking && s.ioPending && s.current.cmd.Disconnect? &&
             s.now - s.current.timer <= s.current.timeout
    ensures Step(s, Check(received, junk)) ==
            s.(phase := Cancelling, sendResult := true, ioPending := false,
              result := s.result.(time := s.now - s.current.timer))
  {
  }

  /**
   * Then the loop reports the CONNECT as done although nothing is connected, and the DISCONNECT is
   * nowhere any more: its ticket, held before by the parameter queue alone, is in no queue, not in
   * flight and in no result.
   */
  lemma OverlapMisreports(w: World, a: Answers, received: Option<nat>, junk: nat)
    requires Sound(w) && Overlapping(w.s) && HasRoom(w.s)
    ensures var (s', r) := (Iteration(w.s, a, received, junk), w.s.result.(time := w.s.now - w.s.params[0].timer));
            s'.results == w.s.results + [r] && CameUp(r) && !s'.link.connectDone
    ensures w.s.params[0].ticket in w.l.accepted
    ensures Places(World(Iteration(w.s, a, received, junk), w.l), w.s.params[0].ticket) == 0
  {
    hide Iteration, InParams, InResults, InWrites, Coherent;
    var s' := Iteration(w.s, a, received, junk);
    OverlapIteration(w.s, a, received, junk);
    var t := w.s.params[0].ticket;
    assert Places(w, t) == One(t in w.l.accepted);
    ParamsPop(w.s.params, t);
    ResultsPush(w.s.results, w.s.result.(time := w.s.now - w.s.params[0].timer), t);
  }
}
