// What becomes of each command the client engine executes (src/bofwebsocket.cpp): when it is refused
// and with which status, what it changes, and that its user is told once.

module Commands {
  import opened Words
  import opened Engine
  import opened Tickets
  import opened Reports

  /** The loop pops a command with nothing pending. */
  predicate Executes(s: State, e: Event) {
    Enabled(s, e) && e.Fetch? && s.params != [] && !s.ioPending
  }

  // ---- What the execution of a command changes ----

  /** Whatever the command: it is current, its timer starts again, and it has a result to fill in. */
  lemma Begins(s: State, a: Answers)
    requires Executes(s, Fetch(a))
    ensures var (s', p) := (Step(s, Fetch(a)), s.params[0]);
            s' == s.(phase := Checking, params := s.params[1..], current := p.(timer := s.now), sendResult := true,
                     result := Result(Kind(p.cmd), p.ticket, s'.result.sts, 0, s.now - p.timer),
                     ioPending := s'.result.sts == NoError, exiting := s.exiting || p.cmd == Exit,
                     link := s'.link, writes := s'.writes)
  {
  }

  /**
   * A DISCONNECT is refused exactly if there is neither a connection nor a context; otherwise nothing
   * is left of the link, and it is pending until its check.
   */
  lemma Disconnects(s: State, a: Answers)
    requires Executes(s, Fetch(a)) && s.params[0].cmd == Disconnect
    ensures var (s', refused) := (Step(s, Fetch(a)), !s.link.connectDone && !s.link.context);
            && s'.result.sts == (if refused then InvalidState else NoError) && (s'.ioPending <==> !refused)
            && s'.link == (if refused then s.link else Link(false, false, None)) && s'.writes == s.writes
  {
  }

  /**
   * A CONNECT is refused exactly if there is a connection or a context, or its key is empty or longer
   * than 127; then the link is as it was. Without a context nothing is left of the link, without a
   * socket the context is; otherwise it is pending.
   */
  lemma Connects(s: State, a: Answers)
    requires Executes(s, Fetch(a)) && s.params[0].cmd.Connect?
    ensures var (s', n) := (Step(s, Fetch(a)), s.params[0].cmd.keyLength);
            var refused := s.link.connectDone || s.link.context || n == 0 || n > 127;
            && (s'.result.sts == InvalidState <==> refused)
            && (s'.result.sts == InitError <==> !refused && !a.created)
            && (s'.result.sts == NotConnected <==> !refused && a.created && a.connecting == None)
            && (s'.ioPending <==> !refused && a.created && a.connecting.Some?)
            && s'.link == (if refused then s.link
                           else if a.created then Link(true, false, a.connecting) else Link(false, false, None))
            && s'.writes == s.writes
  {
  }

  /** A READ is refused exactly if there is no connection or nothing to read into, and changes nothing else. */
  lemma Reads(s: State, a: Answers)
    requires Executes(s, Fetch(a)) && s.params[0].cmd.Read?
    ensures var (s', offline) := (Step(s, Fetch(a)), !s.link.connectDone || s.link.socket == None);
            && (s'.result.sts == NotConnected <==> offline)
            && (s'.result.sts == Einval <==> !offline && s.params[0].cmd.room == 0)
            && (s'.ioPending <==> !offline && s.params[0].cmd.room > 0)
            && s'.link == s.link && s'.writes == s.writes
  {
  }

  /**
   * A WRITE is refused exactly if there is no connection, nothing to write or no room in the write
   * queue. Otherwise it is queued as it is, with its time-out and the time, also if libwebsockets then
   * fails to ask for a writable callback.
   */
  lemma Writes(s: State, a: Answers)
    requires Executes(s, Fetch(a)) && s.params[0].cmd.Write?
    ensures var (s', p) := (Step(s, Fetch(a)), s.params[0]);
            var offline := !s.link.connectDone || s.link.socket == None;
            var queued := !offline && p.cmd.data != [] && |s.writes| <= s.capacity;
            && (s'.result.sts == NotConnected <==> offline)
            && (s'.result.sts == Einval <==> !offline && p.cmd.data == [])
            && (s'.result.sts == NoMore <==> !offline && p.cmd.data != [] && |s.writes| > s.capacity)
            && (s'.result.sts == OperationFailed <==> queued && !a.writable)
            && (s'.ioPending <==> queued && a.writable)
            && s'.writes == (if queued then s.writes + [WriteOp(Result(WRITE, p.ticket, NoError, 0, s.now - p.timer),
                                                                p.cmd.data, p.timeout, s.now)]
                             else s.writes)
            && s'.link == s.link
  {
  }

  /** A client refuses a LISTEN, an EXIT is never pending, and neither changes anything else. */
  lemma ListensOrExits(s: State, a: Answers)
    requires Executes(s, Fetch(a)) && (s.params[0].cmd == Listen || s.params[0].cmd == Exit)
    ensures var s' := Step(s, Fetch(a));
            && s'.result.sts == (if s.params[0].cmd == Listen then WrongMode else Cancelled) && !s'.ioPending
            && (s'.exiting <==> s.exiting || s.params[0].cmd == Exit) && s'.link == s.link && s'.writes == s.writes
  {
  }

  /** A queued write that libwebsockets takes whole is reported as done, with its size and the time it took. */
  lemma WriteCompletes(s: State, sent: int)
    requires Enabled(s, Call(ClientWriteable(sent))) && s.writes != [] && |s.writes[0].data| == sent > 0
    ensures var (s', o) := (Step(s, Call(ClientWriteable(sent))), s.writes[0]);
            && s'.writes == s.writes[1..] && s'.tx == s.tx + sent
            && s'.results == (if |s.results| <= s.capacity
                              then s.results + [Result(o.result.op, o.result.ticket, NoError, sent, s.now - o.timer)]
                              else s.results)
  {
  }

  // ---- Who still owes the report ----

  /** How the report of a command may say that it ended, once it is executed. */
  function Endings(s: State, cmd: Command, a: Answers): set<Sts> {
    var offline := !s.link.connectDone || s.link.socket == None;
    match cmd
    case Exit => {Cancelled}
    case Listen => {WrongMode}
    case Idle => {InvalidCommand}
    case Connect(n) =>
      if s.link.connectDone || s.link.context || n == 0 || n > 127 then {InvalidState}
      else if !a.created then {InitError}
      else if a.connecting == None then {NotConnected}
      else {NoError, TimedOut}
    case Disconnect => if !s.link.connectDone && !s.link.context then {InvalidState} else {NoError, TimedOut}
    case Read(room) => if offline then {NotConnected} else if room == 0 then {Einval} else {NoError, TimedOut}
    case Write(data) =>
      if offline then {NotConnected} else if data == [] then {Einval}
      else if |s.writes| > s.capacity then {NoMore} else {NoError}
  }

  /** The operation is pending; a pending operation ends well or times out. */
  predicate Awaited(s: State, report: Report) {
    && s.ioPending && s.result.op == report.op && s.result.ticket == report.ticket
    && report.op in {CONNECT, DISCONNECT, READ} && report.endings == {NoError, TimedOut}
  }

  /** The write is queued; a queued write can only end well. */
  ghost predicate Queued(s: State, report: Report) {
    report.op == WRITE && report.endings == {NoError} && exists o <- s.writes :: Owes(o, report)
  }

  predicate Owes(o: WriteOp, report: Report) {
    o.result.op == WRITE && o.result.ticket == report.ticket
  }

  ghost predicate Owed(s: State, report: Report) {
    Due(s, report) || Awaited(s, report) || Queued(s, report)
  }

  /** The report of the next command. */
  function ReportOf(s: State, a: Answers): Report
    requires s.params != []
  {
    Report(Kind(s.params[0].cmd), s.params[0].ticket, Endings(s, s.params[0].cmd, a))
  }

  lemma OwedAtFirst(s: State, a: Answers)
    requires Executes(s, Fetch(a)) && Fair(s, Fetch(a))
    ensures Owed(Step(s, Fetch(a)), ReportOf(s, a))
  {
    Begins(s, a);
    var (s', p) := (Step(s, Fetch(a)), s.params[0]);
    hide Step;
    match p.cmd {
      case Connect(_) => Connects(s, a);
      case Disconnect => Disconnects(s, a);
      case Read(_) => Reads(s, a);
      case Write(_) =>
        Writes(s, a);
        if s'.writes != s.writes {
          assert Owes(s'.writes[|s.writes|], ReportOf(s, a));
        }
      case Idle => IdleRefused(s, a);
      case _ => ListensOrExits(s, a);
    }
  }

  lemma IdleRefused(s: State, a: Answers)
    requires Executes(s, Fetch(a)) && s.params[0].cmd == Idle
    ensures Step(s, Fetch(a)).result.sts == InvalidCommand
  {
  }

  /** A check of a pending operation leaves it pending or makes its report due. */
  lemma AwaitedStep(s: State, e: Event, report: Report)
    requires Coherent(s) && Awaited(s, report) && NoOverlap(s, e) && !Cancels(s, e)
    ensures Awaited(Step(s, e), report) || (Enabled(s, e) && e.Check? && Due(Step(s, e), report))
  {
    if Enabled(s, e) && e.Check? {
      PendingUntil(s, e.received, e.junk);
      CheckedInFlight(s, e.received, e.junk, report.ticket);
      CheckKeepsOp(s, e.received, e.junk);
      hide Checked;
    } else {
      hide Checked, Executed, WriteDone, Pushed;
    }
  }

  lemma CheckKeepsOp(s: State, received: Option<nat>, junk: nat)
    requires Coherent(s) && s.ioPending && s.phase == Checking
    ensures Checked(s, received, junk).result.op == s.result.op
    ensures Checked(s, received, junk).result.ticket == s.result.ticket
  {
  }

  /** Only a callback that completes the first write takes it from the queue. */
  lemma QueueKept(w: World, e: Event)
    requires Fair(w.s, e) && !Cancels(w.s, e) && !(Enabled(w.s, e) && e.Call? && Completes(w.s, e.callback))
    ensures w.s.writes <= Next(w, e).s.writes
  {
    hide Progressed, Expired, CalledBack, Online, Recorded;
    if Enabled(w.s, e) && e.Call? {
      CallbackMoves(w.s, e.callback);
    }
  }

  lemma QueuedStep(w: World, e: Event, report: Report)
    requires Queued(w.s, report) && Fair(w.s, e) && !Cancels(w.s, e)
    ensures Queued(Next(w, e).s, report) || Told(Next(w, e), report)
  {
    var o :| o in w.s.writes && Owes(o, report);
    var w' := Next(w, e);
    if Enabled(w.s, e) && e.Call? && Completes(w.s, e.callback) {
      CallbackMoves(w.s, e.callback);
      hide CalledBack;
      if o == w.s.writes[0] {
        var r := WriteDone(w.s, o);
        assert w'.s.results == w.s.results + [r];
        assert r in w'.l.collected + w'.s.results && Says(r, report);
      } else {
        assert w.s.writes == [w.s.writes[0]] + w'.s.writes;
        assert o in w'.s.writes;
      }
    } else {
      QueueKept(w, e);
      hide Next;
      assert o in w'.s.writes;
    }
  }

  lemma OwedStep(w: World, e: Event, report: Report)
    requires Coherent(w.s) && Owed(w.s, report) && Fair(w.s, e) && !Cancels(w.s, e)
    ensures Owed(Next(w, e).s, report) || Told(Next(w, e), report)
  {
    hide Next, Due, Awaited, Queued, Told, Coherent;
    if Due(w.s, report) {
      DueStep(w, e, report);
    } else if Queued(w.s, report) {
      QueuedStep(w, e, report);
    } else {
      AwaitedStep(w.s, e, report);
      NextIsStep(w, e);
    }
  }

  // ---- Every executed command is reported once ----

  lemma {:induction false} OwedRun(w: World, report: Report, es: seq<Event>)
    requires Sound(w) && Owed(w.s, report) && FairRun(w, es) && CancelFree(w, es)
    ensures Sound(Run(w, es)) && (Owed(Run(w, es).s, report) || Told(Run(w, es), report))
  {
    hide Next, Owed, Told, Fair, Sound, Cancels;
    if es != [] {
      var (front, e) := (es[..|es| - 1], es[|es| - 1]);
      OwedRun(w, report, front);
      ConservedIffFair(Run(w, front), e);
      if Told(Run(w, front), report) {
        ToldStep(Run(w, front), e, report);
      } else {
        assert Coherent(Run(w, front).s) by { SoundIsCoherent(Run(w, front)); }
        OwedStep(Run(w, front), e, report);
      }
    }
  }

  lemma OwedOnce(w: World, report: Report)
    requires Sound(w) && Owed(w.s, report)
    ensures Results(w, report) == 0
  {
    ToldOnce(w, report);
    if Queued(w.s, report) {
      var o :| o in w.s.writes && Owes(o, report);
      InQueue(w.s.writes, o);
      assert Places(w, report.ticket) == One(report.ticket in w.l.accepted);
    }
    hide Results, InWrites;
  }

  lemma {:induction false} InQueue(q: seq<WriteOp>, o: WriteOp)
    requires o in q
    ensures InWrites(q, o.result.ticket) >= 1
  {
    if o != q[|q| - 1] {
      assert o in q[..|q| - 1];
      InQueue(q[..|q| - 1], o);
    }
  }

  /**
   * Whatever command is executed in a sound state: after any fair run that honours no cancellation the
   * engine still owes its report and no result has its ticket, or exactly one has, and says what the
   * command was and one of the endings it may have.
   */
  lemma CommandReported(w: World, a: Answers, es: seq<Event>)
    requires Sound(w) && Executes(w.s, Fetch(a)) && Fair(w.s, Fetch(a))
    requires FairRun(Next(w, Fetch(a)), es) && CancelFree(Next(w, Fetch(a)), es)
    ensures var (w', report) := (Run(Next(w, Fetch(a)), es), ReportOf(w.s, a));
            || (Owed(w'.s, report) && Results(w', report) == 0)
            || (Told(w', report) && Results(w', report) == 1)
  {
    var (begun, report) := (Next(w, Fetch(a)), ReportOf(w.s, a));
    ConservedIffFair(w, Fetch(a));
    OwedAtFirst(w.s, a);
    NextIsStep(w, Fetch(a));
    OwedRun(begun, report, es);
    ToldOnce(Run(begun, es), report);
    hide Run, Next, Owed, Told, Results, Sound;
    if Owed(Run(begun, es).s, report) {
      OwedOnce(Run(begun, es), report);
    }
  }

  // ---- A DISCONNECT does not stay pending ----

  /** Its check is still to come. */
  predicate Closing(s: State, ticket: nat) {
    s.phase == Checking && s.ioPending && s.result.op == DISCONNECT && s.result.ticket == ticket && s.link == NO_LINK
  }

  function EndOf(ticket: nat): Report {
    Report(DISCONNECT, ticket, {NoError, TimedOut})
  }

  lemma ClosingStep(w: World, e: Event, ticket: nat)
    requires Coherent(w.s) && Closing(w.s, ticket) && Fair(w.s, e)
    ensures Closing(Next(w, e).s, ticket) || Due(Next(w, e).s, EndOf(ticket))
  {
    NextIsStep(w, e);
    AwaitedStep(w.s, e, EndOf(ticket));
    if Enabled(w.s, e) && e.Check? {
      PendingUntil(w.s, e.received, e.junk);
      hide Checked;
    } else {
      hide Checked, Executed, CalledBack;
    }
  }

  lemma {:induction false} ClosingRun(w: World, ticket: nat, es: seq<Event>)
    requires Sound(w) && Closing(w.s, ticket) && FairRun(w, es) && CancelFree(w, es)
    ensures var w' := Run(w, es);
            Sound(w') && (Closing(w'.s, ticket) || Due(w'.s, EndOf(ticket)) || Told(w', EndOf(ticket)))
  {
    hide Next, Closing, Due, Told, Fair, Sound, Cancels;
    if es != [] {
      var (front, e) := (es[..|es| - 1], es[|es| - 1]);
      ClosingRun(w, ticket, front);
      ConservedIffFair(Run(w, front), e);
      if Told(Run(w, front), EndOf(ticket)) {
        ToldStep(Run(w, front), e, EndOf(ticket));
      } else if Due(Run(w, front).s, EndOf(ticket)) {
        DueStep(Run(w, front), e, EndOf(ticket));
      } else {
        assert Coherent(Run(w, front).s) by { SoundIsCoherent(Run(w, front)); }
        ClosingStep(Run(w, front), e, ticket);
      }
    }
  }

  /**
   * A DISCONNECT executed while there is a connection or a context leaves nothing of the link and is
   * reported in the same pass of the loop: in any fair run that honours no cancellation, once the loop
   * is past its send, exactly one result has the ticket, and says done or timed out.
   */
  lemma DisconnectReported(w: World, a: Answers, es: seq<Event>)
    requires Sound(w) && Executes(w.s, Fetch(a)) && w.s.params[0].cmd == Disconnect
    requires w.s.link.connectDone || w.s.link.context
    requires FairRun(Next(w, Fetch(a)), es) && CancelFree(Next(w, Fetch(a)), es)
    ensures Next(w, Fetch(a)).s.link == NO_LINK
    ensures var (w', ticket) := (Run(Next(w, Fetch(a)), es), w.s.params[0].ticket);
            !(w'.s.phase in {Checking, Cancelling, Sending}) ==>
              Told(w', EndOf(ticket)) && Results(w', EndOf(ticket)) == 1
  {
    var (begun, ticket) := (Next(w, Fetch(a)), w.s.params[0].ticket);
    ConservedIffFair(w, Fetch(a));
    Disconnects(w.s, a);
    Begins(w.s, a);
    NextIsStep(w, Fetch(a));
    ClosingRun(begun, ticket, es);
    ToldOnce(Run(begun, es), EndOf(ticket));
    hide Run, Next, Step, Told, Results, Sound, Coherent;
  }

  // ---- EXIT ----

  /**
   * How a pass of the loop begins: the context is serviced if there is one, else the current operation is
   * reset; and a fetch finds either no command, a pending operation, or one to execute.
   */
  lemma PassBegins(s: State, a: Answers)
    ensures Enabled(s, Enter) ==>
              Step(s, Enter) == if s.link.context then s.(phase := Servicing)
                                else s.(phase := Fetching, current := Param(Idle, 0, 0, 0))
    ensures Enabled(s, EndService) ==> Step(s, EndService) == s.(phase := Fetching)
    ensures Enabled(s, Fetch(a)) && !Executes(s, Fetch(a)) ==>
              Step(s, Fetch(a)) == if s.params == [] then s.(phase := Checking)
                                   else s.(phase := Checking, current := s.params[0], params := s.params[1..])
  {
    hide Executed;
  }

  /**
   * How a pass of the loop ends: what is due is pushed, with the time it took, if there is room, and the
   * loop stops, with nothing left of the link, exactly if something told it to.
   */
  lemma PassEnds(s: State, mustExit: bool)
    requires Enabled(s, Send(mustExit))
    ensures var s' := Step(s, Send(mustExit));
            && s'.results == (if s.sendResult && |s.results| <= s.capacity
                              then s.results + [s.result.(time := s.now - s.current.timer)] else s.results)
            && !s'.sendResult
    ensures var s' := Step(s, Send(mustExit));
            if mustExit || s.exiting then s'.phase == Stopped && s'.link == Link(false, false, None)
            else s'.phase == Top && s'.link == s.link
  {
  }

  /** The run executes an EXIT. */
  predicate Exits(s: State, es: seq<Event>) {
    es != [] &&
    var (before, e) := (After(s, es[..|es| - 1]), es[|es| - 1]);
    Exits(s, es[..|es| - 1]) || (Executes(before, e) && before.params[0].cmd == Exit)
  }

  /** The run makes a send that ends the loop. */
  predicate Ends(s: State, es: seq<Event>) {
    es != [] &&
    var (before, e) := (After(s, es[..|es| - 1]), es[|es| - 1]);
    Ends(s, es[..|es| - 1]) || (Enabled(before, e) && e.Send? && (e.mustExit || Exits(s, es[..|es| - 1])))
  }

  lemma ExitingStep(s: State, e: Event)
    ensures Step(s, e).exiting <==> s.exiting || (Executes(s, e) && s.params[0].cmd == Exit)
    ensures Step(s, e).phase == Stopped <==>
              s.phase == Stopped || (Enabled(s, e) && e.Send? && (e.mustExit || s.exiting))
  {
    if Executes(s, e) {
      Begins(s, e.answers);
      hide Step;
    } else {
      hide Progressed, Expired, Executed, WriteDone, Pushed;
    }
  }

  /**
   * Over every run, the loop has stopped exactly if a send met the request to end or an EXIT executed
   * before it: an EXIT ends the loop at the next send, whatever else is queued.
   */
  lemma {:induction false} ExitStops(capacity: nat, now: nat, es: seq<Event>)
    ensures var s' := After(Initial(capacity, now), es);
            && (s'.exiting <==> Exits(Initial(capacity, now), es))
            && (s'.phase == Stopped <==> Ends(Initial(capacity, now), es))
  {
    hide Step, Executes;
    if es != [] {
      ExitStops(capacity, now, es[..|es| - 1]);
      ExitingStep(After(Initial(capacity, now), es[..|es| - 1]), es[|es| - 1]);
    }
  }
}
