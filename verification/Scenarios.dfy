// Runs of the client engine (src/bofwebsocket.cpp), from its start and with ordinary commands only,
// into the states where a property of the other modules fails.

module Scenarios {
  import opened Words
  import opened Engine
  import opened Tickets
  import opened Cancellation
  import opened Connection
  import opened WriteOrder

  /** libwebsockets plays along: the context is created, the connection is number 7. */
  const WELL := Answers(true, Some(7), true)

  predicate Calm(s: State) {
    !s.cancel && !s.exiting && HasRoom(s)
  }

  /** Connected, with nothing to do. */
  predicate Ready(s: State) {
    s.phase == Top && s.link.context && Online(s.link) && !s.ioPending && !s.sendResult && s.params == [] &&
      !s.cancel && !s.exiting
  }

  // ---- Single passes of the loop ----

  lemma ConnectPends(s: State)
    requires s.phase == Fetching && Calm(s) && !s.ioPending && s.link == NO_LINK
    requires s.params != [] && s.params[0].cmd == Connect(1)
    ensures var s' := Iteration(s, WELL, None, 0);
            && s' == s.(phase := Top, params := s.params[1..], current := s.params[0].(timer := s.now),
                 result := s'.result,
                        sendResult := false, ioPending := true, link := Link(true, false, Some(7)))
            && s'.result.op == CONNECT && s'.result.sts == NoError
  {
    var fetched := Step(s, Fetch(WELL));
    assert fetched == s.(phase := Checking, params := s.params[1..], current := s.params[0].(timer := s.now),
      result := fetched.result,
                         sendResult := true, ioPending := true, link := Link(true, false, Some(7)));
    assert fetched.result.op == CONNECT && fetched.result.sts == NoError;
    Waits(fetched);
  }

  /** A pending operation that is in time and still waits just goes through. */
  lemma Waits(s: State)
    requires s.phase == Checking && Calm(s) && s.ioPending && s.now == s.current.timer
    requires (s.current.cmd.Connect? && !s.link.connectDone) || s.current.cmd.Read?
    ensures var s' := Step(Step(Step(s, Check(None, 0)), HonourCancel), Send(false));
            && s' == s.(phase := Top, result := s'.result, sendResult := false)
            && s'.result.op == s.result.op && (s.current.cmd.Connect? ==> s'.result.sts == s.result.sts)
  {
    var checked := Step(s, Check(None, 0));
    assert checked == s.(phase := Cancelling, result := checked.result, sendResult := false);
    assert checked.result.op == s.result.op && (s.current.cmd.Connect? ==> checked.result.sts == s.result.sts);
    hide Checked, Fetched, CalledBack;
    assert Step(checked, HonourCancel) == checked.(phase := Sending);
  }

  lemma ConnectEnds(s: State)
    requires s.phase == Fetching && Calm(s) && s.ioPending && s.params == []
    requires s.current.cmd == Connect(1) && s.link.connectDone && s.now == s.current.timer
    ensures var s' := Iteration(s, WELL, None, 0);
            && s' == s.(phase := Top, ioPending := false, sendResult := false, result := s'.result,
                 results := s'.results)
            && |s'.results| == |s.results| + 1
  {
    var checked := Step(Step(s, Fetch(WELL)), Check(None, 0));
    assert checked == s.(phase := Cancelling, ioPending := false, sendResult := true, result := checked.result);
    hide Checked, Fetched, CalledBack;
    assert Step(checked, HonourCancel) == checked.(phase := Sending);
  }

  lemma WriteQueued(s: State, data: seq<Byte>)
    requires s.phase == Fetching && Calm(s) && !s.ioPending && Online(s.link) && |s.writes| <= s.capacity
    requires |s.params| == 1 && s.params[0].cmd == Write(data) && data != []
    ensures var s' := Iteration(s, WELL, None, 0);
            && s' == s.(phase := Top, params := [], current := s'.current, result := s'.result, sendResult := false,
                 writes := s'.writes)
            && |s'.writes| == |s.writes| + 1 && s'.writes[..|s.writes|] == s.writes &&
                 s'.writes[|s.writes|].data == data
  {
    var fetched := Step(s, Fetch(WELL));
    assert fetched.ioPending && fetched.writes[..|s.writes|] == s.writes && fetched.writes[|s.writes|].data == data;
    assert fetched == s.(phase := Checking, params := [], current := fetched.current, result := fetched.result,
                         sendResult := true, ioPending := true, writes := fetched.writes);
    WriteChecked(fetched);
  }

  /** A queued write leaves the loop free; its callback will report it. */
  lemma WriteChecked(s: State)
    requires s.phase == Checking && Calm(s) && s.ioPending && s.current.cmd.Write?
    ensures var s' := Step(Step(Step(s, Check(None, 0)), HonourCancel), Send(false));
            s' == s.(phase := Top, ioPending := false, sendResult := false, result := s'.result)
  {
    var checked := Step(s, Check(None, 0));
    assert checked == s.(phase := Cancelling, ioPending := false, sendResult := false, result := checked.result);
    hide Checked, Fetched, CalledBack;
    assert Step(checked, HonourCancel) == checked.(phase := Sending);
  }

  lemma ReadPends(s: State)
    requires s.phase == Fetching && Calm(s) && !s.ioPending && Online(s.link)
    requires s.params != [] && s.params[0].cmd == Read(1)
    ensures var s' := Iteration(s, WELL, None, 0);
            s' == s.(phase := Top, params := s.params[1..], current := s.params[0].(timer := s.now),
              result := s'.result,
                     sendResult := false, ioPending := true)
  {
    var fetched := Step(s, Fetch(WELL));
    assert fetched == s.(phase := Checking, params := s.params[1..], current := s.params[0].(timer := s.now),
      result := fetched.result,
                         sendResult := true, ioPending := true);
    Waits(fetched);
  }

  // ---- Getting to the loop ----

  /** A command programmed between two passes; the loop then services its context, if it has one. */
  function Ordered(s: State, cmd: Command): State {
    Step(s, Program(cmd, 100))
  }

  lemma OrderedIs(s: State, cmd: Command)
    requires s.phase != Aborted && |s.params| < s.capacity
    ensures Ordered(s, cmd) == s.(nextTicket := s.nextTicket + 1, params := s.params + [Param(cmd, s.nextTicket, 100,
            s.now)])
  {
  }

  function Serviced(s: State): State {
    Step(Step(s, Enter), EndService)
  }

  lemma ServicedIs(s: State)
    requires s.phase == Top
    ensures Serviced(s) == if s.link.context then s.(phase := Fetching) else s.(phase := Fetching, current := NO_PARAM)
  {
  }

  lemma ReachServiced(origin: State, s: State)
    requires Reachable(origin, s)
    ensures Reachable(origin, Serviced(s))
  {
    Steps(origin, s, Enter);
    Steps(origin, Step(s, Enter), EndService);
  }

  // ---- The scenarios ----

  /** Started, or just cancelled. */
  predicate Blank(s: State) {
    && s.phase == Top && s.capacity >= 2 && s.link == NO_LINK && s.params == [] && s.writes == [] && s.results == []
    && !s.ioPending && !s.sendResult && !s.cancel && !s.exiting
  }

  /** To a pending CONNECT, maybe with another command waiting behind it. */
  lemma PendingConnect(origin: State, blank: State, next: Option<Command>) returns (s: State)
    requires Reachable(origin, blank) && Blank(blank)
    ensures Reachable(origin, s) && s.phase == Top && s.ioPending && !s.sendResult && !s.cancel && !s.exiting
    ensures s.capacity == blank.capacity && s.now == blank.now && s.results == [] && s.writes == []
    ensures s.link == Link(true, false, Some(7)) && s.result.op == CONNECT && s.result.sts == NoError
    ensures s.current.cmd == Connect(1) && s.current.timer == s.now
    ensures s.params == if next.Some? then [Param(next.value, blank.nextTicket + 1, 100, s.now)] else []
  {
    hide Step, Iteration;
    Steps(origin, blank, Program(Connect(1), 100));
    OrderedIs(blank, Connect(1));
    var s1 := Ordered(blank, Connect(1));
    if next.Some? {
      Steps(origin, s1, Program(next.value, 100));
      OrderedIs(s1, next.value);
      s1 := Ordered(s1, next.value);
    }
    ReachServiced(origin, s1);
    ServicedIs(s1);
    ConnectPends(Serviced(s1));
    Iterates(origin, Serviced(s1), WELL, None, 0);
    s := Iteration(Serviced(s1), WELL, None, 0);
  }

  /** To an established connection. */
  lemma Connects(origin: State, blank: State) returns (s: State)
    requires Reachable(origin, blank) && Blank(blank)
    ensures Reachable(origin, s) && Ready(s) && s.capacity == blank.capacity && |s.results| == 1 && s.writes == []
  {
    hide Iteration;
    var p := PendingConnect(origin, blank, None);
    var entered := Step(p, Enter);
    var established := Step(entered, Call(ClientEstablished(7, true)));
    var ready := Step(established, EndService);
    Steps(origin, p, Enter);
    Steps(origin, entered, Call(ClientEstablished(7, true)));
    Steps(origin, established, EndService);
    assert ready == p.(phase := Fetching, link := Link(true, true, Some(7)));
    hide Step;
    ConnectEnds(ready);
    Iterates(origin, ready, WELL, None, 0);
    s := Iteration(ready, WELL, None, 0);
  }

  /** A DISCONNECT programmed right after a CONNECT: the loop is about to pop it over the pending one. */
  lemma OverlapHappens() returns (s: State)
    ensures Reachable(Initial(2, 1), s) && Overlapping(s) && HasRoom(s)
  {
    Starts(Initial(2, 1));
    var p := PendingConnect(Initial(2, 1), Initial(2, 1), Some(Disconnect));
    hide Step;
    ReachServiced(Initial(2, 1), p);
    ServicedIs(p);
    s := Serviced(p);
  }

  lemma QueuesOne(origin: State, ready: State) returns (s: State)
    requires Reachable(origin, ready) && Ready(ready) && ready.capacity >= 2 && HasRoom(ready) &&
             |ready.writes| <= ready.capacity
    ensures Reachable(origin, s) && Ready(s) && s.capacity == ready.capacity && s.results == ready.results
    ensures |s.writes| == |ready.writes| + 1 && s.writes[..|ready.writes|] == ready.writes &&
            s.writes[|ready.writes|].data == [0]
  {
    hide Step, Iteration;
    Steps(origin, ready, Program(Write([0]), 100));
    OrderedIs(ready, Write([0]));
    var s1 := Ordered(ready, Write([0]));
    ReachServiced(origin, s1);
    ServicedIs(s1);
    WriteQueued(Serviced(s1), [0]);
    Iterates(origin, Serviced(s1), WELL, None, 0);
    s := Iteration(Serviced(s1), WELL, None, 0);
  }

  lemma OneWritten(origin: State, s: State) returns (s': State)
    requires Reachable(origin, s) && s.phase == Servicing && s.link.context && HasRoom(s)
    requires s.writes != [] && |s.writes[0].data| == 1
    ensures Reachable(origin, s') && s'.phase == Servicing && s'.link == s.link && s'.capacity == s.capacity
    ensures s'.writes == s.writes[1..] && |s'.results| == |s.results| + 1
  {
    Steps(origin, s, Call(ClientWriteable(1)));
    s' := Step(s, Call(ClientWriteable(1)));
  }

  /** Three writes done while nobody collects: the last one finds the result queue full. */
  lemma OverflowHappens() returns (s: State)
    ensures Reachable(Initial(2, 1), s) && |s.results| == s.capacity + 1
    ensures Enabled(s, Call(ClientWriteable(1))) && Completes(s, ClientWriteable(1))
    ensures !Kept(s, Call(ClientWriteable(1)))
  {
    var o := Initial(2, 1);
    Starts(o);
    var ready := Connects(o, o);
    var one := QueuesOne(o, ready);
    var two := QueuesOne(o, one);
    var three := QueuesOne(o, two);
    Steps(o, three, Enter);
    var entered := Step(three, Enter);
    assert entered == three.(phase := Servicing);
    assert one.writes[0].data == [0] && two.writes[1].data == [0] && three.writes[2].data == [0];
    assert three.writes[0] == one.writes[0] && three.writes[1] == two.writes[1];
    hide Step;
    var first := OneWritten(o, entered);
    s := OneWritten(o, first);
  }

  lemma IdleToCancelling(o: State)
    requires Blank(o) && o.current == NO_PARAM
    ensures Step(Step(Step(o, Enter), Fetch(WELL)), Check(None, 0)) == o.(phase := Cancelling)
  {
  }

  lemma HonourAndSend(s: State)
    requires s.phase == Cancelling && s.cancel && s.link == NO_LINK && s.capacity >= 2 && !s.exiting
    ensures Blank(Step(Step(s, HonourCancel), Send(false)))
  {
  }

  /** A cancellation honoured when the command with ticket 1 has been accepted. */
  lemma CancelHappens() returns (s: State)
    ensures Reachable(Initial(2, 1), s) && s.phase == Cancelling && s.cancel && s.nextTicket == 2
    ensures s.params == [Param(Read(1), 1, 100, 1)]
    ensures Blank(Step(Step(s, HonourCancel), Send(false)))
  {
    var o := Initial(2, 1);
    Starts(o);
    Steps(o, o, Enter);
    Steps(o, Step(o, Enter), Fetch(WELL));
    Steps(o, Step(Step(o, Enter), Fetch(WELL)), Check(None, 0));
    IdleToCancelling(o);
    var idle := o.(phase := Cancelling);
    Steps(o, idle, Program(Read(1), 100));
    OrderedIs(idle, Read(1));
    var programmed := Ordered(idle, Read(1));
    Steps(o, programmed, RequestCancel);
    s := Step(programmed, RequestCancel);
    assert s == programmed.(cancel := true);
    hide Step;
    HonourAndSend(s);
  }

  /**
   * After that cancellation, a CONNECT, a READ and a LISTEN are enough: the loop pops the LISTEN
   * over the pending READ, and if the variable for its ticket happens to hold 1, it reports that
   * ticket again.
   */
  lemma MisfireHappens() returns (s: State, es: seq<Event>)
    ensures Reachable(Initial(2, 1), s) && s.phase == Cancelling && s.cancel && s.nextTicket == 2
    ensures s.params == [Param(Read(1), 1, 100, 1)]
    ensures !MisfireFree(Step(s, HonourCancel), es, s.nextTicket)
    ensures var after := After(Step(s, HonourCancel), es);
            after.phase == Cancelling && after.sendResult && after.result.ticket == 1
  {
    s := CancelHappens();
    var o := Step(s, HonourCancel);
    var t := ListenOverRead(o);
    var before :| t == After(o, before);
    es := before + [Check(None, 1)];
    assert es[..|es| - 1] == before;
    assert Misfires(t, Check(None, 1), 2);
    assert Enabled(t, Check(None, 1));
    ListenOutcome(t, None, 1);
  }

  lemma ListenOverRead(o: State) returns (t: State)
    requires o.phase == Sending && Blank(Step(o, Send(false)))
    ensures Reachable(o, t) && t.phase == Checking && t.ioPending && t.current.cmd.Listen? && t.link.connectDone
  {
    hide Iteration;
    Starts(o);
    Steps(o, o, Send(false));
    hide Step;
    var ready := Connects(o, Step(o, Send(false)));
    Steps(o, ready, Program(Read(1), 100));
    OrderedIs(ready, Read(1));
    var s1 := Ordered(ready, Read(1));
    Steps(o, s1, Program(Listen, 100));
    OrderedIs(s1, Listen);
    var s2 := Ordered(s1, Listen);
    ReachServiced(o, s2);
    ServicedIs(s2);
    ReadPends(Serviced(s2));
    Iterates(o, Serviced(s2), WELL, None, 0);
    var s3 := Iteration(Serviced(s2), WELL, None, 0);
    ReachServiced(o, s3);
    ServicedIs(s3);
    Steps(o, Serviced(s3), Fetch(WELL));
    PoppedOver(Serviced(s3), WELL);
    t := Step(Serviced(s3), Fetch(WELL));
  }
}
