// The client engine with its mutable members (src/bofwebsocket.cpp, include/bofwebrpc/bofwebsocket.h):
// each method changes the fields as the source does and is proved to take the step of the state
// machine; the loop of V_OnProcessing is proved to make a run of it.

module WebSocketEngine {
  import opened Words
  import opened Engine

  /** What the other threads and libwebsockets do during one iteration of the loop, point by point. */
  datatype Round = Round(
    service: seq<Event>,       // while the loop services its context
    beforeFetch: seq<Event>,
    answers: Answers,
    beforeCheck: seq<Event>,
    received: Option<nat>,
    junk: nat,
    beforeCancel: seq<Event>,
    beforeSend: seq<Event>,
    mustExit: bool)

  /** An event of a user thread, of the clock or of libwebsockets. */
  predicate Outside(e: Event) {
    e.Program? || e.Collect? || e.RequestCancel? || e.ClearCancel? || e.ResetQueues? || e.Tick? || e.Call?
  }

  ghost predicate AllOutside(es: seq<Event>) {
    forall i :: 0 <= i < |es| ==> Outside(es[i])
  }

  ghost predicate Proper(r: Round) {
    AllOutside(r.service) && AllOutside(r.beforeFetch) && AllOutside(r.beforeCheck) && AllOutside(r.beforeCancel) &&
      AllOutside(r.beforeSend)
  }

  /** The events of one iteration, in order. */
  function Script(r: Round): seq<Event> {
    [Enter] + r.service + [EndService] + r.beforeFetch + [Fetch(r.answers)] + r.beforeCheck + [Check(r.received,
      r.junk)]
    + r.beforeCancel + [HonourCancel] + r.beforeSend + [Send(r.mustExit)]
  }

  function Scripts(rounds: seq<Round>): seq<Event> {
    if rounds == [] then [] else Scripts(rounds[..|rounds| - 1]) + Script(rounds[|rounds| - 1])
  }

  lemma {:induction false} AfterJoin(s: State, a: seq<Event>, b: seq<Event>)
    ensures After(s, a + b) == After(After(s, a), b)
  {
    if b == [] {
      assert a + b == a;
    } else {
      AfterJoin(s, a, b[..|b| - 1]);
      assert (a + b)[..|a + b| - 1] == a + b[..|b| - 1];
    }
  }

  lemma AfterOne(s: State, a: seq<Event>, e: Event)
    ensures After(s, a + [e]) == Step(After(s, a), e)
  {
    assert (a + [e])[..|a|] == a;
  }

  lemma {:induction false} AbortedStays(s: State, es: seq<Event>)
    requires s.phase == Aborted
    ensures After(s, es) == s
  {
    if es != [] {
      AbortedStays(s, es[..|es| - 1]);
    }
  }

  /** The state after one iteration. */
  function AfterRound(s: State, r: Round): State {
    var serviced := Step(After(Step(s, Enter), r.service), EndService);
    var fetched := Step(After(serviced, r.beforeFetch), Fetch(r.answers));
    var checked := Step(After(fetched, r.beforeCheck), Check(r.received, r.junk));
    var honoured := Step(After(checked, r.beforeCancel), HonourCancel);
    Step(After(honoured, r.beforeSend), Send(r.mustExit))
  }

  lemma AfterThen(s: State, a: seq<Event>, b: seq<Event>, e: Event)
    ensures After(s, a + b + [e]) == Step(After(After(s, a), b), e)
  {
    AfterOne(s, a + b, e);
    AfterJoin(s, a, b);
  }

  /** It is the state after the events of the iteration. */
  lemma RoundIsRun(s: State, r: Round)
    ensures AfterRound(s, r) == After(s, Script(r))
  {
    hide Step, After;
    AfterEnter(s);
    AfterThen(s, [Enter], r.service, EndService);
    var a := [Enter] + r.service + [EndService];
    AfterThen(s, a, r.beforeFetch, Fetch(r.answers));
    var b := a + r.beforeFetch + [Fetch(r.answers)];
    AfterThen(s, b, r.beforeCheck, Check(r.received, r.junk));
    var c := b + r.beforeCheck + [Check(r.received, r.junk)];
    AfterThen(s, c, r.beforeCancel, HonourCancel);
    AfterThen(s, c + r.beforeCancel + [HonourCancel], r.beforeSend, Send(r.mustExit));
  }

  lemma AfterEnter(s: State)
    ensures After(s, [Enter]) == Step(s, Enter)
  {
    AfterOne(s, [], Enter);
    assert [] + [Enter] == [Enter];
  }

  /** After a failed assert the rest of the iteration does nothing. */
  lemma AbortedRound(s: State, r: Round)
    requires s.phase == Aborted
    ensures s == Step(After(s, r.beforeFetch), Fetch(r.answers))
    ensures s == Step(After(s, r.beforeCheck), Check(r.received, r.junk))
    ensures s == Step(After(s, r.beforeCancel), HonourCancel)
    ensures s == Step(After(s, r.beforeSend), Send(r.mustExit))
  {
    AbortedStays(s, r.beforeFetch);
    AbortedStays(s, r.beforeCheck);
    AbortedStays(s, r.beforeCancel);
    AbortedStays(s, r.beforeSend);
  }

  /** A step of the loop in its phase. */
  lemma LoopStep(s: State, e: Event)
    requires match e
             case Fetch(_) => s.phase == Fetching
             case Check(_, _) => s.phase == Checking
             case HonourCancel => s.phase == Cancelling
             case Send(_) => s.phase == Sending
             case _ => false
    ensures Step(s, e) == Effect(s, e)
    ensures Step(s, e).phase == match e
                                case Fetch(_) => Checking
                                case Check(_, _) => Cancelling
                                case HonourCancel => Sending
                                case _ => if e.mustExit || s.exiting then Stopped else Top
  {
  }

  /** Nothing from outside moves the loop, except an assert that fails. */
  lemma {:induction false} PhaseKept(s: State, es: seq<Event>)
    requires AllOutside(es)
    ensures After(s, es).phase == s.phase || After(s, es).phase == Aborted
  {
    hide Step;
    if es != [] {
      PhaseKept(s, es[..|es| - 1]);
      OutsideStep(After(s, es[..|es| - 1]), es[|es| - 1]);
    }
  }

  lemma OutsideStep(s: State, e: Event)
    requires Outside(e)
    ensures Step(s, e).phase == s.phase || Step(s, e).phase == Aborted
  {
    hide Fetched, Checked, Honoured, Sent, Entered;
  }

  /** While the loop is not servicing its context, no callback can fail. */
  lemma {:induction false} NotAborted(s: State, es: seq<Event>)
    requires AllOutside(es) && s.phase != Servicing && s.phase != Aborted
    ensures After(s, es).phase == s.phase
  {
    hide Step;
    if es != [] {
      NotAborted(s, es[..|es| - 1]);
      NoCallback(After(s, es[..|es| - 1]), es[|es| - 1]);
    }
  }

  lemma NoCallback(s: State, e: Event)
    requires Outside(e) && s.phase != Servicing
    ensures Step(s, e).phase == s.phase
  {
    hide Fetched, Checked, Honoured, Sent, Entered;
  }

  class BofWebSocket {
    const capacity: nat       // NbMaxOperationPending_U32
    var nextTicket: nat       // mTicket_U32
    var now: nat              // the millisecond clock
    var params: seq<Param>    // mpuSocketOperationParamCollection
    var writes: seq<WriteOp>  // mpuSocketOperationWriteOpCollection
    var results: seq<Result>  // mpuSocketOperationResultCollection
    var context: bool         // mpLwsContext_X is not null
    var connectDone: bool     // mWebSocketState_X
    var socket: Option<nat>
    var cancel: bool          // mCancel_B
    var current: Param        // mCurrentOp_X
    var result: Result        // Result_X and the flags local to V_OnProcessing
    var ioPending: bool
    var sendResult: bool
    var exiting: bool
    var tx: nat               // mNbTxByClient_U64
    var phase: Phase          // where the processing thread stands

    function View(): (s: State)
      reads this
    {
      State(capacity, nextTicket, now, params, writes, results, Link(context, connectDone, socket), cancel,
            current, result, ioPending, sendResult, exiting, tx, phase)
    }

    constructor (capacity: nat, now: nat)
      ensures View() == Initial(capacity, now)
    {
      this.capacity, this.now, nextTicket := capacity, now, 1;
      params, writes, results := [], [], [];
      context, connectDone, socket, cancel := false, false, None, false;
      current, result := NO_PARAM, NO_RESULT;
      ioPending, sendResult, exiting, tx, phase := false, false, false, 0, Top;
    }

    // ---- For user threads ----

    /** Returns the ticket of an accepted command, else 0. */
    method ProgramWebSocketOperation(cmd: Command, timeout: nat) returns (accepted: bool, ticket: nat)
      modifies this`params, this`nextTicket
      ensures View() == Programmed(old(View()), cmd, timeout)
      ensures accepted <==> |old(params)| < capacity
      ensures ticket == if accepted then old(nextTicket) else 0
      ensures nextTicket == old(nextTicket) + 1
      ensures params == if accepted then old(params) + [Param(cmd, old(nextTicket), timeout, now)] else old(params)
    {
      var param := Param(cmd, nextTicket, timeout, now);
      nextTicket := nextTicket + 1;
      accepted, ticket := |params| < capacity, 0;
      if accepted {
        params := params + [param];
        ticket := param.ticket;
      }
    }

    method GetWebSocketOperationResult() returns (r: Option<Result>)
      modifies this`results
      ensures View() == Collected(old(View()))
      ensures r == if old(results) == [] then None else Some(old(results)[0])
      ensures results == if old(results) == [] then [] else old(results)[1..]
    {
      r := None;
      if results != [] {
        r := Some(results[0]);
        results := results[1..];
      }
    }

    method ResetWebSocketOperation()
      modifies this`params, this`results, this`cancel
      ensures View() == Emptied(old(View()))
      ensures params == [] && results == [] && !cancel
    {
      params, results, cancel := [], [], false;
    }

    method CancelWebSocketOperation()
      modifies this`cancel
      ensures View() == old(View()).(cancel := true)
    {
      cancel := true;
    }

    method ClearWebSocketOperation()
      modifies this`cancel
      ensures View() == old(View()).(cancel := false)
    {
      cancel := false;
    }

    // ---- For libwebsockets ----

    method LwsClientDisconnect()
      modifies this`context, this`connectDone, this`socket
      ensures View() == old(View()).(link := NO_LINK)
    {
      context, connectDone, socket := false, false, None;
    }

    /** Pushes a result; a full queue loses it. */
    method PushResult(r: Result)
      modifies this`results
      ensures results == Pushed(old(View()), r)
      ensures results == old(results) + if |old(results)| <= capacity then [r] else []
    {
      if |results| < capacity + 1 {
        results := results + [r];
      }
    }

    /** LWS_CALLBACK_CLIENT_WRITEABLE: hands the first queued write over and reports it. */
    method Writeable(sent: int)
      modifies this`writes, this`results, this`tx, this`phase
      ensures View() == CalledBack(old(View()), ClientWriteable(sent))
    {
      if writes != [] {
        var op := writes[0];
        if op.data != [] {
          if sent != |op.data| {
            phase := Aborted;
            return;
          }
          tx := tx + sent;
          PushResult(op.result.(sts := NoError, size := |op.data|, time := now - op.timer));
          writes := writes[1..];
        }
      }
    }

    method LwsCallback(c: Callback)
      modifies this
      ensures View() == CalledBack(old(View()), c)
    {
      match c {
        case BindProtocol(wsi) => socket := Some(wsi);
        case ClientEstablished(wsi, sized) =>
          if sized {
            if socket == Some(wsi) {
              connectDone := true;
            } else {
              phase := Aborted;
            }
          }
        case ClientWriteable(sent) => Writeable(sent);
        case ClientClosed => connectDone := false;
        case ConnectionError => LwsClientDisconnect();
        case OtherReason =>
      }
    }

    /** One event from outside the loop; libwebsockets calls back only while it is serviced. */
    method Happens(e: Event)
      requires Outside(e)
      modifies this
      ensures View() == Step(old(View()), e)
    {
      hide CalledBack;
      if phase != Aborted {
        match e {
          case Program(cmd, timeout) => var _, _ := ProgramWebSocketOperation(cmd, timeout);
          case Collect => var _ := GetWebSocketOperationResult();
          case RequestCancel => CancelWebSocketOperation();
          case ClearCancel => ClearWebSocketOperation();
          case ResetQueues => ResetWebSocketOperation();
          case Tick(ms) => now := now + ms;
          case Call(c) =>
            if phase == Servicing && context {
              LwsCallback(c);
            }
        }
      }
    }

    method Meanwhile(es: seq<Event>)
      requires AllOutside(es)
      modifies this
      ensures View() == After(old(View()), es)
    {
      hide Step;
      for i := 0 to |es|
        invariant View() == After(old(View()), es[..i])
      {
        assert es[..i + 1][..i] == es[..i];
        Happens(es[i]);
      }
      assert es[..|es|] == es;
    }

    // ---- The processing thread ----

    method Begin()
      modifies this`result, this`current, this`sendResult
      ensures View() == Begun(old(View())) && result.sts == NoError && current.cmd == old(current.cmd)
    {
      result := Result(Kind(current.cmd), current.ticket, NoError, 0, now - current.timer);
      current := current.(timer := now);
      sendResult := true;
    }

    method ExecuteConnect(keyLength: nat, a: Answers)
      modifies this`context, this`connectDone, this`socket, this`result
      ensures View() == ConnectExecuted(old(View()), keyLength, a)
    {
      result := result.(sts := InvalidState);
      if !connectDone && !context && 0 < keyLength < MAX_KEY {
        context := a.created;
        if !context {
          LwsClientDisconnect();
          result := result.(sts := InitError);
        } else {
          result := result.(sts := NotConnected);
          socket := a.connecting;
          if socket.Some? {
            result := result.(sts := NoError);
          }
        }
      }
    }

    method ExecuteDisconnect()
      modifies this`context, this`connectDone, this`socket, this`result
      ensures View() == DisconnectExecuted(old(View()))
    {
      if connectDone || context {
        LwsClientDisconnect();
      } else {
        result := result.(sts := InvalidState);
      }
    }

    method ExecuteRead(room: nat)
      modifies this`result
      ensures View() == ReadExecuted(old(View()), room)
    {
      if !(connectDone && socket.Some?) {
        result := result.(sts := NotConnected);
      } else if room == 0 {
        result := result.(sts := Einval);
      }
    }

    method ExecuteWrite(data: seq<Byte>, a: Answers)
      requires result.sts == NoError
      modifies this`writes, this`result
      ensures View() == WriteExecuted(old(View()), data, a)
    {
      if !(connectDone && socket.Some?) {
        result := result.(sts := NotConnected);
      } else if data == [] {
        result := result.(sts := Einval);
      } else if |writes| < capacity + 1 {
        writes := writes + [WriteOp(result, data, current.timeout, current.timer)];
        if !a.writable {
          result := result.(sts := OperationFailed);
        }
      } else {
        result := result.(sts := NoMore);
      }
    }

    method Dispatch(a: Answers)
      requires result.sts == NoError
      modifies this
      ensures View() == Dispatched(old(View()), a)
    {
      hide ConnectExecuted, DisconnectExecuted, ReadExecuted, WriteExecuted;
      match current.cmd {
        case Listen => result := result.(sts := WrongMode);
        case Connect(n) => ExecuteConnect(n, a);
        case Disconnect => ExecuteDisconnect();
        case Exit =>
          result := result.(sts := Cancelled);
          exiting := true;
        case Read(room) => ExecuteRead(room);
        case Write(data) => ExecuteWrite(data, a);
        case Idle => result := result.(sts := InvalidCommand);
      }
    }

    /** Executes the popped command. */
    method Execute(a: Answers)
      modifies this
      ensures View() == Executed(old(View()), a)
    {
      hide Begun, Dispatched;
      Begin();
      Dispatch(a);
      if result.sts == NoError {
        ioPending := true;
      }
    }

    /** Pops a command over the current one, and executes it unless another one is pending. */
    method PopAndExecute(a: Answers)
      modifies this
      ensures View() == Fetched(old(View()), a)
    {
      hide Executed;
      phase := Checking;
      if params != [] {
        current, params := params[0], params[1..];
        if !ioPending {
          Execute(a);
        }
      }
    }

    /** What has become of the pending operation. */
    method Progress(received: Option<nat>, junk: nat)
      modifies this
      ensures View() == Progressed(old(View()), received, junk)
    {
      sendResult := false;
      match current.cmd {
        case Listen =>
          if connectDone {
            connectDone := false;
            current := current.(timer := now);
            result := result.(op := CONNECT, ticket := junk, sts := NoError);
            sendResult := true;
          }
        case Connect(_) =>
          if connectDone {
            result := result.(sts := NoError);
            sendResult, ioPending := true, false;
          }
        case Disconnect => sendResult, ioPending := true, false;
        case Read(_) =>
          if received.Some? {
            result := result.(sts := NoError, size := received.value);
            sendResult, ioPending := true, false;
          } else {
            result := result.(sts := Pending);
          }
        case Write(_) =>
          result := result.(sts := NoError);
          ioPending := false;
        case _ =>
          result := result.(sts := BadId);
          ioPending := false;
      }
    }

    method Expire()
      modifies this
      ensures View() == Expired(old(View()))
    {
      result := result.(time := now - current.timer);
      if !current.cmd.Write? && result.time > current.timeout {
        if current.cmd.Connect? {
          LwsClientDisconnect();
        }
        result := result.(sts := TimedOut);
        sendResult, ioPending := true, false;
      }
    }

    method CheckPending(received: Option<nat>, junk: nat)
      modifies this
      ensures View() == Checked(old(View()), received, junk)
    {
      hide Progressed, Expired;
      if ioPending {
        Progress(received, junk);
        Expire();
      }
      phase := Cancelling;
    }

    method DropAll()
      modifies this
      ensures View() == Honoured(old(View()))
    {
      if cancel {
        cancel := false;
        params, results, writes := [], [], [];
        current := NO_PARAM;
        connectDone, socket := false, None;
        tx, sendResult, ioPending := 0, false, false;
      }
      phase := Sending;
    }

    method Report(mustExit: bool)
      modifies this
      ensures View() == Sent(old(View()), mustExit)
    {
      if sendResult {
        sendResult := false;
        result := result.(time := now - current.timer);
        PushResult(result);
      }
      phase := Top;
      if mustExit || exiting {
        LwsClientDisconnect();
        phase := Stopped;
      }
    }

    /** The service call, or the reset of the current operation when there is no context. */
    method Service(service: seq<Event>)
      requires phase == Top && AllOutside(service)
      modifies this
      ensures View() == Step(After(Step(old(View()), Enter), service), EndService)
      ensures phase == Fetching || phase == Aborted
    {
      ghost var s := View();
      if context {
        phase := Servicing;
      } else {
        current := NO_PARAM;
        phase := Fetching;
      }
      assert View() == Step(s, Enter);
      Meanwhile(service);
      PhaseKept(Step(s, Enter), service);
      if phase == Servicing {
        phase := Fetching;
      }
    }

    /**
     * One iteration of the loop of V_OnProcessing. The events between two points are those of the
     * other threads; an assert that fails in a callback stops everything.
     */
    method Iterate(r: Round)
      requires phase == Top && Proper(r)
      modifies this
      ensures View() == AfterRound(old(View()), r)
      ensures phase == Top || phase == Stopped || phase == Aborted
    {
      hide Step, Fetched, Checked, Honoured, Sent;
      Service(r.service);
      if phase == Aborted {
        AbortedRound(View(), r);
        return;
      }
      ghost var s := View();
      Meanwhile(r.beforeFetch);
      NotAborted(s, r.beforeFetch);
      LoopStep(View(), Fetch(r.answers));
      PopAndExecute(r.answers);
      s := View();
      Meanwhile(r.beforeCheck);
      NotAborted(s, r.beforeCheck);
      LoopStep(View(), Check(r.received, r.junk));
      CheckPending(r.received, r.junk);
      s := View();
      Meanwhile(r.beforeCancel);
      NotAborted(s, r.beforeCancel);
      LoopStep(View(), HonourCancel);
      DropAll();
      s := View();
      Meanwhile(r.beforeSend);
      NotAborted(s, r.beforeSend);
      LoopStep(View(), Send(r.mustExit));
      Report(r.mustExit);
    }

    /** The loop runs until it must exit, an EXIT is executed or an assert fails. */
    method V_OnProcessing(rounds: seq<Round>) returns (n: nat)
      requires phase == Top && forall i :: 0 <= i < |rounds| ==> Proper(rounds[i])
      modifies this
      ensures n <= |rounds| && (n < |rounds| ==> phase == Stopped || phase == Aborted)
      ensures View() == After(old(View()), Scripts(rounds[..n]))
    {
      hide AfterRound;
      n := 0;
      while n < |rounds| && phase == Top
        invariant n <= |rounds|
        invariant phase == Top || phase == Stopped || phase == Aborted
        invariant View() == After(old(View()), Scripts(rounds[..n]))
      {
        assert rounds[..n + 1][..n] == rounds[..n];
        RoundIsRun(View(), rounds[n]);
        AfterJoin(old(View()), Scripts(rounds[..n]), Script(rounds[n]));
        Iterate(rounds[n]);
        n := n + 1;
      }
    }
  }
}
