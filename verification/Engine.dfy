// The operation engine of a client BofWebSocket (src/bofwebsocket.cpp, NbMaxClient_U32 == 0) as a
// state machine. User threads program, collect, cancel and clear at any time; the processing
// thread runs the loop of V_OnProcessing, whose phases are the steps between two points where
// other threads matter; libwebsockets calls back while the loop services its context.

module Engine {
  import opened Words

  /** What a user thread asks for; Idle is the value of a reset operation. */
  datatype Command =
    | Exit
    | Listen
    | Connect(keyLength: nat)
    | Read(room: nat)
    | Write(data: seq<Byte>)
    | Disconnect
    | Idle

  datatype Sts =
    | NoError | SoftInit | WrongMode | InvalidState | InitError | NotConnected | Einval | NoMore
    | OperationFailed | Cancelled | InvalidCommand | BadId | TimedOut | Pending

  /** BOF_WEB_RPC_SOCKET_OPERATION: a command without its parameters. */
  datatype Operation = EXIT | LISTEN | CONNECT | READ | WRITE | DISCONNECT | MAX

  function Kind(c: Command): Operation {
    match c
    case Exit => EXIT
    case Listen => LISTEN
    case Connect(_) => CONNECT
    case Read(_) => READ
    case Write(_) => WRITE
    case Disconnect => DISCONNECT
    case Idle => MAX
  }

  datatype Param = Param(cmd: Command, ticket: nat, timeout: nat, timer: int)

  const NO_PARAM := Param(Idle, 0, 0, 0)

  datatype Result = Result(op: Operation, ticket: nat, sts: Sts, size: nat, time: int)

  const NO_RESULT := Result(MAX, 0, SoftInit, 0, 0)

  datatype WriteOp = WriteOp(result: Result, data: seq<Byte>, timeout: nat, timer: int)

  /** The libwebsockets context and mWebSocketState_X; a socket is one of its connections. */
  datatype Link = Link(context: bool, connectDone: bool, socket: Option<nat>)

  /** After BOF_LWS_CLIENT_DISCONNECT. */
  const NO_LINK := Link(false, false, None)

  /** The longest client key, with its terminator. */
  const MAX_KEY := 128

  /** Where the loop stands. */
  datatype Phase = Top | Servicing | Fetching | Checking | Cancelling | Sending | Stopped | Aborted

  datatype State = State(
    capacity: nat,            // NbMaxOperationPending_U32
    nextTicket: nat,
    now: nat,                 // Bof_GetMsTickCount
    params: seq<Param>,       // mpuSocketOperationParamCollection
    writes: seq<WriteOp>,     // mpuSocketOperationWriteOpCollection
    results: seq<Result>,     // mpuSocketOperationResultCollection
    link: Link,
    cancel: bool,
    current: Param,           // mCurrentOp_X
    result: Result,           // Result_X
    ioPending: bool,
    sendResult: bool,
    exiting: bool,            // Rts_E is not BOF_ERR_NO_ERROR
    tx: nat,                  // mNbTxByClient_U64
    phase: Phase)

  /** A new engine; the clock has started. */
  function Initial(capacity: nat, now: nat): State {
    State(capacity, 1, now, [], [], [], NO_LINK, false, NO_PARAM, NO_RESULT, false, false, false, 0, Top)
  }

  // ---- User threads ----

  /** A ticket is taken even when the queue is full. */
  function Programmed(s: State, cmd: Command, timeout: nat): State {
    s.(nextTicket := s.nextTicket + 1,
       params := if |s.params| < s.capacity then s.params + [Param(cmd, s.nextTicket, timeout, s.now)] else s.params)
  }

  function Collected(s: State): State {
    if s.results == [] then s else s.(results := s.results[1..])
  }

  /** ResetWebSocketOperation */
  function Emptied(s: State): State {
    s.(params := [], results := [], cancel := false)
  }

  // ---- Callbacks of libwebsockets ----

  datatype Callback =
    | BindProtocol(wsi: nat)
    | ClientEstablished(wsi: nat, sized: bool)  // whether SetSocketBufferSize succeeds
    | ClientWriteable(sent: int)                // what lws_write returns
    | ClientClosed
    | ConnectionError
    | OtherReason

  predicate HasRoom(s: State) {
    |s.results| < s.capacity + 1
  }

  function Pushed(s: State, r: Result): seq<Result> {
    if HasRoom(s) then s.results + [r] else s.results
  }

  /** The result of a write that was handed over whole. */
  function WriteDone(s: State, op: WriteOp): Result {
    op.result.(sts := NoError, size := |op.data|, time := s.now - op.timer)
  }

  function CalledBack(s: State, c: Callback): State {
    match c
    case BindProtocol(wsi) => s.(link := s.link.(socket := Some(wsi)))
    case ClientEstablished(wsi, sized) =>
      if !sized then s
      else if s.link.socket != Some(wsi) then s.(phase := Aborted)
      else s.(link := s.link.(connectDone := true))
    case ClientWriteable(sent) =>
      if s.writes == [] || s.writes[0].data == [] then s
      else if sent != |s.writes[0].data| then s.(phase := Aborted)
      else s.(writes := s.writes[1..], results := Pushed(s, WriteDone(s, s.writes[0])), tx := s.tx + sent)
    case ClientClosed => s.(link := s.link.(connectDone := false))
    case ConnectionError => s.(link := NO_LINK)
    case OtherReason => s
  }

  // ---- The processing loop ----

  /** What libwebsockets answers while a command is executed. */
  datatype Answers = Answers(created: bool, connecting: Option<nat>, writable: bool)

  /** The first half of an iteration: to the service call if there is a context. */
  function Entered(s: State): State {
    if s.link.context then s.(phase := Servicing)
    else s.(current := NO_PARAM, phase := Fetching)
  }

  predicate Online(l: Link) {
    l.connectDone && l.socket.Some?
  }

  predicate MayConnect(l: Link, keyLength: nat) {
    !l.connectDone && !l.context && 0 < keyLength < MAX_KEY
  }

  /** A popped command gets a result to fill in, and its timer starts again. */
  function Begun(s: State): (b: State)
    ensures b == s.(result := b.result, current := b.current, sendResult := true)
    ensures b.result.sts == NoError && b.current == s.current.(timer := s.now)
  {
    s.(result := Result(Kind(s.current.cmd), s.current.ticket, NoError, 0, s.now - s.current.timer),
       current := s.current.(timer := s.now), sendResult := true)
  }

  function ConnectExecuted(s: State, keyLength: nat, a: Answers): (s': State)
    ensures s' == s.(result := s.result.(sts := s'.result.sts), link := s'.link)
  {
    if !MayConnect(s.link, keyLength) then s.(result := s.result.(sts := InvalidState))
    else if !a.created then s.(result := s.result.(sts := InitError), link := NO_LINK)
    else s.(result := s.result.(sts := if a.connecting.Some? then NoError else NotConnected),
            link := Link(true, s.link.connectDone, a.connecting))
  }

  function DisconnectExecuted(s: State): (s': State)
    ensures s' == s.(result := s.result.(sts := s'.result.sts), link := s'.link)
  {
    if s.link.connectDone || s.link.context then s.(link := NO_LINK)
    else s.(result := s.result.(sts := InvalidState))
  }

  function ReadExecuted(s: State, room: nat): (s': State)
    ensures s' == s.(result := s.result.(sts := s'.result.sts))
  {
    if !Online(s.link) then s.(result := s.result.(sts := NotConnected))
    else if room == 0 then s.(result := s.result.(sts := Einval))
    else s
  }

  function WriteExecuted(s: State, data: seq<Byte>, a: Answers): (s': State)
    ensures s' == s.(result := s.result.(sts := s'.result.sts), writes := s'.writes)
  {
    if !Online(s.link) then s.(result := s.result.(sts := NotConnected))
    else if data == [] then s.(result := s.result.(sts := Einval))
    else if |s.writes| > s.capacity then s.(result := s.result.(sts := NoMore))
    else s.(writes := s.writes + [WriteOp(s.result, data, s.current.timeout, s.current.timer)],
            result := s.result.(sts := if a.writable then NoError else OperationFailed))
  }

  function Dispatched(s: State, a: Answers): (s': State)
    ensures s' == s.(result := s'.result, link := s'.link, writes := s'.writes, exiting := s'.exiting)
    ensures s'.result == s.result.(sts := s'.result.sts)
  {
    hide ConnectExecuted, DisconnectExecuted, ReadExecuted, WriteExecuted;
    match s.current.cmd
    case Listen => s.(result := s.result.(sts := WrongMode))
    case Connect(n) => ConnectExecuted(s, n, a)
    case Disconnect => DisconnectExecuted(s)
    case Exit => s.(result := s.result.(sts := Cancelled), exiting := true)
    case Read(room) => ReadExecuted(s, room)
    case Write(data) => WriteExecuted(s, data, a)
    case Idle => s.(result := s.result.(sts := InvalidCommand))
  }

  /** The command is pending if nothing was wrong with it. */
  function Executed(s: State, a: Answers): (s': State)
    ensures s' == s.(current := s'.current, result := s'.result, sendResult := true, ioPending := s'.ioPending,
                     writes := s'.writes, link := s'.link, exiting := s'.exiting)
  {
    var done := Dispatched(Begun(s), a);
    if done.result.sts == NoError then done.(ioPending := true) else done
  }

  /** Pops a command into the current operation, even while another one is pending. */
  function Fetched(s: State, a: Answers): State {
    var s' := s.(phase := Checking);
    if s.params == [] then s'
    else
      var popped := s'.(current := s.params[0], params := s.params[1..]);
      if s.ioPending then popped else Executed(popped, a)
  }

  /**
   * What the pending operation has come to. `received` is what the receive buffer gives to a
   * read, `junk` the value of a LISTEN ticket that was never set.
   */
  function Progressed(s: State, received: Option<nat>, junk: nat): (s': State)
    ensures s' == s.(current := s'.current, result := s'.result, sendResult := s'.sendResult, ioPending := s'.ioPending,
                     link := s'.link)
  {
    match s.current.cmd
    case Listen =>
      if s.link.connectDone
      then s.(link := s.link.(connectDone := false), current := s.current.(timer := s.now),
              result := s.result.(op := CONNECT, ticket := junk, sts := NoError), sendResult := true)
      else s.(sendResult := false)
    case Connect(_) =>
      if s.link.connectDone then s.(result := s.result.(sts := NoError), sendResult := true, ioPending := false)
      else s.(sendResult := false)
    case Disconnect => s.(sendResult := true, ioPending := false)
    case Read(_) =>
      if received.Some?
      then s.(result := s.result.(sts := NoError, size := received.value), sendResult := true, ioPending := false)
      else s.(result := s.result.(sts := Pending), sendResult := false)
    case Write(_) => s.(result := s.result.(sts := NoError), sendResult := false, ioPending := false)
    case _ => s.(result := s.result.(sts := BadId), sendResult := false, ioPending := false)
  }

  function Expired(s: State): (s': State)
    ensures s' == s.(result := s'.result, sendResult := s'.sendResult, ioPending := s'.ioPending, link := s'.link)
  {
    var s' := s.(result := s.result.(time := s.now - s.current.timer));
    if s.current.cmd.Write? || s'.result.time <= s.current.timeout then s'
    else
      s'.(link := if s.current.cmd.Connect? then NO_LINK else s.link,
          result := s'.result.(sts := TimedOut), sendResult := true, ioPending := false)
  }

  function Checked(s: State, received: Option<nat>, junk: nat): State {
    (if s.ioPending then Expired(Progressed(s, received, junk)) else s).(phase := Cancelling)
  }

  /** Everything but the context is given up. */
  function Dropped(s: State): State {
    s.(params := [], results := [], writes := [], current := NO_PARAM,
       link := s.link.(connectDone := false, socket := None),
       tx := 0, cancel := false, sendResult := false, ioPending := false)
  }

  function Honoured(s: State): State {
    (if s.cancel then Dropped(s) else s).(phase := Sending)
  }

  /** The last part of an iteration; `mustExit` is IsThreadLoopMustExit. */
  function Sent(s: State, mustExit: bool): State {
    var r := s.result.(time := s.now - s.current.timer);
    var s' := if s.sendResult then s.(sendResult := false, result := r, results := Pushed(s, r)) else s;
    if mustExit || s.exiting then s'.(link := NO_LINK, phase := Stopped) else s'.(phase := Top)
  }

  // ---- Runs ----

  datatype Event =
    | Program(cmd: Command, timeout: nat)
    | Collect
    | RequestCancel
    | ClearCancel
    | ResetQueues
    | Tick(ms: nat)
    | Enter
    | Call(callback: Callback)
    | EndService
    | Fetch(answers: Answers)
    | Check(received: Option<nat>, junk: nat)
    | HonourCancel
    | Send(mustExit: bool)

  /** Whether the event can happen: always for a user, in its phase for the loop. */
  predicate Enabled(s: State, e: Event) {
    s.phase != Aborted &&
    match e
    case Enter => s.phase == Top
    case Call(_) => s.phase == Servicing && s.link.context
    case EndService => s.phase == Servicing
    case Fetch(_) => s.phase == Fetching
    case Check(_, _) => s.phase == Checking
    case HonourCancel => s.phase == Cancelling
    case Send(_) => s.phase == Sending
    case _ => true
  }

  function Effect(s: State, e: Event): State {
    match e
    case Program(cmd, timeout) => Programmed(s, cmd, timeout)
    case Collect => Collected(s)
    case RequestCancel => s.(cancel := true)
    case ClearCancel => s.(cancel := false)
    case ResetQueues => Emptied(s)
    case Tick(ms) => s.(now := s.now + ms)
    case Enter => Entered(s)
    case Call(c) => CalledBack(s, c)
    case EndService => s.(phase := Fetching)
    case Fetch(a) => Fetched(s, a)
    case Check(received, junk) => Checked(s, received, junk)
    case HonourCancel => Honoured(s)
    case Send(mustExit) => Sent(s, mustExit)
  }

  /** An event that cannot happen changes nothing, so every sequence of events is a run. */
  function Step(s: State, e: Event): State {
    if Enabled(s, e) then Effect(s, e) else s
  }

  function After(s: State, es: seq<Event>): State {
    if es == [] then s else Step(After(s, es[..|es| - 1]), es[|es| - 1])
  }

  // ---- Reachable states ----

  ghost predicate Reachable(origin: State, s: State) {
    exists es :: s == After(origin, es)
  }

  lemma Starts(origin: State)
    ensures Reachable(origin, origin)
  {
    assert After(origin, []) == origin;
  }

  lemma Steps(origin: State, s: State, e: Event)
    requires Reachable(origin, s)
    ensures Reachable(origin, Step(s, e))
  {
    hide Step;
    var es :| s == After(origin, es);
    assert (es + [e])[..|es|] == es;
    assert After(origin, es + [e]) == Step(s, e);
  }

  /** One pass of the loop from the fetch on. */
  function Iteration(s: State, a: Answers, received: Option<nat>, junk: nat): State {
    Step(Step(Step(Step(s, Fetch(a)), Check(received, junk)), HonourCancel), Send(false))
  }

  lemma Iterates(origin: State, s: State, a: Answers, received: Option<nat>, junk: nat)
    requires Reachable(origin, s)
    ensures Reachable(origin, Iteration(s, a, received, junk))
  {
    hide Step;
    Steps(origin, s, Fetch(a));
    var fetched := Step(s, Fetch(a));
    Steps(origin, fetched, Check(received, junk));
    var checked := Step(fetched, Check(received, junk));
    Steps(origin, checked, HonourCancel);
    Steps(origin, Step(checked, HonourCancel), Send(false));
  }
}
