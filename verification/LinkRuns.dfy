// What brings the connection of the client engine up and down over whole runs
// (src/bofwebsocket.cpp): its fields against what libwebsockets reported and the loop executed.

module LinkRuns {
  import opened Words
  import opened Engine
  import opened Connection
  import opened Commands

  // ---- What changes the link ----

  /** libwebsockets reports that the connection the engine asked for is established. */
  predicate Establishes(s: State, e: Event) {
    Enabled(s, e) && e.Call? && e.callback.ClientEstablished? && e.callback.sized &&
      s.link.socket == Some(e.callback.wsi)
  }

  /** A CONNECT is executed that is not refused for the state or for its key. */
  predicate Tries(s: State, e: Event) {
    Executes(s, e) && s.params[0].cmd.Connect? && !s.link.context && !s.link.connectDone &&
      0 < s.params[0].cmd.keyLength <= 127
  }

  /**
   * The context is destroyed: by a connection error, a DISCONNECT, a CONNECT found late, the end of the
   * loop, or a context that could not be created.
   */
  predicate TearsDown(s: State, e: Event) {
    Enabled(s, e) &&
    match e
    case Call(c) => c == ConnectionError
    case Fetch(a) => (Executes(s, e) && s.params[0].cmd == Disconnect) || (Tries(s, e) && !a.created)
    case Check(_, _) => s.ioPending && s.current.cmd.Connect? && s.now - s.current.timer > s.current.timeout
    case Send(mustExit) => mustExit || s.exiting
    case _ => false
  }

  /** An honoured cancellation gives up the connection but keeps the context. */
  predicate GivesUp(s: State, e: Event) {
    Enabled(s, e) && e.HonourCancel? && s.cancel
  }

  /** The connection is closed by the peer, or disowned by a LISTEN popped over a pending operation. */
  predicate Closes(s: State, e: Event) {
    Enabled(s, e) && (e == Call(ClientClosed) || (e.Check? && s.ioPending && s.current.cmd.Listen?))
  }

  // ---- The ledger of a run ----

  /** A context was created, and none of what destroys one came after. */
  predicate Standing(s: State, es: seq<Event>) {
    es != [] &&
    var (before, e) := (After(s, es[..|es| - 1]), es[|es| - 1]);
    if TearsDown(before, e) then false else Tries(before, e) || Standing(s, es[..|es| - 1])
  }

  /** The connection was established, and nothing that ends one came after. */
  predicate Up(s: State, es: seq<Event>) {
    es != [] &&
    var (before, e) := (After(s, es[..|es| - 1]), es[|es| - 1]);
    || Establishes(before, e)
    || (Up(s, es[..|es| - 1]) && !TearsDown(before, e) && !GivesUp(before, e) && !Closes(before, e))
  }

  /** The connection last bound or asked for. */
  function Bound(s: State, es: seq<Event>): Option<nat> {
    if es == [] then None else
      var (before, e) := (After(s, es[..|es| - 1]), es[|es| - 1]);
      if TearsDown(before, e) || GivesUp(before, e) then None
      else if Tries(before, e) then e.answers.connecting
      else if Enabled(before, e) && e.Call? && e.callback.BindProtocol? then Some(e.callback.wsi)
      else Bound(s, es[..|es| - 1])
  }

  lemma FetchLink(s: State, a: Answers)
    requires Linked(s.link) && Enabled(s, Fetch(a))
    ensures Step(s, Fetch(a)).link == if TearsDown(s, Fetch(a)) then NO_LINK
                                      else if Tries(s, Fetch(a)) then Link(true, false, a.connecting) else s.link
  {
    if Executes(s, Fetch(a)) {
      match s.params[0].cmd {
        case Connect(_) => Connects(s, a);
        case Disconnect => Disconnects(s, a);
        case Read(_) => Reads(s, a);
        case Write(_) => Writes(s, a);
        case Idle =>
        case _ => ListensOrExits(s, a);
      }
      hide Dispatched;
    }
  }

  lemma CheckLink(s: State, received: Option<nat>, junk: nat)
    requires Enabled(s, Check(received, junk))
    ensures var e := Check(received, junk);
            Step(s, e).link == if TearsDown(s, e) then NO_LINK
                               else if Closes(s, e) then s.link.(connectDone := false) else s.link
  {
    hide Executes;
  }

  lemma OtherLink(s: State, e: Event)
    requires Enabled(s, e) && !e.Fetch? && !e.Check?
    ensures Step(s, e).link ==
            if TearsDown(s, e) then NO_LINK
            else if GivesUp(s, e) then Link(s.link.context, false, None)
            else if Closes(s, e) then s.link.(connectDone := false)
            else if Establishes(s, e) then s.link.(connectDone := true)
            else if e.Call? && e.callback.BindProtocol? then s.link.(socket := Some(e.callback.wsi))
            else s.link
  {
    hide WriteDone, Pushed, Fetched, Checked, Executes;
  }

  lemma LinkStep(s: State, e: Event)
    requires Linked(s.link)
    ensures var l := Step(s, e).link;
            && (l.context <==> !TearsDown(s, e) && (Tries(s, e) || s.link.context))
            && (l.connectDone <==> Establishes(s, e) ||
                                   (s.link.connectDone && !TearsDown(s, e) && !GivesUp(s, e) && !Closes(s, e)))
            && l.socket == (if TearsDown(s, e) || GivesUp(s, e) then None
                            else if Tries(s, e) then e.answers.connecting
                            else if Enabled(s, e) && e.Call? && e.callback.BindProtocol? then Some(e.callback.wsi)
                            else s.link.socket)
  {
    if Enabled(s, e) {
      match e {
        case Fetch(a) => FetchLink(s, a);
        case Check(received, junk) => CheckLink(s, received, junk);
        case _ => OtherLink(s, e);
      }
      hide Effect;
    }
  }

  /**
   * Over every run the three fields of the link say what the ledger says: connected exactly if the
   * connection was established after the last close, connection error, DISCONNECT, cancellation and
   * time-out; with a context exactly if the last one created was not destroyed.
   */
  lemma {:induction false} LinkIsLedger(capacity: nat, now: nat, es: seq<Event>)
    ensures var origin := Initial(capacity, now);
            After(origin, es).link == Link(Standing(origin, es), Up(origin, es), Bound(origin, es))
  {
    hide Step, TearsDown, Establishes, Tries, GivesUp, Closes, Linked;
    if es != [] {
      LinkIsLedger(capacity, now, es[..|es| - 1]);
      AlwaysLinked(capacity, now, es[..|es| - 1]);
      LinkStep(After(Initial(capacity, now), es[..|es| - 1]), es[|es| - 1]);
    }
  }

  /** So a READ or a WRITE is refused as not connected exactly if the connection is not up by the ledger. */
  lemma RefusedUnlessUp(capacity: nat, now: nat, es: seq<Event>, a: Answers)
    requires Executes(After(Initial(capacity, now), es), Fetch(a))
    requires var cmd := After(Initial(capacity, now), es).params[0].cmd; cmd.Read? || cmd.Write?
    ensures var s' := Step(After(Initial(capacity, now), es), Fetch(a));
            s'.result.sts == NotConnected <==> !Up(Initial(capacity, now), es)
  {
    var s := After(Initial(capacity, now), es);
    LinkIsLedger(capacity, now, es);
    AlwaysLinked(capacity, now, es);
    hide After, Step, Up, Standing, Bound;
    if s.params[0].cmd.Read? { Reads(s, a); } else { Writes(s, a); }
  }

  // ---- After a close ----

  /** No connection is established during the run. */
  predicate Quiet(s: State, es: seq<Event>) {
    es == [] || (Quiet(s, es[..|es| - 1]) && !Establishes(After(s, es[..|es| - 1]), es[|es| - 1]))
  }

  lemma StaysUnconnected(s: State, e: Event)
    requires !s.link.connectDone && !Establishes(s, e)
    ensures !Step(s, e).link.connectDone
  {
    if Enabled(s, e) {
      match e {
        case Fetch(a) => FetchUnconnected(s, a);
        case Check(received, junk) => CheckLink(s, received, junk);
        case _ => OtherLink(s, e);
      }
      hide Effect;
    }
  }

  lemma FetchUnconnected(s: State, a: Answers)
    requires !s.link.connectDone && Enabled(s, Fetch(a))
    ensures !Step(s, Fetch(a)).link.connectDone
  {
    if Executes(s, Fetch(a)) {
      match s.params[0].cmd {
        case Connect(_) => Connects(s, a);
        case Disconnect => Disconnects(s, a);
        case Read(_) => Reads(s, a);
        case Write(_) => Writes(s, a);
        case Idle =>
        case _ => ListensOrExits(s, a);
      }
      hide Dispatched;
    }
  }

  lemma {:induction false} QuietRun(s: State, es: seq<Event>)
    requires !s.link.connectDone && Quiet(s, es)
    ensures !After(s, es).link.connectDone
  {
    hide Step, Establishes;
    if es != [] {
      QuietRun(s, es[..|es| - 1]);
      StaysUnconnected(After(s, es[..|es| - 1]), es[|es| - 1]);
    }
  }

  /**
   * In whatever state the peer closes the connection: from then on, until one is established again,
   * whatever else happens, a READ or a WRITE is refused as not connected, and nothing is queued.
   */
  lemma RefusedAfterClose(s: State, es: seq<Event>, a: Answers)
    requires Enabled(s, Call(ClientClosed)) && Quiet(Step(s, Call(ClientClosed)), es)
    requires Executes(After(Step(s, Call(ClientClosed)), es), Fetch(a))
    requires var cmd := After(Step(s, Call(ClientClosed)), es).params[0].cmd; cmd.Read? || cmd.Write?
    ensures var before := After(Step(s, Call(ClientClosed)), es);
            var after := Step(before, Fetch(a));
            after.result.sts == NotConnected && !after.ioPending && after.writes == before.writes
  {
    var closed := Step(s, Call(ClientClosed));
    QuietRun(closed, es);
    var before := After(closed, es);
    hide After, Step, Quiet;
    if before.params[0].cmd.Read? { Reads(before, a); } else { Writes(before, a); }
  }

  // ---- Failed asserts ----

  /**
   * The loop aborts exactly if another connection than the engine's is established, or libwebsockets
   * takes another number of bytes than the queued write has; then nothing else changes.
   */
  lemma AbortsIff(s: State, e: Event)
    requires Enabled(s, e)
    ensures var wrongSocket := e.Call? && e.callback.ClientEstablished? && e.callback.sized &&
              s.link.socket != Some(e.callback.wsi);
            var wrongSize := e.Call? && e.callback.ClientWriteable? && s.writes != [] && s.writes[0].data != [] &&
              e.callback.sent != |s.writes[0].data|;
            && (Step(s, e).phase == Aborted <==> wrongSocket || wrongSize)
            && (wrongSocket || wrongSize ==> Step(s, e) == s.(phase := Aborted))
  {
    hide Fetched, Checked, WriteDone, Pushed;
    match e {
      case Fetch(a) => FetchPhase(s, a);
      case Check(received, junk) => CheckPhase(s, received, junk);
      case _ =>
    }
  }

  lemma CheckPhase(s: State, received: Option<nat>, junk: nat)
    ensures Checked(s, received, junk).phase == Cancelling
  {
    hide Progressed, Expired;
  }
}
