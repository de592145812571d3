// What the results about the state machine say about the engine object itself, over whole runs of
// its loop (src/bofwebsocket.cpp).

module EngineRuns {
  import opened Engine
  import opened WebSocketEngine
  import opened Tickets
  import opened WriteOrder
  import opened Connection
  import opened Commands
  import opened LinkRuns

  /** The fields of the engine hold every accepted ticket in exactly one place. */
  ghost predicate HoldsTickets(engine: BofWebSocket, l: Ledger)
    reads engine
  {
    forall t: nat ::
      InParams(engine.params, t) + InFlight(engine.View(), t) + InWrites(engine.writes, t)
      + InResults(engine.results, t) + InResults(l.collected, t) == One(t in l.accepted)
  }

  /**
   * A new engine, with any number of iterations and anything happening in between. `es` is all that
   * happened and `l` what users and libwebsockets saw of it. The link is what the ledger of established,
   * closed and failed connections and of executed commands says, and connected means a context and a
   * socket. The loop stopped exactly if a send met a request to end or an EXIT executed before it.
   * Tickets are never lost or doubled exactly if every step was fair. The write queue holds what is
   * left of the accepted writes in order, lws_write got the bytes of the others, and the counter of
   * the engine is how many; their results came out in order exactly if none was dropped. And what
   * was to be reported about the connection was true exactly if every check was harmless; then it was
   * true when it was pushed.
   */
  method RunEngine(engine: BofWebSocket, rounds: seq<Round>) returns (n: nat, ghost es: seq<Event>, ghost l: Ledger)
    requires engine.View() == Initial(engine.capacity, engine.now) && engine.now > 0
    requires forall i :: 0 <= i < |rounds| ==> Proper(rounds[i])
    modifies engine
    ensures n <= |rounds| && (n < |rounds| ==> engine.phase == Stopped || engine.phase == Aborted)
    ensures es == Scripts(rounds[..n]) && World(engine.View(), l) == Run(Start(engine.capacity, old(engine.now)), es)
    ensures engine.connectDone <==> Up(Initial(engine.capacity, old(engine.now)), es)
    ensures engine.context <==> Standing(Initial(engine.capacity, old(engine.now)), es)
    ensures engine.socket == Bound(Initial(engine.capacity, old(engine.now)), es)
    ensures engine.phase == Stopped <==> Ends(Initial(engine.capacity, old(engine.now)), es)
    ensures engine.connectDone ==> engine.context && engine.socket.Some?
    ensures !engine.context ==> !engine.connectDone && engine.socket.None?
    ensures AlwaysConserved(Start(engine.capacity, old(engine.now)), es) <==>
              FairRun(Start(engine.capacity, old(engine.now)), es)
    ensures FairRun(Start(engine.capacity, old(engine.now)), es) ==> HoldsTickets(engine, l)
    ensures l.queued == l.done + engine.writes && l.handed == Payloads(l.done) && engine.tx == |l.handed|
    ensures AsAccepted(World(engine.View(), l)) && Increasing(Line(World(engine.View(), l)), engine.nextTicket)
    ensures KeptRun(Start(engine.capacity, old(engine.now)), es) ==>
              Successes(l.collected + engine.results) == Completions(l.done)
    ensures AlwaysVisible(Start(engine.capacity, old(engine.now)), es) <==>
              KeptRun(Start(engine.capacity, old(engine.now)), es)
    ensures FittingRun(Initial(engine.capacity, old(engine.now)), es) ==>
              TrueReports(Initial(engine.capacity, old(engine.now)), es)
    ensures AlwaysHonest(Initial(engine.capacity, old(engine.now)), es) <==>
              FittingRun(Initial(engine.capacity, old(engine.now)), es)
  {
    hide Step, Next, Scripts, Run, After, Up, Standing, Bound, Ends;
    ghost var (capacity, now) := (engine.capacity, engine.now);
    ghost var start := Start(capacity, now);
    n := engine.V_OnProcessing(rounds);
    es := Scripts(rounds[..n]);
    RunIsAfter(start, es);
    ghost var w := Run(start, es);
    l := w.l;
    AlwaysLinked(capacity, now, es);
    LinkIsLedger(capacity, now, es);
    ExitStops(capacity, now, es);
    TicketConservation(capacity, now, es);
    OrderedWrites(capacity, now, es);
    WritesReported(capacity, now, es);
    ReportsAreTrue(capacity, now, es);
    if FittingRun(Initial(capacity, now), es) {
      PushedReportsAreTrue(capacity, now, es);
    }
    if FairRun(start, es) {
      forall t: nat ensures Places(w, t) == One(t in l.accepted) {}
    }
  }
}
