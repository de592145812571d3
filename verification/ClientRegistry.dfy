// The client registry of a listening BofWebSocket (src/bofwebsocket.cpp): AddClient, RemoveClient
// and the callbacks that use them. libwebsockets establishes a connection once, closes it once,
// and may reuse its pointer afterwards; the key of a client is whatever the caller's buffer holds.

module ClientRegistry {
  import opened Words

  /** BOF_WEB_SOCKET_DATA_PER_SESSION: `socket` is None for a null pointer. */
  datatype Session = Session(connectDone: bool, socket: Option<nat>)

  const NO_SESSION := Session(false, None)

  datatype Sts = NoError | NotFound | NoMore | AlreadyOpened

  datatype Registry = Registry(
    max: nat,                       // NbMaxClient_U32, not 0 here
    clients: map<string, Session>,  // mClientCollection
    sessions: map<nat, Session>,    // what libwebsockets keeps for each established connection
    socket: Option<nat>,            // mWebSocketState_X.pWebSocket_X
    aborted: bool)

  datatype Event =
    | BindProtocol(wsi: nat)
    | Established(wsi: nat, sized: bool, key: string)
    | Closed(wsi: nat)

  /** The clients that hold another connection. */
  function Without(clients: map<string, Session>, socket: Option<nat>): map<string, Session> {
    map k | k in clients && clients[k].socket != socket :: clients[k]
  }

  /** A new connection: refused by an assert, by its buffers, by the limit or by its key, or kept. */
  function Admitted(r: Registry, wsi: nat, sized: bool, key: string): Registry {
    if !sized then r.(sessions := r.sessions[wsi := NO_SESSION])
    else if r.socket.Some? && r.socket != Some(wsi) then r.(aborted := true)
    else if |r.clients| < r.max && key !in r.clients then
      var session := Session(true, Some(wsi));
      r.(socket := Some(wsi), sessions := r.sessions[wsi := session], clients := r.clients[key := session])
    else r.(socket := Some(wsi), sessions := r.sessions[wsi := Session(false, Some(wsi))])
  }

  /** A closed connection leaves no trace. */
  function Gone(r: Registry, wsi: nat): Registry
    requires wsi in r.sessions
  {
    r.(sessions := r.sessions - {wsi}, clients := Without(r.clients, r.sessions[wsi].socket))
  }

  function Step(r: Registry, e: Event): Registry {
    if r.aborted then r
    else
      match e
      case BindProtocol(wsi) => r.(socket := Some(wsi))
      case Established(wsi, sized, key) => if wsi in r.sessions then r else Admitted(r, wsi, sized, key)
      case Closed(wsi) => if wsi in r.sessions then Gone(r, wsi) else r
  }

  function After(r: Registry, es: seq<Event>): Registry {
    if es == [] then r else Step(After(r, es[..|es| - 1]), es[|es| - 1])
  }

  // ---- What holds over every run ----

  /** The entry holds an open connection, whose own data agree. */
  ghost predicate Held(r: Registry, key: string)
    requires key in r.clients
  {
    var s := r.clients[key];
    s.connectDone && s.socket.Some? && s.socket.value in r.sessions && r.sessions[s.socket.value] == s
  }

  ghost predicate Registered(r: Registry, wsi: nat)
    requires wsi in r.sessions
  {
    exists k :: k in r.clients && r.clients[k] == r.sessions[wsi]
  }

  ghost predicate Valid(r: Registry) {
    && |r.clients| <= r.max
    && (forall k <- r.clients :: Held(r, k))
    && (forall j <- r.clients, k <- r.clients :: r.clients[j].socket == r.clients[k].socket ==> j == k)
    && (forall w <- r.sessions :: r.sessions[w].socket.Some? ==> r.sessions[w].socket == Some(w))
    && (forall w <- r.sessions :: r.sessions[w].connectDone ==> Registered(r, w))
  }

  /** Then the first entry with a connection is the only one, so removing it removes all. */
  lemma FirstIsOnly(clients: map<string, Session>, key: string)
    requires key in clients
    requires forall j <- clients, k <- clients :: clients[j].socket == clients[k].socket ==> j == k
    ensures clients - {key} == Without(clients, clients[key].socket)
  {
  }

  lemma Fewer(clients: map<string, Session>, socket: Option<nat>)
    ensures |Without(clients, socket)| <= |clients|
  {
    var (a, b) := (Without(clients, socket).Keys, clients.Keys);
    assert a <= b && b == a + (b - a);
  }

  /** A connection that is turned away gets data of its own and changes no client. */
  lemma ValidRefused(r: Registry, wsi: nat, socket: Option<nat>, state: Option<nat>)
    requires Valid(r) && wsi !in r.sessions && (socket.Some? ==> socket == Some(wsi))
    ensures Valid(r.(socket := state, sessions := r.sessions[wsi := Session(false, socket)]))
  {
    var r' := r.(socket := state, sessions := r.sessions[wsi := Session(false, socket)]);
    forall k <- r'.clients ensures Held(r', k) {
      assert Held(r, k);
    }
    forall w <- r'.sessions | r'.sessions[w].connectDone ensures Registered(r', w) {
      assert Registered(r, w);
    }
  }

  lemma ValidKept(r: Registry, wsi: nat, key: string)
    requires Valid(r) && wsi !in r.sessions && |r.clients| < r.max && key !in r.clients
    ensures var s := Session(true, Some(wsi));
            Valid(r.(socket := Some(wsi), sessions := r.sessions[wsi := s], clients := r.clients[key := s]))
  {
    var s := Session(true, Some(wsi));
    var r' := r.(socket := Some(wsi), sessions := r.sessions[wsi := s], clients := r.clients[key := s]);
    forall k <- r'.clients ensures Held(r', k) && (r'.clients[k].socket == Some(wsi) ==> k == key) {
      if k != key { assert Held(r, k); }
    }
    forall w <- r'.sessions | r'.sessions[w].connectDone ensures Registered(r', w) {
      if w == wsi {
        assert key in r'.clients && r'.clients[key] == r'.sessions[w];
      } else {
        assert Registered(r, w);
        var k :| k in r.clients && r.clients[k] == r.sessions[w];
        assert k in r'.clients && r'.clients[k] == r'.sessions[w];
      }
    }
  }

  lemma ValidAdmitted(r: Registry, wsi: nat, sized: bool, key: string)
    requires Valid(r) && wsi !in r.sessions
    ensures Valid(Admitted(r, wsi, sized, key))
  {
    if !sized {
      ValidRefused(r, wsi, None, r.socket);
    } else if r.socket.Some? && r.socket != Some(wsi) {
      assert forall k <- r.clients :: Held(r, k) ==> Held(r.(aborted := true), k);
      assert forall w <- r.sessions :: Registered(r, w) ==> Registered(r.(aborted := true), w);
    } else if |r.clients| < r.max && key !in r.clients {
      ValidKept(r, wsi, key);
    } else {
      ValidRefused(r, wsi, Some(wsi), Some(wsi));
    }
  }

  lemma ValidGone(r: Registry, wsi: nat)
    requires Valid(r) && wsi in r.sessions
    ensures Valid(Gone(r, wsi))
    ensures forall k <- Gone(r, wsi).clients :: Gone(r, wsi).clients[k].socket != Some(wsi)
  {
    var r' := Gone(r, wsi);
    Fewer(r.clients, r.sessions[wsi].socket);
    forall k <- r'.clients ensures Held(r', k) && r'.clients[k].socket != Some(wsi) {
      assert Held(r, k);
    }
    forall w <- r'.sessions | r'.sessions[w].connectDone ensures Registered(r', w) {
      assert Registered(r, w);
      var k :| k in r.clients && r.clients[k] == r.sessions[w];
      assert Held(r, k);
      assert k in r'.clients && r'.clients[k] == r'.sessions[w];
    }
  }

  lemma ValidStep(r: Registry, e: Event)
    requires Valid(r)
    ensures Valid(Step(r, e))
  {
    match e {
      case BindProtocol(wsi) =>
        var r' := Step(r, e);
        assert r'.clients == r.clients && r'.sessions == r.sessions;
        forall k <- r'.clients ensures Held(r', k) { assert Held(r, k); }
        forall w <- r'.sessions | r'.sessions[w].connectDone ensures Registered(r', w) { assert Registered(r, w); }
      case Established(wsi, sized, key) => if wsi !in r.sessions { ValidAdmitted(r, wsi, sized, key); }
      case Closed(wsi) => if wsi in r.sessions { ValidGone(r, wsi); }
    }
  }

  /**
   * Over every run, with whatever keys: never more clients than allowed, no two keys for one
   * connection, every client is an open connection, and a connection is flagged exactly if it is a
   * client.
   */
  lemma {:induction false} AlwaysValid(max: nat, es: seq<Event>)
    ensures Valid(After(Registry(max, map[], map[], None, false), es))
  {
    hide Step, Valid;
    if es == [] {
      assert Valid(Registry(max, map[], map[], None, false)) by { EmptyIsValid(max); }
    } else {
      AlwaysValid(max, es[..|es| - 1]);
      ValidStep(After(Registry(max, map[], map[], None, false), es[..|es| - 1]), es[|es| - 1]);
    }
  }

  lemma EmptyIsValid(max: nat)
    ensures Valid(Registry(max, map[], map[], None, false))
  {
  }

  /**
   * A connection that is established in a valid registry becomes a client exactly if its buffers could
   * be set, no other connection is bound, the limit is not reached and the key is free; then it is a
   * client under its key and every other client is as it was. Otherwise the clients are as they were.
   */
  lemma AdmittedExactly(r: Registry, wsi: nat, sized: bool, key: string)
    requires Valid(r) && !r.aborted && wsi !in r.sessions
    ensures var r' := Step(r, Established(wsi, sized, key));
            var wrong := sized && r.socket.Some? && r.socket.value != wsi;
            var admitted := sized && !wrong && |r.clients| < r.max && key !in r.clients;
            && (Serves(r', wsi) <==> admitted)
            && r'.clients == (if admitted then r.clients[key := Session(true, Some(wsi))] else r.clients)
            && (r'.aborted <==> wrong)
            && r'.socket == (if sized then (if wrong then r.socket else Some(wsi)) else r.socket)
            && r'.sessions == (if wrong then r.sessions
                               else r.sessions[wsi := Session(admitted, if sized then Some(wsi) else None)])
  {
    assert forall k <- r.clients :: Held(r, k) ==> r.clients[k].socket != Some(wsi);
    var r' := Step(r, Established(wsi, sized, key));
    if key in r'.clients && r'.clients[key].socket == Some(wsi) {
      assert Serves(r', wsi);
    }
  }

  /** Some client is this connection. */
  ghost predicate Serves(r: Registry, wsi: nat) {
    exists k :: k in r.clients && r.clients[k].socket == Some(wsi)
  }

  // ---- The members of BofWebSocket ----

  class ClientCollection {
    const max: nat
    var clients: map<string, Session>
    var sessions: map<nat, Session>
    var socket: Option<nat>
    var aborted: bool

    function View(): (r: Registry)
      reads this
    {
      Registry(max, clients, sessions, socket, aborted)
    }

    constructor (max: nat)
      ensures View() == Registry(max, map[], map[], None, false) && Valid(View())
    {
      this.max, clients, sessions, socket, aborted := max, map[], map[], None, false;
      new;
      EmptyIsValid(max);
    }

    /** AddClient: a full collection leaves the session as it is, a known key clears its flag. */
    method AddClient(key: string, session: Session) returns (sts: Sts, session': Session)
      modifies this`clients
      ensures sts == if |old(clients)| >= max then NoMore else if key in old(clients) then AlreadyOpened else NoError
      ensures clients == if sts == NoError then old(clients)[key := session.(connectDone := true)] else old(clients)
      ensures session' == if sts == NoMore then session else session.(connectDone := sts == NoError)
    {
      sts, session' := NoMore, session;
      if |clients| < max {
        if key !in clients {
          session' := session.(connectDone := true);
          clients := clients[key := session'];
          sts := NoError;
        } else {
          session' := session.(connectDone := false);
          sts := AlreadyOpened;
        }
      }
    }

    /** RemoveClient: erases the first entry with the same socket, in whatever order they come. */
    method RemoveClient(session: Session) returns (sts: Sts, session': Session)
      requires Valid(View())
      modifies this`clients
      ensures clients == Without(old(clients), session.socket)
      ensures sts == if exists k <- old(clients) :: old(clients)[k].socket == session.socket then NoError else NotFound
      ensures session' == if sts == NoError then session.(connectDone := false) else session
    {
      sts, session' := NotFound, session;
      var rest := clients.Keys;
      while rest != {}
        invariant rest <= clients.Keys && clients == old(clients)
        invariant forall k <- clients :: k !in rest ==> clients[k].socket != session.socket
        decreases |rest|
      {
        var key :| key in rest;
        if clients[key].socket == session.socket {
          session' := session.(connectDone := false);
          FirstIsOnly(clients, key);
          clients := clients - {key};
          sts := NoError;
          return;
        }
        rest := rest - {key};
      }
      assert clients == Without(clients, session.socket);
    }

    method Callback(e: Event)
      requires Valid(View()) && !aborted
      modifies this
      ensures View() == Step(old(View()), e) && Valid(View())
    {
      ValidStep(View(), e);
      hide Valid;
      match e {
        case BindProtocol(wsi) => socket := Some(wsi);
        case Established(wsi, sized, key) =>
          if wsi !in sessions {
            OnEstablished(wsi, sized, key);
          }
        case Closed(wsi) =>
          if wsi in sessions {
            var _, _ := RemoveClient(sessions[wsi]);
            sessions := sessions - {wsi};
          }
      }
    }

    method OnEstablished(wsi: nat, sized: bool, key: string)
      modifies this
      ensures View() == Admitted(old(View()), wsi, sized, key)
    {
      if !sized {
        sessions := sessions[wsi := NO_SESSION];
      } else if socket.Some? && socket != Some(wsi) {
        aborted := true;
      } else {
        socket := Some(wsi);
        var sts, session := AddClient(key, NO_SESSION.(socket := Some(wsi)));
        sessions := sessions[wsi := session];
      }
    }
  }
}
