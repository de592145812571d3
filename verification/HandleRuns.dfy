// Open files and buffers of the transfer server over whole runs (tests/src/ut_webapp.cpp).

module HandleRuns {
  import opened Transfer
  import opened TransferRuns
  import opened UpDown

  /** The live downloads. */
  ghost function Downloads(tasks: Tasks, dirOf: string -> Direction): set<string> {
    set id <- tasks | dirOf(id) == Down
  }

  /**
   * Handle conservation: after any requests to a fresh server that use no id in both directions,
   * open files and sessions correspond one to one, each download owns one buffer of the size of
   * its chunk, no upload owns any, and nothing else is open or allocated.
   */
  method ServeAll(server: UpDownServer, es: seq<Event>, ghost dirOf: string -> Direction)
    returns (answers: seq<Response>)
    requires server.Valid() && server.tasks == map[] && !server.aborted
    requires OneDirection(es, dirOf)
    modifies server
    ensures server.Valid() && !server.aborted
    ensures forall id <- server.tasks :: HoldsHandles(server.tasks[id], id, server.handles, server.buffers, dirOf(id))
    ensures forall a <- server.tasks, b <- server.tasks :: a != b ==> server.tasks[a].io != server.tasks[b].io
    ensures |server.handles| == |server.tasks|
    ensures |server.buffers| == |Downloads(server.tasks, dirOf)|
  {
    ghost var start := server.Abstract();
    answers := server.Requests(es);
    DirectionsKept(start, es, dirOf);
    forall id <- server.tasks
      ensures HoldsHandles(server.tasks[id], id, server.handles, server.buffers, dirOf(id))
    {
      assert server.Abstract().sessions[id].dir == dirOf(id);
      assert Backs(id, server.tasks[id], server.handles, server.buffers);
    }
    forall a <- server.tasks, b <- server.tasks | a != b ensures server.tasks[a].io != server.tasks[b].io {
      NothingShared(server.tasks, server.handles, server.buffers, a, b);
    }
    OneToOne(server.tasks, server.handles, server.buffers, server.nextId);
    assert Owners(server.tasks) == Downloads(server.tasks, dirOf);
  }

  /** The session has its own open file, and a buffer exactly if it is a download. */
  ghost predicate HoldsHandles(t: Task, id: string, handles: Handles, buffers: Buffers, dir: Direction) {
    && t.io.Some? && t.io.value in handles && handles[t.io.value].opener == id
    && (t.buffer.Some? <==> dir == Down)
    && (dir == Down ==> t.buffer.value in buffers && buffers[t.buffer.value] == Buffer(id, t.chunkSize))
  }
}
