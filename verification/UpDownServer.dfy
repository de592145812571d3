// The upload/download half of the test web server (tests/src/ut_webapp.cpp): UPDOWN_TASK,
// TerminateUpDownTask, GetDownload and PostUpload over mUpDownTaskCollection.

module UpDown {
  import opened Words
  import opened ContentRange
  import opened Transfer

  /** UPDOWN_TASK; `io` and `buffer` are the pointers pIo_X and pBuffer_U8. */
  datatype Task = Task(rangeMin: U64, rangeMax: U64, dataSize: U64, chunkSize: U32,
                       io: Option<nat>, buffer: Option<nat>)

  const NO_TASK := Task(0, 0, 0, 0, None, None)

  /** An open FILE: the session that opened it, which file it is, and its position. */
  datatype Handle = Handle(opener: string, path: string, pos: nat)

  /** An allocated array. */
  datatype Buffer = Buffer(opener: string, size: U32)

  type Tasks = map<string, Task>
  type Handles = map<nat, Handle>
  type Buffers = map<nat, Buffer>

  ghost predicate Backs(id: string, t: Task, handles: Handles, buffers: Buffers) {
    && t.io.Some? && t.io.value in handles && handles[t.io.value].opener == id
    && (t.buffer.Some? ==> t.buffer.value in buffers && buffers[t.buffer.value] == Buffer(id, t.chunkSize))
  }

  /** Every session holds one open file and at most one buffer, as large as its chunk. */
  ghost predicate Backed(tasks: Tasks, handles: Handles, buffers: Buffers) {
    forall id <- tasks :: Backs(id, tasks[id], handles, buffers)
  }

  /** Every open file and every buffer belongs to the session that asked for it. */
  ghost predicate NoLeak(tasks: Tasks, handles: Handles, buffers: Buffers, nextId: nat) {
    && (forall h <- handles :: h < nextId && handles[h].opener in tasks && tasks[handles[h].opener].io == Some(h))
    && (forall b <- buffers :: b < nextId && buffers[b].opener in tasks && tasks[buffers[b].opener].buffer == Some(b))
  }

  ghost predicate Owned(tasks: Tasks, handles: Handles, buffers: Buffers, nextId: nat) {
    Backed(tasks, handles, buffers) && NoLeak(tasks, handles, buffers, nextId)
  }

  /** What a task and its open file mean as a transfer. */
  function AsSession(t: Task, handles: Handles): Session
    requires t.io.Some? && t.io.value in handles
  {
    var h := handles[t.io.value];
    Session(if t.buffer.None? then Up else Down, t.rangeMin, t.rangeMax, t.dataSize, t.chunkSize, h.path, h.pos)
  }

  /** The sessions other than `id`. */
  function Rest(tasks: Tasks, handles: Handles, id: string): map<string, Session>
    requires forall o <- tasks :: o != id ==> tasks[o].io.Some? && tasks[o].io.value in handles
  {
    map o | o in tasks && o != id :: AsSession(tasks[o], handles)
  }

  /** Two maps that differ at most at `id`. */
  lemma Replaced(after: map<string, Session>, before: map<string, Session>, id: string, s: Option<Session>)
    requires after - {id} == before - {id}
    requires if s.Some? then id in after && after[id] == s.value else id !in after
    ensures after == if s.Some? then before[id := s.value] else before - {id}
  {
    forall o | o != id ensures o in after <==> o in before {
      assert o in after <==> o in after - {id};
      assert o in before <==> o in before - {id};
    }
    forall o | o in after && o != id ensures after[o] == before[o] {
      assert after[o] == (after - {id})[o] == (before - {id})[o];
    }
  }

  function Close<T>(m: map<nat, T>, p: Option<nat>): map<nat, T> {
    if p.Some? then m - {p.value} else m
  }

  /** No two sessions share an open file or a buffer. */
  lemma NothingShared(tasks: Tasks, handles: Handles, buffers: Buffers, a: string, b: string)
    requires Backed(tasks, handles, buffers) && a in tasks && b in tasks && a != b
    ensures tasks[a].io != tasks[b].io
    ensures tasks[a].buffer.Some? ==> tasks[a].buffer != tasks[b].buffer
  {
    assert Backs(a, tasks[a], handles, buffers) && Backs(b, tasks[b], handles, buffers);
  }

  /** As many open files as sessions, as many buffers as sessions that own one. */
  lemma OneToOne(tasks: Tasks, handles: Handles, buffers: Buffers, nextId: nat)
    requires Owned(tasks, handles, buffers, nextId)
    ensures |handles| == |tasks|
    ensures |buffers| == |Owners(tasks)|
  {
    forall id <- tasks ensures Backs(id, tasks[id], handles, buffers) {}
    SameSize(handles.Keys, tasks.Keys, map h <- handles :: handles[h].opener, map id <- tasks :: tasks[id].io.value);
    BufferToOwner(tasks, handles, buffers, nextId);
  }

  /** The sessions that own a buffer. */
  function Owners(tasks: Tasks): set<string> {
    set id <- tasks | tasks[id].buffer.Some?
  }

  lemma BufferToOwner(tasks: Tasks, handles: Handles, buffers: Buffers, nextId: nat)
    requires Owned(tasks, handles, buffers, nextId)
    ensures |buffers| == |Owners(tasks)|
  {
    forall id <- tasks ensures Backs(id, tasks[id], handles, buffers) {}
    SameSize(buffers.Keys, Owners(tasks), map b <- buffers :: buffers[b].opener,
      map id <- Owners(tasks) :: tasks[id].buffer.value);
  }

  /** Two finite sets with mutually inverse maps between them have the same size. */
  lemma {:induction false} SameSize(a: set<nat>, b: set<string>, f: map<nat, string>, g: map<string, nat>)
    requires f.Keys == a && g.Keys == b
    requires forall x <- a :: f[x] in b && g[f[x]] == x
    requires forall y <- b :: g[y] in a && f[g[y]] == y
    ensures |a| == |b|
  {
    if a != {} {
      var x :| x in a;
      SameSize(a - {x}, b - {f[x]}, f - {x}, g - {f[x]});
    }
  }

  // ---- What opening, transferring and terminating do to the ownership ----

  lemma OwnedAfterOpen(tasks: Tasks, handles: Handles, buffers: Buffers, nextId: nat, id: string, t: Task, path: string)
    requires Owned(tasks, handles, buffers, nextId) && id !in tasks
    requires t.io == Some(nextId) && t.buffer.None?
    ensures Owned(tasks[id := t], handles[nextId := Handle(id, path, 0)], buffers, nextId + 1)
    ensures Rest(tasks[id := t], handles[nextId := Handle(id, path, 0)], id) == Rest(tasks, handles, id)
  {
    var handles' := handles[nextId := Handle(id, path, 0)];
    var tasks' := tasks[id := t];
    forall o <- tasks' ensures Backs(o, tasks'[o], handles', buffers) {
      if o != id { assert Backs(o, tasks[o], handles, buffers); }
    }
  }

  lemma OwnedAfterAllocation(tasks: Tasks, handles: Handles, buffers: Buffers, nextId: nat, id: string)
    requires Owned(tasks, handles, buffers, nextId) && id in tasks && tasks[id].buffer.None?
    ensures Owned(tasks[id := tasks[id].(buffer := Some(nextId))], handles, buffers[nextId := Buffer(id,
            tasks[id].chunkSize)], nextId + 1)
    ensures Rest(tasks[id := tasks[id].(buffer := Some(nextId))], handles, id) == Rest(tasks, handles, id)
  {
    var t := tasks[id].(buffer := Some(nextId));
    var buffers' := buffers[nextId := Buffer(id, t.chunkSize)];
    var tasks' := tasks[id := t];
    forall o <- tasks' ensures Backs(o, tasks'[o], handles, buffers') {
      assert Backs(o, tasks[o], handles, buffers);
    }
  }

  /** The file position moves and the session record is written back with other range fields. */
  lemma OwnedAfterTransfer(tasks: Tasks, handles: Handles, buffers: Buffers, nextId: nat, id: string, t: Task,
                           h: Handle)
    requires Owned(tasks, handles, buffers, nextId) && id in tasks
    requires t.io == tasks[id].io && t.buffer == tasks[id].buffer && t.chunkSize == tasks[id].chunkSize
    requires t.io.Some? && h.opener == id
    ensures Owned(tasks[id := t], handles[t.io.value := h], buffers, nextId)
    ensures Rest(tasks[id := t], handles[t.io.value := h], id) == Rest(tasks, handles, id)
  {
    var handles' := handles[t.io.value := h];
    assert Backs(id, tasks[id], handles, buffers);
    var tasks' := tasks[id := t];
    forall o <- tasks' ensures Backs(o, tasks'[o], handles', buffers) {
      assert Backs(o, tasks[o], handles, buffers);
    }
  }

  lemma OwnedAfterTermination(tasks: Tasks, handles: Handles, buffers: Buffers, nextId: nat, id: string)
    requires Owned(tasks, handles, buffers, nextId) && id in tasks
    ensures Owned(tasks - {id}, Close(handles, tasks[id].io), Close(buffers, tasks[id].buffer), nextId)
    ensures Rest(tasks - {id}, Close(handles, tasks[id].io), id) == Rest(tasks, handles, id)
  {
    var handles', buffers' := Close(handles, tasks[id].io), Close(buffers, tasks[id].buffer);
    assert Backs(id, tasks[id], handles, buffers);
    var tasks' := tasks - {id};
    forall o <- tasks' ensures Backs(o, tasks'[o], handles', buffers') {
      assert Backs(o, tasks[o], handles, buffers);
    }
  }

  /** Once a request is let through, it is not refused as not acceptable any more. */
  lemma NeverNotAcceptable(t: Session, size: U64, files: Files, r: Range, body: seq<Byte>, disk: Disk)
    ensures Receive(t, size, files, r, body, disk).res.Response?
    ensures Receive(t, size, files, r, body, disk).res.status != NotAcceptable_406
    ensures Receive(t, size, files, r, body, disk) == Receive(t, size, files, Range(0, r.max, 0), body, disk)
  {
  }

  // ---- The server ----

  class UpDownServer {
    var tasks: Tasks         // mUpDownTaskCollection
    var files: Files         // the file system
    var handles: Handles     // files open in the process
    var buffers: Buffers     // arrays allocated by the handlers, with their sizes
    var nextId: nat          // first pointer value not handed out yet
    var aborted: bool

    ghost predicate Valid()
      reads this
    {
      Owned(tasks, handles, buffers, nextId)
    }

    ghost function SessionOf(id: string): (s: Option<Session>)
      requires Valid()
      reads this
    {
      if id in tasks then Some(AsSession(tasks[id], handles)) else None
    }

    ghost function Abstract(): (s: System)
      requires Valid()
      reads this
    {
      System(map id | id in tasks :: AsSession(tasks[id], handles), files, aborted)
    }

    constructor (files: Files)
      ensures Valid() && tasks == map[] && handles == map[] && buffers == map[]
      ensures Abstract() == System(map[], files, false)
    {
      this.tasks, this.files, this.handles, this.buffers := map[], files, map[], map[];
      nextId, aborted := 0, false;
    }

    /** Closes the file, frees the buffer and forgets the session, each if there is one. */
    method TerminateUpDownTask(task: Task, status: Status, it: Option<string>) returns (res: Response)
      modifies this`tasks, this`handles, this`buffers
      ensures handles == Close(old(handles), task.io)
      ensures buffers == Close(old(buffers), task.buffer)
      ensures tasks == if it.Some? then old(tasks) - {it.value} else old(tasks)
      ensures res == Failed(status)
    {
      if task.io.Some? {
        handles := handles - {task.io.value};
      }
      if task.buffer.Some? {
        buffers := buffers - {task.buffer.value};
      }
      if it.Some? {
        tasks := tasks - {it.value};
      }
      res := Failed(status);
    }

    /**
     * A handler holds a copy `task` of the session `id`; `it` says whether the map has it.
     * With the copy written back, everything would be owned.
     */
    ghost predicate Holds(id: string, task: Task, it: Option<string>)
      reads this
    {
      && Owned(tasks[id := task], handles, buffers, nextId)
      && (it == if id in tasks then Some(id) else None)
      && Backs(id, task, handles, buffers)
    }

    ghost function Others(id: string, task: Task, it: Option<string>): (m: map<string, Session>)
      requires Holds(id, task, it)
      reads this
    {
      Rest(tasks[id := task], handles, id)
    }

    /** Ends the session the handler holds. */
    method Terminate(id: string, task: Task, status: Status, it: Option<string>) returns (res: Response)
      requires Holds(id, task, it)
      modifies this`tasks, this`handles, this`buffers
      ensures Valid() && res == Failed(status)
      ensures SessionOf(id) == None && Rest(tasks, handles, id) == old(Others(id, task, it))
    {
      OwnedAfterTermination(tasks[id := task], handles, buffers, nextId, id);
      assert tasks[id := task] - {id} == if it.Some? then tasks - {id} else tasks;
      res := TerminateUpDownTask(task, status, it);
    }

    /** The new FILE is at `nextId`. */
    method Fopen(opener: string, path: string, truncate: bool)
      modifies this`files, this`handles, this`nextId
      ensures nextId == old(nextId) + 1
      ensures handles == old(handles)[old(nextId) := Handle(opener, path, 0)]
      ensures files == if truncate then old(files)[path := []] else old(files)
    {
      handles := handles[nextId := Handle(opener, path, 0)];
      nextId := nextId + 1;
      if truncate {
        files := files[path := []];
      }
    }

    /** `new uint8_t[ChunkSize_U32]` */
    method NewBuffer(id: string, task: Task) returns (task': Task)
      requires Holds(id, task, None) && task.buffer.None?
      modifies this`buffers, this`nextId
      ensures Holds(id, task', None) && task' == task.(buffer := task'.buffer) && task'.buffer.Some?
      ensures Others(id, task', None) == old(Others(id, task, None))
    {
      OwnedAfterAllocation(tasks[id := task], handles, buffers, nextId, id);
      task' := task.(buffer := Some(nextId));
      assert tasks[id := task][id := task'] == tasks[id := task'];
      buffers := buffers[nextId := Buffer(id, task.chunkSize)];
      nextId := nextId + 1;
    }

    method SetRangeMax(id: string, task: Task, rangeMax: U64) returns (task': Task)
      requires Holds(id, task, None)
      ensures Holds(id, task', None) && task' == task.(rangeMax := rangeMax)
      ensures Others(id, task', None) == Others(id, task, None)
    {
      task' := task.(rangeMax := rangeMax);
      OwnedAfterTransfer(tasks[id := task], handles, buffers, nextId, id, task', handles[task.io.value]);
      assert tasks[id := task][id := task'] == tasks[id := task'];
      assert handles[task.io.value := handles[task.io.value]] == handles;
    }

    /** `fwrite` of one item: an empty item or a full disk makes it fail. */
    method Fwrite(id: string, task: Task, it: Option<string>, data: seq<Byte>, disk: Disk) returns (ok: bool)
      requires Holds(id, task, it)
      modifies this`files, this`handles
      ensures Holds(id, task, it) && Others(id, task, it) == old(Others(id, task, it))
      ensures ok <==> disk.works && data != []
      ensures var s := old(AsSession(task, handles));
              && AsSession(task, handles) == s.(pos := s.pos + |Stored(data, disk)|)
              && files == Rewritten(old(files), s, data, disk)
    {
      var Handle(opener, path, pos) := handles[task.io.value];
      var stored := Stored(data, disk);
      OwnedAfterTransfer(tasks[id := task], handles, buffers, nextId, id, task, Handle(opener, path, pos + |stored|));
      assert tasks[id := task][id := task] == tasks[id := task];
      files := files[path := WriteAt(if path in files then files[path] else [], pos, stored)];
      handles := handles[task.io.value := Handle(opener, path, pos + |stored|)];
      ok := disk.works && data != [];
    }

    /** `fread` of one item of `size` bytes into the buffer of the session, which can hold it. */
    method Fread(id: string, task: Task, it: Option<string>, size: nat, disk: Disk) returns (data: Option<seq<Byte>>)
      requires Holds(id, task, it)
      requires task.buffer.Some? && size <= buffers[task.buffer.value].size
      modifies this`handles
      ensures Holds(id, task, it) && Others(id, task, it) == old(Others(id, task, it))
      ensures var s := old(AsSession(task, handles));
              if Readable(files, s.path, s.pos, size, disk)
              then data == Some(files[s.path][s.pos..s.pos + size]) &&
                AsSession(task, handles) == s.(pos := s.pos + size)
              else data == None && AsSession(task, handles) == s
    {
      var Handle(opener, path, pos) := handles[task.io.value];
      data := None;
      if Readable(files, path, pos, size, disk) {
        OwnedAfterTransfer(tasks[id := task], handles, buffers, nextId, id, task, Handle(opener, path, pos + size));
        assert tasks[id := task][id := task] == tasks[id := task];
        data := Some(files[path][pos..pos + size]);
        handles := handles[task.io.value := Handle(opener, path, pos + size)];
      }
    }

    /** The last block of PostUpload: store the body, answer, end the session or move its window. */
    method StoreBody(id: string, copy: Task, it: Option<string>, rangeMax: U64, writeSize: U64, body: seq<Byte>,
                     disk: Disk)
      returns (res: Response)
      requires Holds(id, copy, it) && copy.buffer.None?
      modifies this`tasks, this`files, this`handles, this`buffers
      ensures Valid()
      ensures Rest(tasks, handles, id) == old(Others(id, copy, it))
      ensures Outcome(SessionOf(id), files, res) ==
              Receive(old(AsSession(copy, handles)), writeSize, old(files), Range(0, rangeMax, 0), body, disk)
    {
      var task := copy;
      ghost var s := AsSession(task, handles);
      ghost var o := Receive(s, writeSize, files, Range(0, rangeMax, 0), body, disk);
      if writeSize != |body| {
        res := Terminate(id, task, InternalServerError_500, it);
        return;
      }
      var ok := Fwrite(id, task, it, body, disk);
      if !ok {
        res := Terminate(id, task, InsufficientStorage_507, it);
        return;
      }
      assert Stored(body, disk) == body;
      var range := Header(Range(task.rangeMin, task.rangeMax, task.dataSize));
      assert range == Window(s);
      if rangeMax >= Sub64(task.dataSize, 1) {
        res := Terminate(id, task, OK_200, it);
        res := res.(range := range);
      } else {
        res := Response(PartialContent_206, range, []);
        WriteBack(id, task, writeSize, it);
        assert o.res == res;
        assert o.files == files;
        assert o.session == SessionOf(id);
      }
    }

    /** The last block of GetDownload: read the chunk, answer, end the session or move its window. */
    method SendBody(id: string, copy: Task, it: Option<string>, rangeMax: U64, readSize: U64, disk: Disk)
      returns (res: Response)
      requires Holds(id, copy, it) && copy.buffer.Some? && readSize <= copy.chunkSize
      modifies this`tasks, this`handles, this`buffers
      ensures Valid()
      ensures Rest(tasks, handles, id) == old(Others(id, copy, it))
      ensures Outcome(SessionOf(id), files, res) ==
              Send(old(AsSession(copy, handles)), readSize, files, Range(0, rangeMax, 0), disk)
    {
      var task := copy;
      ghost var s := AsSession(task, handles);
      ghost var o := Send(s, readSize, files, Range(0, rangeMax, 0), disk);
      var data := Fread(id, task, it, readSize, disk);
      if data.None? {
        res := Terminate(id, task, InternalServerError_500, it);
        return;
      }
      var range := Header(Range(task.rangeMin, task.rangeMax, task.dataSize));
      assert range == Window(s);
      if rangeMax >= Sub64(task.dataSize, 1) {
        res := Terminate(id, task, OK_200, it);
        res := Response(res.status, range, data.value);
      } else {
        res := Response(PartialContent_206, range, data.value);
        WriteBack(id, task, readSize, it);
        assert o.res == res;
        assert o.session == SessionOf(id);
      }
    }

    /** Moves the window by `moved` bytes and writes the copy back to the map. */
    method WriteBack(id: string, copy: Task, moved: U64, it: Option<string>)
      requires Holds(id, copy, it)
      modifies this`tasks
      ensures Valid()
      ensures Rest(tasks, handles, id) == old(Others(id, copy, it))
      ensures SessionOf(id) == Some(Advance(old(AsSession(copy, handles)), moved))
    {
      var task := copy.(rangeMin := Add64(copy.rangeMax, 1), rangeMax := Add64(copy.rangeMax, moved));
      if task.rangeMax >= Sub64(task.dataSize, 1) {
        task := task.(rangeMax := Sub64(task.dataSize, 1));
      }
      ghost var h := handles[task.io.value];
      OwnedAfterTransfer(tasks[id := copy], handles, buffers, nextId, id, task, h);
      assert tasks[id := copy][id := task] == tasks[id := task];
      assert handles[task.io.value := h] == handles;
      tasks := tasks[id := task];
    }

    /** PostUpload on an unknown session. */
    method FirstUpload(id: string, path: string, r: Range, body: seq<Byte>, disk: Disk) returns (res: Response)
      requires Valid() && id !in tasks && Fits(r, TWO64 - 1)
      modifies this`tasks, this`files, this`handles, this`buffers, this`nextId
      ensures Valid()
      ensures Outcome(SessionOf(id), files, res) == ServeUpload(None, old(files), path, r, body, disk)
      ensures Rest(tasks, handles, id) == old(Rest(tasks, handles, id))
      ensures res.Response? && res.status == NotAcceptable_406 ==>
                tasks == old(tasks) && handles == old(handles) && buffers == old(buffers)
    {
      var Range(rangeMin, rangeMax, dataSize) := r;
      if !(rangeMin == 0 && rangeMax != 0 && dataSize != 0 && rangeMax < dataSize) {
        res := TerminateUpDownTask(NO_TASK, NotAcceptable_406, None);
      } else if !disk.opens {
        res := TerminateUpDownTask(NO_TASK, Unauthorized_401, None);
      } else {
        var task := Task(rangeMin, rangeMax, dataSize, Trunc32(Add64(rangeMax, 1)), Some(nextId), None);
        OwnedAfterOpen(tasks, handles, buffers, nextId, id, task, path);
        Fopen(id, path, true);
        assert AsSession(task, handles) == Session(Up, 0, rangeMax, dataSize, task.chunkSize, path, 0);
        var writeSize := if task.dataSize <= task.chunkSize then task.dataSize else task.chunkSize;
        NeverNotAcceptable(AsSession(task, handles), writeSize, files, r, body, disk);
        res := StoreBody(id, task, None, rangeMax, writeSize, body, disk);
      }
    }

    /** PostUpload on a known session. */
    method NextUpload(id: string, path: string, r: Range, body: seq<Byte>, disk: Disk) returns (res: Response)
      requires Valid() && !aborted && id in tasks && Fits(r, TWO64 - 1)
      modifies this`tasks, this`files, this`handles, this`buffers, this`aborted
      ensures Valid()
      ensures Outcome(SessionOf(id), files, res) == ServeUpload(old(SessionOf(id)), old(files), path, r, body, disk)
      ensures aborted == res.Abort?
      ensures Rest(tasks, handles, id) == old(Rest(tasks, handles, id))
    {
      var Range(rangeMin, rangeMax, dataSize) := r;
      var task := tasks[id];
      assert tasks[id := task] == tasks;
      if task.io.None? || task.buffer.Some? {
        aborted := true;
        return Abort;
      }
      var writeSize := Min(task.chunkSize, Trunc32(Sub64(task.dataSize, task.rangeMin)));
      if rangeMin == task.rangeMin && rangeMax == task.rangeMax && rangeMax <= task.dataSize &&
        dataSize == task.dataSize {
        res := StoreBody(id, task, Some(id), rangeMax, writeSize, body, disk);
      } else {
        res := Terminate(id, task, NotAcceptable_406, Some(id));
      }
    }

    /** GetDownload on an unknown session. */
    method FirstDownload(id: string, path: string, r: Range, disk: Disk) returns (res: Response)
      requires Valid() && id !in tasks && Fits(r, TWO64 - 1)
      modifies this`tasks, this`files, this`handles, this`buffers, this`nextId
      ensures Valid()
      ensures Outcome(SessionOf(id), files, res) == ServeDownload(None, old(files), path, r, disk)
      ensures Rest(tasks, handles, id) == old(Rest(tasks, handles, id))
      ensures res.Response? && res.status == NotAcceptable_406 ==>
                tasks == old(tasks) && handles == old(handles) && buffers == old(buffers)
    {
      var Range(rangeMin, rangeMax, dataSize) := r;
      if !(rangeMin == 0 && rangeMax != 0 && dataSize == 0) {
        res := TerminateUpDownTask(NO_TASK, NotAcceptable_406, None);
      } else if !disk.opens || path !in files {
        res := TerminateUpDownTask(NO_TASK, Unauthorized_401, None);
      } else {
        dataSize := |files[path]| % TWO64;
        var task := Task(rangeMin, rangeMax, dataSize, Trunc32(Add64(rangeMax, 1)), Some(nextId), None);
        OwnedAfterOpen(tasks, handles, buffers, nextId, id, task, path);
        Fopen(id, path, false);
        task := NewBuffer(id, task);
        var readSize: U64 := task.chunkSize;
        if task.dataSize <= task.chunkSize {
          readSize := task.dataSize;
          task := SetRangeMax(id, task, Sub64(task.dataSize, 1));
        }
        assert AsSession(task, handles) == Session(Down, 0, task.rangeMax, dataSize, task.chunkSize, path, 0);
        res := SendBody(id, task, None, rangeMax, readSize, disk);
      }
    }

    /** GetDownload on a known session. */
    method NextDownload(id: string, path: string, r: Range, disk: Disk) returns (res: Response)
      requires Valid() && !aborted && id in tasks && Fits(r, TWO64 - 1)
      modifies this`tasks, this`handles, this`buffers, this`aborted
      ensures Valid()
      ensures Outcome(SessionOf(id), files, res) == ServeDownload(old(SessionOf(id)), old(files), path, r, disk)
      ensures aborted == res.Abort?
      ensures Rest(tasks, handles, id) == old(Rest(tasks, handles, id))
    {
      var Range(rangeMin, rangeMax, dataSize) := r;
      var task := tasks[id];
      assert tasks[id := task] == tasks;
      if task.io.None? || task.buffer.None? {
        aborted := true;
        return Abort;
      }
      var readSize := Min(task.chunkSize, Trunc32(Sub64(task.dataSize, task.rangeMin)));
      if rangeMin == task.rangeMin && rangeMax == task.rangeMax && rangeMax <= task.dataSize &&
        dataSize == task.dataSize {
        res := SendBody(id, task, Some(id), rangeMax, readSize, disk);
      } else {
        res := Terminate(id, task, NotAcceptable_406, Some(id));
      }
    }

    /** PostUpload on the range the header parser returned. */
    method PostUploadRange(req: Request, r: Option<Range>, disk: Disk) returns (res: Response)
      requires Valid() && !aborted && (r.Some? ==> Fits(r.value, TWO64 - 1))
      modifies this
      ensures Valid()
      ensures Outcome(SessionOf(req.session), files, res) ==
              ServeRange(old(SessionOf(req.session)), old(files), Event(Up, req, disk), r)
      ensures aborted == res.Abort?
      ensures Rest(tasks, handles, req.session) == old(Rest(tasks, handles, req.session))
      ensures res.Response? && res.status == NotAcceptable_406 && req.session !in old(tasks) ==>
                tasks == old(tasks) && handles == old(handles) && buffers == old(buffers)
    {
      if HasDotDot(req.path) {
        res := TerminateUpDownTask(NO_TASK, Unauthorized_401, None);
      } else if r.None? {
        res := TerminateUpDownTask(NO_TASK, BadRequest_400, None);
      } else if req.session !in tasks {
        res := FirstUpload(req.session, req.path, r.value, req.body, disk);
      } else {
        res := NextUpload(req.session, req.path, r.value, req.body, disk);
      }
    }

    method PostUpload(req: Request, disk: Disk) returns (res: Response)
      requires Valid() && !aborted
      modifies this
      ensures Valid()
      ensures (Abstract(), res) == Step(old(Abstract()), Event(Up, req, disk))
      ensures res.Response? && res.status == NotAcceptable_406 && req.session !in old(tasks) ==>
                tasks == old(tasks) && handles == old(handles) && buffers == old(buffers)
    {
      ghost var before := Abstract();
      var r := ParseHeader(req.range);
      res := PostUploadRange(req, r, disk);
      SameStep(before, Event(Up, req, disk), res);
    }

    /** GetDownload on the range the header parser returned. */
    method GetDownloadRange(req: Request, r: Option<Range>, disk: Disk) returns (res: Response)
      requires Valid() && !aborted && (r.Some? ==> Fits(r.value, TWO64 - 1))
      modifies this
      ensures Valid()
      ensures Outcome(SessionOf(req.session), files, res) ==
              ServeRange(old(SessionOf(req.session)), old(files), Event(Down, req, disk), r)
      ensures aborted == res.Abort?
      ensures Rest(tasks, handles, req.session) == old(Rest(tasks, handles, req.session))
      ensures res.Response? && res.status == NotAcceptable_406 && req.session !in old(tasks) ==>
                tasks == old(tasks) && handles == old(handles) && buffers == old(buffers)
    {
      if HasDotDot(req.path) {
        res := TerminateUpDownTask(NO_TASK, Unauthorized_401, None);
      } else if r.None? {
        res := TerminateUpDownTask(NO_TASK, BadRequest_400, None);
      } else if req.session !in tasks {
        res := FirstDownload(req.session, req.path, r.value, disk);
      } else {
        res := NextDownload(req.session, req.path, r.value, disk);
      }
    }

    method GetDownload(req: Request, disk: Disk) returns (res: Response)
      requires Valid() && !aborted
      modifies this
      ensures Valid()
      ensures (Abstract(), res) == Step(old(Abstract()), Event(Down, req, disk))
      ensures res.Response? && res.status == NotAcceptable_406 && req.session !in old(tasks) ==>
                tasks == old(tasks) && handles == old(handles) && buffers == old(buffers)
    {
      ghost var before := Abstract();
      var r := ParseHeader(req.range);
      res := GetDownloadRange(req, r, disk);
      SameStep(before, Event(Down, req, disk), res);
    }

    /** One session changed as `Serve` says and the others did not: the system took the step. */
    lemma SameStep(before: System, e: Event, res: Response)
      requires Valid() && !before.aborted
      requires Outcome(SessionOf(e.req.session), files, res) == Serve(before.Of(e.req.session), before.files, e)
      requires aborted == res.Abort?
      requires Rest(tasks, handles, e.req.session) == before.sessions - {e.req.session}
      ensures (Abstract(), res) == Step(before, e)
    {
      var id := e.req.session;
      assert Abstract().sessions - {id} == Rest(tasks, handles, id);
      Replaced(Abstract().sessions, before.sessions, id, SessionOf(id));
    }

    /** The handler of the request, unless the server stopped. */
    method OneRequest(e: Event) returns (res: Response)
      requires Valid()
      modifies this
      ensures Valid()
      ensures (Abstract(), res) == Step(old(Abstract()), e)
    {
      res := Abort;
      if !aborted {
        if e.dir == Up {
          res := PostUpload(e.req, e.disk);
        } else {
          res := GetDownload(e.req, e.disk);
        }
      }
    }

    /** Any sequence of requests takes the object through the states of the abstract server. */
    method Requests(es: seq<Event>) returns (answers: seq<Response>)
      requires Valid()
      modifies this
      ensures Valid()
      ensures Abstract() == After(old(Abstract()), es)
      ensures |answers| == |es|
      ensures forall i :: 0 <= i < |es| ==> answers[i] == Answer(old(Abstract()), es[..i + 1])
    {
      hide Step;
      answers := [];
      ghost var start := Abstract();
      for i := 0 to |es|
        invariant Valid()
        invariant |answers| == i
        invariant Abstract() == After(start, es[..i])
        invariant forall j :: 0 <= j < i ==> answers[j] == Answer(start, es[..j + 1])
      {
        assert es[..i + 1][..i] == es[..i];
        var res := OneRequest(es[i]);
        answers := answers + [res];
      }
      assert es[..|es|] == es;
    }
  }
}
