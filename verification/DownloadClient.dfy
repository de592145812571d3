// BofWebClient::Download (src/bofwebclient.cpp) talking to the transfer server of
// tests/src/ut_webapp.cpp over a link that may lose requests and replies.

module DownloadClient {
  import opened Words
  import opened ContentRange
  import opened Transfer
  import opened UploadClient
  import opened UploadProtocol
  import opened UpDown
  import opened DownloadReplies
  import TransferRuns

  function Ask(to: Destination, r: Range, disk: Disk): Event {
    Event(Down, Request(to.session, to.path, Header(r), []), disk)
  }

  // ---- The server side of one chunk ----

  /** The download session at offset `from`, past the first chunk. */
  function At(to: Destination, file: seq<Byte>, c: U32, from: nat): Session
    requires 0 < from < |file| < FILE_LIMIT
  {
    Session(Down, from, Min(from + c, |file|) - 1, |file|, c, to.path, from)
  }

  /** The server sent the bytes from `from` to `end` and stands after them. */
  ghost predicate SentChunk(o: Outcome, to: Destination, file: seq<Byte>, c: U32, from: nat, end: nat)
    requires from < end <= |file| < FILE_LIMIT && c > 0
  {
    if end == |file| then
      o.session == None && o.res == Response(OK_200, Header(Range(from, end - 1, |file|)), file[from..end])
    else
      o.session == Some(At(to, file, c, end)) &&
      o.res == Response(PartialContent_206, Header(Range(from, end - 1, |file|)), file[from..end])
  }

  /** The server holds the window of the chunk at `t.min` and sends `size` bytes of it. */
  lemma ChunkSent(t: Session, size: U64, files: Files, to: Destination, file: seq<Byte>, c: U32, end: nat, r: Range,
                  disk: Disk)
    requires t.min < end == Min(t.min + c, |file|) && |file| < FILE_LIMIT
    requires t == Session(Down, t.min, end - 1, |file|, t.chunk, to.path, t.min)
    requires end < |file| ==> t.chunk == c
    requires r.max >= |file| - 1 <==> end == |file|
    requires to.path in files && files[to.path] == file && size <= end - t.min
    ensures var o := Send(t, size, files, r, disk);
            && o.files == files && o.res.Response?
            && (o.res.Accepts() <==> disk.works && size > 0)
            && (!o.res.Accepts() ==> o.session == None)
            && (o.res.Accepts() ==>
                  o.res.range == Header(Range(t.min, end - 1, |file|)) && o.res.body == file[t.min..t.min + size])
            && (o.res.Accepts() && size == end - t.min ==> SentChunk(o, to, file, c, t.min, end))
  {
    hide Header;
  }

  lemma FirstGet(files: Files, to: Destination, file: seq<Byte>, c: U32, disk: Disk)
    requires 0 < |file| < FILE_LIMIT && to.path in files && files[to.path] == file
    ensures var o := ServeDownload(None, files, to.path, FirstRange(c), disk);
            && o.files == files && o.res.Response?
            && (o.res.Accepts() ==> c >= 2 && SentChunk(o, to, file, c, 0, Min(c, |file|)))
            && (!o.res.Accepts() ==> o.session == None)
            && (disk.opens && disk.works ==> (o.res.Accepts() <==> c >= 2))
  {
    hide Header, Send;
    if c >= 2 {
      var end := Min(c, |file|);
      var t := Session(Down, 0, end - 1, |file|, c, to.path, 0);
      ChunkSent(t, end, files, to, file, c, end, FirstRange(c), disk);
    } else if c == 0 {
      var t := Session(Down, 0, TWO32 - 1, |file|, 0, to.path, 0);
      EmptySend(t, files, FirstRange(c), disk);
    }
  }

  lemma EmptySend(t: Session, files: Files, r: Range, disk: Disk)
    ensures Send(t, 0, files, r, disk) == Outcome(None, files, Failed(InternalServerError_500))
  {
  }

  /** The server at `from` asked for its window: it sends as many bytes as the 32-bit cast says. */
  lemma NextGet(files: Files, to: Destination, file: seq<Byte>, c: U32, from: nat, disk: Disk)
    requires 0 < from < |file| < FILE_LIMIT && c > 0 && to.path in files && files[to.path] == file
    ensures var end := Min(from + c, |file|);
            var size := Min(c, Trunc32(|file| - from));
            var o := ServeDownload(Some(At(to, file, c, from)), files, to.path, Range(from, end - 1, |file|), disk);
            && o.files == files && o.res.Response?
            && (o.res.Accepts() ==>
                  o.res.range == Header(Range(from, end - 1, |file|)) && o.res.body == file[from..from + size])
            && (o.res.Accepts() && size == end - from ==> SentChunk(o, to, file, c, from, end))
            && (!o.res.Accepts() ==> o.session == None)
            && (disk.works ==> (o.res.Accepts() <==> size > 0))
  {
    hide Header, Send;
    var end := Min(from + c, |file|);
    ChunkSent(At(to, file, c, from), Min(c, Trunc32(|file| - from)), files, to, file, c, end, Range(from, end - 1,
      |file|), disk);
  }

  /** Asked for any other range, it refuses and forgets the session. */
  lemma WrongGet(files: Files, to: Destination, t: Session, r: Range, disk: Disk)
    requires Fits(r, TWO64 - 1) && t.dir == Down && !Expected(t, r)
    ensures ServeDownload(Some(t), files, to.path, r, disk) == Outcome(None, files, Failed(NotAcceptable_406))
  {
  }

  // ---- One request of the client ----

  /**
   * One request: what other sessions ask before it, what happens to it as for an upload, and whether
   * the client can store the body.
   */
  datatype DownLink = DownLink(before: seq<Event>, link: Link, saved: bool)

  predicate Faultless(l: DownLink) {
    Healthy(l.link) && l.saved
  }

  /** Every request gets through, as many as there are chunks; the others keep their directions. */
  ghost predicate NoDownFaults(links: seq<DownLink>, size: nat, c: U32, dirOf: string -> Direction) {
    && links != [] && (c > 0 ==> Chunks(size, c) <= |links|)
    && forall i :: 0 <= i < |links| ==> Faultless(links[i]) && TransferRuns.OneDirection(links[i].before, dirOf)
  }

  /** Both sides stand at offset `from` of the file. */
  ghost predicate InStep(s: System, to: Destination, file: seq<Byte>, c: U32, from: nat)
    requires from < |file| < FILE_LIMIT
  {
    && !s.aborted && to.path in s.files && s.files[to.path] == file
    && s.Of(to.session) == (if from == 0 then None else Some(At(to, file, c, from)))
  }

  /** The range the client asks at offset `from`. */
  function Asked(start: LastStart, file: seq<Byte>, c: U32, from: nat): Range
    requires from < |file|
  {
    if from == 0 then FirstRange(c)
    else Range(if start.AsWritten? && from + c >= |file| then from - 1 else from, Min(from + c, |file|) - 1, |file|)
  }

  /** The server answers with the bytes from `from` on, as many as its casts say. */
  ghost predicate Answered(s: System, res: Response, to: Destination, file: seq<Byte>, c: U32, from: nat)
    requires from < |file| < FILE_LIMIT && c > 0
  {
    var end := Min(from + c, |file|);
    && res.Response? && res.range == Header(Range(from, end - 1, |file|))
    && |res.body| <= end - from
    && (|res.body| == end - from ==>
          && res.body == file[from..end]
          && res.status == (if end == |file| then OK_200 else PartialContent_206)
          && if end == |file| then to.session !in s.sessions else InStep(s, to, file, c, end))
  }

  /** The bytes the client can expect of the window at `from`: the first one needs no cast. */
  predicate Offers(start: LastStart, file: seq<Byte>, c: U32, from: nat)
    requires from < |file|
  {
    if from == 0 then c >= 2
    else (start.AsIntended? || from + c < |file|) && Min(c, Trunc32(|file| - from)) == Min(c, |file| - from)
  }

  /** A request that is understood is served on its session. */
  lemma ServedGet(s: System, to: Destination, r: Range, disk: Disk)
    requires Fits(r, TWO64 - 1) && !s.aborted && !HasDotDot(to.path)
    ensures var o := ServeDownload(s.Of(to.session), s.files, to.path, r, disk);
            Step(s, Ask(to, r, disk)) == (System(s.Put(to.session, o.session), o.files, o.res.Abort?), o.res)
  {
    HeaderRoundTrip(r);
  }

  lemma Unserved(s: System, to: Destination, r: Range, disk: Disk)
    requires !s.aborted && HasDotDot(to.path)
    ensures Step(s, Ask(to, r, disk)).1 == Failed(Unauthorized_401)
    ensures var after := Step(s, Ask(to, r, disk)).0; after.files == s.files && !after.aborted
  {
  }

  /** One request at `from`: what an accepted one brings, and when there is one. */
  lemma Asking(s: System, to: Destination, start: LastStart, file: seq<Byte>, c: U32, from: nat, disk: Disk)
    returns (after: System, res: Response)
    requires from < |file| < FILE_LIMIT && (c > 0 || from == 0)
    requires InStep(s, to, file, c, from)
    ensures (after, res) == Step(s, Ask(to, Asked(start, file, c, from), disk))
    ensures res.Response? && !after.aborted && after.files == s.files
    ensures res.Accepts() && from == 0 ==> c >= 2
    ensures res.Accepts() ==>
              c > 0 && Answered(after, res, to, file, c, from) && Asked(start, file, c, from).min == from
    ensures res.Accepts() && |res.body| == Min(c, |file| - from) ==> Offers(start, file, c, from)
    ensures disk.opens && disk.works && !HasDotDot(to.path) && Offers(start, file, c, from) ==>
              res.Accepts() && |res.body| == Min(c, |file| - from)
    ensures start.AsWritten? && 0 < from && from + c >= |file| && !HasDotDot(to.path) ==>
              res == Failed(NotAcceptable_406)
  {
    hide Step, ServeDownload, Header;
    var r := Asked(start, file, c, from);
    var (after', res') := Step(s, Ask(to, r, disk));
    after, res := after', res';
    if HasDotDot(to.path) {
      Unserved(s, to, r, disk);
    } else {
      ServedGet(s, to, r, disk);
      if from == 0 {
        FirstGet(s.files, to, file, c, disk);
      } else if r.min != from {
        WrongGet(s.files, to, At(to, file, c, from), r, disk);
      } else {
        NextGet(s.files, to, file, c, from, disk);
      }
    }
  }

  // ---- The client loop ----

  /** The sessions of the others are the same. */
  ghost predicate OthersKept(s: System, s': System, to: Destination) {
    forall o <- s'.sessions :: o != to.session ==> o in s.sessions && s'.sessions[o] == s.sessions[o]
  }

  lemma OwnStep(s: System, to: Destination, e: Event)
    requires e.req.session == to.session
    ensures OthersKept(s, Step(s, e).0, to)
  {
    hide Serve;
  }

  lemma StillApart(s: System, s': System, to: Destination, dirOf: string -> Direction)
    requires OthersKept(s, s', to)
    ensures Apart(s, to) ==> Apart(s', to)
    ensures Consistent(s, to, dirOf) && !s'.aborted ==> Consistent(s', to, dirOf)
  {
  }

  lemma StillInStep(s: System, s': System, to: Destination, file: seq<Byte>, c: U32, from: nat)
    requires from < |file| < FILE_LIMIT && InStep(s, to, file, c, from)
    requires SameTransfer(s, s', to) && !s'.aborted
    ensures InStep(s', to, file, c, from)
  {
  }

  /** Other sessions ask; unless they stop the server, the transfer stands where it stood. */
  method LetOthersAsk(server: UpDownServer, es: seq<Event>, to: Destination,
                      ghost file: seq<Byte>, ghost c: U32, ghost from: nat, ghost dirOf: string -> Direction)
    requires server.Valid() && from < |file| < FILE_LIMIT
    requires InStep(server.Abstract(), to, file, c, from) && Apart(server.Abstract(), to) && Bystanders(es, to)
    modifies server
    ensures server.Valid() && Apart(server.Abstract(), to)
    ensures !server.aborted ==> InStep(server.Abstract(), to, file, c, from)
    ensures old(Consistent(server.Abstract(), to, dirOf)) && TransferRuns.OneDirection(es, dirOf) ==>
              Consistent(server.Abstract(), to, dirOf)
  {
    hide InStep, Apart, Consistent, Bystanders, After, TransferRuns.OneDirection;
    ghost var before := server.Abstract();
    var _ := server.Requests(es);
    WhileOthersAsk(before, es, to);
    if !server.aborted {
      StillInStep(before, server.Abstract(), to, file, c, from);
    }
    if Consistent(before, to, dirOf) && TransferRuns.OneDirection(es, dirOf) {
      NobodyAborts(before, es, to, dirOf);
    }
  }

  /** One GET over the link; None when no response comes back. */
  method Get(server: UpDownServer, to: Destination, r: Range, l: Link) returns (res: Option<Response>)
    requires server.Valid() && !server.aborted
    modifies server
    ensures server.Valid()
    ensures l.requestLost ==> server.Abstract() == old(server.Abstract()) && res == None
    ensures !l.requestLost ==>
              var (after, answer) := Step(old(server.Abstract()), Ask(to, r, l.disk));
              server.Abstract() == after && res == if l.replyLost || answer.Abort? then None else Some(answer)
  {
    res := None;
    if !l.requestLost {
      var answer := server.GetDownload(Ask(to, r, l.disk).req, l.disk);
      if !l.replyLost && answer.Response? {
        res := Some(answer);
      }
    }
  }

  /** The window moves to the next range the client asks. */
  lemma WindowMoves(start: LastStart, file: seq<Byte>, c: U32, from: nat)
    requires from < |file| < FILE_LIMIT && 0 < c
    ensures var next := Moved(start, Range(from, Min(from + c, |file|) - 1, |file|));
            if from + c < |file| then next == Asked(start, file, c, from + c) else next.max == next.size - 1
  {
    MovedFollows(start, Range(from, Min(from + c, |file|) - 1, |file|));
    hide Moved;
  }

  /** An answer with the window at `from` is taken exactly if it brings all of it and is stored. */
  lemma Understood(start: LastStart, g: Got, r: Range, file: seq<Byte>, c: U32, from: nat)
    requires from < |file| < FILE_LIMIT && 0 < c && r == Asked(start, file, c, from) && r.min == from
    requires g.res.Some? && g.res.value.Accepts() && |g.res.value.body| <= Min(c, |file| - from)
    requires g.res.value.range == Header(Range(from, Min(from + c, |file|) - 1, |file|))
    ensures Given(g) == Some(Range(from, Min(from + c, |file|) - 1, |file|))
    ensures Matches(g, r) <==> g.saved && |g.res.value.body| == Min(c, |file| - from)
  {
    HeaderRoundTrip(Range(from, Min(from + c, |file|) - 1, |file|));
    CountedWhole(Range(from, Min(from + c, |file|) - 1, |file|));
    hide Header, ParseHeader, Trunc32, Add64, Sub64;
  }

  /** What the client makes of what it got for the range `r`. */
  ghost predicate Keeps(start: LastStart, r: Range, got: Got, taken: bool, next: Range, body: seq<Byte>,
                        status: Option<Status>)
  {
    && (taken <==> Matches(got, r))
    && (taken ==>
          && next == Moved(start, Given(got).value)
          && body == got.res.value.body && status == Some(got.res.value.status))
  }

  /** One iteration of the loop at `from`: the request, its answer and what the client keeps. */
  method Round(server: UpDownServer, to: Destination, start: LastStart, r: Range, l: DownLink,
               ghost file: seq<Byte>, ghost c: U32, ghost from: nat)
    returns (taken: bool, next: Range, body: seq<Byte>, status: Option<Status>, ghost got: Got)
    requires server.Valid() && from < |file| < FILE_LIMIT && (c > 0 || from == 0)
    requires InStep(server.Abstract(), to, file, c, from) && r == Asked(start, file, c, from)
    modifies server
    ensures server.Valid() && !server.aborted && server.files == old(server.files)
    ensures OthersKept(old(server.Abstract()), server.Abstract(), to)
    ensures taken ==>
              var end := Min(from + c, |file|);
              && from < end && body == file[from..end] && (from == 0 ==> c >= 2)
              && (status == Some(OK_200) <==> end == |file|)
              && if end == |file| then next.max == next.size - 1 && to.session !in server.tasks
                 else next == Asked(start, file, c, end) && InStep(server.Abstract(), to, file, c, end)
    ensures taken ==> Offers(start, file, c, from)
    ensures Keeps(start, r, got, taken, next, body, status)
    ensures Faultless(l) && !HasDotDot(to.path) && Offers(start, file, c, from) ==> taken
    ensures Faultless(l) && !HasDotDot(to.path) && start.AsWritten? && 0 < from && from + c >= |file| ==>
              !taken && status == Some(NotAcceptable_406)
  {
    hide Step, Header, ParseHeader, Matches, Given, Moved, Asked, HasDotDot, Offers;
    OwnStep(server.Abstract(), to, Ask(to, r, l.link.disk));
    ghost var after, answer := Asking(server.Abstract(), to, start, file, c, from, l.link.disk);
    var res := Get(server, to, r, l.link);
    got := Got(res, l.saved);
    if res.Some? && res.value.Accepts() {
      Understood(start, got, r, file, c, from);
      WindowMoves(start, file, c, from);
    } else {
      Unmatched(got, r);
    }
    AskedIsRange(start, file, c, from);
    taken, next := Take(start, Got(res, l.saved), r);
    body, status := [], None;
    if res.Some? {
      status := Some(res.value.status);
      if taken {
        body := res.value.body;
      }
    }
  }

  lemma Unmatched(g: Got, r: Range)
    requires g.res.None? || !g.res.value.Accepts()
    ensures !Matches(g, r)
  {
  }

  lemma AskedIsRange(start: LastStart, file: seq<Byte>, c: U32, from: nat)
    requires from < |file| < FILE_LIMIT && (c > 0 || from == 0)
    ensures var r := Asked(start, file, c, from);
            Fits(r, TWO64 - 1) && (r.size == 0 ==> r.max < TWO32) && (r.size > 0 ==> r.max < r.size)
  {
  }

  /** What other sessions ask, and then one iteration; a server that stopped answers nothing. */
  method Turn(server: UpDownServer, to: Destination, start: LastStart, r: Range, l: DownLink,
              ghost file: seq<Byte>, ghost c: U32, ghost from: nat, ghost dirOf: string -> Direction)
    returns (taken: bool, next: Range, body: seq<Byte>, status: Option<Status>, ghost got: Got)
    requires server.Valid() && from < |file| < FILE_LIMIT && (c > 0 || from == 0)
    requires InStep(server.Abstract(), to, file, c, from) && r == Asked(start, file, c, from)
    requires Apart(server.Abstract(), to) && Bystanders(l.before, to)
    modifies server
    ensures server.Valid()
    ensures taken ==>
              var end := Min(from + c, |file|);
              && from < end && body == file[from..end] && (from == 0 ==> c >= 2) && Offers(start, file, c, from)
              && (status == Some(OK_200) <==> end == |file|)
              && if end == |file| then next.max == next.size - 1 && to.session !in server.tasks
                 else next == Asked(start, file, c, end) && InStep(server.Abstract(), to, file, c, end)
    ensures taken ==> Apart(server.Abstract(), to)
    ensures Keeps(start, r, got, taken, next, body, status)
    ensures old(Consistent(server.Abstract(), to, dirOf)) && TransferRuns.OneDirection(l.before, dirOf) ==>
              && Consistent(server.Abstract(), to, dirOf)
              && (Faultless(l) && !HasDotDot(to.path) && Offers(start, file, c, from) ==> taken)
              && (Faultless(l) && !HasDotDot(to.path) && start.AsWritten? && 0 < from && from + c >= |file| ==>
                    !taken && status == Some(NotAcceptable_406))
  {
    hide InStep, Asked, Offers, HasDotDot, Apart, Consistent, Bystanders, OthersKept, TransferRuns.OneDirection;
    LetOthersAsk(server, l.before, to, file, c, from, dirOf);
    NotAborted(server.Abstract(), to, dirOf);
    taken, next, body, status, got := false, r, [], None, Got(None, false);
    assert Keeps(start, r, got, taken, next, body, status);
    hide Keeps;
    if !server.aborted {
      ghost var met := server.Abstract();
      taken, next, body, status, got := Round(server, to, start, r, l, file, c, from);
      StillApart(met, server.Abstract(), to, dirOf);
    }
  }

  lemma NotAborted(s: System, to: Destination, dirOf: string -> Direction)
    ensures Consistent(s, to, dirOf) ==> !s.aborted
  {
  }

  /** The chunk sizes agree with the 32-bit casts of the server from `from` on. */
  predicate Agrees(file: seq<Byte>, c: U32, from: nat)
    requires from <= |file| && c > 0
  {
    CastsAgree(|file| - (if from == 0 then Min(c, |file|) else from), c)
  }

  lemma AgreesBelow(file: seq<Byte>, c: U32)
    requires c > 0
    ensures Agrees(file, c, 0) <==> |file| < TWO32 + c
  {
    CastsAgreeBelow(|file| - Min(c, |file|), c);
  }

  /** Whether a request is offered decides how far the chunk sizes agree. */
  lemma AgreesAfter(start: LastStart, file: seq<Byte>, c: U32, from: nat)
    requires from < |file| && c > 0
    ensures Offers(start, file, c, from) ==> (Agrees(file, c, from) <==> Agrees(file, c, Min(from + c, |file|)))
    ensures !Offers(start, file, c, from) && c >= 2 && Agrees(file, c, from) ==>
              start.AsWritten? && 0 < from && from + c >= |file|
    ensures from == 0 && c >= 2 ==> Offers(start, file, c, from)
    ensures Offers(start, file, c, from) && from + c >= |file| ==> Agrees(file, c, from) && (start.AsWritten? ==>
              from == 0)
  {
  }

  /** `k` whole chunks are there, and at least one more is to come. */
  ghost predicate Underway(file: seq<Byte>, c: U32, k: nat, got: nat) {
    && got < |file| && got == k * c && (k > 0 ==> c >= 2)
    && (c > 0 ==>
          && k < Chunks(|file|, c) == k + Chunks(|file| - got, c)
          && (Agrees(file, c, got) <==> |file| < TWO32 + c))
  }

  lemma Starts(file: seq<Byte>, c: U32)
    requires 0 < |file|
    ensures Underway(file, c, 0, 0) && (c > 0 ==> 0 < Chunks(|file|, c))
  {
    if c > 0 {
      AgreesBelow(file, c);
      assert Chunks(|file|, c) > 0;
    }
  }

  /** A chunk that is not the last brings the transfer forward. */
  lemma GoesOn(start: LastStart, file: seq<Byte>, c: U32, k: nat, got: nat)
    requires Underway(file, c, k, got) && c >= 2 && got + c < |file| && Offers(start, file, c, got)
    ensures Underway(file, c, k + 1, got + c) && k + 1 < Chunks(|file|, c)
  {
    AgreesAfter(start, file, c, got);
    hide Agrees, Offers;
    assert (k + 1) * c == k * c + c;
    assert Chunks(|file| - got - c, c) > 0;
  }

  /** Before the last chunk, all the others are there. */
  lemma BeforeLast(file: seq<Byte>, c: U32, k: nat, got: nat)
    requires Underway(file, c, k, got) && c > 0 && got + c >= |file|
    ensures got == (Chunks(|file|, c) - 1) * c
    ensures got == 0 || c < |file|
  {
    hide Agrees;
    assert Chunks(0, c) == 0;
    if k > 0 {
      assert got == (k - 1) * c + c;
    }
  }

  lemma Extended(file: seq<Byte>, out: seq<Byte>, body: seq<Byte>, end: nat)
    requires out <= file && |out| <= end <= |file| && body == file[|out|..end]
    ensures out + body <= file && |out + body| == end && (end == |file| ==> out + body == file)
  {
  }

  /** What the end of a transfer without faults must look like. */
  ghost predicate Expectable(start: LastStart, file: seq<Byte>, c: U32, ok: bool, got: nat, status: Option<Status>) {
    && (start.AsIntended? ==> (ok <==> c >= 2 && |file| < TWO32 + c))
    && (start.AsWritten? ==> (ok <==> c >= 2 && |file| <= c))
    && (start.AsWritten? && c >= 2 && c < |file| < TWO32 + c ==>
          status == Some(NotAcceptable_406) && got == (Chunks(|file|, c) - 1) * c)
  }

  lemma EndsWell(start: LastStart, file: seq<Byte>, c: U32, k: nat, got: nat, status: Option<Status>)
    requires Underway(file, c, k, got) && c >= 2 && got + c >= |file| && Offers(start, file, c, got)
    ensures Expectable(start, file, c, true, |file|, status)
  {
    AgreesAfter(start, file, c, got);
    BeforeLast(file, c, k, got);
  }

  lemma EndsBadly(start: LastStart, file: seq<Byte>, c: U32, k: nat, got: nat, status: Option<Status>)
    requires Underway(file, c, k, got) && !Offers(start, file, c, got)
    requires start.AsWritten? && 0 < got && got + c >= |file| ==> status == Some(NotAcceptable_406)
    ensures Expectable(start, file, c, false, got, status)
  {
    if c >= 2 {
      AgreesAfter(start, file, c, got);
      if got + c >= |file| {
        BeforeLast(file, c, k, got);
      }
    }
  }

  lemma Ends(start: LastStart, file: seq<Byte>, c: U32, k: nat, got: nat, taken: bool, status: Option<Status>)
    requires Underway(file, c, k, got)
    requires if taken then c >= 2 && got + c >= |file| && Offers(start, file, c, got) else !Offers(start, file, c, got)
    requires !taken && start.AsWritten? && 0 < got && got + c >= |file| ==> status == Some(NotAcceptable_406)
    ensures Expectable(start, file, c, taken, if taken then |file| else got, status)
  {
    if taken {
      EndsWell(start, file, c, k, got, status);
    } else {
      EndsBadly(start, file, c, k, got, status);
    }
  }

  /** What the requests got leaves the download at the range `r`, with `out` stored. */
  predicate Stands(start: LastStart, c: U32, gots: seq<Got>, r: Range, out: seq<Byte>) {
    var h := AfterAll(start, c, gots);
    !h.over && !h.ok && h.next == r && h.out == out
  }

  /** What the requests got makes the download return `ok`, with `out` stored. */
  predicate Yields(start: LastStart, c: U32, gots: seq<Got>, ok: bool, out: seq<Byte>) {
    var h := AfterAll(start, c, gots);
    h.ok == ok && h.out == out
  }

  lemma KeepsGoing(start: LastStart, c: U32, gots: seq<Got>, r: Range, out: seq<Byte>, got: Got, taken: bool,
                   next: Range, body: seq<Byte>, status: Option<Status>)
    returns (gots': seq<Got>)
    requires Stands(start, c, gots, r, out) && Keeps(start, r, got, taken, next, body, status)
    ensures gots' == gots + [got]
    ensures if !taken then Yields(start, c, gots', false, out)
            else if status == Some(OK_200) then Yields(start, c, gots', next.max >= next.size - 1, out + body)
            else Stands(start, c, gots', next, out + body)
  {
    gots' := gots + [got];
    AfterAllNext(start, c, gots, got);
    if taken {
      Goes(start, AfterAll(start, c, gots), got);
    }
    hide AfterAll, Matches, Given, Moved;
  }

  /** A download that is not over: `k` chunks are stored, and both sides stand after them. */
  ghost predicate Going(s: System, to: Destination, start: LastStart, file: seq<Byte>, c: U32,
                        dirOf: string -> Direction, clean: bool, k: nat, r: Range, out: seq<Byte>, gots: seq<Got>)
  {
    && out <= file && |out| < |file| < FILE_LIMIT && (c > 0 || out == []) && (out != [] ==> c >= 2)
    && InStep(s, to, file, c, |out|) && r == Asked(start, file, c, |out|) && Stands(start, c, gots, r, out)
    && Apart(s, to) && (clean ==> Consistent(s, to, dirOf) && !HasDotDot(to.path))
    && Underway(file, c, k, |out|) && (c > 0 ==> k < Chunks(|file|, c)) && |gots| == k
  }

  /** A download that is over; without faults it ended as expected. */
  ghost predicate Ended(s: System, to: Destination, start: LastStart, file: seq<Byte>, c: U32, clean: bool,
                        ok: bool, out: seq<Byte>, status: Option<Status>, gots: seq<Got>)
  {
    && out <= file && (ok ==> out == file && to.session !in s.sessions) && Yields(start, c, gots, ok, out)
    && (clean ==> Expectable(start, file, c, ok, |out|, status))
  }

  /** One turn of a download, which stores what it takes. */
  method OneChunk(server: UpDownServer, to: Destination, start: LastStart, r: Range, l: DownLink, out: seq<Byte>,
                  ghost file: seq<Byte>, ghost c: U32, ghost dirOf: string -> Direction, ghost clean: bool,
                  ghost k: nat, ghost gots: seq<Got>)
    returns (over: bool, ok: bool, next: Range, out': seq<Byte>, status: Option<Status>, ghost gots': seq<Got>)
    requires server.Valid() && Going(server.Abstract(), to, start, file, c, dirOf, clean, k, r, out, gots)
    requires Bystanders(l.before, to) && (clean ==> Faultless(l) && TransferRuns.OneDirection(l.before, dirOf))
    modifies server
    ensures server.Valid() && |gots'| == k + 1
    ensures if over then Ended(server.Abstract(), to, start, file, c, clean, ok, out', status, gots')
            else !ok && Going(server.Abstract(), to, start, file, c, dirOf, clean, k + 1, next, out', gots')
  {
    hide Keeps, Stands, Yields, InStep, Asked, Offers, Agrees, Underway, Expectable, Chunks, HasDotDot;
    hide Apart, Consistent, Bystanders, Faultless, TransferRuns.OneDirection, UpDownServer.Valid;
    var taken: bool, body: seq<Byte>;
    ghost var got: Got;
    taken, next, body, status, got := Turn(server, to, start, r, l, file, c, |out|, dirOf);
    gots' := KeepsGoing(start, c, gots, r, out, got, taken, next, body, status);
    out' := out;
    if taken {
      Extended(file, out, body, Min(|out| + c, |file|));
      out' := out + body;
    }
    over := !taken || status == Some(OK_200);
    ok := taken && over && next.max >= next.size - 1;
    if !over {
      GoesOn(start, file, c, k, |out|);
    } else if clean {
      Ends(start, file, c, k, |out|, taken, status);
    }
  }

  lemma Begun(s: System, to: Destination, start: LastStart, file: seq<Byte>, c: U32, dirOf: string -> Direction,
              clean: bool)
    requires 0 < |file| < FILE_LIMIT && Apart(s, to) && InStep(s, to, file, c, 0)
    requires clean ==> Consistent(s, to, dirOf) && !HasDotDot(to.path)
    ensures Going(s, to, start, file, c, dirOf, clean, 0, FirstRange(c), [], [])
  {
    Starts(file, c);
    hide Chunks, Apart, InStep, Consistent, HasDotDot, Underway;
  }

  /** When nothing gets through any more, the download fails; without faults it was over before. */
  lemma RanOut(s: System, to: Destination, start: LastStart, file: seq<Byte>, c: U32, dirOf: string -> Direction,
               clean: bool, r: Range, out: seq<Byte>, status: Option<Status>, gots: seq<Got>, links: seq<DownLink>)
    requires Going(s, to, start, file, c, dirOf, clean, |links|, r, out, gots)
    requires clean ==> NoDownFaults(links, |file|, c, dirOf)
    ensures Ended(s, to, start, file, c, clean, false, out, status, gots)
  {
    hide Chunks, Apart, InStep, Consistent, HasDotDot, Underway, Expectable, Asked;
  }

  /**
   * Download of `file` into `out`, which starts empty; after the end of `links` nothing gets
   * through. Between the requests other sessions ask whatever they want, but upload to other files.
   * `status` is the last one received, and `gots` is what the requests got.
   */
  method Download(server: UpDownServer, to: Destination, start: LastStart, chunkSize: U32, links: seq<DownLink>,
                  ghost file: seq<Byte>, ghost dirOf: string -> Direction)
    returns (ok: bool, out: seq<Byte>, status: Option<Status>, ghost gots: seq<Got>)
    requires server.Valid() && !server.aborted && to.session !in server.tasks
    requires to.path in server.files && server.files[to.path] == file && 0 < |file| < FILE_LIMIT
    requires Apart(server.Abstract(), to) && forall i :: 0 <= i < |links| ==> Bystanders(links[i].before, to)
    modifies server
    ensures server.Valid()
    ensures |gots| <= |links| && Yields(start, chunkSize, gots, ok, out)
    ensures out <= file
    ensures ok ==> out == file && to.session !in server.tasks
    ensures NoDownFaults(links, |file|, chunkSize, dirOf) && !HasDotDot(to.path) &&
            old(Consistent(server.Abstract(), to, dirOf)) ==>
              Expectable(start, file, chunkSize, ok, |out|, status)
  {
    ok, out, status, gots := false, [], None, [];
    var r := FirstRange(chunkSize);
    var k := 0;
    assert InStep(server.Abstract(), to, file, chunkSize, 0);
    ghost var clean :=
      NoDownFaults(links, |file|, chunkSize, dirOf) && Consistent(server.Abstract(), to, dirOf) && !HasDotDot(to.path);
    Begun(server.Abstract(), to, start, file, chunkSize, dirOf, clean);
    hide Going, Yields, InStep, Expectable, Chunks, HasDotDot, FirstRange;
    hide Apart, Consistent, Bystanders, Faultless, TransferRuns.OneDirection, UpDownServer.Valid;
    while k < |links|
      invariant k <= |links| && !ok && server.Valid()
      invariant Going(server.Abstract(), to, start, file, chunkSize, dirOf, clean, k, r, out, gots)
    {
      var over;
      over, ok, r, out, status, gots :=
        OneChunk(server, to, start, r, links[k], out, file, chunkSize, dirOf, clean, k, gots);
      if over {
        return;
      }
      k := k + 1;
    }
    RanOut(server.Abstract(), to, start, file, chunkSize, dirOf, clean, r, out, status, gots, links);
  }
}
