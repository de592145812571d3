// The client loop of src/bofwebclient.cpp and the server of tests/src/ut_webapp.cpp together:
// an upload over a link that may lose requests and replies, and an upload without faults.

module UploadProtocol {
  import opened Words
  import opened ContentRange
  import opened Transfer
  import opened UploadClient
  import TransferRuns

  /** Where the client sends its posts. */
  datatype Destination = Destination(session: string, path: string)

  /** What happens to one post: what the disk does, and which messages get lost. */
  datatype Link = Link(disk: Disk, requestLost: bool, replyLost: bool)

  predicate Healthy(l: Link) {
    l.disk.opens && l.disk.works && !l.requestLost && !l.replyLost
  }

  /** The request a post becomes on the wire, and the disk it meets. */
  function Wire(to: Destination, p: Post, disk: Disk): Event {
    Event(Up, Request(to.session, to.path, Header(p.range), p.body), disk)
  }

  /** One post: the server after it and the result the client gets. */
  function Exchange(s: System, to: Destination, p: Post, l: Link): (System, Reply) {
    if l.requestLost then (s, None)
    else
      var (after, res) := Step(s, Wire(to, p, l.disk));
      (after, if l.replyLost then None else Read(Some(res)))
  }

  /** One post of the client: what other sessions ask before it, and what happens to it. */
  datatype Slot = Slot(before: seq<Event>, link: Link)

  datatype Meeting = Meeting(replies: seq<Reply>, server: System)

  /**
   * The client and the server together from offset `from` on: the results the client gets and the
   * server it leaves. After the end of `slots` nothing gets through.
   */
  function Meet(s: System, to: Destination, slots: seq<Slot>, file: seq<Byte>, c: U32, from: nat): Meeting
    requires c > 0 && from <= |file|
    decreases |file| - from
  {
    if from == |file| || slots == [] then Meeting([], s)
    else
      var end := Min(from + c, |file|);
      var post := Chunk(file, from, end);
      var (after, reply) := Exchange(After(s, slots[0].before), to, post, slots[0].link);
      if Judge(reply, post.range) != Continue then Meeting([reply], after)
      else
        var m := Meet(after, to, slots[1..], file, c, end);
        Meeting([reply] + m.replies, m.server)
  }

  // ---- Other sessions ----

  /** A request of another session that does not upload to the same file. */
  predicate Bystander(e: Event, to: Destination) {
    e.req.session != to.session && (e.dir == Up ==> e.req.path != to.path)
  }

  ghost predicate Bystanders(es: seq<Event>, to: Destination) {
    forall i :: 0 <= i < |es| ==> Bystander(es[i], to)
  }

  ghost predicate Unrivalled(slots: seq<Slot>, to: Destination) {
    forall i :: 0 <= i < |slots| ==> Bystanders(slots[i].before, to)
  }

  /** No other live session uploads to the file. */
  ghost predicate Apart(s: System, to: Destination) {
    forall o <- s.sessions :: o != to.session && s.sessions[o].dir == Up ==> s.sessions[o].path != to.path
  }

  /** What the transfer has on the server is the same. */
  ghost predicate SameTransfer(s: System, s': System, to: Destination) {
    s'.Of(to.session) == s.Of(to.session) && TransferRuns.SameFile(s'.files, s.files, to.path)
  }

  lemma BystanderStep(s: System, e: Event, to: Destination)
    requires Apart(s, to) && Bystander(e, to)
    ensures Apart(Step(s, e).0, to) && SameTransfer(s, Step(s, e).0, to)
  {
    if !s.aborted {
      var (o, r) := (s.Of(e.req.session), ParseHeader(e.req.range));
      TransferRuns.ServeDirection(o, s.files, e, r);
      TransferRuns.PathKept(o, s.files, e, r);
      if o.Some? && o.value.dir != e.dir {
        OtherKind(o, s.files, e, r);
      } else {
        TransferRuns.OtherFilesKept(o, s.files, e, r, to.path);
      }
      hide ServeRange, ParseHeader;
    }
  }

  /** A request of the other kind touches no file. */
  lemma OtherKind(s: Option<Session>, files: Files, e: Event, r: Option<Range>)
    requires r.Some? ==> Fits(r.value, TWO64 - 1)
    requires s.Some? && s.value.dir != e.dir
    ensures ServeRange(s, files, e, r).files == files
  {
  }

  lemma {:induction false} WhileOthersAsk(s: System, es: seq<Event>, to: Destination)
    requires Apart(s, to) && Bystanders(es, to)
    ensures Apart(After(s, es), to) && SameTransfer(s, After(s, es), to)
  {
    hide Step;
    if es != [] {
      WhileOthersAsk(s, es[..|es| - 1], to);
      assert Bystander(es[|es| - 1], to);
      BystanderStep(After(s, es[..|es| - 1]), es[|es| - 1], to);
    }
  }

  /** The client's own posts leave the other sessions as they are. */
  lemma OwnPost(s: System, to: Destination, p: Post, l: Link)
    requires Apart(s, to)
    ensures Apart(Exchange(s, to, p, l).0, to)
    ensures forall o <- Exchange(s, to, p, l).0.sessions :: o != to.session ==>
              o in s.sessions && Exchange(s, to, p, l).0.sessions[o] == s.sessions[o]
  {
    hide Serve, Header, Read;
  }

  /** Each id keeps its direction, so no assert of the handlers fails. */
  ghost predicate Consistent(s: System, to: Destination, dirOf: string -> Direction) {
    !s.aborted && forall o <- s.sessions :: o != to.session ==> s.sessions[o].dir == dirOf(o)
  }

  lemma {:induction false} NobodyAborts(s: System, es: seq<Event>, to: Destination, dirOf: string -> Direction)
    requires Consistent(s, to, dirOf) && Bystanders(es, to) && TransferRuns.OneDirection(es, dirOf)
    ensures Consistent(After(s, es), to, dirOf)
  {
    hide ServeRange, ParseHeader;
    if es != [] {
      var (n, before) := (|es| - 1, After(s, es[..|es| - 1]));
      NobodyAborts(s, es[..n], to, dirOf);
      assert Bystander(es[n], to) && es[n].dir == dirOf(es[n].req.session);
      TransferRuns.ServeDirection(before.Of(es[n].req.session), before.files, es[n], ParseHeader(es[n].req.range));
    }
  }

  // ---- Lockstep ----

  /** Both sides stand at offset `from`: the window of the server is the next chunk of the client. */
  ghost predicate Lockstep(s: System, to: Destination, file: seq<Byte>, c: U32, from: nat)
    requires from <= |file| < FILE_LIMIT && c > 0
  {
    if from == 0 then
      to.session in s.sessions && s.sessions[to.session].dir == Up ==> s.sessions[to.session].min != 0
    else
      && from < |file|
      && s.Of(to.session) == Some(Session(Up, from, Min(from + c, |file|) - 1, |file|, c, to.path, from))
      && to.path in s.files && s.files[to.path] == file[..from]
  }

  ghost predicate Delivered(s: System, to: Destination, file: seq<Byte>) {
    to.session !in s.sessions && to.path in s.files && s.files[to.path] == file
  }

  /** The size the server computes for the chunk at `from` is the size of the chunk. */
  predicate SizeAgrees(file: seq<Byte>, c: U32, from: nat, end: nat)
    requires from < end <= |file| < FILE_LIMIT
  {
    if from == 0 then end > 1 else Min(c, Trunc32(|file| - from)) == end - from
  }

  /** The server took the bytes up to `end` and says so. */
  ghost predicate Taken(o: Outcome, to: Destination, file: seq<Byte>, c: U32, from: nat, end: nat)
    requires from < end <= |file| < FILE_LIMIT && c > 0
  {
    && o.res.Response? && o.res.range == Header(Range(from, end - 1, |file|))
    && to.path in o.files && o.files[to.path] == file[..end]
    && if end == |file| then o.res.status == OK_200 && o.session == None
       else
         && o.res.status == PartialContent_206
         && o.session == Some(Session(Up, end, Min(end + c, |file|) - 1, |file|, c, to.path, end))
  }

  lemma PrefixGrows(file: seq<Byte>, from: nat, end: nat)
    requires from <= end <= |file|
    ensures WriteAt(file[..from], from, file[from..end]) == file[..end]
  {
  }

  /** What an accepted body does. */
  lemma Received(t: Session, size: U64, files: Files, r: Range, body: seq<Byte>, disk: Disk)
    requires t.path in files
    ensures var o := Receive(t, size, files, r, body, disk);
            && o.res.Response? && (o.res.Accepts() <==> size == |body| && disk.works && size > 0)
            && (o.res.Accepts() ==>
                  && o.res.range == Window(t)
                  && o.files == files[t.path := WriteAt(files[t.path], t.pos, body)]
                  && if r.max >= Sub64(t.size, 1) then o.res.status == OK_200 && o.session == None
                     else
                       && o.res.status == PartialContent_206
                       && o.session == Some(Advance(t.(pos := t.pos + size), size)))
  {
    hide WriteAt, Window, Advance;
  }

  /** The server holds the window of the chunk and the file up to it. */
  lemma ChunkStored(t: Session, size: U64, files: Files, to: Destination, file: seq<Byte>, c: U32, end: nat, disk: Disk)
    requires t.min < end == Min(t.min + c, |file|) && |file| < FILE_LIMIT
    requires t == Session(Up, t.min, end - 1, |file|, t.chunk, to.path, t.min)
    requires end < |file| ==> t.chunk == c
    requires to.path in files && files[to.path] == file[..t.min]
    ensures var o := Receive(t, size, files, Range(t.min, end - 1, |file|), file[t.min..end], disk);
            && (o.res.Accepts() ==> Taken(o, to, file, c, t.min, end))
            && (disk.works ==> (o.res.Accepts() <==> size == end - t.min))
  {
    hide Receive, WriteAt, Header, Advance;
    Received(t, size, files, Range(t.min, end - 1, |file|), file[t.min..end], disk);
    PrefixGrows(file, t.min, end);
    if end < |file| {
      NextWindowIs(t, file, c, end);
    }
  }

  lemma NextWindowIs(t: Session, file: seq<Byte>, c: U32, end: nat)
    requires t.min < end == t.min + c < |file| < FILE_LIMIT && t.max == end - 1 && t.size == |file|
    ensures Advance(t.(pos := end), c) == t.(min := end, max := Min(end + c, |file|) - 1, pos := end)
  {
  }

  lemma FirstChunk(s: Option<Session>, files: Files, to: Destination, file: seq<Byte>, c: U32, disk: Disk)
    requires 0 < |file| < FILE_LIMIT && c > 0
    requires s.Some? && s.value.dir == Up ==> s.value.min != 0
    ensures var end := Min(c, |file|);
            var o := ServeUpload(s, files, to.path, Range(0, end - 1, |file|), file[0..end], disk);
            && (o.res.Accepts() ==> Taken(o, to, file, c, 0, end))
            && (s.None? && disk.opens && disk.works ==> (o.res.Accepts() <==> end > 1))
  {
    if s.None? {
      var end := Min(c, |file|);
      var t := Session(Up, 0, end - 1, |file|, Trunc32(end), to.path, 0);
      ChunkStored(t, Min(|file|, end), files[to.path := []], to, file, c, end, disk);
      hide Receive, Taken, Header;
    }
  }

  lemma NextChunk(files: Files, to: Destination, file: seq<Byte>, c: U32, from: nat, disk: Disk)
    requires 0 < from < |file| < FILE_LIMIT && c > 0
    requires to.path in files && files[to.path] == file[..from]
    ensures var end := Min(from + c, |file|);
            var t := Session(Up, from, end - 1, |file|, c, to.path, from);
            var o := ServeUpload(Some(t), files, to.path, Range(from, end - 1, |file|), file[from..end], disk);
            && (o.res.Accepts() ==> Taken(o, to, file, c, from, end))
            && (disk.works ==> (o.res.Accepts() <==> Min(c, Trunc32(|file| - from)) == end - from))
  {
    var end := Min(from + c, |file|);
    var t := Session(Up, from, end - 1, |file|, c, to.path, from);
    ChunkStored(t, Min(c, Trunc32(|file| - from)), files, to, file, c, end, disk);
    hide Receive, Taken, Header;
  }

  /** An understood post: what the server does with it and what its reply says. */
  lemma Served(s: System, to: Destination, post: Post, disk: Disk)
    requires Fits(post.range, TWO64 - 1) && !s.aborted && !HasDotDot(to.path)
    ensures var o := ServeUpload(s.Of(to.session), s.files, to.path, post.range, post.body, disk);
            Step(s, Wire(to, post, disk)) == (System(s.Put(to.session, o.session), o.files, o.res.Abort?), o.res)
  {
    HeaderRoundTrip(post.range);
  }

  lemma NotServed(s: System, to: Destination, post: Post, disk: Disk)
    requires s.aborted || HasDotDot(to.path)
    ensures !Step(s, Wire(to, post, disk)).1.Accepts()
  {
  }

  lemma Judged(res: Response, r: Range)
    requires Fits(r, TWO64 - 1)
    ensures Judge(None, r) == Refused
    ensures !res.Accepts() ==> Judge(Read(Some(res)), r) == Refused
    ensures res.Accepts() && res.range == Header(r) ==>
              Judge(Read(Some(res)), r) == if res.status == OK_200 then Finished else Continue
  {
    HeaderRoundTrip(r);
  }

  lemma ChunkOutcome(s: System, to: Destination, file: seq<Byte>, c: U32, from: nat, disk: Disk)
    requires from < |file| < FILE_LIMIT && c > 0
    requires Lockstep(s, to, file, c, from)
    ensures var end := Min(from + c, |file|);
            var o := ServeUpload(s.Of(to.session), s.files, to.path, Range(from, end - 1, |file|), file[from..end],
              disk);
            && (o.res.Accepts() ==> Taken(o, to, file, c, from, end))
            && (disk.opens && disk.works && (from == 0 ==> to.session !in s.sessions) ==>
                  (o.res.Accepts() <==> SizeAgrees(file, c, from, end)))
  {
    if from == 0 {
      FirstChunk(s.Of(to.session), s.files, to, file, c, disk);
    } else {
      NextChunk(s.files, to, file, c, from, disk);
    }
  }

  /** The verdict on the chunk at `from`, and where it leaves the server. */
  lemma ChunkVerdict(s: System, to: Destination, l: Link, file: seq<Byte>, c: U32, from: nat)
    returns (after: System, reply: Reply, verdict: Verdict)
    requires from < |file| < FILE_LIMIT && c > 0
    requires Lockstep(s, to, file, c, from)
    ensures (after, reply) == Exchange(s, to, Chunk(file, from, Min(from + c, |file|)), l)
    ensures verdict == Judge(reply, Range(from, Min(from + c, |file|) - 1, |file|))
    ensures verdict == Finished ==> from + c >= |file| && Delivered(after, to, file)
    ensures verdict == Continue ==> from + c < |file| && !after.aborted && Lockstep(after, to, file, c, from + c)
    ensures Healthy(l) && !HasDotDot(to.path) && !s.aborted && (from == 0 ==> to.session !in s.sessions) ==>
              (verdict != Refused <==> SizeAgrees(file, c, from, Min(from + c, |file|)))
  {
    hide ServeUpload, Step, Header, Judge, Read;
    var post := Chunk(file, from, Min(from + c, |file|));
    var (after', reply') := Exchange(s, to, post, l);
    after, reply, verdict := after', reply', Judge(reply', post.range);
    Judged(Step(s, Wire(to, post, l.disk)).1, post.range);
    if s.aborted || HasDotDot(to.path) {
      NotServed(s, to, post, l.disk);
    } else {
      Served(s, to, post, l.disk);
      ChunkOutcome(s, to, file, c, from, l.disk);
    }
  }

  // ---- Main results ----

  lemma LockstepKept(s: System, s': System, to: Destination, file: seq<Byte>, c: U32, from: nat)
    requires from <= |file| < FILE_LIMIT && c > 0
    requires Lockstep(s, to, file, c, from) && SameTransfer(s, s', to)
    ensures Lockstep(s', to, file, c, from)
  {
  }

  /** The first post of the client: its reply decides what else the two sides do. */
  lemma FirstReply(s: System, to: Destination, slots: seq<Slot>, file: seq<Byte>, c: U32, from: nat, sent: seq<Post>,
                   after: System, reply: Reply)
    requires from < |file| && c > 0 && slots != []
    requires (after, reply) ==
             Exchange(After(s, slots[0].before), to, Chunk(file, from, Min(from + c, |file|)), slots[0].link)
    ensures var (end, m) := (Min(from + c, |file|), Meet(s, to, slots, file, c, from));
            var (post, u) := (Chunk(file, from, end), UploadFrom(file, c, m.replies, from, sent));
            match Judge(reply, post.range)
            case Refused => !u.ok && m.server == after
            case Finished => u.ok == (end == |file|) && m.server == after
            case Continue =>
              var m' := Meet(after, to, slots[1..], file, c, end);
              u == UploadFrom(file, c, m'.replies, end, sent + [post]) && m.server == m'.server
  {
    hide Exchange, After, Judge;
    var end := Min(from + c, |file|);
    if Judge(reply, Chunk(file, from, end).range) == Continue {
      var m := Meet(after, to, slots[1..], file, c, end);
      assert ([reply] + m.replies)[1..] == m.replies;
    }
  }

  lemma NoReplies(s: System, to: Destination, file: seq<Byte>, c: U32, from: nat, sent: seq<Post>)
    requires from < |file| && c > 0
    ensures !UploadFrom(file, c, Meet(s, to, [], file, c, from).replies, from, sent).ok
  {
  }

  /**
   * Upload safety: whatever gets lost, whatever the disk does and whatever other sessions ask between
   * the posts, as long as none uploads to the same file: success means that the stored file is the
   * source and that the session is over.
   */
  lemma {:induction false} UploadIsSafe(s: System, to: Destination, slots: seq<Slot>, file: seq<Byte>, c: U32,
                                        from: nat, sent: seq<Post>)
    requires from < |file| < FILE_LIMIT && c > 0
    requires Lockstep(s, to, file, c, from) && Apart(s, to) && Unrivalled(slots, to)
    ensures var m := Meet(s, to, slots, file, c, from);
            UploadFrom(file, c, m.replies, from, sent).ok ==> Delivered(m.server, to, file)
    decreases |file| - from
  {
    hide Exchange, Judge, Lockstep, After, Apart, Meet, UploadFrom;
    if slots == [] {
      NoReplies(s, to, file, c, from, sent);
    } else {
      var met := After(s, slots[0].before);
      WhileOthersAsk(s, slots[0].before, to);
      LockstepKept(s, met, to, file, c, from);
      var after, reply, verdict := ChunkVerdict(met, to, slots[0].link, file, c, from);
      FirstReply(s, to, slots, file, c, from, sent, after, reply);
      if verdict == Continue {
        OwnPost(met, to, Chunk(file, from, from + c), slots[0].link);
        UploadIsSafe(after, to, slots[1..], file, c, from + c, sent + [Chunk(file, from, from + c)]);
      }
    }
  }

  /** The server computes the right size for every chunk of a rest that follows the first one. */
  predicate CastsAgree(rest: nat, c: U32)
    requires c > 0
  {
    rest == 0 || (Min(c, Trunc32(rest)) == Min(c, rest) && CastsAgree(rest - Min(c, rest), c))
  }

  /** That is so exactly when the rest fits 32 bits: a larger one fails when it comes near 2^32. */
  lemma {:induction false} CastsAgreeBelow(rest: nat, c: U32)
    requires c > 0
    ensures CastsAgree(rest, c) <==> rest < TWO32
  {
    if rest > 0 {
      CastsAgreeBelow(rest - Min(c, rest), c);
    }
  }

  /** Every post gets through, as many as there are chunks; the others keep their directions. */
  ghost predicate NoFaults(slots: seq<Slot>, size: nat, c: U32, to: Destination, dirOf: string -> Direction)
    requires c > 0
  {
    && Chunks(size, c) <= |slots| && Unrivalled(slots, to)
    && forall i :: 0 <= i < |slots| ==> Healthy(slots[i].link) && TransferRuns.OneDirection(slots[i].before, dirOf)
  }

  lemma NoFaultsAfter(slots: seq<Slot>, size: nat, c: U32, to: Destination, dirOf: string -> Direction)
    requires c > 0 && size > 0 && NoFaults(slots, size, c, to, dirOf)
    ensures slots != [] && (size > c ==> NoFaults(slots[1..], size - c, c, to, dirOf))
  {
  }

  /** One post of a fault-free upload: it is refused exactly when the server computes another size. */
  lemma Heard(s: System, to: Destination, slots: seq<Slot>, file: seq<Byte>, c: U32, from: nat,
              dirOf: string -> Direction)
    returns (met: System, after: System, reply: Reply, verdict: Verdict)
    requires from < |file| < FILE_LIMIT && c > 0 && slots != [] && NoFaults(slots, |file| - from, c, to, dirOf)
    requires !HasDotDot(to.path) && (from == 0 ==> to.session !in s.sessions)
    requires Lockstep(s, to, file, c, from) && Apart(s, to) && Consistent(s, to, dirOf)
    ensures met == After(s, slots[0].before)
    ensures (after, reply) == Exchange(met, to, Chunk(file, from, Min(from + c, |file|)), slots[0].link)
    ensures verdict == Judge(reply, Range(from, Min(from + c, |file|) - 1, |file|))
    ensures verdict != Refused <==> SizeAgrees(file, c, from, Min(from + c, |file|))
    ensures verdict == Finished ==> from + c >= |file|
    ensures verdict == Continue ==>
              from + c < |file| && Lockstep(after, to, file, c, from + c) && Apart(after, to) &&
                Consistent(after, to, dirOf)
  {
    hide Exchange, Judge, Lockstep, After, Apart, SizeAgrees, HasDotDot, Healthy, Delivered, Chunk;
    met := After(s, slots[0].before);
    WhileOthersAsk(s, slots[0].before, to);
    LockstepKept(s, met, to, file, c, from);
    NobodyAborts(s, slots[0].before, to, dirOf);
    after, reply, verdict := ChunkVerdict(met, to, slots[0].link, file, c, from);
    OwnPost(met, to, Chunk(file, from, Min(from + c, |file|)), slots[0].link);
  }

  /** The server computes the right size for every chunk from `from` on. */
  predicate SizesAgree(file: seq<Byte>, c: U32, from: nat)
    requires c > 0 && from <= |file| < FILE_LIMIT
    decreases |file| - from
  {
    from == |file| ||
    (SizeAgrees(file, c, from, Min(from + c, |file|)) && SizesAgree(file, c, Min(from + c, |file|)))
  }

  /** A fault-free upload succeeds exactly when all sizes agree. */
  lemma {:induction false} SucceedsIfSizesAgree(s: System, to: Destination, slots: seq<Slot>, file: seq<Byte>, c: U32,
                                                from: nat, sent: seq<Post>, dirOf: string -> Direction)
    requires from < |file| < FILE_LIMIT && c > 0 && NoFaults(slots, |file| - from, c, to, dirOf)
    requires !HasDotDot(to.path) && (from == 0 ==> to.session !in s.sessions)
    requires Lockstep(s, to, file, c, from) && Apart(s, to) && Consistent(s, to, dirOf)
    ensures UploadFrom(file, c, Meet(s, to, slots, file, c, from).replies, from, sent).ok <==> SizesAgree(file, c, from)
    decreases |file| - from
  {
    hide Exchange, Judge, Lockstep, After, Apart, Consistent, Meet, UploadFrom, NoFaults, SizeAgrees;
    NoFaultsAfter(slots, |file| - from, c, to, dirOf);
    var met, after, reply, verdict := Heard(s, to, slots, file, c, from, dirOf);
    FirstReply(s, to, slots, file, c, from, sent, after, reply);
    if verdict == Continue {
      SucceedsIfSizesAgree(after, to, slots[1..], file, c, from + c, sent + [Chunk(file, from, from + c)], dirOf);
    }
  }

  lemma {:induction false} SizesAfterFirst(file: seq<Byte>, c: U32, from: nat)
    requires c > 0 && 0 < from <= |file| < FILE_LIMIT
    ensures SizesAgree(file, c, from) <==> CastsAgree(|file| - from, c)
    decreases |file| - from
  {
    if from < |file| {
      SizesAfterFirst(file, c, Min(from + c, |file|));
    }
  }

  /** That is so exactly if the first window has at least two bytes and the rest fits 32 bits. */
  lemma SizesAgreeBelow(file: seq<Byte>, c: U32)
    requires c > 0 && 0 < |file| < FILE_LIMIT
    ensures SizesAgree(file, c, 0) <==> |file| >= 2 && c >= 2 && |file| < TWO32 + c
  {
    var end := Min(c, |file|);
    SizesAfterFirst(file, c, end);
    CastsAgreeBelow(|file| - end, c);
    hide CastsAgree;
  }

  lemma FreshLockstep(s: System, to: Destination, file: seq<Byte>, c: U32)
    requires 0 < |file| < FILE_LIMIT && c > 0 && to.session !in s.sessions
    ensures Lockstep(s, to, file, c, 0)
  {
  }

  /**
   * Upload end to end without faults, on a fresh session, with any requests of other sessions between
   * the posts that keep to one direction each and to other files: success exactly when the file and
   * the chunk have at least two bytes and the file stays below 2^32 plus one chunk (the 32-bit cast
   * of the server). Then one post a chunk was made, the stored file is the source and the session is
   * gone.
   */
  lemma UploadExact(s: System, to: Destination, slots: seq<Slot>, file: seq<Byte>, chunkSize: U32,
                    dirOf: string -> Direction)
    requires 0 < |file| < FILE_LIMIT && NoFaults(slots, |file|, Effective(chunkSize), to, dirOf)
    requires to.session !in s.sessions && !HasDotDot(to.path) && Apart(s, to) && Consistent(s, to, dirOf)
    ensures var c := Effective(chunkSize);
            var m := Meet(s, to, slots, file, c, 0);
            var u := UploadFrom(file, c, m.replies, 0, []);
            && (u.ok <==> |file| >= 2 && c >= 2 && |file| < TWO32 + c)
            && (u.ok ==> |u.sent| == Chunks(|file|, c) && Delivered(m.server, to, file))
  {
    hide UploadFrom, Meet, Apart, Consistent, Lockstep, SizesAgree;
    var c := Effective(chunkSize);
    FreshLockstep(s, to, file, c);
    SucceedsIfSizesAgree(s, to, slots, file, c, 0, [], dirOf);
    SizesAgreeBelow(file, c);
    UploadIsSafe(s, to, slots, file, c, 0, []);
    var _, _ := AnyServer(file, c, Meet(s, to, slots, file, c, 0).replies, 0, []);
  }
}
