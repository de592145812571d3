// What holds over whole runs of the transfer server: exact windows, directions, the end of a
// failed session, and the independence of sessions.

module TransferRuns {
  import opened Words
  import opened ContentRange
  import opened Transfer

  ghost predicate Fresh(s: System) {
    s.sessions == map[] && !s.aborted
  }

  // ---- Exactness of uploads ----

  /**
   * From the rest of the data on, each body the server accepts is its whole window, or it accepts
   * none: the size of a body is computed with the rest cut to 32 bits.
   */
  predicate Narrow(rest: nat, c: U32)
    requires c > 0
  {
    rest == 0 ||
    var w := Min(c, Trunc32(rest));
    w == 0 || (w == Min(c, rest) && Narrow(rest - w, c))
  }

  /** A first range that leads to exact windows only, as its three numbers tell. */
  predicate Regular(r: Range) {
    var c := r.max + 1;
    || c % TWO32 == 0
    || (c < TWO32 && (r.size < TWO32 + c || (r.size - c) % TWO32 % c == 0))
  }

  /** The request opens no upload with another kind of range. */
  predicate Opens(e: Event) {
    var r := ParseHeader(e.req.range);
    e.dir == Up && r.Some? && OpensUpload(r.value)
  }

  ghost predicate RegularSizes(es: seq<Event>) {
    forall i :: 0 <= i < |es| && Opens(es[i]) ==> Regular(ParseHeader(es[i].req.range).value)
  }

  lemma AtLeastOnce(k: int, c: nat)
    requires k >= 1
    ensures k * c >= c
  {
  }

  lemma SameRemainder(p: int, n: nat, q: int, m: nat, c: nat)
    requires n < c && m < c && p * c + n == q * c + m
    ensures m == n
  {
    if p > q {
      assert (p - q) * c == p * c - q * c;
      AtLeastOnce(p - q, c);
    } else if q > p {
      assert (q - p) * c == q * c - p * c;
      AtLeastOnce(q - p, c);
    }
  }

  lemma Divides(a: nat, c: nat) returns (q: nat)
    requires c > 0
    ensures a == q * c + a % c
  {
    q := a / c;
  }

  lemma ModAfterStep(a: nat, c: nat)
    requires 0 < c <= a
    ensures (a - c) % c == a % c
  {
    var q := Divides(a, c);
    var p := Divides(a - c, c);
    assert (p + 1) * c == p * c + c;
    SameRemainder(p + 1, (a - c) % c, q, a % c, c);
  }

  lemma SmallRemainder(a: nat, c: nat)
    requires 0 < c
    ensures a < c ==> a % c == a
  {
    if a < c {
      var q := Divides(a, c);
      SameRemainder(q, a % c, 0, a, c);
    }
  }

  lemma {:induction false} NarrowBelow(rest: nat, c: U32)
    requires c > 0 && rest < TWO32
    ensures Narrow(rest, c)
    decreases rest
  {
    if rest > 0 {
      NarrowBelow(rest - Min(c, rest), c);
    }
  }

  /** A body shorter than its window comes next. */
  lemma ShortStep(rest: nat, c: U32)
    requires rest >= TWO32 && Trunc32(rest) < c
    ensures Narrow(rest, c) <==> Trunc32(rest) == 0
  {
  }

  /** The walk from chunk to chunk ends well below 2^32, or where nothing is left above a multiple of it. */
  lemma {:induction false} NarrowIs(rest: nat, c: U32)
    requires c > 0
    ensures Narrow(rest, c) <==> rest < TWO32 || Trunc32(rest) % c == 0
    decreases rest
  {
    hide Narrow;
    if rest < TWO32 {
      NarrowBelow(rest, c);
    } else if Trunc32(rest) >= c {
      FullStep(rest, c);
      NarrowIs(rest - c, c);
      ModAfterStep(Trunc32(rest), c);
    } else {
      ShortStep(rest, c);
      SmallRemainder(Trunc32(rest), c);
    }
  }

  /** Above 2^32, a chunk that fits the low 32 bits of the rest leaves their upper part alone. */
  lemma FullStep(rest: nat, c: U32)
    requires rest >= TWO32 && 0 < c <= Trunc32(rest)
    ensures rest - c >= TWO32 && Trunc32(rest - c) == Trunc32(rest) - c
    ensures Narrow(rest, c) == Narrow(rest - c, c)
  {
  }

  /** The bodies the server accepted for `id`, since its last first request. */
  function Accepted(s: System, es: seq<Event>, id: string): seq<Byte> {
    if es == [] then [] else
      var before := Accepted(s, es[..|es| - 1], id);
      var e := es[|es| - 1];
      var r := ParseHeader(e.req.range);
      if e.dir == Up && e.req.session == id && Answer(s, es).Accepts() && r.Some? then
        if r.value.min == 0 then e.req.body else before + e.req.body
      else before
  }

  /** A window inside the data, as large as the chunk allows, at the file position. */
  predicate Windowed(t: Session) {
    && t.min <= t.max < t.size
    && 0 < t.chunk && t.max == Min(t.min + t.chunk, t.size) - 1
    && t.pos == t.min
  }

  /** From `rest` bytes before the end on, only exact bodies are accepted, and the window never wraps. */
  predicate Steady(t: Session, rest: nat)
    requires t.chunk > 0
  {
    Narrow(rest, t.chunk) && (t.size < TWO32 + t.chunk || rest >= TWO32)
  }

  ghost predicate ExactWindow(t: Session) {
    Windowed(t) && Steady(t, t.size - t.min)
  }

  ghost predicate ExactUpload(s: Option<Session>) {
    s.Some? && s.value.dir == Up ==> ExactWindow(s.value) && 0 < s.value.min
  }

  /** The body is exactly the window; the next window starts where it ends, or the data is complete. */
  ghost predicate ExactOutcome(o: Outcome, min: nat, r: Range, body: seq<Byte>) {
    && ExactUpload(o.session)
    && (o.res.Accepts() ==>
          && r.min == min && |body| == r.max - r.min + 1 && r.max < r.size
          && (o.res.status == OK_200 <==> r.max + 1 == r.size))
    && (o.session.Some? && o.session.value.dir == Up <==> o.res.Accepts() && o.res.status == PartialContent_206)
    && (o.session.Some? && o.session.value.dir == Up ==>
          o.session.value.min == r.max + 1 && o.session.value.size == r.size)
  }

  lemma ExactReceive(t: Session, size: U64, files: Files, r: Range, body: seq<Byte>, disk: Disk)
    requires Fits(r, TWO64 - 1)
    requires t.dir == Up && Windowed(t) && r == Range(t.min, t.max, t.size)
    requires size == Min(t.chunk, t.size - t.min) && Steady(t, t.size - t.min - size)
    ensures ExactOutcome(Receive(t, size, files, r, body, disk), t.min, r, body)
  {
    hide Narrow, Advance, Rewritten, Header;
    if size == |body| && disk.works && r.max < t.size - 1 {
      ExactPartial(t, size);
    }
    hide Steady, Windowed;
  }

  /** After a chunk that is not the last, the walk goes on behind it. */
  lemma ExactPartial(t: Session, size: U64)
    requires t.dir == Up && Windowed(t) && t.max < t.size - 1
    requires size == Min(t.chunk, t.size - t.min) && Steady(t, t.size - t.min - size)
    ensures var next := Advance(t.(pos := t.pos + size), size);
            next.dir == Up && ExactWindow(next) && next.min == t.max + 1 && next.size == t.size
  {
    hide Narrow;
    assert t.max + size < TWO64;
    NextWindowed(t, size);
  }

  lemma NextWindowed(t: Session, size: U64)
    requires Windowed(t) && t.max < t.size - 1 && size == t.chunk && t.max + size < TWO64
    ensures var next := Advance(t.(pos := t.pos + size), size);
            Windowed(next) && next == t.(min := t.max + 1, max := next.max, pos := t.max + 1)
  {
  }

  /** An empty body is never stored. */
  lemma EmptyRefused(t: Session, files: Files, r: Range, body: seq<Byte>, disk: Disk, min: nat)
    ensures ExactOutcome(Receive(t, 0, files, r, body, disk), min, r, body)
  {
  }

  /** A regular first range starts a steady walk. */
  lemma FirstIsSteady(t: Session)
    requires 0 <= t.max < t.size && Regular(Range(0, t.max, t.size)) && t.chunk == Trunc32(t.max + 1) > 0
    ensures t.chunk == t.max + 1 && Steady(t, t.size - t.chunk)
  {
    NarrowIs(t.size - t.chunk, t.chunk);
  }

  /** The next body of a steady walk is none, or its whole window, and the walk stays steady. */
  lemma NextIsSteady(t: Session)
    requires ExactWindow(t)
    ensures var w := Min(t.chunk, Trunc32(Sub64(t.size, t.min)));
            w == 0 || (w == Min(t.chunk, t.size - t.min) && Steady(t, t.size - t.min - w))
  {
  }

  lemma ExactStep(s: Option<Session>, files: Files, path: string, r: Range, body: seq<Byte>, disk: Disk)
    requires Fits(r, TWO64 - 1) && (OpensUpload(r) ==> Regular(r))
    requires ExactUpload(s)
    ensures ExactOutcome(ServeUpload(s, files, path, r, body, disk), if s.None? then 0 else s.value.min, r, body)
  {
    hide Steady, Regular;
    if s.None? {
      if OpensUpload(r) && disk.opens {
        var t := Session(Up, 0, r.max, r.size, Trunc32(Add64(r.max, 1)), path, 0);
        if t.chunk == 0 {
          EmptyRefused(t, files[path := []], r, body, disk, 0);
        } else {
          FirstIsSteady(t);
          ExactReceive(t, Min(r.size, t.chunk), files[path := []], r, body, disk);
        }
      }
    } else if s.value.dir == Up && Expected(s.value, r) {
      var t := s.value;
      NextIsSteady(t);
      var w := Min(t.chunk, Trunc32(Sub64(t.size, t.min)));
      if w == 0 {
        EmptyRefused(t, files, r, body, disk, t.min);
      } else {
        ExactReceive(t, w, files, r, body, disk);
      }
    }
  }

  /** A request keeps the direction of a session, or gives it its own. */
  lemma ServeDirection(s: Option<Session>, files: Files, e: Event, r: Option<Range>)
    requires r.Some? ==> Fits(r.value, TWO64 - 1)
    ensures var o := ServeRange(s, files, e, r);
            && (o.session.Some? ==> o.session.value.dir == if s.Some? then s.value.dir else e.dir)
            && (o.res == Abort ==> s.Some? && s.value.dir != e.dir)
            && (s.Some? && s.value.dir != e.dir ==> o.session == s && !o.res.Accepts())
  {
    hide Rewritten, Window, Header, Readable;
  }

  lemma ExactServe(s: Option<Session>, files: Files, e: Event, r: Option<Range>)
    requires r.Some? ==> Fits(r.value, TWO64 - 1)
    requires e.dir == Up && r.Some? && OpensUpload(r.value) ==> Regular(r.value)
    requires ExactUpload(s)
    ensures ExactUpload(ServeRange(s, files, e, r).session)
    ensures e.dir == Up && r.Some? && !HasDotDot(e.req.path) ==>
              ExactOutcome(ServeRange(s, files, e, r), if s.None? then 0 else s.value.min, r.value, e.req.body)
    ensures e.dir == Down || r.None? || HasDotDot(e.req.path) ==>
              var o := ServeRange(s, files, e, r);
              && (o.session == s || (o.session.Some? ==> o.session.value.dir == Down))
              && (e.dir == Up ==> !o.res.Accepts())
  {
    ServeDirection(s, files, e, r);
    if e.dir == Up && r.Some? && !HasDotDot(e.req.path) {
      ExactStep(s, files, e.req.path, r.value, e.req.body, e.disk);
    }
  }

  /**
   * From a fresh server, whatever the requests, when every first range is regular: each live upload
   * expects exactly the bytes after those it accepted, which are the bytes written through its handle.
   */
  lemma {:induction false} ExactWindows(s: System, es: seq<Event>, id: string)
    requires Fresh(s) && RegularSizes(es)
    ensures ExactUpload(After(s, es).Of(id))
    ensures var t := After(s, es).Of(id);
            t.Some? && t.value.dir == Up ==> t.value.min == |Accepted(s, es, id)|
  {
    if es != [] {
      var n := |es| - 1;
      var (before, e) := (After(s, es[..n]), es[n]);
      ExactWindows(s, es[..n], id);
      if !before.aborted && e.req.session == id {
        assert Opens(es[n]) ==> Regular(ParseHeader(es[n].req.range).value);
        ExactServe(before.Of(id), before.files, e, ParseHeader(e.req.range));
      }
    }
  }

  /**
   * When every first range is regular, an accepted upload request carries exactly the bytes that
   * follow those accepted before it, no gap and no overlap, and 200 is answered exactly when they
   * reach the announced size.
   */
  lemma ExactAnswers(s: System, es: seq<Event>)
    requires Fresh(s) && RegularSizes(es)
    requires es != [] && es[|es| - 1].dir == Up && Answer(s, es).Accepts()
    ensures var n := |es| - 1;
            var (id, r) := (es[n].req.session, ParseHeader(es[n].req.range));
            && r.Some?
            && (r.value.min == 0 || r.value.min == |Accepted(s, es[..n], id)|)
            && |es[n].req.body| == r.value.max - r.value.min + 1
            && |Accepted(s, es, id)| == r.value.max + 1 <= r.value.size
            && (Answer(s, es).status == OK_200 <==> |Accepted(s, es, id)| == r.value.size)
            && (After(s, es).Of(id).Some? <==> Answer(s, es).status == PartialContent_206)
  {
    var n := |es| - 1;
    var (before, e) := (After(s, es[..n]), es[n]);
    var id := e.req.session;
    ExactWindows(s, es[..n], id);
    assert Opens(es[n]) ==> Regular(ParseHeader(es[n].req.range).value);
    var r := ParseHeader(e.req.range);
    ExactServe(before.Of(id), before.files, e, r);
    ServeDirection(before.Of(id), before.files, e, r);
    assert r.value.min == if before.Of(id).None? then 0 else before.Of(id).value.min;
  }

  // ---- Directions ----

  /** No id is used for both an upload and a download. */
  ghost predicate OneDirection(es: seq<Event>, dirOf: string -> Direction) {
    forall i :: 0 <= i < |es| ==> es[i].dir == dirOf(es[i].req.session)
  }

  /** Then no assert of the handlers fails and each live session has the direction of its id. */
  lemma {:induction false} DirectionsKept(s: System, es: seq<Event>, dirOf: string -> Direction)
    requires Fresh(s) && OneDirection(es, dirOf)
    ensures !After(s, es).aborted
    ensures forall id <- After(s, es).sessions :: After(s, es).sessions[id].dir == dirOf(id)
    ensures es != [] ==> Answer(s, es) != Abort
  {
    if es != [] {
      var n := |es| - 1;
      DirectionsKept(s, es[..n], dirOf);
      var (before, e) := (After(s, es[..n]), es[n]);
      assert e.dir == dirOf(e.req.session);
      ServeDirection(before.Of(e.req.session), before.files, e, ParseHeader(e.req.range));
    }
  }

  // ---- The end of a failed session ----

  /**
   * A request of `id` whose three numbers are not those of a first request: for an upload 0, a last
   * byte that is not 0 and a size beyond it; for a download 0, a last byte that is not 0 and no size.
   */
  predicate Unopening(e: Event, id: string) {
    var r := ParseHeader(e.req.range);
    e.req.session == id && r.Some? ==>
      || r.value.min != 0 || r.value.max == 0
      || if e.dir == Up then r.value.size == 0 || r.value.size <= r.value.max else r.value.size != 0
  }

  lemma UnopeningRefused(files: Files, e: Event)
    requires Unopening(e, e.req.session)
    ensures Serve(None, files, e).session == None && Serve(None, files, e).files == files
    ensures !Serve(None, files, e).res.Accepts()
  {
  }

  /**
   * Once gone, a session stays gone and none of its requests is accepted, upload or download, until
   * one of them has the numbers of a first request, whatever happens to the others meanwhile.
   */
  lemma {:induction false} EndedForGood(s: System, es: seq<Event>, id: string)
    requires id !in s.sessions
    requires forall i :: 0 <= i < |es| ==> Unopening(es[i], id)
    ensures id !in After(s, es).sessions
    ensures es != [] && es[|es| - 1].req.session == id ==> !Answer(s, es).Accepts()
  {
    hide Serve, ParseHeader;
    if es != [] {
      var n := |es| - 1;
      EndedForGood(s, es[..n], id);
      assert Unopening(es[n], id);
      if es[n].req.session == id {
        UnopeningRefused(After(s, es[..n]).files, es[n]);
      }
    }
  }

  /** Any error answered to an understood request, upload or download, ends its session. */
  lemma ErrorEnds(s: System, e: Event)
    requires !s.aborted && !HasDotDot(e.req.path) && ParseHeader(e.req.range).Some?
    requires Step(s, e).1.Response? && !Step(s, e).1.Accepts()
    ensures e.req.session !in Step(s, e).0.sessions
  {
    var r := ParseHeader(e.req.range);
    assert ServeRange(s.Of(e.req.session), s.files, e, r).session.None?;
    hide ServeRange, ParseHeader;
  }

  // ---- Isolation ----

  /** The requests of one session, in order. */
  function Alone(es: seq<Event>, id: string): seq<Event> {
    if es == [] then [] else
      Alone(es[..|es| - 1], id) + if es[|es| - 1].req.session == id then [es[|es| - 1]] else []
  }

  /** The answers one session gets during a run. */
  function Answers(s: System, es: seq<Event>, id: string): seq<Response> {
    if es == [] then [] else
      Answers(s, es[..|es| - 1], id) + if es[|es| - 1].req.session == id then [Answer(s, es)] else []
  }

  /** The paths the requests of one session name. */
  function Paths(es: seq<Event>, id: string): set<string> {
    set i | 0 <= i < |es| && es[i].req.session == id :: es[i].req.path
  }

  predicate SameFile(a: Files, b: Files, path: string) {
    if path in a then path in b && a[path] == b[path] else path !in b
  }

  /** No upload of another session writes one of the paths of `id`. */
  ghost predicate Unshared(es: seq<Event>, id: string, paths: set<string>) {
    forall i :: 0 <= i < |es| ==>
      if es[i].req.session == id then es[i].req.path in paths
      else es[i].dir == Up ==> es[i].req.path !in paths
  }

  /** The session `id` cannot tell the two servers apart. */
  ghost predicate Alike(full: System, solo: System, id: string, paths: set<string>) {
    && full.Of(id) == solo.Of(id)
    && (id in full.sessions ==> full.sessions[id].path in paths)
    && (forall p <- paths :: SameFile(full.files, solo.files, p))
    && (forall o <- full.sessions :: o != id && full.sessions[o].dir == Up ==> full.sessions[o].path !in paths)
  }

  /** Two outcomes the session cannot tell apart, on files that agree wherever they did before. */
  ghost predicate SameOutcome(x: Outcome, y: Outcome, a: Files, b: Files) {
    && x.session == y.session && x.res == y.res
    && forall p :: SameFile(a, b, p) ==> SameFile(x.files, y.files, p)
  }

  lemma LocalReceive(t: Session, size: U64, a: Files, b: Files, r: Range, body: seq<Byte>, disk: Disk)
    requires SameFile(a, b, t.path)
    ensures SameOutcome(Receive(t, size, a, r, body, disk), Receive(t, size, b, r, body, disk), a, b)
  {
  }

  lemma LocalSend(t: Session, size: U64, a: Files, b: Files, r: Range, disk: Disk)
    requires SameFile(a, b, t.path)
    ensures SameOutcome(Send(t, size, a, r, disk), Send(t, size, b, r, disk), a, b)
  {
  }

  lemma LocalUpload(s: Option<Session>, a: Files, b: Files, path: string, r: Range, body: seq<Byte>, disk: Disk)
    requires Fits(r, TWO64 - 1)
    requires SameFile(a, b, if s.Some? then s.value.path else path)
    ensures SameOutcome(ServeUpload(s, a, path, r, body, disk), ServeUpload(s, b, path, r, body, disk), a, b)
  {
    if s.None? {
      var t := Session(Up, 0, r.max, r.size, Trunc32(Add64(r.max, 1)), path, 0);
      var (a', b') := (a[path := []], b[path := []]);
      assert forall p :: SameFile(a, b, p) ==> SameFile(a', b', p);
      LocalReceive(t, Min(r.size, t.chunk), a', b', r, body, disk);
    } else {
      var t := s.value;
      LocalReceive(t, Min(t.chunk, Trunc32(Sub64(t.size, t.min))), a, b, r, body, disk);
    }
  }

  lemma LocalDownload(s: Option<Session>, a: Files, b: Files, path: string, r: Range, disk: Disk)
    requires Fits(r, TWO64 - 1)
    requires SameFile(a, b, if s.Some? then s.value.path else path)
    ensures SameOutcome(ServeDownload(s, a, path, r, disk), ServeDownload(s, b, path, r, disk), a, b)
  {
    if s.Some? {
      var t := s.value;
      LocalSend(t, Min(t.chunk, Trunc32(Sub64(t.size, t.min))), a, b, r, disk);
    } else if path in a {
      var size := |a[path]| % TWO64;
      var chunk := Trunc32(Add64(r.max, 1));
      var whole := size <= chunk;
      var t := Session(Down, 0, if whole then Sub64(size, 1) else r.max, size, chunk, path, 0);
      LocalSend(t, if whole then size else chunk, a, b, r, disk);
    }
  }

  /** The step of a session reads and writes only the file of that session. */
  lemma LocalStep(s: Option<Session>, a: Files, b: Files, e: Event, r: Option<Range>)
    requires r.Some? ==> Fits(r.value, TWO64 - 1)
    requires SameFile(a, b, if s.Some? then s.value.path else e.req.path)
    ensures SameOutcome(ServeRange(s, a, e, r), ServeRange(s, b, e, r), a, b)
  {
    if r.Some? {
      LocalUpload(s, a, b, e.req.path, r.value, e.req.body, e.disk);
      LocalDownload(s, a, b, e.req.path, r.value, e.disk);
    }
  }

  /** The file of a session stays the one it named first. */
  lemma PathKept(s: Option<Session>, files: Files, e: Event, r: Option<Range>)
    requires r.Some? ==> Fits(r.value, TWO64 - 1)
    ensures var o := ServeRange(s, files, e, r);
            o.session.Some? ==> o.session.value.path == if s.Some? then s.value.path else e.req.path
  {
  }

  /** An upload changes only the file of its session, a download none. */
  lemma OtherFilesKept(s: Option<Session>, files: Files, e: Event, r: Option<Range>, p: string)
    requires r.Some? ==> Fits(r.value, TWO64 - 1)
    requires s.Some? ==> s.value.dir == e.dir
    requires e.dir == Up ==> p != (if s.Some? then s.value.path else e.req.path)
    ensures SameFile(ServeRange(s, files, e, r).files, files, p)
  {
  }

  /** A request of the session itself, on both servers. */
  lemma OwnRequest(full: System, solo: System, e: Event, id: string, paths: set<string>)
    requires Alike(full, solo, id, paths) && !full.aborted && !solo.aborted
    requires e.req.session == id && e.req.path in paths
    ensures Step(full, e).1 == Step(solo, e).1
    ensures Alike(Step(full, e).0, Step(solo, e).0, id, paths)
  {
    var (s, r) := (full.Of(id), ParseHeader(e.req.range));
    LocalStep(s, full.files, solo.files, e, r);
    PathKept(s, full.files, e, r);
  }

  /** A request of another session, which only the full server gets. */
  lemma OtherRequest(full: System, solo: System, e: Event, id: string, paths: set<string>)
    requires Alike(full, solo, id, paths) && !full.aborted
    requires e.req.session != id && (e.dir == Up ==> e.req.path !in paths)
    requires e.req.session in full.sessions ==> full.sessions[e.req.session].dir == e.dir
    ensures Alike(Step(full, e).0, solo, id, paths)
  {
    var (s, r) := (full.Of(e.req.session), ParseHeader(e.req.range));
    PathKept(s, full.files, e, r);
    ServeDirection(s, full.files, e, r);
    forall p <- paths ensures SameFile(Step(full, e).0.files, solo.files, p) {
      OtherFilesKept(s, full.files, e, r, p);
    }
  }

  lemma {:induction false} AlikeRuns(s: System, es: seq<Event>, id: string, paths: set<string>,
                                     dirOf: string -> Direction)
    requires Fresh(s) && OneDirection(es, dirOf) && Unshared(es, id, paths)
    ensures OneDirection(Alone(es, id), dirOf)
    ensures Alike(After(s, es), After(s, Alone(es, id)), id, paths)
    ensures Answers(s, es, id) == Answers(s, Alone(es, id), id)
  {
    if es != [] {
      var n := |es| - 1;
      var (es0, e) := (es[..n], es[n]);
      var (full, solo) := (After(s, es0), After(s, Alone(es0, id)));
      AlikeRuns(s, es0, id, paths, dirOf);
      DirectionsKept(s, es0, dirOf);
      DirectionsKept(s, Alone(es0, id), dirOf);
      assert e.dir == dirOf(e.req.session);
      if e.req.session == id {
        OwnRequest(full, solo, e, id, paths);
        assert Alone(es, id)[..|Alone(es0, id)|] == Alone(es0, id);
      } else {
        OtherRequest(full, solo, e, id, paths);
        assert Alone(es, id) == Alone(es0, id);
      }
    }
  }

  /**
   * Session isolation: however the requests interleave, a session whose paths no other session
   * uploads to gets the answers, and leaves the files, of a run in which it is alone.
   */
  lemma SessionIsolation(s: System, es: seq<Event>, id: string, dirOf: string -> Direction)
    requires Fresh(s) && OneDirection(es, dirOf)
    requires forall i, j ::
               0 <= i < |es| && 0 <= j < |es| &&
               es[i].req.session == id && es[j].req.session != id && es[j].dir == Up ==>
                 es[i].req.path != es[j].req.path
    ensures Answers(s, es, id) == Answers(s, Alone(es, id), id)
    ensures After(s, es).Of(id) == After(s, Alone(es, id)).Of(id)
    ensures forall p <- Paths(es, id) :: SameFile(After(s, es).files, After(s, Alone(es, id)).files, p)
  {
    AlikeRuns(s, es, id, Paths(es, id), dirOf);
  }

  // ---- What an upload stores ----

  /** The file of a live upload holds exactly the bytes accepted so far. */
  ghost predicate Holds(s: Option<Session>, files: Files, bytes: seq<Byte>) {
    s.Some? ==> s.value.path in files && files[s.value.path] == bytes
  }

  lemma AppendAtEnd(file: seq<Byte>, data: seq<Byte>)
    ensures WriteAt(file, |file|, data) == file + data
  {
  }

  /** The file of an upload after an accepted body is the earlier bytes and the body. */
  lemma UploadAppends(s: Option<Session>, files: Files, path: string, r: Range, body: seq<Byte>, disk: Disk,
                      bytes: seq<Byte>)
    requires Fits(r, TWO64 - 1)
    requires s.Some? ==> s.value.dir == Up && s.value.pos == |bytes|
    requires Holds(s, files, bytes)
    ensures var o := ServeUpload(s, files, path, r, body, disk);
            var p := if s.Some? then s.value.path else path;
            o.res.Accepts() ==> p in o.files && o.files[p] == (if s.Some? then bytes else []) + body
  {
    AppendAtEnd(if s.Some? then bytes else [], body);
  }

  /**
   * When every first range is regular, no id is used in both directions and no other session uploads
   * to its paths, an upload stores exactly what was accepted: while it is live, and after the answer
   * that ends it with success.
   */
  lemma {:induction false} StoredExactly(s: System, es: seq<Event>, id: string, paths: set<string>,
                                         dirOf: string -> Direction)
    requires Fresh(s) && RegularSizes(es) && OneDirection(es, dirOf) && dirOf(id) == Up
    requires Unshared(es, id, paths)
    ensures Holds(After(s, es).Of(id), After(s, es).files, Accepted(s, es, id))
    ensures After(s, es).Of(id).Some? ==> After(s, es).Of(id).value.path in paths
    ensures es != [] && es[|es| - 1].req.session == id && Answer(s, es).Accepts() ==>
              var before := After(s, es[..|es| - 1]).Of(id);
              var p := if before.Some? then before.value.path else es[|es| - 1].req.path;
              p in After(s, es).files && After(s, es).files[p] == Accepted(s, es, id)
  {
    if es != [] {
      var n := |es| - 1;
      var (before, e) := (After(s, es[..n]), es[n]);
      var r := ParseHeader(e.req.range);
      StoredExactly(s, es[..n], id, paths, dirOf);
      DirectionsKept(s, es[..n], dirOf);
      ExactWindows(s, es[..n], id);
      assert e.dir == dirOf(e.req.session);
      PathKept(before.Of(e.req.session), before.files, e, r);
      if e.req.session == id {
        StoreOwn(before.Of(id), before.files, e, r, Accepted(s, es[..n], id));
      } else if before.Of(id).Some? {
        OtherUploadsElsewhere(s, es[..n], id, paths, dirOf);
        OtherFilesKept(before.Of(e.req.session), before.files, e, r, before.Of(id).value.path);
      }
    }
  }

  lemma StoreOwn(s: Option<Session>, files: Files, e: Event, r: Option<Range>, bytes: seq<Byte>)
    requires r.Some? ==> Fits(r.value, TWO64 - 1)
    requires e.dir == Up && (r.Some? && OpensUpload(r.value) ==> Regular(r.value))
    requires s.Some? ==> s.value.dir == Up && s.value.min == |bytes|
    requires ExactUpload(s) && Holds(s, files, bytes)
    ensures var o := ServeRange(s, files, e, r);
            var p := if s.Some? then s.value.path else e.req.path;
            if o.res.Accepts() && r.Some? then
              p in o.files && o.files[p] == if r.value.min == 0 then e.req.body else bytes + e.req.body
            else o.session.Some? ==> o.session == s && o.files == files
    ensures var o := ServeRange(s, files, e, r); o.res.Accepts() ==> r.Some?
  {
    ExactServe(s, files, e, r);
    if r.Some? && !HasDotDot(e.req.path) {
      UploadAppends(s, files, e.req.path, r.value, e.req.body, e.disk, bytes);
    }
  }

  lemma OtherUploadsElsewhere(s: System, es: seq<Event>, id: string, paths: set<string>, dirOf: string -> Direction)
    requires Fresh(s) && OneDirection(es, dirOf) && Unshared(es, id, paths)
    ensures forall o <- After(s, es).sessions :: o != id && After(s, es).sessions[o].dir == Up ==>
              After(s, es).sessions[o].path !in paths
  {
    AlikeRuns(s, es, id, paths, dirOf);
  }
}
