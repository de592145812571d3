// Uploads whose size does not survive the 32-bit casts of the server (tests/src/ut_webapp.cpp): for
// every first range that is not regular there are requests whose bodies the server accepts although
// they are shorter than the range they announce.

module IrregularUploads {
  import opened Words
  import opened ContentRange
  import opened Transfer
  import opened TransferRuns
  import UploadClient
  import opened UploadProtocol

  const WORKS := Disk(true, true, 0)

  /** An upload request on a disk that works. */
  function Posting(to: Destination, r: Range, body: seq<Byte>): Event {
    Wire(to, UploadClient.Post(r, body), WORKS)
  }

  function Zeros(n: nat): (body: seq<Byte>)
    ensures |body| == n
  {
    seq(n, _ => 0)
  }

  /** If the last request of the run is an upload that is accepted, its body is as long as its range. */
  ghost predicate ExactBody(s: System, es: seq<Event>) {
    es != [] && es[|es| - 1].dir == Up && Answer(s, es).Accepts() ==>
      var (r, body) := (ParseHeader(es[|es| - 1].req.range), es[|es| - 1].req.body);
      r.Some? && |body| == r.value.max - r.value.min + 1
  }

  /** Every upload the run may open announces this range. */
  ghost predicate OpensOnly(es: seq<Event>, r: Range) {
    forall i :: 0 <= i < |es| && Opens(es[i]) ==> ParseHeader(es[i].req.range) == Some(r)
  }

  lemma AfterMore(s: System, es: seq<Event>, e: Event)
    ensures After(s, es + [e]) == Step(After(s, es), e).0
    ensures Answer(s, es + [e]) == Step(After(s, es), e).1
  {
    assert (es + [e])[..|es|] == es;
  }

  /** A request that opens nothing, or with the range of the run. */
  lemma OpensMore(es: seq<Event>, to: Destination, r: Range, body: seq<Byte>, first: Range)
    requires OpensOnly(es, first) && Fits(r, TWO64 - 1) && (r.min != 0 || r == first)
    ensures OpensOnly(es + [Posting(to, r, body)], first)
  {
    HeaderRoundTrip(r);
    hide Header, ParseHeader;
  }

  lemma Stumbles(s: System, es: seq<Event>, to: Destination, r: Range, body: seq<Byte>)
    requires Fits(r, TWO64 - 1) && Step(After(s, es), Posting(to, r, body)).1.Accepts()
    requires |body| < r.max - r.min + 1
    ensures !ExactBody(s, es + [Posting(to, r, body)])
  {
    HeaderRoundTrip(r);
    AfterMore(s, es, Posting(to, r, body));
    hide Step, Header, ParseHeader, After, Answer;
  }

  /** The window of a session, with as many bytes as the server asks for, is accepted. */
  lemma WindowServed(t: Session, files: Files, path: string)
    requires t.dir == Up && Windowed(t)
    requires t.size - t.min >= TWO32 && Trunc32(t.size - t.min) != 0
    ensures var w := Min(t.chunk, Trunc32(t.size - t.min));
            var o := ServeUpload(Some(t), files, path, Range(t.min, t.max, t.size), Zeros(w), WORKS);
            o.res.Accepts() && o.session == Some(Advance(t.(pos := t.pos + w), w))
  {
    hide Advance, Rewritten, Window;
  }

  lemma WindowPosted(s: System, to: Destination, t: Session) returns (e: Event)
    requires !s.aborted && s.Of(to.session) == Some(t) && t.dir == Up && Windowed(t) && !HasDotDot(to.path)
    requires t.size - t.min >= TWO32 && Trunc32(t.size - t.min) != 0
    ensures var w := Min(t.chunk, Trunc32(t.size - t.min));
            && e == Posting(to, Range(t.min, t.max, t.size), Zeros(w))
            && Step(s, e).1.Accepts() && !Step(s, e).0.aborted
            && Step(s, e).0.Of(to.session) == Some(Advance(t.(pos := t.pos + w), w))
  {
    var (w, r) := (Min(t.chunk, Trunc32(t.size - t.min)), Range(t.min, t.max, t.size));
    e := Posting(to, r, Zeros(w));
    Served(s, to, UploadClient.Post(r, Zeros(w)), WORKS);
    WindowServed(t, s.files, to.path);
    hide Header, ParseHeader, Step, Advance, ServeUpload, Windowed;
  }

  /** A walk that is not narrow comes to a window of which the server takes less than the whole. */
  lemma {:induction false} WalkStumbles(s: System, es: seq<Event>, to: Destination, t: Session, first: Range)
    returns (run: seq<Event>)
    requires !After(s, es).aborted && After(s, es).Of(to.session) == Some(t) && OpensOnly(es, first)
    requires t.dir == Up && Windowed(t) && t.min > 0 && !HasDotDot(to.path)
    requires !Narrow(t.size - t.min, t.chunk)
    ensures OpensOnly(run, first) && !ExactBody(s, run)
    decreases t.size - t.min
  {
    hide Step, Posting, OpensOnly, ExactBody, Windowed, Narrow, Advance, After;
    SomeLeft(t);
    var (rest, r) := (t.size - t.min, Range(t.min, t.max, t.size));
    var body := Zeros(Min(t.chunk, Trunc32(rest)));
    NotNarrow(rest, t.chunk);
    WindowIsChunk(t);
    var e := WindowPosted(After(s, es), to, t);
    OpensMore(es, to, r, body, first);
    AfterMore(s, es, e);
    run := es + [e];
    if Trunc32(rest) >= t.chunk {
      NextWindowedAgain(t);
      run := WalkStumbles(s, run, to, Advance(t.(pos := t.pos + t.chunk), t.chunk), first);
    } else {
      Stumbles(s, es, to, r, body);
    }
  }

  /** A rest that is not narrow asks for some bytes; after a whole chunk it is no more narrow than before. */
  lemma NotNarrow(rest: nat, c: U32)
    requires c > 0 && !Narrow(rest, c)
    ensures rest >= TWO32 && Trunc32(rest) != 0
    ensures Trunc32(rest) >= c ==> rest - c >= TWO32 && !Narrow(rest - c, c)
  {
    if rest < TWO32 {
      NarrowBelow(rest, c);
    } else if Trunc32(rest) >= c {
      FullStep(rest, c);
    }
  }

  lemma SomeLeft(t: Session)
    requires Windowed(t)
    ensures t.chunk > 0 && t.size > t.min
  {
  }

  lemma WindowIsChunk(t: Session)
    requires Windowed(t) && t.size - t.min >= t.chunk
    ensures t.max - t.min + 1 == t.chunk
  {
  }

  lemma NextWindowedAgain(t: Session)
    requires Windowed(t) && t.size - t.min >= TWO32 + t.chunk
    ensures var next := Advance(t.(pos := t.pos + t.chunk), t.chunk);
            Windowed(next) && next == t.(min := t.min + t.chunk, max := next.max, pos := next.min) && next.min > 0
  {
    NextWindowed(t, t.chunk);
  }

  lemma FirstServed(files: Files, path: string, r: Range, body: seq<Byte>)
    requires OpensUpload(r) && Fits(r, TWO64 - 1) && |body| == Trunc32(r.max + 1) != 0
    ensures var c := Trunc32(r.max + 1);
            var o := ServeUpload(None, files, path, r, body, WORKS);
            && o.res.Accepts() && path in o.files && o.files[path] == body
            && (if r.max >= r.size - 1 then o.res.status == OK_200 && o.session == None
                else o.session == Some(Advance(Session(Up, 0, r.max, r.size, c, path, c), c)))
  {
    hide Advance, Window;
  }

  lemma FirstPosted(s: System, to: Destination, r: Range, body: seq<Byte>) returns (e: Event)
    requires Fresh(s) && !HasDotDot(to.path)
    requires OpensUpload(r) && Fits(r, TWO64 - 1) && |body| == Trunc32(r.max + 1) != 0
    ensures var (c, after, res) := (Trunc32(r.max + 1), Step(s, e).0, Step(s, e).1);
            && e == Posting(to, r, body) && res.Accepts() && !after.aborted
            && to.path in after.files && after.files[to.path] == body
            && (if r.max >= r.size - 1 then res.status == OK_200 && to.session !in after.sessions
                else after.Of(to.session) == Some(Advance(Session(Up, 0, r.max, r.size, c, to.path, c), c)))
  {
    e := Posting(to, r, body);
    Served(s, to, UploadClient.Post(r, body), WORKS);
    FirstServed(s.files, to.path, r, body);
    hide Header, ParseHeader, Step, Advance, ServeUpload;
  }

  /** For every first range that is not regular, a run that opens only with it ends in a short body. */
  lemma IrregularFails(s: System, to: Destination, r: Range) returns (run: seq<Event>)
    requires Fresh(s) && OpensUpload(r) && Fits(r, TWO64 - 1) && !HasDotDot(to.path) && !Regular(r)
    ensures OpensOnly(run, r) && !ExactBody(s, run)
  {
    hide Step, Posting, OpensOnly, ExactBody, Windowed, Narrow, Advance, After;
    var c := r.max + 1;
    var body := Zeros(Trunc32(c));
    var e := FirstPosted(s, to, r, body);
    NothingOpens(r);
    OpensMore([], to, r, body, r);
    AfterMore(s, [], e);
    NothingHappened(s);
    run := [] + [e];
    if c < TWO32 {
      IrregularRest(r, to.path);
      run := WalkStumbles(s, run, to, Advance(Session(Up, 0, r.max, r.size, c, to.path, c), c), r);
    } else {
      Stumbles(s, [], to, r, body);
    }
  }

  lemma NothingHappened(s: System)
    ensures After(s, []) == s
  {
  }

  lemma NothingOpens(r: Range)
    ensures OpensOnly([], r)
  {
  }

  /** The walk of a first range that is not regular, after its first chunk. */
  lemma IrregularRest(r: Range, path: string)
    requires Fits(r, TWO64 - 1) && 0 < r.max < r.size && r.max + 1 < TWO32 && !Regular(r)
    ensures var c := r.max + 1;
            var next := Advance(Session(Up, 0, r.max, r.size, c, path, c), c);
            r.max < r.size - 1 && Windowed(next) && next.min == c && next.size == r.size && next.chunk == c &&
              next.dir == Up
            && !Narrow(r.size - c, c)
  {
    var c := r.max + 1;
    NarrowIs(r.size - c, c);
    NextWindowedAgain(Session(Up, 0, r.max, r.size, c, path, 0));
  }

  /**
   * Exactness of the server: the bodies it accepts are exactly the ranges they announce, over every
   * run from a fresh server that opens uploads with one range only, exactly if that range is regular.
   */
  lemma ExactIffRegular(r: Range)
    requires OpensUpload(r) && Fits(r, TWO64 - 1)
    ensures Regular(r) <==> forall s: System, es: seq<Event> :: Fresh(s) && OpensOnly(es, r) ==> ExactBody(s, es)
  {
    if Regular(r) {
      forall s: System, es: seq<Event> | Fresh(s) && OpensOnly(es, r) ensures ExactBody(s, es) {
        if es != [] && es[|es| - 1].dir == Up && Answer(s, es).Accepts() {
          ExactAnswers(s, es);
        }
      }
    } else {
      var s := System(map[], map[], false);
      var run := IrregularFails(s, Destination("id", "file"), r);
    }
  }

  // ---- The smallest failures ----

  /**
   * 2^32 + 3 bytes in chunks of two: of the second chunk the server takes one byte, answers 206 and
   * expects the next window at 4, with three bytes stored.
   */
  lemma OneByteMissing(s: System, to: Destination, a: Byte, b: Byte, x: Byte)
    requires Fresh(s) && !HasDotDot(to.path)
    ensures var n := TWO32 + 3;
            var es := [Posting(to, Range(0, 1, n), [a, b]), Posting(to, Range(2, 3, n), [x])];
            && Answer(s, es).Response? && Answer(s, es).status == PartialContent_206
            && After(s, es).Of(to.session).Some? && After(s, es).Of(to.session).value.min == 4
            && Accepted(s, es, to.session) == [a, b, x]
  {
    hide Step, Posting, ServeUpload, After, Answer, Accepted;
    var n := TWO32 + 3;
    var (r, q) := (Range(0, 1, n), Range(2, 3, n));
    var e := FirstPosted(s, to, r, [a, b]);
    var f := Posting(to, q, [x]);
    NothingHappened(s);
    AfterMore(s, [], e);
    AcceptedMore(s, [], to, r, [a, b]);
    assert [] + [e] == [e];
    SecondPosted(After(s, [e]), to, x);
    AfterMore(s, [e], f);
    AcceptedMore(s, [e], to, q, [x]);
    assert [e] + [f] == [e, f] && [a, b] + [x] == [a, b, x];
  }

  /** An accepted body is added to those accepted before, or replaces them. */
  lemma AcceptedMore(s: System, es: seq<Event>, to: Destination, r: Range, body: seq<Byte>)
    requires Fits(r, TWO64 - 1) && Answer(s, es + [Posting(to, r, body)]).Accepts()
    ensures Accepted(s, es + [Posting(to, r, body)], to.session) ==
            if r.min == 0 then body else Accepted(s, es, to.session) + body
  {
    HeaderRoundTrip(r);
    hide Header, ParseHeader, Step, After, Answer;
    assert (es + [Posting(to, r, body)])[..|es|] == es;
  }

  lemma SecondPosted(s: System, to: Destination, x: Byte)
    requires !s.aborted && !HasDotDot(to.path)
    requires s.Of(to.session) == Some(Advance(Session(Up, 0, 1, TWO32 + 3, 2, to.path, 2), 2))
    ensures var (after, res) := Step(s, Posting(to, Range(2, 3, TWO32 + 3), [x]));
            && res.Response? && res.status == PartialContent_206
            && after.Of(to.session).Some? && after.Of(to.session).value.min == 4
  {
    var t := Session(Up, 2, 3, TWO32 + 3, 2, to.path, 2);
    assert Advance(Session(Up, 0, 1, TWO32 + 3, 2, to.path, 2), 2) == t;
    Served(s, to, UploadClient.Post(Range(2, 3, TWO32 + 3), [x]), WORKS);
    SecondServed(t, s.files, to.path, x);
    hide Step, Header, ParseHeader, ServeUpload, Advance;
  }

  lemma SecondServed(t: Session, files: Files, path: string, x: Byte)
    requires t == Session(Up, 2, 3, TWO32 + 3, 2, path, 2)
    ensures var o := ServeUpload(Some(t), files, path, Range(2, 3, TWO32 + 3), [x], WORKS);
            && o.res.Response? && o.res.status == PartialContent_206
            && o.session.Some? && o.session.value.min == 4
  {
  }

  /** One request for all of 2^32 + 1 bytes: the server takes one byte and answers that all is there. */
  lemma OneByteIsAll(s: System, to: Destination, a: Byte)
    requires Fresh(s) && !HasDotDot(to.path)
    ensures var r := Range(0, TWO32, TWO32 + 1);
            var (after, res) := Step(s, Posting(to, r, [a]));
            && res.Response? && res.status == OK_200 && to.session !in after.sessions
            && to.path in after.files && after.files[to.path] == [a]
  {
    var _ := FirstPosted(s, to, Range(0, TWO32, TWO32 + 1), [a]);
  }
}
