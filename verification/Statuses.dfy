// How the transfer server answers one request (tests/src/ut_webapp.cpp, PostUpload and GetDownload),
// by the numbers of the request and of the session.

module Statuses {
  import opened Words
  import opened ContentRange
  import opened Transfer

  /** The system is as before the request, which is answered with this status and nothing else. */
  predicate Ignores(s: System, e: Event, status: Status) {
    Step(s, e) == (s, Failed(status))
  }

  /** The request is answered with this status and nothing else, and its session is gone. */
  predicate Ends(s: System, e: Event, status: Status) {
    var (s', res) := Step(s, e);
    res == Failed(status) && s'.sessions == s.sessions - {e.req.session} && !s'.aborted
  }

  /** A path with two dots or a header that is none: nothing happens to any session. */
  lemma NotUnderstood(s: System, e: Event)
    requires !s.aborted
    ensures HasDotDot(e.req.path) ==> Ignores(s, e, Unauthorized_401)
    ensures !HasDotDot(e.req.path) && ParseHeader(e.req.range).None? ==> Ignores(s, e, BadRequest_400)
  {
    var id := e.req.session;
    assert s.Put(id, s.Of(id)) == s.sessions;
    hide ParseHeader, ServeUpload, ServeDownload;
  }

  /** A request of the other kind than its session fails an assert and changes nothing. */
  lemma WrongKind(s: System, e: Event)
    requires !s.aborted && !HasDotDot(e.req.path) && ParseHeader(e.req.range).Some?
    requires e.req.session in s.sessions && s.sessions[e.req.session].dir != e.dir
    ensures Step(s, e) == (s.(aborted := true), Abort)
  {
    var id := e.req.session;
    assert s.Put(id, s.Of(id)) == s.sessions;
    hide ParseHeader;
  }

  /**
   * An upload of an unknown session opens one exactly for "0-max/size" with 0 < max < size; it is
   * stored exactly if the file opens, the disk works and the body has the length of the chunk, which
   * is max + 1 cut to 32 bits.
   */
  lemma UnknownUpload(s: System, e: Event, r: Range)
    requires !s.aborted && e.dir == Up && !HasDotDot(e.req.path) && ParseHeader(e.req.range) == Some(r)
    requires e.req.session !in s.sessions
    ensures var first := r.min == 0 && 0 < r.max < r.size;
            var fits := |e.req.body| == (r.max + 1) % TWO32;
            && (!first ==> Ignores(s, e, NotAcceptable_406))
            && (first && !e.disk.opens ==> Ignores(s, e, Unauthorized_401))
            && (first && e.disk.opens && !fits ==> Ends(s, e, InternalServerError_500))
            && (first && e.disk.opens && fits && (!e.disk.works || e.req.body == []) ==>
                  Ends(s, e, InsufficientStorage_507))
            && (first && e.disk.opens && fits && e.disk.works && e.req.body != [] ==> Step(s, e).1.Accepts())
  {
    var id := e.req.session;
    assert s.sessions - {id} == s.sessions;
    hide ParseHeader, Rewritten, Header, Window, Advance;
    if OpensUpload(r) {
      FirstSize(r);
      hide Trunc32, Add64, Min;
    }
  }

  lemma FirstSize(r: Range)
    requires OpensUpload(r) && Fits(r, TWO64 - 1)
    ensures Min(r.size, Trunc32(Add64(r.max, 1))) == (r.max + 1) % TWO32
  {
  }

  /** An upload of a known session, asked for its window or another one. */
  lemma KnownUpload(s: System, e: Event, r: Range)
    requires !s.aborted && e.dir == Up && !HasDotDot(e.req.path) && ParseHeader(e.req.range) == Some(r)
    requires e.req.session in s.sessions && s.sessions[e.req.session].dir == Up
    ensures var t := s.sessions[e.req.session];
            var window := r == Range(t.min, t.max, t.size) && t.max <= t.size;
            var fits := |e.req.body| == Min(t.chunk, Trunc32(Sub64(t.size, t.min)));
            && (!window ==> Ends(s, e, NotAcceptable_406) && Step(s, e).0.files == s.files)
            && (window && !fits ==> Ends(s, e, InternalServerError_500) && Step(s, e).0.files == s.files)
            && (window && fits && (!e.disk.works || e.req.body == []) ==> Ends(s, e, InsufficientStorage_507))
            && (window && fits && e.disk.works && e.req.body != [] ==> Step(s, e).1.Accepts())
  {
    hide ParseHeader, Rewritten, Header;
  }

  /**
   * A download of an unknown session opens one exactly for "0-max/0" with max > 0; any other range
   * gets 406 and opens nothing. It is answered with bytes exactly if the file is there, is not empty
   * and the chunk, max + 1 cut to 32 bits, is not 0.
   */
  lemma UnknownDownload(s: System, e: Event, r: Range)
    requires !s.aborted && e.dir == Down && !HasDotDot(e.req.path) && ParseHeader(e.req.range) == Some(r)
    requires e.req.session !in s.sessions
    ensures var first := r.min == 0 && 0 < r.max && r.size == 0;
            var there := e.disk.opens && e.req.path in s.files;
            && (!first ==> Ignores(s, e, NotAcceptable_406))
            && (first && !there ==> Ignores(s, e, Unauthorized_401))
            && (first && there && |s.files[e.req.path]| < TWO64 ==>
                  if e.disk.works && s.files[e.req.path] != [] && (r.max + 1) % TWO32 != 0 then Step(s, e).1.Accepts()
                  else Ignores(s, e, InternalServerError_500))
  {
    var id := e.req.session;
    assert s.sessions - {id} == s.sessions;
    assert Trunc32(Add64(r.max, 1)) == (r.max + 1) % TWO32;
    hide ParseHeader, Header;
  }

  lemma KnownDownload(s: System, e: Event, r: Range)
    requires !s.aborted && e.dir == Down && !HasDotDot(e.req.path) && ParseHeader(e.req.range) == Some(r)
    requires e.req.session in s.sessions && s.sessions[e.req.session].dir == Down
    ensures var t := s.sessions[e.req.session];
            var window := r == Range(t.min, t.max, t.size) && t.max <= t.size;
            var size := Min(t.chunk, Trunc32(Sub64(t.size, t.min)));
            && (!window ==> Ends(s, e, NotAcceptable_406))
            && (window && !Readable(s.files, t.path, t.pos, size, e.disk) ==> Ends(s, e, InternalServerError_500))
            && (window && Readable(s.files, t.path, t.pos, size, e.disk) ==>
                  Step(s, e).1.Accepts() && Step(s, e).1.body == s.files[t.path][t.pos..t.pos + size])
            && Step(s, e).0.files == s.files
  {
    hide ParseHeader, Header;
  }
}
