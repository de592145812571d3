// What the transfer server sends over whole runs (tests/src/ut_webapp.cpp, GetDownload).

module DownloadRuns {
  import opened Words
  import opened ContentRange
  import opened Transfer
  import opened TransferRuns

  /** The bodies the server sent for `id`, since its last first request. */
  function SentBytes(s: System, es: seq<Event>, id: string): seq<Byte> {
    if es == [] then [] else
      var (front, e) := (es[..|es| - 1], es[|es| - 1]);
      var before := SentBytes(s, front, id);
      if e.dir == Down && e.req.session == id && Answer(s, es).Accepts() then
        (if id in After(s, front).sessions then before else []) + Answer(s, es).body
      else before
  }

  /** A live download stands after the bytes sent, in a file of `paths`. */
  ghost predicate StandsAfter(t: Session, files: Files, paths: set<string>, sent: seq<Byte>) {
    && t.path in paths && t.path in files
    && t.pos == |sent| && sent <= files[t.path]
  }

  /** One request of a download: what it sends follows what was sent, from the start for a new session. */
  lemma SendsOn(s: Option<Session>, files: Files, e: Event, r: Option<Range>, paths: set<string>, sent: seq<Byte>)
    requires r.Some? ==> Fits(r.value, TWO64 - 1)
    requires e.dir == Down && e.req.path in paths
    requires s.Some? ==> s.value.dir == Down && StandsAfter(s.value, files, paths, sent)
    ensures var (o, p) := (ServeRange(s, files, e, r), if s.Some? then s.value.path else e.req.path);
            && o.files == files && p in paths
            && (o.res.Accepts() ==>
                  var all := (if s.Some? then sent else []) + o.res.body;
                  && p in files && all <= files[p] && o.res.body != []
                  && (o.session.Some? ==> StandsAfter(o.session.value, files, paths, all)))
            && (!o.res.Accepts() ==> o.session == None || o.session == s)
  {
    hide Header, Window;
    if r.Some? && s.Some? {
      var t := s.value;
      var size := Min(t.chunk, Trunc32(Sub64(t.size, t.min)));
      Extends(files, t, size, e.disk, sent);
    } else if r.Some? && e.req.path in files {
      var size := |files[e.req.path]| % TWO64;
      var chunk := Trunc32(Add64(r.value.max, 1));
      var whole := size <= chunk;
      var t := Session(Down, 0, if whole then Sub64(size, 1) else r.value.max, size, chunk, e.req.path, 0);
      Extends(files, t, if whole then size else chunk, e.disk, []);
    }
  }

  lemma Extends(files: Files, t: Session, size: nat, disk: Disk, sent: seq<Byte>)
    requires t.path in files && t.pos == |sent| && sent <= files[t.path]
    ensures Readable(files, t.path, t.pos, size, disk) ==>
              sent + files[t.path][t.pos..t.pos + size] <= files[t.path] && size > 0
  {
  }

  /** The session has sent these bytes, if it is live. */
  ghost predicate HasSent(s: System, id: string, paths: set<string>, sent: seq<Byte>) {
    id in s.sessions ==> s.sessions[id].dir == Down && StandsAfter(s.sessions[id], s.files, paths, sent)
  }

  function Body(res: Response): seq<Byte> {
    if res.Response? then res.body else []
  }

  /** A request of the session itself. */
  lemma OwnTurn(s: System, e: Event, paths: set<string>, sent: seq<Byte>)
    requires !s.aborted && e.dir == Down && e.req.path in paths && HasSent(s, e.req.session, paths, sent)
    ensures var (s', res, id) := (Step(s, e).0, Step(s, e).1, e.req.session);
            var all := (if id in s.sessions then sent else []) + Body(res);
            var p := if id in s.sessions then s.sessions[id].path else e.req.path;
            && s'.files == s.files && p in paths
            && (res.Accepts() ==> p in s.files && all <= s.files[p] && HasSent(s', id, paths, all))
            && (!res.Accepts() ==> HasSent(s', id, paths, sent))
  {
    var (o, r) := (s.Of(e.req.session), ParseHeader(e.req.range));
    SendsOn(o, s.files, e, r, paths, sent);
    ServeDirection(o, s.files, e, r);
    hide ServeRange, ParseHeader, StandsAfter;
  }

  /** A request of another session, which does not upload to the files of this one. */
  lemma OtherTurn(s: System, e: Event, id: string, paths: set<string>, sent: seq<Byte>)
    requires !s.aborted && e.req.session != id && HasSent(s, id, paths, sent)
    requires e.dir == Up ==> e.req.path !in paths
    requires e.req.session in s.sessions ==>
               s.sessions[e.req.session].dir == e.dir && (e.dir == Up ==> s.sessions[e.req.session].path !in paths)
    ensures HasSent(Step(s, e).0, id, paths, sent)
    ensures forall p <- paths :: SameFile(Step(s, e).0.files, s.files, p)
  {
    var (o, r) := (s.Of(e.req.session), ParseHeader(e.req.range));
    forall p <- paths ensures SameFile(Step(s, e).0.files, s.files, p) {
      OtherFilesKept(o, s.files, e, r, p);
    }
    hide ServeRange, ParseHeader;
  }

  /**
   * When no id is used in both directions and nobody uploads to its paths: the files of a download
   * are the same all along, and what the server sent since the session opened is their bytes from 0
   * on: while it is live, and after the last answer.
   */
  lemma {:induction false} SentFromTheStart(s: System, es: seq<Event>, id: string, paths: set<string>,
                                            dirOf: string -> Direction)
    requires Fresh(s) && OneDirection(es, dirOf) && dirOf(id) == Down && Unshared(es, id, paths)
    ensures forall p <- paths :: SameFile(After(s, es).files, s.files, p)
    ensures HasSent(After(s, es), id, paths, SentBytes(s, es, id))
    ensures es != [] && es[|es| - 1].req.session == id && Answer(s, es).Accepts() ==>
              var before := After(s, es[..|es| - 1]).Of(id);
              var p := if before.Some? then before.value.path else es[|es| - 1].req.path;
              p in s.files && SentBytes(s, es, id) <= s.files[p]
  {
    hide Step, HasSent;
    if es == [] {
      NothingSent(s, id, paths);
    } else {
      var n := |es| - 1;
      var (before, e) := (After(s, es[..n]), es[n]);
      SentFromTheStart(s, es[..n], id, paths, dirOf);
      DirectionsKept(s, es[..n], dirOf);
      OtherUploadsElsewhere(s, es[..n], id, paths, dirOf);
      assert e.dir == dirOf(e.req.session);
      if e.req.session == id {
        OwnTurn(before, e, paths, SentBytes(s, es[..n], id));
      } else {
        OtherTurn(before, e, id, paths, SentBytes(s, es[..n], id));
      }
    }
  }

  lemma NothingSent(s: System, id: string, paths: set<string>)
    requires Fresh(s)
    ensures HasSent(s, id, paths, [])
  {
  }
}
