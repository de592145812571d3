// What the transfer server promises, session by session (tests/src/ut_webapp.cpp, the
// handlers GetDownload and PostUpload): each request acts on the session named by its
// "Session-Id" and on the file system. The class UpDownServer implements these steps.

module Transfer {
  import opened Words
  import opened ContentRange

  datatype Status =
    | OK_200 | PartialContent_206
    | BadRequest_400 | Unauthorized_401 | NotAcceptable_406
    | InternalServerError_500 | InsufficientStorage_507

  datatype Direction = Up | Down

  datatype Request = Request(session: string, path: string, range: string, body: seq<Byte>)

  /** Abort: an `assert` of the handler fails and the process stops. */
  datatype Response = Response(status: Status, range: string, body: seq<Byte>) | Abort {
    predicate Accepts() {
      Response? && (status == OK_200 || status == PartialContent_206)
    }
  }

  /**
   * What the file system does during one request: whether `fopen` succeeds, whether `fread`
   * and `fwrite` do, and how many bytes a failing `fwrite` still stores.
   */
  datatype Disk = Disk(opens: bool, works: bool, partial: nat)

  datatype Event = Event(dir: Direction, req: Request, disk: Disk)

  type Files = map<string, seq<Byte>>

  /** A live transfer: the window the server expects next and its file position. */
  datatype Session = Session(dir: Direction, min: U64, max: U64, size: U64, chunk: U32,
                             path: string, pos: nat)

  datatype Outcome = Outcome(session: Option<Session>, files: Files, res: Response)

  predicate HasDotDot(path: string) {
    exists i :: 0 <= i < |path| - 1 && path[i] == '.' && path[i + 1] == '.'
  }

  function Failed(status: Status): Response {
    Response(status, "", [])
  }

  // ---- Files ----

  /** Writing past the end fills the gap with zeros; writing nothing changes nothing. */
  function WriteAt(file: seq<Byte>, pos: nat, data: seq<Byte>): seq<Byte> {
    if data == [] then file
    else if pos + |data| <= |file| then file[..pos] + data + file[pos + |data|..]
    else if pos <= |file| then file[..pos] + data
    else file + seq(pos - |file|, _ => 0) + data
  }

  /** The bytes `fwrite` stores: all of them, or a first part when it fails. */
  function Stored(data: seq<Byte>, disk: Disk): seq<Byte> {
    if disk.works then data else data[..Min(disk.partial, |data|)]
  }

  function Rewritten(files: Files, t: Session, data: seq<Byte>, disk: Disk): Files {
    var before := if t.path in files then files[t.path] else [];
    files[t.path := WriteAt(before, t.pos, Stored(data, disk))]
  }

  predicate Readable(files: Files, path: string, pos: nat, size: nat, disk: Disk) {
    disk.works && 0 < size && path in files && pos + size <= |files[path]|
  }

  // ---- One request ----

  predicate Expected(t: Session, r: Range) {
    r.min == t.min && r.max == t.max && r.max <= t.size && r.size == t.size
  }

  /** The window after `moved` bytes of the current one went through. */
  function Advance(t: Session, moved: U64): Session {
    var max := Add64(t.max, moved);
    t.(min := Add64(t.max, 1), max := if max >= Sub64(t.size, 1) then Sub64(t.size, 1) else max)
  }

  function Window(t: Session): string {
    Header(Range(t.min, t.max, t.size))
  }

  function Receive(t: Session, size: U64, files: Files, r: Range, body: seq<Byte>, disk: Disk): Outcome {
    if size != |body| then
      Outcome(None, files, Failed(InternalServerError_500))
    else
      var files' := Rewritten(files, t, body, disk);
      if !disk.works || size == 0 then
        Outcome(None, files', Failed(InsufficientStorage_507))
      else if r.max >= Sub64(t.size, 1) then
        Outcome(None, files', Response(OK_200, Window(t), []))
      else
        Outcome(Some(Advance(t.(pos := t.pos + size), size)), files', Response(PartialContent_206, Window(t), []))
  }

  predicate OpensUpload(r: Range) {
    r.min == 0 && r.max != 0 && r.size != 0 && r.max < r.size
  }

  /** An upload request whose header was understood. */
  function ServeUpload(s: Option<Session>, files: Files, path: string, r: Range, body: seq<Byte>, disk: Disk): Outcome
    requires Fits(r, TWO64 - 1)
  {
    match s
    case None =>
      if !OpensUpload(r) then Outcome(None, files, Failed(NotAcceptable_406))
      else if !disk.opens then Outcome(None, files, Failed(Unauthorized_401))
      else
        var t := Session(Up, 0, r.max, r.size, Trunc32(Add64(r.max, 1)), path, 0);
        Receive(t, Min(r.size, t.chunk), files[path := []], r, body, disk)
    case Some(t) =>
      if t.dir != Up then Outcome(s, files, Abort)
      else if !Expected(t, r) then Outcome(None, files, Failed(NotAcceptable_406))
      else Receive(t, Min(t.chunk, Trunc32(Sub64(t.size, t.min))), files, r, body, disk)
  }

  function Send(t: Session, size: U64, files: Files, r: Range, disk: Disk): Outcome {
    if !Readable(files, t.path, t.pos, size, disk) then
      Outcome(None, files, Failed(InternalServerError_500))
    else
      var body := files[t.path][t.pos..t.pos + size];
      if r.max >= Sub64(t.size, 1) then
        Outcome(None, files, Response(OK_200, Window(t), body))
      else
        Outcome(Some(Advance(t.(pos := t.pos + size), size)), files, Response(PartialContent_206, Window(t), body))
  }

  predicate OpensDownload(r: Range) {
    r.min == 0 && r.max != 0 && r.size == 0
  }

  /** A download request whose header was understood. */
  function ServeDownload(s: Option<Session>, files: Files, path: string, r: Range, disk: Disk): Outcome
    requires Fits(r, TWO64 - 1)
  {
    match s
    case None =>
      if !OpensDownload(r) then Outcome(None, files, Failed(NotAcceptable_406))
      else if !disk.opens || path !in files then Outcome(None, files, Failed(Unauthorized_401))
      else
        var size := |files[path]| % TWO64;
        var chunk := Trunc32(Add64(r.max, 1));
        var whole := size <= chunk;
        var t := Session(Down, 0, if whole then Sub64(size, 1) else r.max, size, chunk, path, 0);
        Send(t, if whole then size else chunk, files, r, disk)
    case Some(t) =>
      if t.dir != Down then Outcome(s, files, Abort)
      else if !Expected(t, r) then Outcome(None, files, Failed(NotAcceptable_406))
      else Send(t, Min(t.chunk, Trunc32(Sub64(t.size, t.min))), files, r, disk)
  }

  /** One request, of either kind, with what the header parser made of its range. */
  function ServeRange(s: Option<Session>, files: Files, e: Event, r: Option<Range>): Outcome
    requires r.Some? ==> Fits(r.value, TWO64 - 1)
  {
    if HasDotDot(e.req.path) then Outcome(s, files, Failed(Unauthorized_401))
    else if r.None? then Outcome(s, files, Failed(BadRequest_400))
    else if e.dir == Up then ServeUpload(s, files, e.req.path, r.value, e.req.body, e.disk)
    else ServeDownload(s, files, e.req.path, r.value, e.disk)
  }

  function Serve(s: Option<Session>, files: Files, e: Event): Outcome {
    ServeRange(s, files, e, ParseHeader(e.req.range))
  }

  // ---- The server as a whole ----

  datatype System = System(sessions: map<string, Session>, files: Files, aborted: bool) {
    function Of(id: string): Option<Session> {
      if id in sessions then Some(sessions[id]) else None
    }

    function Put(id: string, s: Option<Session>): map<string, Session> {
      if s.Some? then sessions[id := s.value] else sessions - {id}
    }
  }

  /** An aborted server answers nothing more. */
  function Step(s: System, e: Event): (System, Response) {
    if s.aborted then (s, Abort)
    else
      var o := Serve(s.Of(e.req.session), s.files, e);
      (System(s.Put(e.req.session, o.session), o.files, o.res.Abort?), o.res)
  }

  function After(s: System, es: seq<Event>): System {
    if es == [] then s else Step(After(s, es[..|es| - 1]), es[|es| - 1]).0
  }

  /** The answer to the last request of a run. */
  function Answer(s: System, es: seq<Event>): Response
    requires es != []
  {
    Step(After(s, es[..|es| - 1]), es[|es| - 1]).1
  }
}
