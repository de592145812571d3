// BofWebClient::Upload (src/bofwebclient.cpp), against whatever the network answers.

module UploadClient {
  import opened Words
  import opened ContentRange
  import opened Transfer

  /** What one post carries: the range it prints in its header and its body. */
  datatype Post = Post(range: Range, body: seq<Byte>)

  /** What the client reads in a response: the status, and the range if its header parses. */
  datatype Answer = Answer(status: Status, range: Option<Range>)

  /** The result of a post; None when it is not set, because no response came back. */
  type Reply = Option<Answer>

  function Read(res: Option<Response>): Reply {
    if res.None? || res.value.Abort? then None else Some(Answer(res.value.status, ParseHeader(res.value.range)))
  }

  /** A chunk size of zero selects 64 KiB. */
  function Effective(chunkSize: U32): (c: U32)
    ensures c > 0 && (chunkSize != 0 ==> c == chunkSize) && (chunkSize == 0 ==> c == 0x10000)
  {
    if chunkSize == 0 then 64 * 1024 else chunkSize
  }

  // ---- The transfer as the caller sees it ----

  /** The post that carries the bytes from offset `from` to offset `end`. */
  function Chunk(file: seq<Byte>, from: nat, end: nat): Post
    requires from < end <= |file|
  {
    Post(Range(from, end - 1, |file|), file[from..end])
  }

  datatype Verdict = Finished | Continue | Refused

  /** How the client takes the reply to a post of the range `r`. */
  function Judge(reply: Reply, r: Range): Verdict {
    if reply.None? || reply.value.range != Some(r) then Refused
    else if reply.value.status == OK_200 then Finished
    else if reply.value.status == PartialContent_206 then Continue
    else Refused
  }

  function JudgeFirst(replies: seq<Reply>, r: Range): Verdict {
    if replies == [] then Refused else Judge(replies[0], r)
  }

  /** How an upload ends: what it returns and the posts it made. */
  datatype Upshot = Upshot(ok: bool, sent: seq<Post>)

  /**
   * Chunk after chunk from offset `from`, as long as the replies confirm them. `replies` are the
   * results the posts get, in order; whatever a server does makes one such list.
   */
  function UploadFrom(file: seq<Byte>, c: U32, replies: seq<Reply>, from: nat, sent: seq<Post>): Upshot
    requires c > 0 && from <= |file|
    decreases |file| - from
  {
    if from == |file| then Upshot(false, sent)
    else
      var end := Min(from + c, |file|);
      var post := Chunk(file, from, end);
      match JudgeFirst(replies, post.range)
      case Refused => Upshot(false, sent + [post])
      case Finished => Upshot(end == |file|, sent + [post])
      case Continue => UploadFrom(file, c, replies[1..], end, sent + [post])
  }

  function Bodies(sent: seq<Post>): seq<Byte> {
    if sent == [] then [] else Bodies(sent[..|sent| - 1]) + sent[|sent| - 1].body
  }

  /** How many chunks of `c` bytes hold `size` bytes. */
  function Chunks(size: nat, c: nat): nat
    requires c > 0
  {
    if size == 0 then 0 else 1 + Chunks(size - Min(c, size), c)
  }

  /** That is the quotient size / c, rounded up. */
  lemma {:induction false} ChunksRoundUp(size: nat, c: nat)
    requires c > 0 && size > 0
    ensures (Chunks(size, c) - 1) * c < size <= Chunks(size, c) * c
  {
    if size > c {
      ChunksRoundUp(size - c, c);
      var n := Chunks(size - c, c);
      assert n * c == (n - 1) * c + c && (n + 1) * c == n * c + c;
    } else {
      assert Chunks(size - Min(c, size), c) == 0;
    }
  }

  /** The posts carry the first `upTo` bytes, at most `c` each. */
  ghost predicate Carry(sent: seq<Post>, file: seq<Byte>, c: U32, upTo: nat) {
    && upTo <= |file| && Bodies(sent) == file[..upTo]
    && forall p <- sent :: 0 < |p.body| <= c
  }

  lemma CarryMore(sent: seq<Post>, file: seq<Byte>, c: U32, from: nat, end: nat)
    requires from < end <= |file| && end <= from + c
    requires Carry(sent, file, c, from)
    ensures Carry(sent + [Chunk(file, from, end)], file, c, end)
  {
    assert (sent + [Chunk(file, from, end)])[..|sent|] == sent;
    assert file[..from] + file[from..end] == file[..end];
  }

  /** The reply number `k` has this status and exactly the range of the post it answers. */
  predicate Confirms(replies: seq<Reply>, k: int, p: Post, status: Status) {
    0 <= k < |replies| && replies[k] == Some(Answer(status, Some(p.range)))
  }

  /** Every post but the last was answered with 206 and its own range. */
  ghost predicate AllConfirmed(replies: seq<Reply>, sent: seq<Post>, first: nat) {
    forall i :: first <= i < |sent| - 1 ==> Confirms(replies, i - first, sent[i], PartialContent_206)
  }

  lemma ConfirmedMore(replies: seq<Reply>, sent: seq<Post>, first: nat)
    requires replies != [] && first < |sent| && AllConfirmed(replies[1..], sent, first + 1)
    requires Confirms(replies, 0, sent[first], PartialContent_206)
    ensures AllConfirmed(replies, sent, first)
  {
    forall i | first <= i < |sent| - 1 ensures Confirms(replies, i - first, sent[i], PartialContent_206) {
      if i > first {
        assert Confirms(replies[1..], i - (first + 1), sent[i], PartialContent_206);
      }
    }
  }

  /**
   * Against any server: at most one post a chunk, none larger than the chunk, the posted bodies
   * are a prefix of the file, and success means that they are the whole file.
   */
  lemma {:induction false} AnyServer(file: seq<Byte>, c: U32, replies: seq<Reply>, from: nat, sent: seq<Post>)
    returns (u: Upshot, upTo: nat)
    requires c > 0 && Carry(sent, file, c, from)
    ensures u == UploadFrom(file, c, replies, from, sent)
    ensures Carry(u.sent, file, c, upTo) && (u.ok ==> upTo == |file|)
    ensures |sent| <= |u.sent| <= |sent| + Chunks(|file| - from, c)
    ensures u.ok ==> |u.sent| == |sent| + Chunks(|file| - from, c)
    ensures from < |file| ==> |sent| < |u.sent| && u.sent[|u.sent| - 1].range.max + 1 == upTo
    ensures from == |file| ==> u.sent == sent && upTo == from
    decreases |file| - from
  {
    u, upTo := Upshot(false, sent), from;
    if from < |file| {
      var end := Min(from + c, |file|);
      var post := Chunk(file, from, end);
      CarryMore(sent, file, c, from, end);
      upTo := end;
      match JudgeFirst(replies, post.range) {
        case Refused => u := Upshot(false, sent + [post]);
        case Finished =>
          u := Upshot(end == |file|, sent + [post]);
          assert Chunks(0, c) == 0;
        case Continue => u, upTo := AnyServer(file, c, replies[1..], end, sent + [post]);
      }
    }
  }

  /**
   * No post follows one that was not answered with 206 and exactly its own range, so none follows a
   * missing reply, another status or another range. The upload succeeds exactly if its last post ends
   * the file and was answered with 200 and exactly its own range; and it goes on after every 206 with
   * that range, up to the end of the file.
   */
  lemma {:induction false} RepliesFollowed(file: seq<Byte>, c: U32, replies: seq<Reply>, from: nat, sent: seq<Post>)
    requires c > 0 && from < |file|
    ensures var u := UploadFrom(file, c, replies, from, sent);
            && sent <= u.sent && |sent| < |u.sent| && AllConfirmed(replies, u.sent, |sent|)
            && var (k, last) := (|u.sent| - 1 - |sent|, u.sent[|u.sent| - 1]);
               && (u.ok <==> last.range.max + 1 == |file| && Confirms(replies, k, last, OK_200))
               && (Confirms(replies, k, last, PartialContent_206) ==> last.range.max + 1 == |file|)
    decreases |file| - from
  {
    var end := Min(from + c, |file|);
    var post := Chunk(file, from, end);
    var u := UploadFrom(file, c, replies, from, sent);
    if JudgeFirst(replies, post.range) == Continue && end < |file| {
      RepliesFollowed(file, c, replies[1..], end, sent + [post]);
      assert u.sent[|sent|] == post;
      ConfirmedMore(replies, u.sent, |sent|);
      LaterReply(replies, |u.sent| - 2 - |sent|, u.sent[|u.sent| - 1]);
      hide AllConfirmed, Confirms, Chunk;
    } else {
      assert u.sent == sent + [post];
    }
  }

  lemma LaterReply(replies: seq<Reply>, k: int, p: Post)
    requires replies != [] && k >= 0
    ensures forall status :: Confirms(replies[1..], k, p, status) <==> Confirms(replies, k + 1, p, status)
  {
  }

  /** What an upload returns, in terms of the replies alone. */
  lemma UploadMeans(file: seq<Byte>, c: U32, replies: seq<Reply>)
    requires c > 0 && file != []
    ensures var u := UploadFrom(file, c, replies, 0, []);
            && u.sent != [] && Bodies(u.sent) <= file && AllConfirmed(replies, u.sent, 0)
            && (u.ok <==> Bodies(u.sent) == file && Confirms(replies, |u.sent| - 1, u.sent[|u.sent| - 1], OK_200))
  {
    RepliesFollowed(file, c, replies, 0, []);
    var u, upTo := AnyServer(file, c, replies, 0, []);
    assert Bodies(u.sent) == file[..upTo] && file[..|file|] == file;
    hide Bodies, UploadFrom, AllConfirmed, Confirms;
  }

  // ---- The client loop ----

  /** `fread` of one item of `size` bytes at `pos`; the buffer must be large enough. */
  method Fread(buffer: array<Byte>, size: nat, file: seq<Byte>, pos: nat) returns (ok: bool)
    requires size <= buffer.Length && pos <= |file|
    modifies buffer
    ensures ok <==> 0 < size && pos + size <= |file|
    ensures ok ==> buffer[..size] == file[pos..pos + size]
  {
    ok := 0 < size && pos + size <= |file|;
    if ok {
      forall i | 0 <= i < size {
        buffer[i] := file[pos + i];
      }
    }
  }

  /** Reads the current window into the buffer and makes a post of it; the read of no byte fails. */
  method NextPost(buffer: array<Byte>, file: seq<Byte>, rangeMin: U64, rangeMax: U64) returns (post: Option<Post>)
    requires |file| < FILE_LIMIT && rangeMin <= |file| && buffer.Length > 0
    requires rangeMax == Sub64(Min(rangeMin + buffer.Length, |file|), 1)
    modifies buffer
    ensures post == if rangeMin == |file| then None else Some(Chunk(file, rangeMin, Min(rangeMin + buffer.Length,
            |file|)))
  {
    var readSize := Add64(Sub64(rangeMax, rangeMin), 1);
    var read := Fread(buffer, readSize, file, rangeMin);
    post := if read then Some(Post(Range(rangeMin, rangeMax, |file|), buffer[..readSize])) else None;
  }

  /** The window after one of `readSize` bytes that ends at `rangeMax`, inside the file. */
  method NextWindow(rangeMax: U64, readSize: U64, size: U64) returns (min: U64, max: U64)
    requires 0 < size < FILE_LIMIT && rangeMax < size && 0 < readSize <= size
    ensures min == rangeMax + 1 && max == Min(min + readSize, size) - 1
  {
    min := Add64(rangeMax, 1);
    max := Sub64(Add64(min, readSize), 1);
    if max >= Sub64(size, 1) {
      max := Sub64(size, 1);
    }
  }

  /** Upload, with the file open for reading; the posts it makes are a result. */
  method Upload(file: seq<Byte>, chunkSize: U32, replies: seq<Reply>) returns (ok: bool, sent: seq<Post>)
    requires 0 < |file| < FILE_LIMIT
    ensures Upshot(ok, sent) == UploadFrom(file, Effective(chunkSize), replies, 0, [])
    ensures sent != [] && Bodies(sent) <= file && AllConfirmed(replies, sent, 0)
    ensures ok <==> Bodies(sent) == file && Confirms(replies, |sent| - 1, sent[|sent| - 1], OK_200)
  {
    hide Bodies, AllConfirmed, Confirms, Chunk;
    UploadMeans(file, Effective(chunkSize), replies);
    var size: U64 := |file|;
    var c := Effective(chunkSize);
    var chunk := new Byte[c];
    var rangeMin: U64, rangeMax: U64 := 0, if size <= c then Sub64(size, 1) else c - 1;
    ok, sent := false, [];
    ghost var upshot := UploadFrom(file, c, replies, 0, []);
    while true
      invariant rangeMin <= size && rangeMax == Sub64(Min(rangeMin + c, size), 1)
      invariant |sent| <= |replies| && !ok
      invariant upshot == UploadFrom(file, c, replies[|sent|..], rangeMin, sent)
      decreases size - rangeMin
    {
      ghost var left := replies[|sent|..];
      var next := NextPost(chunk, file, rangeMin, rangeMax);
      if next.None? {
        break;
      }
      var post := next.value;
      var reply: Reply := if |sent| < |replies| then replies[|sent|] else None;
      sent := sent + [post];
      var verdict := Judge(reply, post.range);
      assert verdict == JudgeFirst(left, post.range);
      if verdict == Refused {
        break;
      }
      if verdict == Finished {
        ok := rangeMax >= Sub64(size, 1);
        break;
      }
      assert replies[|sent|..] == left[1..];
      rangeMin, rangeMax := NextWindow(rangeMax, Add64(Sub64(rangeMax, rangeMin), 1), size);
    }
  }
}
