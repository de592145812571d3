// BofWebClient::Download (src/bofwebclient.cpp), against whatever the network answers.

module DownloadReplies {
  import opened Words
  import opened ContentRange
  import opened Transfer

  /**
   * Where the last of several windows starts: line 424 of the client sets `RangeMin = NewRangeMax`,
   * the last byte received; the range that would follow starts at `NewRangeMax + 1`.
   */
  datatype LastStart = AsWritten | AsIntended

  /** What becomes of one request: the response, if one comes back, and whether its body can be stored. */
  datatype Got = Got(res: Option<Response>, saved: bool)

  /** The first range asked: one chunk from 0; `chunk - 1` wraps in 32 bits. */
  function FirstRange(chunkSize: U32): Range {
    Range(0, if chunkSize == 0 then TWO32 - 1 else chunkSize - 1, 0)
  }

  /** The range an accepted response gives, if its header can be read and knows the size. */
  function Given(g: Got): (p: Option<Range>)
    ensures p.Some? ==> g.res.Some? && g.res.value.Accepts() && Fits(p.value, TWO64 - 1) && p.value.size > 0
  {
    if g.res.None? || !g.res.value.Accepts() then None
    else
      var p := ParseHeader(g.res.value.range);
      if p.None? || p.value.size == 0 then None else p
  }

  /**
   * The response is one to the range `r`: exactly `r` once the size is known; before, the same window,
   * or one that ends with the file. It brings as many bytes as the window has, at least one, and they
   * are stored.
   */
  predicate Matches(g: Got, r: Range) {
    g.saved && Given(g).Some? &&
    var (p, body) := (Given(g).value, g.res.value.body);
    && (if r.size > 0 then p == r else p.min == r.min && (p.max + 1 == p.size || (p.max == r.max && p.max < p.size)))
    && body != [] && |body| == Trunc32(Add64(Sub64(p.max, p.min), 1))
  }

  /** The window after `p`, as long as it, or up to the end of the file. */
  function Moved(start: LastStart, p: Range): (next: Range)
    requires Fits(p, TWO64 - 1) && p.size > 0
    ensures next.size == p.size && next.max < p.size && Fits(next, TWO64 - 1)
  {
    var chunk := Trunc32(Add64(Sub64(p.max, p.min), 1));
    var min := Add64(p.max, 1);
    var max := Sub64(Add64(min, chunk), 1);
    if max >= p.size - 1 then Range(if start.AsWritten? then p.max else min, p.size - 1, p.size)
    else Range(min, max, p.size)
  }

  /** A window whose bytes the casts of the client count. */
  predicate Countable(p: Range) {
    p.min <= p.max < p.size <= TWO64 - TWO32 && p.max - p.min + 1 < TWO32
  }

  /** `next` is the window after `p`, as long as `p`, cut at the end of the file. */
  predicate Follows(start: LastStart, p: Range, next: Range) {
    var end := p.max + 1 + (p.max - p.min + 1);
    && next.size == p.size && next.max + 1 == Min(end, p.size)
    && next.min == if start.AsWritten? && end >= p.size then p.max else p.max + 1
  }

  lemma CountedWhole(p: Range)
    requires Countable(p)
    ensures Trunc32(Add64(Sub64(p.max, p.min), 1)) == p.max - p.min + 1
  {
  }

  lemma MovedFollows(start: LastStart, p: Range)
    requires Countable(p)
    ensures Follows(start, p, Moved(start, p))
  {
  }

  // ---- The client loop ----

  /** The first answer tells the size of the file, and whether one chunk holds it. */
  method Learn(r: Range, answered: Range) returns (own: Range)
    requires Fits(r, TWO64 - 1) && Fits(answered, TWO64 - 1) && answered.size > 0
    ensures own == if r.size > 0 then r
                   else Range(r.min, if Add64(answered.max, 1) >= answered.size then answered.size - 1 else r.max,
                              answered.size)
  {
    own := r;
    if own.size == 0 {
      own := own.(size := answered.size);
      if Add64(answered.max, 1) >= own.size {
        own := own.(max := Sub64(own.size, 1));
      }
    }
  }

  /**
   * What the client does with what it got for the range `r`: check the status and the range, learn
   * the size of the file, compare the sizes, store the body and move the window.
   */
  method Take(start: LastStart, g: Got, r: Range) returns (taken: bool, next: Range)
    requires Fits(r, TWO64 - 1) && (r.size == 0 ==> r.max < TWO32) && (r.size > 0 ==> r.max < r.size)
    ensures taken <==> Matches(g, r)
    ensures next == if taken then Moved(start, Given(g).value) else r
  {
    hide ParseHeader;
    taken, next := false, r;
    if g.res.None? || !g.res.value.Accepts() || g.res.value.body == [] {
      return;
    }
    var answered := ParseHeader(g.res.value.range);
    if answered.None? || answered.value.size == 0 {
      return;
    }
    var p := answered.value;
    var own := Learn(r, p);
    if own != p {
      return;
    }
    var chunk := Trunc32(Add64(Sub64(own.max, own.min), 1));
    if chunk != |g.res.value.body| || !g.saved {
      return;
    }
    var min := Add64(own.max, 1);
    var max := Sub64(Add64(min, chunk), 1);
    if max >= Sub64(own.size, 1) {
      min, max := if start.AsWritten? then p.max else min, Sub64(own.size, 1);
    }
    taken, next := true, Range(min, max, own.size);
  }

  // ---- A download as the caller sees it ----

  /** One request: the range it asks and what it gets. */
  datatype Exchange = Exchange(asked: Range, got: Got)

  /**
   * How far a download is: the range it asks next, the bytes stored, the exchanges made, and, once it
   * is over, what it returns.
   */
  datatype Haul = Haul(next: Range, out: seq<Byte>, made: seq<Exchange>, over: bool, ok: bool)

  function Fed(start: LastStart, h: Haul, g: Got): Haul {
    if h.over then h
    else
      var made := h.made + [Exchange(h.next, g)];
      if !Matches(g, h.next) then h.(made := made, over := true)
      else
        var (next, last) := (Moved(start, Given(g).value), g.res.value.status == OK_200);
        Haul(next, h.out + g.res.value.body, made, last, last && next.max >= next.size - 1)
  }

  /** After `gots`, what its requests got, in order; whatever a server does makes one such list. */
  function AfterAll(start: LastStart, c: U32, gots: seq<Got>): Haul {
    if gots == [] then Haul(FirstRange(c), [], [], false, false)
    else Fed(start, AfterAll(start, c, gots[..|gots| - 1]), gots[|gots| - 1])
  }

  /** The request was answered with this status and its window. */
  predicate Answered(x: Exchange, status: Status) {
    Matches(x.got, x.asked) && x.got.res.value.status == status
  }

  /** After these exchanges, `r` is the range to ask. */
  predicate Asks(start: LastStart, c: U32, made: seq<Exchange>, r: Range) {
    if made == [] then r == FirstRange(c) else Continues(start, made[|made| - 1].got, r)
  }

  predicate Continues(start: LastStart, g: Got, next: Range) {
    Given(g).Some? && (Countable(Given(g).value) ==> Follows(start, Given(g).value, next))
  }

  /** Each of the exchanges asks for the window after the last one, and is answered with 206 and that window. */
  predicate Chained(start: LastStart, c: U32, made: seq<Exchange>) {
    made == [] ||
    var (front, x) := (made[..|made| - 1], made[|made| - 1]);
    Chained(start, c, front) && Asks(start, c, front, x.asked) && Answered(x, PartialContent_206)
  }

  /** The bodies of the answers, in order. */
  function Bodies(made: seq<Exchange>): seq<Byte> {
    if made == [] then [] else Bodies(made[..|made| - 1]) + Body(made[|made| - 1])
  }

  function Body(x: Exchange): seq<Byte> {
    if Given(x.got).Some? then x.got.res.value.body else []
  }

  /** What holds of a download at any time. */
  predicate Told(start: LastStart, c: U32, h: Haul) {
    if !h.over then
      && Chained(start, c, h.made) && Asks(start, c, h.made, h.next) && h.out == Bodies(h.made) && !h.ok
    else
      && h.made != []
      && var (front, x) := (h.made[..|h.made| - 1], h.made[|h.made| - 1]);
         && Chained(start, c, front) && Asks(start, c, front, x.asked) && !Answered(x, PartialContent_206)
         && h.out == Bodies(if Answered(x, OK_200) then h.made else front)
         && (h.ok ==> Answered(x, OK_200))
         && (Answered(x, OK_200) && Countable(Given(x.got).value) ==>
               (h.ok <==> var p := Given(x.got).value; p.max + 1 + (p.max - p.min + 1) >= p.size))
  }

  /** An answer with its window is stored; the download goes on after 206 and ends after 200. */
  lemma Goes(start: LastStart, h: Haul, g: Got)
    requires !h.over && Matches(g, h.next)
    ensures var (h', p) := (Fed(start, h, g), Given(g).value);
            && h'.out == h.out + g.res.value.body && h'.made == h.made + [Exchange(h.next, g)]
            && (h'.over <==> g.res.value.status == OK_200) && (!h'.over ==> g.res.value.status == PartialContent_206)
            && (h'.ok ==> h'.over) && Continues(start, g, h'.next)
            && (Countable(p) && h'.over ==> (h'.ok <==> p.max + 1 + (p.max - p.min + 1) >= p.size))
  {
    assert Given(g).Some?;
    hide Matches, Given, Moved;
    if Countable(Given(g).value) {
      MovedFollows(start, Given(g).value);
    }
  }

  lemma FedTold(start: LastStart, c: U32, g: Got, h: Haul)
    requires Told(start, c, h)
    ensures Told(start, c, Fed(start, h, g))
  {
    hide Chained, Asks, Bodies;
    if !h.over {
      var made := h.made + [Exchange(h.next, g)];
      assert made[..|made| - 1] == h.made;
      if Matches(g, h.next) {
        Goes(start, h, g);
        StoredTold(start, c, h.made, Exchange(h.next, g), Fed(start, h, g).next);
        hide Fed, Matches, Continues, Countable;
      } else {
        hide Matches;
      }
    }
  }

  lemma StoredTold(start: LastStart, c: U32, made: seq<Exchange>, x: Exchange, next: Range)
    requires Chained(start, c, made) && Asks(start, c, made, x.asked)
    requires Matches(x.got, x.asked) && Continues(start, x.got, next)
    ensures Bodies(made + [x]) == Bodies(made) + x.got.res.value.body && Asks(start, c, made + [x], next)
    ensures Answered(x, PartialContent_206) ==> Chained(start, c, made + [x])
  {
    assert (made + [x])[..|made|] == made;
    hide Matches, Continues, Given;
  }

  /**
   * Against any server: each exchange but the last was answered with 206 and its window, and each asks
   * for the window after the last one; the bodies of those answers are what is stored, in order. A
   * download that is over ended at the first answer that was not such a one, and succeeded exactly if
   * that was 200 with its window and no more than another such window is missing after it.
   */
  lemma {:induction false} AnyServer(start: LastStart, c: U32, gots: seq<Got>)
    ensures var h := AfterAll(start, c, gots);
            && Told(start, c, h)
            && |h.made| <= |gots| && (!h.over ==> |h.made| == |gots|)
            && forall i :: 0 <= i < |h.made| ==> h.made[i].got == gots[i]
  {
    hide Told, Matches, Moved;
    if gots == [] {
      assert Told(start, c, Haul(FirstRange(c), [], [], false, false)) by { NothingTold(start, c); }
    } else {
      AnyServer(start, c, gots[..|gots| - 1]);
      FedTold(start, c, gots[|gots| - 1], AfterAll(start, c, gots[..|gots| - 1]));
    }
  }

  lemma NothingTold(start: LastStart, c: U32)
    ensures Told(start, c, Haul(FirstRange(c), [], [], false, false))
  {
  }

  // ---- Against a server that tells the truth ----

  /** An answer that gives a window of the file brings its bytes, and says 200 exactly at the end of the file. */
  ghost predicate Honest(g: Got, file: seq<Byte>) {
    Given(g).Some? ==>
      var p := Given(g).value;
      && p.size == |file| && p.min <= p.max < |file| && g.res.value.body == file[p.min..p.max + 1]
      && (g.res.value.status == OK_200 <==> p.max + 1 == |file|)
  }

  /** The range asked after the first `from` bytes; the last of several windows may start a byte early. */
  predicate AsksOn(start: LastStart, r: Range, size: nat, from: nat) {
    && r.size == size && from <= r.max < size
    && r.min == if start.AsWritten? && r.max + 1 == size then from - 1 else from
  }

  /** How far an honest download is, and what it ended with. */
  ghost predicate Exact(start: LastStart, c: U32, file: seq<Byte>, h: Haul) {
    var n := |h.out|;
    if h.ok then
      h.over && h.made != [] &&
      if start.AsIntended? || |h.made| == 1 then h.out == file
      else var m := h.made[|h.made| - 1].asked.min; m < |file| && h.out == file[..m + 1] + file[m..]
    else
      && n < |file| && h.out == file[..n]
      && (!h.over ==>
            if h.made == [] then n == 0 && h.next == FirstRange(c) else 0 < n && AsksOn(start, h.next, |file|, n))
  }

  /** A matching honest answer starts where it was asked for, with the file known or not. */
  lemma HonestWindow(g: Got, r: Range, file: seq<Byte>)
    requires Matches(g, r) && Honest(g, file) && |file| < FILE_LIMIT
    ensures var p := Given(g).value;
            && Countable(p) && p.size == |file| && p.min == r.min && (r.size > 0 ==> p == r)
            && g.res.value.body == file[r.min..p.max + 1]
            && (g.res.value.status == OK_200 <==> p.max + 1 == |file|)
  {
    hide Given;
  }

  lemma JoinAt(file: seq<Byte>, from: nat, min: nat, end: nat)
    requires min <= from <= end <= |file| && min < end
    ensures min == from ==> file[..from] + file[min..end] == file[..end]
    ensures min + 1 == from && end == |file| ==> file[..from] + file[min..end] == file[..min + 1] + file[min..]
    ensures file[..|file|] == file
  {
  }

  lemma ExactStep(start: LastStart, c: U32, file: seq<Byte>, h: Haul, g: Got)
    requires Exact(start, c, file, h) && Honest(g, file) && |file| < FILE_LIMIT
    ensures Exact(start, c, file, Fed(start, h, g))
  {
    if !h.over && Matches(g, h.next) {
      HonestWindow(g, h.next, file);
      Goes(start, h, g);
      hide Fed, Given, Matches, Honest;
      ExactStored(start, c, file, h, Fed(start, h, g), g.res.value.body, Given(g).value);
    } else {
      hide Matches, Moved, Given, Honest, AsksOn;
    }
  }

  lemma ExactStored(start: LastStart, c: U32, file: seq<Byte>, h: Haul, h': Haul, body: seq<Byte>, p: Range)
    requires Exact(start, c, file, h) && !h.over && Countable(p) && p.size == |file|
    requires p.min == h.next.min && (h.next.size > 0 ==> p == h.next) && body == file[p.min..p.max + 1]
    requires h'.out == h.out + body && |h'.made| == |h.made| + 1 && h'.made[|h.made|].asked == h.next
    requires (h'.over <==> p.max + 1 == |file|) && (h'.over <==> h'.ok) && Follows(start, p, h'.next)
    ensures Exact(start, c, file, h')
  {
    JoinAt(file, |h.out|, p.min, p.max + 1);
  }

  /**
   * Against an honest server: a download that has not succeeded has stored a part of the file, from its
   * start on. One that has succeeded has stored the file, exactly if the last window starts where it was
   * meant to or there was only one; otherwise, with line 424 as it is written, one byte is there twice.
   */
  lemma {:induction false} HonestServer(start: LastStart, c: U32, file: seq<Byte>, gots: seq<Got>)
    requires 0 < |file| < FILE_LIMIT && forall i :: 0 <= i < |gots| ==> Honest(gots[i], file)
    ensures var h := AfterAll(start, c, gots);
            && Exact(start, c, file, h)
            && (!h.ok ==> h.out < file)
            && (h.ok ==> (h.out == file <==> start.AsIntended? || |h.made| == 1) && |file| <= |h.out| <= |file| + 1)
  {
    hide Fed, Honest, AsksOn;
    if gots != [] {
      HonestServer(start, c, file, gots[..|gots| - 1]);
      ExactStep(start, c, file, AfterAll(start, c, gots[..|gots| - 1]), gots[|gots| - 1]);
    }
  }

  /** The answer has this status, this range in its header and this body, and is stored. */
  predicate Brings(g: Got, status: Status, r: Range, body: seq<Byte>) {
    g == Got(Some(Response(status, Header(r), body)), true)
  }

  lemma GivenBrings(g: Got, status: Status, r: Range, body: seq<Byte>)
    requires Brings(g, status, r, body) && Fits(r, TWO64 - 1) && r.size > 0
    requires status == OK_200 || status == PartialContent_206
    ensures Given(g) == Some(r) && g.saved && g.res.value.status == status && g.res.value.body == body
  {
    HeaderRoundTrip(r);
    hide Header, ParseHeader;
  }

  lemma AfterAllNext(start: LastStart, c: U32, gots: seq<Got>, g: Got)
    ensures AfterAll(start, c, gots + [g]) == Fed(start, AfterAll(start, c, gots), g)
  {
    hide Fed;
    assert (gots + [g])[..|gots|] == gots;
  }

  /** What an answer of a whole window does to a download that asks for it. */
  lemma FedWindow(start: LastStart, h: Haul, g: Got, r: Range)
    requires Given(g) == Some(r) && g.saved && |g.res.value.body| == r.max - r.min + 1 && Countable(r)
    requires !h.over && (h.next == r || h.next == Range(r.min, r.max, 0))
    ensures var (h', last) := (Fed(start, h, g), g.res.value.status == OK_200);
            && h'.out == h.out + g.res.value.body && Follows(start, r, h'.next)
            && (h'.over <==> last) && (h'.ok <==> last && h'.next.max >= r.size - 1)
  {
    MovedFollows(start, r);
    CountedWhole(r);
    hide Given, Moved, Trunc32, Add64, Sub64;
  }

  /** A first answer that brings two of three bytes. */
  lemma FirstTwo(start: LastStart, g: Got, status: Status, body: seq<Byte>)
    requires |body| == 2 && Brings(g, status, Range(0, 1, 3), body)
    requires status == OK_200 || status == PartialContent_206
    ensures var h := AfterAll(start, 2, [g]);
            && h.out == body && Follows(start, Range(0, 1, 3), h.next)
            && (h.over <==> status == OK_200) && (h.ok <==> status == OK_200)
  {
    GivenBrings(g, status, Range(0, 1, 3), body);
    hide Brings, Given;
    AfterAllNext(start, 2, [], g);
    FedWindow(start, AfterAll(start, 2, []), g, Range(0, 1, 3));
  }

  lemma HonestBrings(g: Got, status: Status, r: Range, file: seq<Byte>)
    requires r.min <= r.max < r.size == |file| && Fits(r, TWO64 - 1)
    requires Brings(g, status, r, file[r.min..r.max + 1])
    requires status == if r.max + 1 == r.size then OK_200 else PartialContent_206
    ensures Honest(g, file)
  {
    GivenBrings(g, status, r, file[r.min..r.max + 1]);
    hide Brings, Given, Fits;
  }

  lemma TwoAnswers(a: Got, b: Got, x: seq<Byte>, y: seq<Byte>)
    requires |x| == |y| == 2
    requires Brings(a, PartialContent_206, Range(0, 1, 3), x) && Brings(b, OK_200, Range(1, 2, 3), y)
    ensures var h := AfterAll(AsWritten, 2, [a] + [b]); h.ok && h.out == x + y
  {
    FirstTwo(AsWritten, a, PartialContent_206, x);
    GivenBrings(b, OK_200, Range(1, 2, 3), y);
    hide Brings, Given, AfterAll;
    AfterAllNext(AsWritten, 2, [a], b);
    hide Fed;
    FedWindow(AsWritten, AfterAll(AsWritten, 2, [a]), b, Range(1, 2, 3));
  }

  /** Two honest answers, after which the second of three bytes is stored twice. */
  lemma RepeatedByte(file: seq<Byte>, a: Got, b: Got)
    requires |file| == 3
    requires Brings(a, PartialContent_206, Range(0, 1, 3), file[0..2])
    requires Brings(b, OK_200, Range(1, 2, 3), file[1..3])
    ensures Honest(a, file) && Honest(b, file)
    ensures var h := AfterAll(AsWritten, 2, [a] + [b]); h.ok && h.out == file[0..2] + file[1..3]
  {
    hide AfterAll, Brings, Honest;
    HonestBrings(a, PartialContent_206, Range(0, 1, 3), file);
    HonestBrings(b, OK_200, Range(1, 2, 3), file);
    TwoAnswers(a, b, file[0..2], file[1..3]);
  }

  /** A server that says 200 too early: the client succeeds with two of three bytes. */
  lemma EarlyOk(start: LastStart, g: Got, body: seq<Byte>)
    requires |body| == 2 && Brings(g, OK_200, Range(0, 1, 3), body)
    ensures var h := AfterAll(start, 2, [g]); h.ok && h.out == body
  {
    FirstTwo(start, g, OK_200, body);
  }
}
