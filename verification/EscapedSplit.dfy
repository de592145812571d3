// split_with_escape_char of vcprj/vcprj.py.

module EscapedSplit {
  const ESCAPE := '\\'

  /** The items finished so far, the one being read, and whether the next character is taken as it is. */
  datatype Scan = Scan(items: seq<string>, current: string, escapeNext: bool)

  const BLANK := Scan([], "", false)

  function Feed(s: Scan, c: char, sep: char): Scan {
    if s.escapeNext then s.(current := s.current + [c], escapeNext := false)
    else if c == ESCAPE then s.(escapeNext := true)
    else if c == sep then Scan(s.items + [s.current], "", false)
    else s.(current := s.current + [c])
  }

  function FeedAll(s: Scan, text: string, sep: char): Scan {
    if text == "" then s else Feed(FeedAll(s, text[..|text| - 1], sep), text[|text| - 1], sep)
  }

  function Split(line: string, sep: char): seq<string> {
    var s := FeedAll(BLANK, line, sep);
    s.items + [s.current]
  }

  /** The items are the pieces of the line between its unprotected separators, without the protecting backslashes. */
  method SplitWithEscapeChar(line: string, sep: char) returns (rts: seq<string>)
    ensures rts == Split(line, sep)
    ensures |rts| == |Cuts(line, sep, |line|)| + 1
    ensures forall k :: 0 <= k < |rts| ==> rts[k] == Piece(line, sep, k)
  {
    rts := [];
    var currentParam, escapeNext := "", false;
    for i := 0 to |line|
      invariant Scan(rts, currentParam, escapeNext) == FeedAll(BLANK, line[..i], sep)
    {
      assert line[..i + 1][..i] == line[..i];
      var c := line[i];
      if escapeNext {
        currentParam := currentParam + [c];
        escapeNext := false;
      } else if c == ESCAPE {
        escapeNext := true;
      } else if c == sep {
        rts := rts + [currentParam];
        currentParam := "";
      } else {
        currentParam := currentParam + [c];
      }
    }
    assert line[..|line|] == line;
    rts := rts + [currentParam];
    SplitIsPieces(line, sep);
  }

  // ---- Round trip ----

  /** A backslash before every backslash and every separator. */
  function Escaped(item: string, sep: char): string {
    if item == "" then "" else
      var c := item[|item| - 1];
      Escaped(item[..|item| - 1], sep) + if c == ESCAPE || c == sep then [ESCAPE, c] else [c]
  }

  function Joined(items: seq<string>, sep: char): string
    requires items != []
  {
    var last := Escaped(items[|items| - 1], sep);
    if |items| == 1 then last else Joined(items[..|items| - 1], sep) + [sep] + last
  }

  lemma {:induction false} FeedTwice(s: Scan, a: string, b: string, sep: char)
    ensures FeedAll(s, a + b, sep) == FeedAll(FeedAll(s, a, sep), b, sep)
  {
    if b == "" {
      assert a + b == a;
    } else {
      FeedTwice(s, a, b[..|b| - 1], sep);
      assert (a + b)[..|a + b| - 1] == a + b[..|b| - 1];
    }
  }

  lemma FeedOne(s: Scan, c: char, sep: char)
    ensures FeedAll(s, [c], sep) == Feed(s, c, sep)
  {
    assert [c][..0] == "";
  }

  lemma FeedPair(s: Scan, c: char, sep: char)
    requires !s.escapeNext
    ensures FeedAll(s, [ESCAPE, c], sep) == s.(current := s.current + [c])
  {
    FeedTwice(s, [ESCAPE], [c], sep);
    assert [ESCAPE, c] == [ESCAPE] + [c];
    FeedOne(s, ESCAPE, sep);
    FeedOne(s.(escapeNext := true), c, sep);
    hide FeedAll;
  }

  /** How an escaped character is read. */
  lemma FeedChar(s: Scan, c: char, sep: char)
    requires !s.escapeNext
    ensures FeedAll(s, if c == ESCAPE || c == sep then [ESCAPE, c] else [c], sep) == s.(current := s.current + [c])
  {
    hide FeedAll;
    if c == ESCAPE || c == sep {
      FeedPair(s, c, sep);
    } else {
      FeedOne(s, c, sep);
    }
  }

  /** An escaped item is read back whole. */
  lemma {:induction false} FeedEscaped(s: Scan, item: string, sep: char)
    requires !s.escapeNext
    ensures FeedAll(s, Escaped(item, sep), sep) == s.(current := s.current + item)
  {
    if item != "" {
      var (front, c) := (item[..|item| - 1], item[|item| - 1]);
      hide FeedAll;
      FeedEscaped(s, front, sep);
      FeedTwice(s, Escaped(front, sep), if c == ESCAPE || c == sep then [ESCAPE, c] else [c], sep);
      FeedChar(s.(current := s.current + front), c, sep);
      assert s.current + front + [c] == s.current + item;
    }
  }

  /** A separator and an escaped item after it are read as one more item. */
  lemma FeedItem(s: Scan, last: string, sep: char)
    requires !s.escapeNext && sep != ESCAPE
    ensures FeedAll(s, [sep] + Escaped(last, sep), sep) == Scan(s.items + [s.current], last, false)
  {
    hide FeedAll, Escaped;
    FeedTwice(s, [sep], Escaped(last, sep), sep);
    FeedOne(s, sep, sep);
    FeedEscaped(Scan(s.items + [s.current], "", false), last, sep);
    assert "" + last == last;
  }

  lemma {:induction false} FeedJoined(items: seq<string>, sep: char)
    requires items != [] && (sep != ESCAPE || |items| == 1)
    ensures FeedAll(BLANK, Joined(items, sep), sep) == Scan(items[..|items| - 1], items[|items| - 1], false)
  {
    hide FeedAll, Escaped;
    var last := items[|items| - 1];
    if |items| == 1 {
      FeedEscaped(BLANK, last, sep);
      assert "" + last == last;
    } else {
      var front := items[..|items| - 1];
      FeedJoined(front, sep);
      FeedTwice(BLANK, Joined(front, sep), [sep] + Escaped(last, sep), sep);
      assert Joined(front, sep) + ([sep] + Escaped(last, sep)) == Joined(items, sep);
      FeedItem(FeedAll(BLANK, Joined(front, sep), sep), last, sep);
      assert front[..|front| - 1] + [front[|front| - 1]] == front;
    }
  }

  // ---- The pieces of a line ----

  /** How many backslashes stand directly before position `i`. */
  function Backslashes(line: string, i: nat): nat
    requires i <= |line|
  {
    if i == 0 || line[i - 1] != ESCAPE then 0 else 1 + Backslashes(line, i - 1)
  }

  /** A backslash that is not protected itself: an even number of them stands before. */
  predicate Protecting(line: string, i: nat)
    requires i < |line|
  {
    line[i] == ESCAPE && Backslashes(line, i) % 2 == 0
  }

  /** A separator that no backslash protects. */
  predicate Separating(line: string, sep: char, i: nat)
    requires i < |line|
  {
    line[i] == sep && sep != ESCAPE && Backslashes(line, i) % 2 == 0
  }

  /** Increasing positions below `n`. */
  ghost predicate Ordered(cuts: seq<nat>, n: nat) {
    (forall k :: 0 <= k < |cuts| ==> cuts[k] < n) && forall j, k :: 0 <= j < k < |cuts| ==> cuts[j] < cuts[k]
  }

  /** Where the unprotected separators of the first `n` characters are. */
  function Cuts(line: string, sep: char, n: nat): (cuts: seq<nat>)
    requires n <= |line|
    ensures Ordered(cuts, n)
  {
    if n == 0 then []
    else if Separating(line, sep, n - 1) then Cuts(line, sep, n - 1) + [n - 1]
    else Cuts(line, sep, n - 1)
  }

  /** The characters from `from` to `to`, in order, without the protecting backslashes. */
  function Kept(line: string, from: nat, to: nat): string
    requires from <= to <= |line|
  {
    if from == to then "" else Kept(line, from, to - 1) + if Protecting(line, to - 1) then "" else [line[to - 1]]
  }

  /** Where the piece after the first `k` separators begins. */
  function Begin(cuts: seq<nat>, k: nat): nat
    requires k <= |cuts|
  {
    if k == 0 then 0 else cuts[k - 1] + 1
  }

  /** The piece after the first `k` unprotected separators, up to the next one or the end of the line. */
  function Piece(line: string, sep: char, k: nat): string
    requires k <= |Cuts(line, sep, |line|)|
  {
    var cuts := Cuts(line, sep, |line|);
    Kept(line, Begin(cuts, k), if k < |cuts| then cuts[k] else |line|)
  }

  /** They are all the unprotected separators, in order, and nothing else. */
  lemma {:induction false} CutsAreAll(line: string, sep: char, n: nat)
    requires n <= |line|
    ensures forall i :: 0 <= i < n ==> (i in Cuts(line, sep, n) <==> Separating(line, sep, i))
  {
    if n > 0 {
      CutsAreAll(line, sep, n - 1);
      hide Separating;
    }
  }

  lemma Parity(line: string, n: nat)
    requires 0 < n <= |line|
    ensures Backslashes(line, n) % 2 == 1 <==> Protecting(line, n - 1)
  {
  }

  lemma KeptNext(line: string, from: nat, n: nat)
    requires from <= n < |line|
    ensures Kept(line, from, n + 1) == Kept(line, from, n) + if Protecting(line, n) then "" else [line[n]]
  {
    hide Protecting;
  }

  /** The items are the pieces before the cuts. */
  ghost predicate Pieces(items: seq<string>, line: string, cuts: seq<nat>)
    requires Ordered(cuts, |line|)
  {
    |items| == |cuts| &&
    forall k {:trigger items[k]} :: 0 <= k < |cuts| ==> items[k] == Kept(line, Begin(cuts, k), cuts[k])
  }

  lemma PiecesPush(items: seq<string>, line: string, cuts: seq<nat>, n: nat)
    requires n < |line| && Ordered(cuts, n) && Pieces(items, line, cuts)
    ensures Pieces(items + [Kept(line, Begin(cuts, |cuts|), n)], line, cuts + [n])
  {
    hide Kept;
    var (items', cuts') := (items + [Kept(line, Begin(cuts, |cuts|), n)], cuts + [n]);
    forall k | 0 <= k < |cuts'| ensures items'[k] == Kept(line, Begin(cuts', k), cuts'[k]) {
      SameBegin(cuts, n, k);
      hide Begin;
    }
  }

  lemma SameBegin(cuts: seq<nat>, n: nat, k: nat)
    requires k <= |cuts|
    ensures Begin(cuts + [n], k) == Begin(cuts, k)
  {
  }

  /** The scan has finished the pieces before the last cut and holds the beginning of the next one. */
  ghost predicate Scanned(s: Scan, line: string, sep: char, n: nat)
    requires n <= |line|
  {
    var cuts := Cuts(line, sep, n);
    && Pieces(s.items, line, cuts) && s.current == Kept(line, Begin(cuts, |cuts|), n)
    && (s.escapeNext <==> Backslashes(line, n) % 2 == 1)
  }

  lemma ScannedStep(s: Scan, line: string, sep: char, n: nat)
    requires n < |line| && Scanned(s, line, sep, n)
    ensures Scanned(Feed(s, line[n], sep), line, sep, n + 1)
  {
    Parity(line, n + 1);
    var cuts := Cuts(line, sep, n);
    assert Cuts(line, sep, n + 1) == if Separating(line, sep, n) then cuts + [n] else cuts;
    if Separating(line, sep, n) {
      PiecesPush(s.items, line, cuts, n);
      assert Kept(line, n + 1, n + 1) == "";
    } else {
      KeptNext(line, Begin(cuts, |cuts|), n);
    }
    hide Backslashes, Kept, Cuts, Pieces, Ordered;
  }

  lemma {:induction false} FedIsScanned(line: string, sep: char, n: nat)
    requires n <= |line|
    ensures Scanned(FeedAll(BLANK, line[..n], sep), line, sep, n)
  {
    if n > 0 {
      FedIsScanned(line, sep, n - 1);
      assert line[..n][..n - 1] == line[..n - 1];
      ScannedStep(FeedAll(BLANK, line[..n - 1], sep), line, sep, n - 1);
      hide Scanned, Feed;
    }
  }

  /** Any line splits into the pieces between its unprotected separators. */
  lemma SplitIsPieces(line: string, sep: char)
    ensures |Split(line, sep)| == |Cuts(line, sep, |line|)| + 1
    ensures forall k :: 0 <= k < |Split(line, sep)| ==> Split(line, sep)[k] == Piece(line, sep, k)
  {
    hide FeedAll, Cuts, Kept, Backslashes, Begin;
    FedIsScanned(line, sep, |line|);
    assert line[..|line|] == line;
  }

  lemma {:induction false} NothingSeparates(line: string, n: nat)
    requires n <= |line|
    ensures Cuts(line, ESCAPE, n) == []
  {
    if n > 0 {
      NothingSeparates(line, n - 1);
    }
  }

  /**
   * Escaping, joining and splitting gives the list back, for every list that is not empty, exactly
   * if the separator is not the backslash or there is nothing to separate.
   */
  lemma SplitInvertsJoin(items: seq<string>, sep: char)
    requires items != []
    ensures Split(Joined(items, sep), sep) == items <==> sep != ESCAPE || |items| == 1
  {
    if sep != ESCAPE || |items| == 1 {
      FeedJoined(items, sep);
    } else {
      SplitIsPieces(Joined(items, sep), sep);
      NothingSeparates(Joined(items, sep), |Joined(items, sep)|);
    }
  }
}
