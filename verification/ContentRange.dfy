// The "Content-Range" text both sides of a transfer exchange (src/bofwebapp.cpp, and the
// snprintf calls of src/bofwebclient.cpp and tests/src/ut_webapp.cpp).

module ContentRange {
  import opened Words

  datatype Range = Range(min: nat, max: nat, size: nat)

  // ---- Decimal numbers ----

  predicate IsDigit(c: char) {
    '0' <= c <= '9'
  }

  predicate AllDigits(s: string) {
    forall i :: 0 <= i < |s| ==> IsDigit(s[i])
  }

  function Value(s: string): nat
    requires AllDigits(s)
  {
    if s == "" then 0 else 10 * Value(s[..|s| - 1]) + (s[|s| - 1] as int - '0' as int)
  }

  /** The text of "%zu". */
  function Decimal(n: nat): (s: string)
    ensures s != "" && AllDigits(s) && Value(s) == n
  {
    var last := [('0' as int + n % 10) as char];
    if n < 10 then last
    else
      var s := Decimal(n / 10) + last;
      assert s[..|s| - 1] == Decimal(n / 10);
      s
  }

  function Pow10(k: nat): nat {
    if k == 0 then 1 else 10 * Pow10(k - 1)
  }

  lemma {:induction false} DecimalLength(n: nat, k: nat)
    requires 0 < k && n < Pow10(k)
    ensures |Decimal(n)| <= k
  {
    if n >= 10 {
      assert k > 1 by { assert Pow10(1) == 10 * Pow10(0); }
      DecimalLength(n / 10, k - 1);
    }
  }

  // ---- Printer ----

  /** What `snprintf` leaves in a buffer of the given size. */
  function Snprintf(size: nat, text: string): string
    requires size > 0
  {
    if |text| < size then text else text[..size - 1]
  }

  function Text(r: Range): string {
    "bytes " + Decimal(r.min) + "-" + Decimal(r.max) + "/" + Decimal(r.size)
  }

  /** The header value: printed into a buffer of 0x100 characters. */
  function Header(r: Range): string {
    Snprintf(0x100, Text(r))
  }

  predicate Fits(r: Range, limit: nat) {
    r.min <= limit && r.max <= limit && r.size <= limit
  }

  // ---- Parser ----

  /** Length of the longest prefix of digits. */
  function DigitRun(s: string): (n: nat)
    ensures n <= |s| && AllDigits(s[..n])
    ensures n < |s| ==> !IsDigit(s[n])
  {
    if s == "" || !IsDigit(s[0]) then 0 else
      var n := 1 + DigitRun(s[1..]);
      assert forall i :: 1 <= i < n ==> s[..n][i] == s[1..][..n - 1][i - 1];
      n
  }

  /** A non-empty digit run ended by `sep`, and what follows. */
  function Cut(s: string, sep: char): (m: Option<(string, string)>)
    ensures m.Some? ==> AllDigits(m.value.0)
  {
    var i := DigitRun(s);
    if i == 0 || i == |s| || s[i] != sep then None else Some((s[..i], s[i + 1..]))
  }

  /** The three captures of the pattern `bytes (\d+)-(\d+)/(\d+)` on a full match. */
  function Captures(s: string): (m: Option<(string, string, string)>)
    ensures m.Some? ==> AllDigits(m.value.0) && AllDigits(m.value.1) && AllDigits(m.value.2)
  {
    if |s| < 6 || s[..6] != "bytes " then None else
      var first := Cut(s[6..], '-');
      if first.None? then None else
        var second := Cut(first.value.1, '/');
        if second.None? || second.value.1 == "" || !AllDigits(second.value.1) then None else
          Some((first.value.0, second.value.0, second.value.1))
  }

  /** `std::stoul` throws above `limit`, the largest unsigned long of the platform. */
  function Parse(limit: nat, s: string): (r: Option<Range>)
    ensures r.Some? ==> Fits(r.value, limit)
  {
    var m := Captures(s);
    if m.None? then None else
      var r := Range(Value(m.value.0), Value(m.value.1), Value(m.value.2));
      if Fits(r, limit) then Some(r) else None
  }

  /** On a 64-bit Unix, where both sides of the transfer protocol are placed here. */
  function ParseHeader(s: string): (r: Option<Range>)
    ensures r.Some? ==> Fits(r.value, TWO64 - 1)
  {
    Parse(TWO64 - 1, s)
  }

  /**
   * S_ParseContentRangeRequest. The outputs are references that keep their incoming values
   * until each number is converted, so a conversion that throws leaves the earlier ones set.
   */
  method ParseContentRangeRequest(limit: nat, text: string, min0: nat, max0: nat, size0: nat)
    returns (ok: bool, min: nat, max: nat, size: nat)
    ensures ok <==> Parse(limit, text).Some?
    ensures ok ==> Parse(limit, text) == Some(Range(min, max, size))
    ensures !ok ==> size == size0
    ensures var m := Captures(text);
            !ok ==> if m.None? || Value(m.value.0) > limit then min == min0 && max == max0
                    else min == Value(m.value.0) && max == if Value(m.value.1) > limit then max0 else Value(m.value.1)
  {
    ok, min, max, size := false, min0, max0, size0;
    var m := Captures(text);
    if m.Some? {
      var (a, b, c) := m.value;
      if Value(a) > limit { return; }
      min := Value(a);
      if Value(b) > limit { return; }
      max := Value(b);
      if Value(c) > limit { return; }
      size := Value(c);
      ok := true;
    }
  }

  // ---- The language of the parser ----

  ghost predicate Spells(s: string, a: string, b: string, c: string) {
    && s == "bytes " + a + "-" + b + "/" + c
    && a != "" && AllDigits(a)
    && b != "" && AllDigits(b)
    && c != "" && AllDigits(c)
  }

  lemma {:induction false} DigitRunIs(a: string, rest: string)
    requires AllDigits(a)
    requires rest == "" || !IsDigit(rest[0])
    ensures DigitRun(a + rest) == |a|
  {
    if a == "" {
      assert a + rest == rest;
    } else {
      assert (a + rest)[1..] == a[1..] + rest;
      DigitRunIs(a[1..], rest);
    }
  }

  lemma CutIs(a: string, sep: char, rest: string)
    requires a != "" && AllDigits(a) && !IsDigit(sep)
    ensures Cut(a + [sep] + rest, sep) == Some((a, rest))
  {
    var s := a + [sep] + rest;
    assert s == a + ([sep] + rest);
    DigitRunIs(a, [sep] + rest);
    assert s[..|a|] == a && s[|a| + 1..] == rest;
  }

  lemma CutSpells(s: string, sep: char)
    requires Cut(s, sep).Some?
    ensures Cut(s, sep).value.0 != ""
    ensures s == Cut(s, sep).value.0 + [sep] + Cut(s, sep).value.1
  {
    assert s == s[..DigitRun(s)] + [s[DigitRun(s)]] + s[DigitRun(s) + 1..];
  }

  lemma Regroup(a: string, b: string, c: string)
    ensures "bytes " + a + "-" + b + "/" + c == "bytes " + (a + "-" + (b + "/" + c))
  {
  }

  lemma SpelledIsCaptured(s: string, a: string, b: string, c: string)
    requires Spells(s, a, b, c)
    ensures Captures(s) == Some((a, b, c))
  {
    Regroup(a, b, c);
    var t := a + "-" + (b + "/" + c);
    assert s[..6] == "bytes " && s[6..] == t;
    CutIs(a, '-', b + "/" + c);
    CutIs(b, '/', c);
  }

  lemma CapturedIsSpelled(s: string)
    requires Captures(s).Some?
    ensures Spells(s, Captures(s).value.0, Captures(s).value.1, Captures(s).value.2)
  {
    var (a, b, c) := Captures(s).value;
    CutSpells(s[6..], '-');
    CutSpells(Cut(s[6..], '-').value.1, '/');
    assert s == s[..6] + s[6..];
    Regroup(a, b, c);
  }

  /**
   * The parser accepts exactly the texts "bytes d-d/d" whose three digit runs are not empty
   * and not above the limit, and yields their values; no text has two readings.
   */
  lemma ParserLanguage(limit: nat, s: string, r: Range)
    ensures Parse(limit, s) == Some(r) <==>
            exists a, b, c :: Spells(s, a, b, c) && r == Range(Value(a), Value(b), Value(c)) && Fits(r, limit)
    ensures forall a, b, c, a', b', c' ::
              Spells(s, a, b, c) && Spells(s, a', b', c') ==> a == a' && b == b' && c == c'
  {
    if Captures(s).Some? {
      CapturedIsSpelled(s);
      var (a, b, c) := Captures(s).value;
      assert Spells(s, a, b, c);
    }
    forall a, b, c | Spells(s, a, b, c) ensures Captures(s) == Some((a, b, c)) {
      SpelledIsCaptured(s, a, b, c);
    }
  }

  /** Printing never truncates and parsing gives the numbers back, up to any platform limit. */
  lemma RoundTrip(limit: nat, r: Range)
    requires limit < TWO64
    requires Fits(r, limit)
    ensures |Text(r)| < 0x100 && Header(r) == Text(r)
    ensures Parse(limit, Header(r)) == Some(r)
  {
    assert Pow10(20) > TWO64 by {
      assert Pow10(5) == 100000;
      assert Pow10(10) == 10000000000;
      assert Pow10(15) == 1000000000000000;
    }
    DecimalLength(r.min, 20);
    DecimalLength(r.max, 20);
    DecimalLength(r.size, 20);
    SpelledIsCaptured(Text(r), Decimal(r.min), Decimal(r.max), Decimal(r.size));
  }

  lemma HeaderRoundTrip(r: Range)
    requires Fits(r, TWO64 - 1)
    ensures ParseHeader(Header(r)) == Some(r)
  {
    RoundTrip(TWO64 - 1, r);
  }
}
