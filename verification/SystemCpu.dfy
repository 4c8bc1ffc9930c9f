/**
 * SystemCPU::count of `kdumptool calibrate`: the number of CPUs a sysfs
 * cpuset file such as /sys/devices/system/cpu/online lists ("0-3,8,10-11").
 */
module SystemCpu {

  import opened Outcomes
  import opened StdStream

  /**
   * Where the loop of SystemCPU::count stands: before `fin >> n1` (the loop
   * test), before the first `fin >> delim`, before `fin >> n2` of a range, or
   * before the `fin >> delim` that follows a range.
   */
  datatype Phase = LoopTest | Delimiter(n1: nat) | RangeEnd(n1: nat) | RangeDelimiter

  function Rank(ph: Phase): nat {
    if ph.LoopTest? then 0 else 1
  }

  /**
   * SystemCPU::count on text `t` from stream state `st` and phase `ph` on,
   * with `ret` counted so far.  A range `a-b` adds b - a + 1, a single number
   * 1; after each item the next non-blank character must be ',' or the end.
   */
  function CountFrom(t: seq<char>, st: Stream, ph: Phase, ret: int): (r: Result<int>)
    requires st.pos <= |t|
    ensures r.Err? ==> r.error == KError(WrongNumberFormat) || r.error == KError(WrongDelimiter)
    decreases |t| - st.pos, Rank(ph)
  {
    match ph
    case LoopTest =>
      var (s1, n1) := ExtractNum(t, st);
      if !s1.fail then CountFrom(t, s1, Delimiter(n1), ret)
      else if s1.eof then Ok(ret)
      else Err(KError(WrongNumberFormat))
    case Delimiter(n1) =>
      var (s1, delim) := ExtractChar(t, st);
      if !s1.fail && delim == Some('-') then CountFrom(t, s1, RangeEnd(n1), ret)
      else if !s1.eof && delim != Some(',') then Err(KError(WrongDelimiter))
      else CountFrom(t, s1, LoopTest, ret + 1)
    case RangeEnd(n1) =>
      var (s1, n2) := ExtractNum(t, st);
      if s1.fail then Err(KError(WrongNumberFormat))
      else CountFrom(t, s1, RangeDelimiter, ret + n2 - n1)
    case RangeDelimiter =>
      var (s1, delim) := ExtractChar(t, st);
      if !s1.eof && delim != Some(',') then Err(KError(WrongDelimiter))
      else CountFrom(t, s1, LoopTest, ret + 1)
  }

  /** The number of CPUs a cpuset file lists, or the error SystemCPU::count throws. */
  function CpuCount(file: FileContent): (r: Result<int>)
    ensures file.OpenFailed? ==> r == Err(KSystemError(CannotOpen, file.errno))
    ensures file.Text? && r.Err? ==> r.error == KError(WrongNumberFormat) || r.error == KError(WrongDelimiter)
  {
    match file
    case OpenFailed(e) => Err(KSystemError(CannotOpen, e))
    case Text(t) => CountFrom(t, Start, LoopTest, 0)
  }

  // One lemma per step of CountFrom: each unfolds it exactly once.

  lemma {:induction false} CountNumberStep(t: seq<char>, st: Stream, ret: int)
    requires st.pos <= |t| && !ExtractNum(t, st).0.fail
    ensures CountFrom(t, st, LoopTest, ret) == CountFrom(t, ExtractNum(t, st).0, Delimiter(ExtractNum(t, st).1), ret)
  {}

  lemma {:induction false} CountLoopEnds(t: seq<char>, st: Stream, ret: int)
    requires st.pos <= |t| && ExtractNum(t, st).0.fail
    ensures CountFrom(t, st, LoopTest, ret) == if ExtractNum(t, st).0.eof then Ok(ret) else Err(KError(WrongNumberFormat))
  {}

  lemma {:induction false} CountDashStep(t: seq<char>, st: Stream, n1: nat, ret: int)
    requires st.pos <= |t| && ExtractChar(t, st).1 == Some('-')
    ensures CountFrom(t, st, Delimiter(n1), ret) == CountFrom(t, ExtractChar(t, st).0, RangeEnd(n1), ret)
  {}

  lemma {:induction false} CountRangeEndStep(t: seq<char>, st: Stream, n1: nat, ret: int)
    requires st.pos <= |t| && !ExtractNum(t, st).0.fail
    ensures CountFrom(t, st, RangeEnd(n1), ret)
         == CountFrom(t, ExtractNum(t, st).0, RangeDelimiter, ret + ExtractNum(t, st).1 - n1)
  {}

  lemma {:induction false} CountRangeEndFails(t: seq<char>, st: Stream, n1: nat, ret: int)
    requires st.pos <= |t| && ExtractNum(t, st).0.fail
    ensures CountFrom(t, st, RangeEnd(n1), ret) == Err(KError(WrongNumberFormat))
  {}

  lemma {:induction false} CountSeparatorStep(t: seq<char>, st: Stream, ph: Phase, ret: int)
    requires st.pos <= |t| && (ph.Delimiter? || ph.RangeDelimiter?)
    requires ExtractChar(t, st).0.eof || ExtractChar(t, st).1 == Some(',')
    ensures CountFrom(t, st, ph, ret) == CountFrom(t, ExtractChar(t, st).0, LoopTest, ret + 1)
  {}

  lemma {:induction false} CountDelimiterFails(t: seq<char>, st: Stream, ph: Phase, ret: int)
    requires st.pos <= |t| && (ph.Delimiter? || ph.RangeDelimiter?)
    requires ph.Delimiter? ==> ExtractChar(t, st).1 != Some('-')
    requires !ExtractChar(t, st).0.eof && ExtractChar(t, st).1 != Some(',')
    ensures CountFrom(t, st, ph, ret) == Err(KError(WrongDelimiter))
  {}

  /** Where counting from the delimiter after `n1` stands once one item of the loop is done. */
  predicate ItemDone(t: seq<char>, st: Stream, n1: nat, ret: int, st': Stream, n1': nat, ret': int, failure: Option<Error>)
    requires st.pos <= |t| && st'.pos <= |t|
  {
    var goal := CountFrom(t, st, Delimiter(n1), ret);
    if failure.Some? then goal == Err(failure.value)
    else if !st'.fail then goal == CountFrom(t, st', Delimiter(n1'), ret')
    else goal == if st'.eof then Ok(ret') else Err(KError(WrongNumberFormat))
  }

  /**
   * One pass of the loop body of SystemCPU::count, from `fin >> delim` to the
   * next loop test `fin >> n1`; `failure` is the KError the body throws.
   */
  method CountItem(t: seq<char>, fin: Stream, n1: nat, ret: int)
    returns (fin': Stream, n1': nat, ret': int, failure: Option<Error>)
    requires fin.pos <= |t| && !fin.fail
    ensures fin.pos <= fin'.pos <= |t|
    ensures failure.Nothing? && !fin'.fail ==> fin'.pos > fin.pos
    ensures ItemDone(t, fin, n1, ret, fin', n1', ret', failure)
  {
    ghost var ph: Phase := Delimiter(n1);
    fin', n1', ret', failure := fin, n1, ret, Nothing;
    var y := ExtractChar(t, fin');
    if !y.0.fail && y.1 == Some('-') {
      CountDashStep(t, fin', n1, ret);
      fin' := y.0;
      var x := ExtractNum(t, fin');
      if x.0.fail {
        CountRangeEndFails(t, fin', n1, ret);
        fin', failure := x.0, Some(KError(WrongNumberFormat));
        return;
      }
      CountRangeEndStep(t, fin', n1, ret);
      var n2 := x.1;
      fin', ret' := x.0, ret' + n2 - n1;
      ph := RangeDelimiter;
      y := ExtractChar(t, fin');
    }
    if !y.0.eof && y.1 != Some(',') {
      CountDelimiterFails(t, fin', ph, ret');
      fin', failure := y.0, Some(KError(WrongDelimiter));
      return;
    }
    CountSeparatorStep(t, fin', ph, ret');
    ret' := ret' + 1;
    var x := ExtractNum(t, y.0);
    if !x.0.fail {
      CountNumberStep(t, y.0, ret');
    } else {
      CountLoopEnds(t, y.0, ret');
    }
    fin', n1' := x.0, x.1;
  }

  /** SystemCPU::count: counts the CPUs of a list such as "0-3,8,10-11". */
  method Count(file: FileContent) returns (r: Result<int>)
    ensures r == CpuCount(file)
  {
    if file.OpenFailed? {
      return Err(KSystemError(CannotOpen, file.errno));
    }
    var t := file.text;
    var fin := Start;
    var ret := 0;
    ghost var goal := CountFrom(t, fin, LoopTest, 0);
    var n1: nat;
    var x := ExtractNum(t, fin);
    if !x.0.fail {
      CountNumberStep(t, fin, ret);
    } else {
      CountLoopEnds(t, fin, ret);
    }
    fin, n1 := x.0, x.1;
    while !fin.fail
      invariant fin.pos <= |t|
      invariant !fin.fail ==> CountFrom(t, fin, Delimiter(n1), ret) == goal
      invariant fin.fail ==> goal == (if fin.eof then Ok(ret) else Err(KError(WrongNumberFormat)))
      decreases |t| - fin.pos + (if fin.fail then 0 else 1)
    {
      var failure;
      fin, n1, ret, failure := CountItem(t, fin, n1, ret);
      if failure.Some? {
        return Err(failure.value);
      }
    }
    if !fin.eof {
      return Err(KError(WrongNumberFormat));
    }
    return Ok(ret);
  }

  // ---------------------------------------------------------------------------
  // The lists the kernel writes

  /** One item of a CPU list: a single CPU or an inclusive range. */
  datatype CpuSpan = Single(cpu: nat) | Span(first: nat, last: nat)

  /** The text of a span, "c" or "a-b", followed by `t`. */
  function SpanThen(x: CpuSpan, t: seq<char>): seq<char> {
    match x
    case Single(c) => NumText(c) + t
    case Span(a, b) => NumText(a) + (['-'] + (NumText(b) + t))
  }

  /** How many CPUs a span names. */
  function SpanSize(x: CpuSpan): int {
    match x
    case Single(_) => 1
    case Span(a, b) => b - a + 1
  }

  predicate SpanFits(x: CpuSpan) {
    match x
    case Single(c) => c <= ULONG_MAX
    case Span(a, b) => a <= ULONG_MAX && b <= ULONG_MAX
  }

  /** The file the kernel writes for a list of spans: comma-separated, newline-terminated. */
  function CpuListText(xs: seq<CpuSpan>): seq<char> {
    if |xs| == 0 then ['\n']
    else if |xs| == 1 then SpanThen(xs[0], ['\n'])
    else SpanThen(xs[0], [','] + CpuListText(xs[1..]))
  }

  function CpuTotal(xs: seq<CpuSpan>): int {
    if |xs| == 0 then 0 else SpanSize(xs[0]) + CpuTotal(xs[1..])
  }

  lemma {:induction false} SpanThenAppend(x: CpuSpan, u: seq<char>, v: seq<char>)
    ensures SpanThen(x, u + v) == SpanThen(x, u) + v
  {
    match x
    case Single(c) =>
      assert NumText(c) + (u + v) == (NumText(c) + u) + v;
    case Span(a, b) =>
      assert NumText(a) + (['-'] + (NumText(b) + (u + v))) == NumText(a) + (['-'] + (NumText(b) + u)) + v;
  }

  /** Where the count goes on after the separator `sep` that ends at `q`, in a text of length `n`. */
  function After(q: nat, sep: char, n: nat): Stream {
    if sep == ',' then Stream(q, false, false) else Stream(n, true, true)
  }

  /** The separator at `q` is a comma, or the final newline. */
  predicate SepAt(s: seq<char>, q: nat, sep: char) {
    q < |s| && s[q] == sep && (sep == ',' || (sep == '\n' && q + 1 == |s|))
  }

  lemma {:induction false} ExtractSepAt(s: seq<char>, q: nat, sep: char)
    requires SepAt(s, q, sep)
    ensures ExtractChar(s, Stream(q, false, false)).0 == After(q + 1, sep, |s|)
    ensures sep == ',' ==> ExtractChar(s, Stream(q, false, false)).1 == Some(',')
  {
    if sep == '\n' {
      assert SkipSpaces(s, q + 1) == q + 1;
    }
  }

  lemma {:induction false} SeparatorOfSpan(s: seq<char>, p: nat, x: CpuSpan, c: char)
    requires Occurs(s, p, SpanThen(x, [c]))
    ensures s[p + |SpanThen(x, [c])| - 1] == c
  {
    SpanThenAppend(x, [], [c]);
    assert [] + [c] == [c];
    OccursSplit(s, p, SpanThen(x, []), [c]);
    assert s[p + |SpanThen(x, [])| + 0] == [c][0];
  }

  /** A single CPU "c" followed by a separator counts 1. */
  lemma {:induction false} CountSingleAt(s: seq<char>, p: nat, x: CpuSpan, sep: char, ret: int)
    requires x.Single? && SpanFits(x)
    requires Occurs(s, p, SpanThen(x, [sep]))
    requires SepAt(s, p + |SpanThen(x, [sep])| - 1, sep)
    ensures CountFrom(s, Stream(p, false, false), LoopTest, ret)
         == CountFrom(s, After(p + |SpanThen(x, [sep])|, sep, |s|), LoopTest, ret + SpanSize(x))
  {
    var d := NumText(x.cpu);
    var q := p + |d|;
    assert SpanThen(x, [sep]) == d + [sep];
    OccursSplit(s, p, d, [sep]);
    assert s[q + 0] == sep;
    ExtractNumAt(s, p, p, x.cpu);
    ExtractSepAt(s, q, sep);
    CountNumberStep(s, Stream(p, false, false), ret);
    CountSeparatorStep(s, Stream(q, false, false), Delimiter(x.cpu), ret);
  }

  /** The first number of a range and its dash. */
  lemma {:induction false} RangeStartAt(s: seq<char>, p: nat, a: nat, ret: int, r: nat)
    requires a <= ULONG_MAX && Occurs(s, p, NumText(a))
    requires p + |NumText(a)| < |s| && s[p + |NumText(a)|] == '-'
    requires r == p + |NumText(a)| + 1
    ensures CountFrom(s, Stream(p, false, false), LoopTest, ret) == CountFrom(s, Stream(r, false, false), RangeEnd(a), ret)
  {
    ExtractNumAt(s, p, p, a);
    CountNumberStep(s, Stream(p, false, false), ret);
    CountDashStep(s, Stream(p + |NumText(a)|, false, false), a, ret);
  }

  lemma {:induction false} RangeEndSteps(t: seq<char>, s2: Stream, s3: Stream, s4: Stream, a: nat, b: nat, ret: int, total: int)
    requires s2.pos <= |t| && ExtractNum(t, s2) == (s3, b) && !s3.fail
    requires ExtractChar(t, s3).0 == s4 && (s4.eof || ExtractChar(t, s3).1 == Some(','))
    requires total == ret + (b - a + 1)
    ensures CountFrom(t, s2, RangeEnd(a), ret) == CountFrom(t, s4, LoopTest, total)
  {
    CountRangeEndStep(t, s2, a, ret);
    CountSeparatorStep(t, s3, RangeDelimiter, ret + b - a);
  }

  /** The second number of a range and the separator after it. */
  lemma {:induction false} RangeEndAt(s: seq<char>, p: nat, a: nat, b: nat, sep: char, ret: int, q: nat, total: int)
    requires b <= ULONG_MAX && Occurs(s, p, NumText(b))
    requires SepAt(s, p + |NumText(b)|, sep)
    requires q == p + |NumText(b)| + 1 && total == ret + (b - a + 1)
    ensures CountFrom(s, Stream(p, false, false), RangeEnd(a), ret) == CountFrom(s, After(q, sep, |s|), LoopTest, total)
  {
    var m := p + |NumText(b)|;
    ExtractNumAt(s, p, p, b);
    ExtractSepAt(s, m, sep);
    RangeEndSteps(s, Stream(p, false, false), Stream(m, false, false), After(q, sep, |s|), a, b, ret, total);
  }

  /** Where the pieces of a range "a-b" followed by `sep` lie in the text. */
  lemma {:induction false} RangePieces(s: seq<char>, p: nat, x: CpuSpan, sep: char)
    requires x.Span? && Occurs(s, p, SpanThen(x, [sep]))
    ensures var q1 := p + |NumText(x.first)|;
            q1 < |s| && s[q1] == '-' && Occurs(s, p, NumText(x.first)) && Occurs(s, q1 + 1, NumText(x.last))
            && q1 + 1 + |NumText(x.last)| == p + |SpanThen(x, [sep])| - 1
  {
    var a, b := x.first, x.last;
    var da, db := NumText(a), NumText(b);
    var q1 := p + |da|;
    assert SpanThen(x, [sep]) == da + (['-'] + (db + [sep]));
    OccursSplit(s, p, da, ['-'] + (db + [sep]));
    OccursSplit(s, q1, ['-'], db + [sep]);
    assert s[q1 + 0] == ['-'][0];
    OccursSplit(s, q1 + 1, db, [sep]);
  }

  /** A range "a-b" followed by a separator counts b - a + 1. */
  lemma {:induction false} CountRangeAt(s: seq<char>, p: nat, x: CpuSpan, sep: char, ret: int)
    requires x.Span? && SpanFits(x)
    requires Occurs(s, p, SpanThen(x, [sep]))
    requires SepAt(s, p + |SpanThen(x, [sep])| - 1, sep)
    ensures CountFrom(s, Stream(p, false, false), LoopTest, ret)
         == CountFrom(s, After(p + |SpanThen(x, [sep])|, sep, |s|), LoopTest, ret + SpanSize(x))
  {
    var r := p + |NumText(x.first)| + 1;
    RangePieces(s, p, x, sep);
    RangeStartAt(s, p, x.first, ret, r);
    RangeEndAt(s, r, x.first, x.last, sep, ret, p + |SpanThen(x, [sep])|, ret + SpanSize(x));
  }

  /** Reading a span and its separator adds the span's size; the count goes on at `next`. */
  lemma {:induction false} CountSpanAt(s: seq<char>, p: nat, x: CpuSpan, sep: char, ret: int, next: Stream, k: int)
    requires SpanFits(x)
    requires Occurs(s, p, SpanThen(x, [sep]))
    requires SepAt(s, p + |SpanThen(x, [sep])| - 1, sep)
    requires next == After(p + |SpanThen(x, [sep])|, sep, |s|) && k == ret + SpanSize(x)
    ensures next.pos <= |s|
    ensures CountFrom(s, Stream(p, false, false), LoopTest, ret) == CountFrom(s, next, LoopTest, k)
  {
    if x.Single? {
      CountSingleAt(s, p, x, sep, ret);
    } else {
      CountRangeAt(s, p, x, sep, ret);
    }
  }

  /** An empty list, a lone newline, counts nothing. */
  lemma {:induction false} CountEndAt(s: seq<char>, p: nat, ret: int, total: int)
    requires Occurs(s, p, ['\n']) && p + 1 == |s|
    requires total == ret
    ensures CountFrom(s, Stream(p, false, false), LoopTest, ret) == Ok(total)
  {
    assert s[p + 0] == ['\n'][0];
    assert SkipSpaces(s, p + 1) == p + 1;
  }

  /** The last span is followed by the newline, after which the loop test meets the end. */
  lemma {:induction false} CountLastAt(s: seq<char>, p: nat, x: CpuSpan, ret: int, total: int)
    requires SpanFits(x)
    requires Occurs(s, p, SpanThen(x, ['\n'])) && p + |SpanThen(x, ['\n'])| == |s|
    requires total == ret + SpanSize(x)
    ensures CountFrom(s, Stream(p, false, false), LoopTest, ret) == Ok(total)
  {
    SeparatorOfSpan(s, p, x, '\n');
    CountSpanAt(s, p, x, '\n', ret, Stream(|s|, true, true), total);
  }

  /** Counting the text of a list written at `p` from `ret` on adds the size of every span. */
  lemma {:induction false} CountListAt(s: seq<char>, p: nat, xs: seq<CpuSpan>, ret: int, total: int)
    requires forall i :: 0 <= i < |xs| ==> SpanFits(xs[i])
    requires Occurs(s, p, CpuListText(xs)) && p + |CpuListText(xs)| == |s|
    requires total == ret + CpuTotal(xs)
    ensures CountFrom(s, Stream(p, false, false), LoopTest, ret) == Ok(total)
    decreases |xs|
  {
    if |xs| == 0 {
      CountEndAt(s, p, ret, total);
    } else if |xs| == 1 {
      CountLastAt(s, p, xs[0], ret, total);
    } else {
      var x, rest := xs[0], CpuListText(xs[1..]);
      HeadSplit(s, p, x, rest);
      CountListAt(s, p + |SpanThen(x, [','])|, xs[1..], ret + SpanSize(x), total);
      CountHeadAt(s, p, x, rest, ret, total);
    }
  }

  /**
   * A span with its comma, then `rest`: when counting `rest` after the span
   * gives `total`, so does counting from the span.
   */
  lemma {:induction false} CountHeadAt(s: seq<char>, p: nat, x: CpuSpan, rest: seq<char>, ret: int, total: int)
    requires SpanFits(x)
    requires Occurs(s, p, SpanThen(x, [','] + rest)) && p + |SpanThen(x, [','] + rest)| == |s|
    requires CountFrom(s, Stream(p + |SpanThen(x, [','])|, false, false), LoopTest, ret + SpanSize(x)) == Ok(total)
    ensures CountFrom(s, Stream(p, false, false), LoopTest, ret) == Ok(total)
  {
    HeadSplit(s, p, x, rest);
    CountSpanAt(s, p, x, ',', ret, Stream(p + |SpanThen(x, [','])|, false, false), ret + SpanSize(x));
  }

  /** Where a span with its comma, then `rest`, is written: the span, its comma, and `rest` after them. */
  lemma {:induction false} HeadSplit(s: seq<char>, p: nat, x: CpuSpan, rest: seq<char>)
    requires Occurs(s, p, SpanThen(x, [','] + rest)) && p + |SpanThen(x, [','] + rest)| == |s|
    ensures var q := p + |SpanThen(x, [','])|;
      && Occurs(s, p, SpanThen(x, [',']))
      && SepAt(s, q - 1, ',')
      && Stream(q, false, false) == After(q, ',', |s|)
      && Occurs(s, q, rest) && q + |rest| == |s|
  {
    SpanThenAppend(x, [','], rest);
    OccursSplit(s, p, SpanThen(x, [',']), rest);
    SeparatorOfSpan(s, p, x, ',');
  }

  /** SystemCPU::count of the file the kernel writes for `xs` is the number of CPUs the spans name. */
  lemma {:induction false} CpuCountOfList(xs: seq<CpuSpan>)
    requires forall i :: 0 <= i < |xs| ==> SpanFits(xs[i])
    ensures CpuCount(Text(CpuListText(xs))) == Ok(CpuTotal(xs))
  {
    OccursWhole(CpuListText(xs));
    CountListAt(CpuListText(xs), 0, xs, 0, CpuTotal(xs));
  }

  /** A number followed by a character other than '-', ',' or white space is a wrong delimiter. */
  lemma {:induction false} CountRejectsDelimiter(a: nat, c: char, rest: seq<char>)
    requires a <= ULONG_MAX
    requires !IsSpace(c) && !IsDigit(c) && c != '-' && c != ','
    ensures CpuCount(Text(NumText(a) + ([c] + rest))) == Err(KError(WrongDelimiter))
  {
    var s := NumText(a) + ([c] + rest);
    var q := |NumText(a)|;
    assert Occurs(s, 0, NumText(a)) && s[q] == c by {
      OccursWhole(s);
      OccursSplit(s, 0, NumText(a), [c] + rest);
      assert s[q + 0] == ([c] + rest)[0];
    }
    ExtractNumAt(s, 0, 0, a);
    ExtractCharAt(s, q, q);
    CountNumberStep(s, Start, 0);
    CountDelimiterFails(s, Stream(q, false, false), Delimiter(a), 0);
  }

  /** A list that starts with something other than a number is a wrong number format. */
  lemma {:induction false} CountRejectsNumber(c: char, rest: seq<char>)
    requires !IsSpace(c) && !IsDigit(c)
    ensures CpuCount(Text([c] + rest)) == Err(KError(WrongNumberFormat))
  {
    var s := [c] + rest;
    assert s[0] == c;
    assert SkipSpaces(s, 0) == 0;
    assert SkipDigits(s, 0) == 0;
  }
}
