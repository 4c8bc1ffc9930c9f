/**
 * The C and C++ text primitives the calibrate parsers are built from:
 * formatted extraction from a libstdc++ `istream` (`>> unsigned long`,
 * `>> char`, `>> std::string`), `istream::getline`, and the C library's
 * `strtoul`, `strncmp` and `std::string::find`.
 *
 * A stream reads a fixed text; its state is the read position and its
 * `eofbit` and `failbit`.  `badbit` (an I/O error of the underlying file)
 * never arises on in-memory text.  Every scanner works on positions in the
 * text rather than on its suffixes.
 */
module StdStream {

  import opened Outcomes

  const ULONG_MAX: nat := 0xFFFF_FFFF_FFFF_FFFF

  /** C `isspace` in the "C" locale: blank, tab, newline, vertical tab, form feed, carriage return. */
  predicate IsSpace(c: char) {
    c == ' ' || '\t' <= c <= '\r'
  }

  predicate IsDigit(c: char) {
    '0' <= c <= '9'
  }

  predicate AllDigits(s: seq<char>) {
    forall i :: 0 <= i < |s| ==> IsDigit(s[i])
  }

  /** A non-empty string without white space, as `>> std::string` extracts it. */
  predicate IsWord(w: seq<char>) {
    |w| > 0 && forall i :: 0 <= i < |w| ==> !IsSpace(w[i])
  }

  /** `d` is written in `s` at position `p`. */
  predicate Occurs(s: seq<char>, p: nat, d: seq<char>) {
    p + |d| <= |s| && forall k :: 0 <= k < |d| ==> s[p + k] == d[k]
  }

  // ---------------------------------------------------------------------------
  // Scanners

  /** The first position at or after `i` that does not hold white space. */
  function SkipSpaces(s: seq<char>, i: nat): (j: nat)
    requires i <= |s|
    ensures i <= j <= |s|
    decreases |s| - i
  {
    if i < |s| && IsSpace(s[i]) then SkipSpaces(s, i + 1) else i
  }

  /** The first position at or after `i` that does not hold a decimal digit. */
  function SkipDigits(s: seq<char>, i: nat): (j: nat)
    requires i <= |s|
    ensures i <= j <= |s|
    decreases |s| - i
  {
    if i < |s| && IsDigit(s[i]) then SkipDigits(s, i + 1) else i
  }

  /** The first position at or after `i` that holds white space. */
  function SkipWord(s: seq<char>, i: nat): (j: nat)
    requires i <= |s|
    ensures i <= j <= |s|
    decreases |s| - i
  {
    if i < |s| && !IsSpace(s[i]) then SkipWord(s, i + 1) else i
  }

  /** The position of the first newline at or after `i`, or |s| when there is none. */
  function LineEnd(s: seq<char>, i: nat): (j: nat)
    requires i <= |s|
    ensures i <= j <= |s|
    decreases |s| - i
  {
    if i < |s| && s[i] != '\n' then LineEnd(s, i + 1) else i
  }

  /** The position of the first NUL at or after `i`, or |s| when there is none. */
  function NulAt(s: seq<char>, i: nat): (j: nat)
    requires i <= |s|
    ensures i <= j <= |s|
    decreases |s| - i
  {
    if i < |s| && s[i] != '\0' then NulAt(s, i + 1) else i
  }

  /** SkipSpaces passes white space only and stops at a non-space or the end. */
  lemma {:induction false} SkipSpacesStops(s: seq<char>, i: nat)
    requires i <= |s|
    ensures forall k :: i <= k < SkipSpaces(s, i) ==> IsSpace(s[k])
    ensures SkipSpaces(s, i) < |s| ==> !IsSpace(s[SkipSpaces(s, i)])
    decreases |s| - i
  {
    if i < |s| && IsSpace(s[i]) {
      SkipSpacesStops(s, i + 1);
    }
  }

  /** SkipDigits passes digits only and stops at a non-digit or the end. */
  lemma {:induction false} SkipDigitsStops(s: seq<char>, i: nat)
    requires i <= |s|
    ensures forall k :: i <= k < SkipDigits(s, i) ==> IsDigit(s[k])
    ensures SkipDigits(s, i) < |s| ==> !IsDigit(s[SkipDigits(s, i)])
    decreases |s| - i
  {
    if i < |s| && IsDigit(s[i]) {
      SkipDigitsStops(s, i + 1);
    }
  }

  /** SkipWord passes non-space characters only and stops at white space or the end. */
  lemma {:induction false} SkipWordStops(s: seq<char>, i: nat)
    requires i <= |s|
    ensures forall k :: i <= k < SkipWord(s, i) ==> !IsSpace(s[k])
    ensures SkipWord(s, i) < |s| ==> IsSpace(s[SkipWord(s, i)])
    decreases |s| - i
  {
    if i < |s| && !IsSpace(s[i]) {
      SkipWordStops(s, i + 1);
    }
  }

  /** LineEnd finds the first newline at or after `i`. */
  lemma {:induction false} LineEndStops(s: seq<char>, i: nat)
    requires i <= |s|
    ensures forall k :: i <= k < LineEnd(s, i) ==> s[k] != '\n'
    ensures LineEnd(s, i) < |s| ==> s[LineEnd(s, i)] == '\n'
    decreases |s| - i
  {
    if i < |s| && s[i] != '\n' {
      LineEndStops(s, i + 1);
    }
  }

  /** NulAt finds the first NUL at or after `i`. */
  lemma {:induction false} NulAtStops(s: seq<char>, i: nat)
    requires i <= |s|
    ensures forall k :: i <= k < NulAt(s, i) ==> s[k] != '\0'
    ensures NulAt(s, i) < |s| ==> s[NulAt(s, i)] == '\0'
    decreases |s| - i
  {
    if i < |s| && s[i] != '\0' {
      NulAtStops(s, i + 1);
    }
  }

  /** The value of the decimal digits s[i..j]. */
  function ValueOf(s: seq<char>, i: nat, j: nat): nat
    requires i <= j <= |s|
    decreases j - i
  {
    if j == i then 0
    else ValueOf(s, i, j - 1) * 10 + (if IsDigit(s[j - 1]) then s[j - 1] as int - '0' as int else 0)
  }

  /** The decimal text of `n`, as `%lu` prints it. */
  function NumText(n: nat): (s: seq<char>)
    ensures |s| > 0 && AllDigits(s)
  {
    var d := ['0' + (n % 10) as char];
    if n < 10 then d else NumText(n / 10) + d
  }

  // ---------------------------------------------------------------------------
  // istream

  /** What opening and reading a sysfs or procfs file yields: its text, or the errno of the failed open. */
  datatype FileContent = Text(text: seq<char>) | OpenFailed(errno: int)

  /** The read position of an input stream over a fixed text, and its state flags. */
  datatype Stream = Stream(pos: nat, eof: bool, fail: bool)

  /** A freshly opened stream. */
  const Start: Stream := Stream(0, false, false)

  /** `good()`: neither end of file nor a failed extraction so far. */
  predicate Good(st: Stream) {
    !st.eof && !st.fail
  }

  /**
   * `st >> n` for an `unsigned long` n.  The sentry skips white space; then the
   * longest run of decimal digits is converted.  No digit, or a value above
   * ULONG_MAX, sets failbit; reaching the end of the text sets eofbit.
   */
  function ExtractNum(t: seq<char>, st: Stream): (r: (Stream, nat))
    requires st.pos <= |t|
    ensures st.pos <= r.0.pos <= |t|
    ensures !r.0.fail ==> Good(st) && st.pos < r.0.pos
  {
    if !Good(st) then (st.(fail := true), 0)
    else
      var i := SkipSpaces(t, st.pos);
      var j := SkipDigits(t, i);
      if i == |t| then (Stream(i, true, true), 0)
      else if j == i then (Stream(i, false, true), 0)
      else if ValueOf(t, i, j) > ULONG_MAX then (Stream(j, j == |t|, true), ULONG_MAX)
      else (Stream(j, j == |t|, false), ValueOf(t, i, j))
  }

  /**
   * `st >> c` for a `char` c: skips white space and takes the next character;
   * at the end of the text both eofbit and failbit are set.
   */
  function ExtractChar(t: seq<char>, st: Stream): (r: (Stream, Option<char>))
    requires st.pos <= |t|
    ensures st.pos <= r.0.pos <= |t|
    ensures r.0.fail <==> r.1.Nothing?
    ensures r.0.fail ==> r.0.eof || st.fail
  {
    if !Good(st) then (st.(fail := true), Nothing)
    else
      var i := SkipSpaces(t, st.pos);
      if i == |t| then (Stream(i, true, true), Nothing)
      else (Stream(i + 1, false, false), Some(t[i]))
  }

  /**
   * `st >> w` for a `std::string` w: skips white space and takes the following
   * non-space characters; failbit when there are none.
   */
  function ExtractWord(t: seq<char>, st: Stream): (r: (Stream, seq<char>))
    requires st.pos <= |t|
    ensures st.pos <= r.0.pos <= |t|
    ensures !r.0.fail ==> Good(st) && (r.0.eof <==> r.0.pos == |t|)
  {
    if !Good(st) then (st.(fail := true), [])
    else
      var i := SkipSpaces(t, st.pos);
      var j := SkipWord(t, i);
      if i == |t| then (Stream(i, true, true), [])
      else (Stream(j, j == |t|, false), t[i..j])
  }

  /**
   * `st.getline(buf, n)`: stores the characters up to the next newline, which
   * is extracted but not stored.  Reaching the end sets eofbit; filling n - 1
   * characters before a newline sets failbit; so does extracting nothing.
   */
  function GetLine(t: seq<char>, st: Stream, n: nat): (r: (Stream, seq<char>))
    requires st.pos <= |t| && n > 0
    ensures st.pos <= r.0.pos <= |t|
    ensures !r.0.fail ==> Good(st) && st.pos < r.0.pos
    ensures |r.1| < n
  {
    if !Good(st) then (st.(fail := true), [])
    else if st.pos == |t| then (Stream(st.pos, true, true), [])
    else
      var i := LineEnd(t, st.pos);
      if i - st.pos > n - 1 then (Stream(st.pos + n - 1, false, true), t[st.pos..st.pos + n - 1])
      else if i == |t| then (Stream(i, true, false), t[st.pos..])
      else (Stream(i + 1, false, false), t[st.pos..i])
  }

  /** What `>> w` extracts is a word of the text, ending where the stream now stands. */
  lemma {:induction false} ExtractWordTakesWord(t: seq<char>, st: Stream)
    requires st.pos <= |t|
    ensures var (st', w) := ExtractWord(t, st);
            !st'.fail ==> IsWord(w) && |w| <= st'.pos && Occurs(t, st'.pos - |w|, w)
  {
    if Good(st) {
      var i := SkipSpaces(t, st.pos);
      SkipSpacesStops(t, st.pos);
      SkipWordStops(t, i);
    }
  }

  /** What `getline` stores holds no newline and is the text just before where the stream now stands. */
  lemma {:induction false} GetLineTakesLine(t: seq<char>, st: Stream, n: nat)
    requires st.pos <= |t| && n > 0
    ensures var (st', l) := GetLine(t, st, n);
            (forall k :: 0 <= k < |l| ==> l[k] != '\n') && Occurs(t, st.pos, l)
  {
    if Good(st) && st.pos < |t| {
      LineEndStops(t, st.pos);
    }
  }

  // ---------------------------------------------------------------------------
  // C strings

  /** The character a C pointer to position `i` reads; past the end that is the NUL. */
  function CharAt(s: seq<char>, i: nat): char {
    if i < |s| then s[i] else '\0'
  }

  /** The C string held in a character buffer: everything before the first NUL. */
  function CStr(s: seq<char>): (r: seq<char>)
    ensures r <= s
    ensures forall i :: 0 <= i < |r| ==> r[i] != '\0'
    ensures |r| < |s| ==> s[|r|] == '\0'
  {
    NulAtStops(s, 0);
    s[..NulAt(s, 0)]
  }

  /** `strncmp(s, p, |p|) == 0` for a prefix p that holds no NUL. */
  predicate StartsWith(s: seq<char>, p: seq<char>) {
    Occurs(s, 0, p)
  }

  /**
   * `strtoul(s + i, &end, 10)`: skips white space, takes an optional sign and
   * the following digits.  With no digit, `end` is `s + i` and the value 0.
   * A value above ULONG_MAX gives ULONG_MAX; a minus sign negates modulo 2^64.
   */
  function Strtoul(s: seq<char>, i: nat): (r: (nat, nat))
    requires i <= |s|
    ensures i <= r.1 <= |s|
    ensures r.0 <= ULONG_MAX
    ensures r.1 > i ==> IsDigit(s[r.1 - 1]) && (r.1 == |s| || !IsDigit(s[r.1]))
  {
    var j := SkipSpaces(s, i);
    var signed := j < |s| && (s[j] == '+' || s[j] == '-');
    var d := if signed then j + 1 else j;
    var e := SkipDigits(s, d);
    SkipDigitsStops(s, d);
    if e == d then (0, i)
    else
      var v := ValueOf(s, d, e);
      var value := if v > ULONG_MAX then ULONG_MAX
                   else if signed && s[j] == '-' then (ULONG_MAX + 1 - v) % (ULONG_MAX + 1)
                   else v;
      (value, e)
  }

  /** `s.find(needle, from)`: the first position at or after `from` where `needle` occurs. */
  function Find(s: seq<char>, needle: seq<char>, from: nat): (r: Option<nat>)
    ensures r.Some? ==> from <= r.value && Occurs(s, r.value, needle)
    ensures r.Some? ==> forall k :: from <= k < r.value ==> !Occurs(s, k, needle)
    ensures r.Nothing? ==> forall k :: from <= k ==> !Occurs(s, k, needle)
    decreases |s| - from
  {
    if from + |needle| > |s| then Nothing
    else if s[from..from + |needle|] == needle then Some(from)
    else Find(s, needle, from + 1)
  }

  // ---------------------------------------------------------------------------
  // Reading back what was written

  /** A text made of `a` then `b` holds `a` at its position and `b` right after it. */
  lemma {:induction false} OccursSplit(s: seq<char>, p: nat, a: seq<char>, b: seq<char>)
    requires Occurs(s, p, a + b)
    ensures Occurs(s, p, a) && Occurs(s, p + |a|, b)
  {
    forall k | 0 <= k < |a| ensures s[p + k] == a[k] {
      assert (a + b)[k] == a[k];
    }
    forall k | 0 <= k < |b| ensures s[p + |a| + k] == b[k] {
      assert (a + b)[|a| + k] == b[k];
    }
  }

  /** `a` written at `p` and `b` right after it make `a + b` written at `p`. */
  lemma {:induction false} OccursJoin(s: seq<char>, p: nat, a: seq<char>, b: seq<char>)
    requires Occurs(s, p, a) && Occurs(s, p + |a|, b)
    ensures Occurs(s, p, a + b)
  {
    forall k | 0 <= k < |a + b| ensures s[p + k] == (a + b)[k] {
      if k >= |a| {
        assert s[p + |a| + (k - |a|)] == b[k - |a|];
      }
    }
  }

  /** Within a piece `u` written at `p`, `d` occurs at `k` exactly when it occurs in the text at p + k. */
  lemma {:induction false} OccursIn(s: seq<char>, p: nat, u: seq<char>, k: nat, d: seq<char>)
    requires Occurs(s, p, u) && k + |d| <= |u|
    ensures Occurs(s, p + k, d) <==> Occurs(u, k, d)
  {
    forall j | k <= j < k + |d| ensures s[p + j] == u[j] {
    }
  }

  /** `find` from `from` stops at the first occurrence, when there is one at `p` and none before it. */
  lemma {:induction false} FindAt(s: seq<char>, needle: seq<char>, from: nat, p: nat)
    requires from <= p && Occurs(s, p, needle)
    requires forall k :: from <= k < p ==> !Occurs(s, k, needle)
    ensures Find(s, needle, from) == Some(p)
    decreases p - from
  {
    if from == p {
      assert s[from..from + |needle|] == needle by {
        forall k | 0 <= k < |needle| ensures s[from..from + |needle|][k] == needle[k] {
          assert s[from + k] == needle[k];
        }
      }
    } else {
      assert !Occurs(s, from, needle);
      var k :| 0 <= k < |needle| && s[from + k] != needle[k];
      assert s[from..from + |needle|][k] != needle[k];
      FindAt(s, needle, from + 1, p);
    }
  }

  /** Every text holds itself at position 0. */
  lemma {:induction false} OccursWhole(s: seq<char>)
    ensures Occurs(s, 0, s)
  {
    forall k | 0 <= k < |s| ensures s[0 + k] == s[k] {}
  }

  /** ValueOf only looks at the digits it is given. */
  lemma {:induction false} ValueOfPrefix(a: seq<char>, b: seq<char>, j: nat)
    requires j <= |a|
    ensures ValueOf(a + b, 0, j) == ValueOf(a, 0, j)
    decreases j
  {
    if j > 0 {
      ValueOfPrefix(a, b, j - 1);
    }
  }

  /** ValueOf reads back what NumText writes. */
  lemma {:induction false} ValueOfNumText(n: nat)
    ensures ValueOf(NumText(n), 0, |NumText(n)|) == n
  {
    var s := NumText(n);
    if n >= 10 {
      var h := NumText(n / 10);
      ValueOfNumText(n / 10);
      ValueOfPrefix(h, [s[|s| - 1]], |h|);
    }
  }

  /** The value of digits written at `p` is their own value. */
  lemma {:induction false} ValueOfOver(s: seq<char>, p: nat, d: seq<char>, k: nat)
    requires Occurs(s, p, d) && k <= |d|
    ensures ValueOf(s, p, p + k) == ValueOf(d, 0, k)
    decreases k
  {
    if k > 0 {
      assert s[p + k - 1] == d[k - 1];
      ValueOfOver(s, p, d, k - 1);
    }
  }

  /** A run of white space from `p` to a non-space at `q` is skipped exactly. */
  lemma {:induction false} SkipSpacesTo(s: seq<char>, p: nat, q: nat)
    requires p <= q <= |s|
    requires forall k :: p <= k < q ==> IsSpace(s[k])
    requires q == |s| || !IsSpace(s[q])
    ensures SkipSpaces(s, p) == q
    decreases q - p
  {
    if p < q {
      SkipSpacesTo(s, p + 1, q);
    }
  }

  /** Digits written at `p`, then a non-digit or the end, are scanned exactly. */
  lemma {:induction false} SkipDigitsOver(s: seq<char>, p: nat, d: seq<char>, k: nat)
    requires Occurs(s, p, d) && AllDigits(d) && k <= |d|
    requires p + |d| == |s| || !IsDigit(s[p + |d|])
    ensures SkipDigits(s, p + k) == p + |d|
    decreases |d| - k
  {
    if k < |d| {
      assert s[p + k] == d[k];
      SkipDigitsOver(s, p, d, k + 1);
    }
  }

  /** A word written at `p`, then white space or the end, is scanned exactly. */
  lemma {:induction false} SkipWordOver(s: seq<char>, p: nat, w: seq<char>, k: nat)
    requires Occurs(s, p, w) && IsWord(w) && k <= |w|
    requires p + |w| == |s| || IsSpace(s[p + |w|])
    ensures SkipWord(s, p + k) == p + |w|
    decreases |w| - k
  {
    if k < |w| {
      assert s[p + k] == w[k];
      SkipWordOver(s, p, w, k + 1);
    }
  }

  /** A line without newline written at `p`, then a newline, ends exactly there. */
  lemma {:induction false} LineEndOver(s: seq<char>, p: nat, l: seq<char>, k: nat)
    requires Occurs(s, p, l) && k <= |l|
    requires forall i :: 0 <= i < |l| ==> l[i] != '\n'
    requires p + |l| < |s| && s[p + |l|] == '\n'
    ensures LineEnd(s, p + k) == p + |l|
    decreases |l| - k
  {
    if k < |l| {
      assert s[p + k] == l[k];
      LineEndOver(s, p, l, k + 1);
    }
  }

  /**
   * `>> n` over white space from `p` to `q` and the number `NumText(n)` written
   * at `q` reads back n and stops right after it.
   */
  lemma {:induction false} ExtractNumAt(s: seq<char>, p: nat, q: nat, n: nat)
    requires n <= ULONG_MAX && p <= q && Occurs(s, q, NumText(n))
    requires forall k :: p <= k < q ==> IsSpace(s[k])
    requires q + |NumText(n)| == |s| || !IsDigit(s[q + |NumText(n)|])
    ensures ExtractNum(s, Stream(p, false, false))
         == (Stream(q + |NumText(n)|, q + |NumText(n)| == |s|, false), n)
  {
    var d := NumText(n);
    assert s[q + 0] == d[0];
    SkipSpacesTo(s, p, q);
    SkipDigitsOver(s, q, d, 0);
    ValueOfOver(s, q, d, |d|);
    ValueOfNumText(n);
  }

  /** `>> c` over white space from `p` to a character at `q` takes that character. */
  lemma {:induction false} ExtractCharAt(s: seq<char>, p: nat, q: nat)
    requires p <= q < |s| && !IsSpace(s[q])
    requires forall k :: p <= k < q ==> IsSpace(s[k])
    ensures ExtractChar(s, Stream(p, false, false)) == (Stream(q + 1, false, false), Some(s[q]))
  {
    SkipSpacesTo(s, p, q);
  }

  /** `>> w` over white space from `p` to the word `w` written at `q` takes exactly w. */
  lemma {:induction false} ExtractWordAt(s: seq<char>, p: nat, q: nat, w: seq<char>)
    requires IsWord(w) && p <= q && Occurs(s, q, w)
    requires forall k :: p <= k < q ==> IsSpace(s[k])
    requires q + |w| == |s| || IsSpace(s[q + |w|])
    ensures ExtractWord(s, Stream(p, false, false)) == (Stream(q + |w|, q + |w| == |s|, false), w)
  {
    assert s[q + 0] == w[0];
    SkipSpacesTo(s, p, q);
    SkipWordOver(s, q, w, 0);
    assert s[q..q + |w|] == w by {
      forall k | 0 <= k < |w| ensures s[q..q + |w|][k] == w[k] {
        assert s[q + k] == w[k];
      }
    }
  }

  /** `getline` of a line `l` written at `p` and ended by a newline stores exactly l. */
  lemma {:induction false} GetLineAt(s: seq<char>, p: nat, l: seq<char>, n: nat)
    requires Occurs(s, p, l) && |l| < n
    requires forall i :: 0 <= i < |l| ==> l[i] != '\n'
    requires p + |l| < |s| && s[p + |l|] == '\n'
    ensures GetLine(s, Stream(p, false, false), n) == (Stream(p + |l| + 1, false, false), l)
  {
    LineEndOver(s, p, l, 0);
    assert s[p..p + |l|] == l by {
      forall k | 0 <= k < |l| ensures s[p..p + |l|][k] == l[k] {
        assert s[p + k] == l[k];
      }
    }
  }

  /** `strtoul` of `NumText(n)` written at `p` reads back n and ends right after it. */
  lemma {:induction false} StrtoulAt(s: seq<char>, p: nat, n: nat)
    requires n <= ULONG_MAX && Occurs(s, p, NumText(n))
    requires p + |NumText(n)| == |s| || !IsDigit(s[p + |NumText(n)|])
    ensures Strtoul(s, p) == (n, p + |NumText(n)|)
  {
    var d := NumText(n);
    assert s[p + 0] == d[0];
    SkipSpacesTo(s, p, p);
    SkipDigitsOver(s, p, d, 0);
    ValueOfOver(s, p, d, |d|);
    ValueOfNumText(n);
  }

  /** A buffer without NUL is its own C string. */
  lemma {:induction false} CStrOf(s: seq<char>)
    requires forall i :: 0 <= i < |s| ==> s[i] != '\0'
    ensures CStr(s) == s
  {}
}
