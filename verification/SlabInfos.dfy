/**
 * The /proc/slabinfo reader of `kdumptool calibrate`: the SlabInfo
 * constructor parses one line, SlabInfos::getInfo checks the version header
 * and files every cache line under the cache's name.
 *
 * The content of /proc/slabinfo is an input.
 */
module SlabInfos {

  import opened Outcomes
  import opened StdStream

  // ---------------------------------------------------------------------------
  // SlabInfo

  /** One parsed line of /proc/slabinfo: a comment, or the statistics of one cache. */
  datatype SlabInfo =
    | Comment(name: seq<char>)
    | Slab(name: seq<char>, activeObjs: nat, numObjs: nat, objSize: nat, objPerSlab: nat,
           pagesPerSlab: nat, activeSlabs: nat, numSlabs: nat)

  const SLABDATA_MARK: seq<char> := " : slabdata "

  /**
   * The SlabInfo constructor: a first word starting with '#' makes a
   * comment; otherwise five numbers follow, then " : slabdata " somewhere
   * after them, then two numbers.  Anything missing is an invalid line.
   */
  function ParseSlabInfo(line: seq<char>): (r: Result<SlabInfo>)
    ensures r.Err? ==> r.error == KError(InvalidSlabinfoLine)
    ensures r.Ok? ==> IsWord(r.value.name) && (r.value.Comment? <==> r.value.name[0] == '#')
  {
    ExtractWordTakesWord(line, Start);
    var (s0, name) := ExtractWord(line, Start);
    if s0.fail then Err(KError(InvalidSlabinfoLine))
    else if name[0] == '#' then Ok(Comment(name))
    else
      var (s1, activeObjs) := ExtractNum(line, s0);
      var (s2, numObjs) := ExtractNum(line, s1);
      var (s3, objSize) := ExtractNum(line, s2);
      var (s4, objPerSlab) := ExtractNum(line, s3);
      var (s5, pagesPerSlab) := ExtractNum(line, s4);
      if s5.fail then Err(KError(InvalidSlabinfoLine))
      else match SlabData(line, s5)
        case Nothing => Err(KError(InvalidSlabinfoLine))
        case Some((activeSlabs, numSlabs)) =>
          Ok(Slab(name, activeObjs, numObjs, objSize, objPerSlab, pagesPerSlab, activeSlabs, numSlabs))
  }

  /**
   * The part after " : slabdata ": `find` searches the mark from `tellg()`,
   * which is -1 (so nothing is found) once eofbit is set; `seekg` to just
   * after the mark clears eofbit, and two numbers are read from there.
   */
  function SlabData(line: seq<char>, st: Stream): Option<(nat, nat)>
    requires st.pos <= |line|
  {
    var at := if st.eof then Nothing else Find(line, SLABDATA_MARK, st.pos);
    if at.Nothing? then Nothing
    else
      var (s6, activeSlabs) := ExtractNum(line, Stream(at.value + |SLABDATA_MARK|, false, false));
      var (s7, numSlabs) := ExtractNum(line, s6);
      if s7.fail then Nothing else Some((activeSlabs, numSlabs))
  }

  /** " n": one blank-separated numeric field. */
  function Field(n: nat): seq<char> {
    [' '] + NumText(n)
  }

  /** `mid` holds no " : slabdata " of its own, not even one running into a following mark. */
  predicate NoMark(mid: seq<char>) {
    forall k :: 0 <= k < |mid| ==> !Occurs(mid + SLABDATA_MARK, k, SLABDATA_MARK)
  }

  /** The tunables part the kernel writes between the fifth number and the mark. */
  const TUNABLES: seq<char> := " : tunables 0 0 0"

  /** The tunables part holds no mark, so a line with it is read like one without. */
  lemma {:induction false} TunablesNoMark()
    ensures NoMark(TUNABLES)
  {
    var u := TUNABLES + SLABDATA_MARK;
    forall k | 0 <= k < |TUNABLES| ensures !Occurs(u, k, SLABDATA_MARK) {
      if k != 0 {
        assert u[k + 1] != SLABDATA_MARK[1];
      } else {
        assert u[k + 3] != SLABDATA_MARK[3];
      }
    }
  }

  /**
   * The line /proc/slabinfo holds for a cache: the name, five fields, the
   * text `mid` (the tunables), the mark, two fields, and `tail`.
   */
  function SlabLine(si: SlabInfo, mid: seq<char>, tail: seq<char>): seq<char>
    requires si.Slab?
  {
    si.name + (SlabFields(si) + (mid + (SlabDataText(si) + tail)))
  }

  /** The five numbers after the name. */
  function SlabFields(si: SlabInfo): seq<char>
    requires si.Slab?
  {
    Field(si.activeObjs) + (Field(si.numObjs) + (Field(si.objSize) + (Field(si.objPerSlab) + Field(si.pagesPerSlab))))
  }

  /** The mark and the two slab counts. */
  function SlabDataText(si: SlabInfo): seq<char>
    requires si.Slab?
  {
    SLABDATA_MARK + (NumText(si.activeSlabs) + Field(si.numSlabs))
  }

  /** A cache the kernel can describe: a name that is a word not starting with '#', fields that fit. */
  predicate SlabFits(si: SlabInfo) {
    si.Slab? && IsWord(si.name) && si.name[0] != '#'
    && si.activeObjs <= ULONG_MAX && si.numObjs <= ULONG_MAX && si.objSize <= ULONG_MAX
    && si.objPerSlab <= ULONG_MAX && si.pagesPerSlab <= ULONG_MAX
    && si.activeSlabs <= ULONG_MAX && si.numSlabs <= ULONG_MAX
  }

  /** `>> n` over a field " n" written at `p` and not followed by a digit reads n. */
  lemma {:induction false} ExtractFieldAt(s: seq<char>, p: nat, n: nat, q: nat)
    requires n <= ULONG_MAX && Occurs(s, p, Field(n)) && q == p + |Field(n)|
    requires q == |s| || !IsDigit(s[q])
    ensures ExtractNum(s, Stream(p, false, false)) == (Stream(q, q == |s|, false), n)
  {
    OccursSplit(s, p, [' '], NumText(n));
    assert s[p + 0] == [' '][0];
    ExtractNumAt(s, p, p + 1, n);
  }

  /** The five numbers after the name are read back, and the stream stands after them. */
  lemma {:induction false} SlabFieldsAt(s: seq<char>, si: SlabInfo, p: nat, p5: nat)
    requires SlabFits(si)
    requires Occurs(s, p, SlabFields(si)) && p5 == p + |SlabFields(si)|
    requires p5 < |s| && !IsDigit(s[p5])
    ensures var s1 := ExtractNum(s, Stream(p, false, false));
            var s2 := ExtractNum(s, s1.0);
            var s3 := ExtractNum(s, s2.0);
            var s4 := ExtractNum(s, s3.0);
            var s5 := ExtractNum(s, s4.0);
            s1.1 == si.activeObjs && s2.1 == si.numObjs && s3.1 == si.objSize
            && s4.1 == si.objPerSlab && s5.1 == si.pagesPerSlab && s5.0 == Stream(p5, false, false)
  {
    var f1, f2, f3, f4, f5 := Field(si.activeObjs), Field(si.numObjs), Field(si.objSize),
                              Field(si.objPerSlab), Field(si.pagesPerSlab);
    var q1 := p + |f1|;
    var q2 := q1 + |f2|;
    var q3 := q2 + |f3|;
    var q4 := q3 + |f4|;
    OccursSplit(s, p, f1, f2 + (f3 + (f4 + f5)));
    OccursSplit(s, q1, f2, f3 + (f4 + f5));
    OccursSplit(s, q2, f3, f4 + f5);
    OccursSplit(s, q3, f4, f5);
    assert s[q1 + 0] == f2[0] && s[q2 + 0] == f3[0] && s[q3 + 0] == f4[0] && s[q4 + 0] == f5[0];
    ExtractFieldAt(s, p, si.activeObjs, q1);
    ExtractFieldAt(s, q1, si.numObjs, q2);
    ExtractFieldAt(s, q2, si.objSize, q3);
    ExtractFieldAt(s, q3, si.objPerSlab, q4);
    ExtractFieldAt(s, q4, si.pagesPerSlab, p5);
  }

  /** A mark after `mid`, which holds none of its own, is the first mark from where `mid` starts. */
  lemma {:induction false} MarkFirst(s: seq<char>, p: nat, mid: seq<char>)
    requires NoMark(mid) && Occurs(s, p, mid + SLABDATA_MARK)
    ensures forall k :: p <= k < p + |mid| ==> !Occurs(s, k, SLABDATA_MARK)
  {
    forall k | p <= k < p + |mid| ensures !Occurs(s, k, SLABDATA_MARK) {
      OccursIn(s, p, mid + SLABDATA_MARK, k - p, SLABDATA_MARK);
    }
  }

  /**
   * From `p`, the first mark is at `m`, and the numbers a and b follow it;
   * then the two slab counts are read back.
   */
  lemma {:induction false} SlabDataAt(s: seq<char>, p: nat, m: nat, a: nat, b: nat, e: nat)
    requires a <= ULONG_MAX && b <= ULONG_MAX && p <= m
    requires forall k :: p <= k < m ==> !Occurs(s, k, SLABDATA_MARK)
    requires Occurs(s, m, SLABDATA_MARK + (NumText(a) + Field(b)))
    requires e == m + |SLABDATA_MARK + (NumText(a) + Field(b))|
    requires e == |s| || !IsDigit(s[e])
    ensures SlabData(s, Stream(p, false, false)) == Some((a, b))
  {
    var q := m + |SLABDATA_MARK|;
    var r := q + |NumText(a)|;
    OccursSplit(s, m, SLABDATA_MARK, NumText(a) + Field(b));
    OccursSplit(s, q, NumText(a), Field(b));
    FindAt(s, SLABDATA_MARK, p, m);
    assert s[r + 0] == Field(b)[0];
    ExtractNumAt(s, q, q, a);
    ExtractFieldAt(s, r, b, e);
  }

  /** The constructor over a line whose pieces stand at the given positions. */
  lemma {:induction false} ParseSlabAt(s: seq<char>, si: SlabInfo, p0: nat, p5: nat, m: nat, e: nat)
    requires SlabFits(si) && p0 == |si.name| && p5 <= m
    requires Occurs(s, 0, si.name)
    requires Occurs(s, p0, SlabFields(si)) && p5 == p0 + |SlabFields(si)|
    requires p5 < |s| && !IsDigit(s[p5])
    requires forall k :: p5 <= k < m ==> !Occurs(s, k, SLABDATA_MARK)
    requires Occurs(s, m, SlabDataText(si)) && e == m + |SlabDataText(si)|
    requires e == |s| || !IsDigit(s[e])
    ensures ParseSlabInfo(s) == Ok(si)
  {
    assert s[p0] == ' ' by {
      OccursSplit(s, p0, Field(si.activeObjs), Field(si.numObjs) + (Field(si.objSize)
        + (Field(si.objPerSlab) + Field(si.pagesPerSlab))));
      assert s[p0 + 0] == Field(si.activeObjs)[0];
    }
    ExtractWordAt(s, 0, 0, si.name);
    SlabFieldsAt(s, si, p0, p5);
    SlabDataAt(s, p5, m, si.activeSlabs, si.numSlabs, e);
  }

  /** Where the pieces of a cache's line stand. */
  lemma {:induction false} SlabLinePieces(si: SlabInfo, mid: seq<char>, tail: seq<char>, s: seq<char>,
                                          p0: nat, p5: nat, m: nat, e: nat)
    requires si.Slab? && s == SlabLine(si, mid, tail) && p0 == |si.name|
    requires p5 == p0 + |SlabFields(si)| && m == p5 + |mid| && e == m + |SlabDataText(si)|
    ensures Occurs(s, 0, si.name) && Occurs(s, p0, SlabFields(si))
    ensures Occurs(s, p5, mid + SLABDATA_MARK) && Occurs(s, m, SlabDataText(si))
    ensures Occurs(s, e, tail) && e + |tail| == |s|
  {
    OccursWhole(s);
    OccursSplit(s, 0, si.name, SlabFields(si) + (mid + (SlabDataText(si) + tail)));
    OccursSplit(s, p0, SlabFields(si), mid + (SlabDataText(si) + tail));
    OccursSplit(s, p5, mid, SlabDataText(si) + tail);
    OccursSplit(s, m, SlabDataText(si), tail);
    OccursSplit(s, m, SLABDATA_MARK, NumText(si.activeSlabs) + Field(si.numSlabs));
    OccursJoin(s, p5, mid, SLABDATA_MARK);
  }

  /** The constructor reads back every field of a cache's line. */
  lemma {:induction false} SlabInfoOfLine(si: SlabInfo, mid: seq<char>, tail: seq<char>)
    requires SlabFits(si) && NoMark(mid)
    requires mid == [] || !IsDigit(mid[0])
    requires tail == [] || !IsDigit(tail[0])
    ensures ParseSlabInfo(SlabLine(si, mid, tail)) == Ok(si)
  {
    var s := SlabLine(si, mid, tail);
    var p0 := |si.name|;
    var p5 := p0 + |SlabFields(si)|;
    var m := p5 + |mid|;
    var e := m + |SlabDataText(si)|;
    SlabLinePieces(si, mid, tail, s, p0, p5, m, e);
    MarkFirst(s, p5, mid);
    SlabLineBoundaries(s, p5, mid, e, tail);
    ParseSlabAt(s, si, p0, p5, m, e);
  }

  /** Neither what follows the fifth number nor what follows the last one is a digit. */
  lemma {:induction false} SlabLineBoundaries(s: seq<char>, p5: nat, mid: seq<char>, e: nat, tail: seq<char>)
    requires Occurs(s, p5, mid + SLABDATA_MARK) && Occurs(s, e, tail) && e + |tail| == |s|
    requires mid == [] || !IsDigit(mid[0])
    requires tail == [] || !IsDigit(tail[0])
    ensures p5 < |s| && !IsDigit(s[p5])
    ensures e == |s| || !IsDigit(s[e])
  {
    assert s[p5 + 0] == (mid + SLABDATA_MARK)[0];
    if tail != [] {
      assert s[e + 0] == tail[0];
    }
  }

  /** A line whose first word starts with '#' is a comment, whatever follows it. */
  lemma {:induction false} CommentOfLine(w: seq<char>, rest: seq<char>)
    requires IsWord(w) && w[0] == '#'
    requires rest == [] || IsSpace(rest[0])
    ensures ParseSlabInfo(w + rest) == Ok(Comment(w))
  {
    var s := w + rest;
    OccursWhole(s);
    OccursSplit(s, 0, w, rest);
    if rest != [] {
      assert s[|w| + 0] == rest[0];
    }
    ExtractWordAt(s, 0, 0, w);
  }

  // ---------------------------------------------------------------------------
  // The version header

  const SLABINFO_LINE_LEN: nat := 2048
  const SLABINFO_VER_LEN: nat := 100
  const VERSION_HEADER: seq<char> := "slabinfo - version: "

  /**
   * The "slabinfo - version: M.N" check of SlabInfos::getInfo on the C
   * string in `buf`: M and N as `strtoul` reads them, M followed by '.' and
   * N by the end of the string.
   */
  function ParseVersion(buf: seq<char>): (r: Result<(nat, nat)>)
    ensures r.Err? ==> r.error == KError(InvalidVersion)
  {
    var line := CStr(buf);
    if !StartsWith(line, VERSION_HEADER) then Err(KError(InvalidVersion))
    else
      var (major, end) := Strtoul(line, |VERSION_HEADER|);
      if end == |VERSION_HEADER| || CharAt(line, end) != '.' then Err(KError(InvalidVersion))
      else
        var (minor, end2) := Strtoul(line, end + 1);
        if end2 == end + 1 || CharAt(line, end2) != '\0' then Err(KError(InvalidVersion))
        else Ok((major, minor))
  }

  /** The header line the kernel writes for version M.N. */
  function VersionLine(major: nat, minor: nat): seq<char> {
    VERSION_HEADER + (NumText(major) + (['.'] + NumText(minor)))
  }

  /** The header line holds neither NUL nor newline. */
  lemma {:induction false} VersionLineChars(major: nat, minor: nat)
    ensures forall i :: 0 <= i < |VersionLine(major, minor)| ==>
              VersionLine(major, minor)[i] != '\0' && VersionLine(major, minor)[i] != '\n'
  {
    var line := VersionLine(major, minor);
    var h := |VERSION_HEADER|;
    var e := h + |NumText(major)|;
    forall i | 0 <= i < |line| ensures line[i] != '\0' && line[i] != '\n' {
      if h <= i < e {
        assert line[i] == NumText(major)[i - h];
      } else if i > e {
        assert line[i] == NumText(minor)[i - e - 1];
      }
    }
  }

  /** The version check over a C string holding the header, M, '.' and N at the given positions. */
  lemma {:induction false} ParseVersionAt(line: seq<char>, major: nat, minor: nat, e: nat)
    requires major <= ULONG_MAX && minor <= ULONG_MAX
    requires forall i :: 0 <= i < |line| ==> line[i] != '\0'
    requires Occurs(line, 0, VERSION_HEADER) && Occurs(line, |VERSION_HEADER|, NumText(major))
    requires e == |VERSION_HEADER| + |NumText(major)| && e < |line| && line[e] == '.'
    requires Occurs(line, e + 1, NumText(minor)) && |line| == e + 1 + |NumText(minor)|
    ensures ParseVersion(line) == Ok((major, minor))
  {
    CStrOf(line);
    StrtoulAt(line, |VERSION_HEADER|, major);
    StrtoulAt(line, e + 1, minor);
  }

  /** Where the pieces of the header line of version M.N stand. */
  lemma {:induction false} VersionLinePieces(major: nat, minor: nat, line: seq<char>, e: nat)
    requires line == VersionLine(major, minor) && e == |VERSION_HEADER| + |NumText(major)|
    ensures Occurs(line, 0, VERSION_HEADER) && Occurs(line, |VERSION_HEADER|, NumText(major))
    ensures e < |line| && line[e] == '.'
    ensures Occurs(line, e + 1, NumText(minor)) && |line| == e + 1 + |NumText(minor)|
  {
    var h, a, b := VERSION_HEADER, NumText(major), NumText(minor);
    var tail := a + (['.'] + b);
    assert line == h + tail;
    forall k | 0 <= k < |h| ensures line[0 + k] == h[k] {}
    forall k | 0 <= k < |a| ensures line[|h| + k] == a[k] {
      assert line[|h| + k] == tail[k];
    }
    assert line[e] == tail[|a|] == '.';
    forall k | 0 <= k < |b| ensures line[e + 1 + k] == b[k] {
      assert line[e + 1 + k] == tail[|a| + 1 + k];
    }
  }

  /** The header of version M.N is read back as (M, N). */
  lemma {:induction false} ParseVersionOf(major: nat, minor: nat)
    requires major <= ULONG_MAX && minor <= ULONG_MAX
    ensures ParseVersion(VersionLine(major, minor)) == Ok((major, minor))
  {
    var e := |VERSION_HEADER| + |NumText(major)|;
    VersionLineChars(major, minor);
    VersionLinePieces(major, minor, VersionLine(major, minor), e);
    ParseVersionAt(VersionLine(major, minor), major, minor, e);
  }

  /** A header without the dot, such as "slabinfo - version: 2", is an invalid version. */
  lemma {:induction false} ParseVersionRejects(major: nat)
    requires major <= ULONG_MAX
    ensures ParseVersion(VERSION_HEADER + NumText(major)) == Err(KError(InvalidVersion))
  {
    var line := VERSION_HEADER + NumText(major);
    var h := |VERSION_HEADER|;
    assert forall i :: 0 <= i < |line| ==> line[i] != '\0' by {
      forall i | 0 <= i < |line| ensures line[i] != '\0' {
        if h <= i {
          assert line[i] == NumText(major)[i - h];
        }
      }
    }
    CStrOf(line);
    OccursWhole(line);
    OccursSplit(line, 0, VERSION_HEADER, NumText(major));
    StrtoulAt(line, h, major);
  }

  /**
   * The first part of SlabInfos::getInfo: reads the header line with room
   * for SLABINFO_VER_LEN characters and accepts major version 2 only; the
   * result is the stream positioned at the first cache line.
   */
  function ReadHeader(file: FileContent): (r: Result<(seq<char>, Stream)>)
    ensures r.Err? ==> r.error in {KError(CannotOpen), KError(InvalidVersion), KError(UnsupportedVersion)}
    ensures r.Ok? ==> file == Text(r.value.0) && r.value.1.pos <= |r.value.0|
  {
    match file
    case OpenFailed(_) => Err(KError(CannotOpen))
    case Text(t) =>
      var (f, buf) := GetLine(t, Start, SLABINFO_VER_LEN);
      if f.fail then Err(KError(InvalidVersion))
      else match ParseVersion(buf)
        case Err(e) => Err(e)
        case Ok(v) => if v.0 != 2 then Err(KError(UnsupportedVersion)) else Ok((t, f))
  }

  /** A text made of a line, a newline and the rest: where each piece stands. */
  lemma {:induction false} LinePieces(t: seq<char>, l: seq<char>, rest: seq<char>)
    requires t == l + (['\n'] + rest)
    ensures Occurs(t, 0, l) && |l| < |t| && t[|l|] == '\n'
    ensures Occurs(t, |l| + 1, rest) && |l| + 1 + |rest| == |t|
  {
    OccursWhole(t);
    OccursSplit(t, 0, l, ['\n'] + rest);
    OccursSplit(t, |l|, ['\n'], rest);
    assert t[|l| + 0] == ['\n'][0];
  }

  /** A file that starts with the version M.N header line is accepted exactly when M is 2. */
  lemma {:induction false} ReadHeaderOf(major: nat, minor: nat, body: seq<char>)
    requires major <= ULONG_MAX && minor <= ULONG_MAX
    requires |VersionLine(major, minor)| < SLABINFO_VER_LEN
    ensures var t := VersionLine(major, minor) + (['\n'] + body);
            ReadHeader(Text(t)) == if major == 2 then Ok((t, Stream(|VersionLine(major, minor)| + 1, false, false)))
                                   else Err(KError(UnsupportedVersion))
  {
    var l := VersionLine(major, minor);
    var t := l + (['\n'] + body);
    VersionLineChars(major, minor);
    LinePieces(t, l, body);
    GetLineAt(t, 0, l, SLABINFO_VER_LEN);
    ParseVersionOf(major, minor);
  }

  // ---------------------------------------------------------------------------
  // SlabInfos::getInfo

  /** The lines `while (f.getline(line, SLABINFO_LINE_LEN))` hands to its body, as C strings. */
  function Records(t: seq<char>, st: Stream): seq<seq<char>>
    requires st.pos <= |t|
    decreases |t| - st.pos
  {
    var (s1, line) := GetLine(t, st, SLABINFO_LINE_LEN);
    if s1.fail then [] else [CStr(line)] + Records(t, s1)
  }

  /** The map after filing each line's SlabInfo under its name, and the error of the first invalid line. */
  function Store(m: map<seq<char>, SlabInfo>, lines: seq<seq<char>>): (map<seq<char>, SlabInfo>, Option<Error>)
    decreases |lines|
  {
    if |lines| == 0 then (m, Nothing)
    else match ParseSlabInfo(lines[0])
      case Err(e) => (m, Some(e))
      case Ok(si) => Store(if si.Comment? then m else m[si.name := si], lines[1..])
  }

  /** Storing one more line: a comment changes nothing, a cache replaces any earlier one of its name. */
  lemma {:induction false} StoreAppend(m: map<seq<char>, SlabInfo>, lines: seq<seq<char>>, line: seq<char>)
    requires Store(m, lines).1.Nothing?
    ensures var m' := Store(m, lines).0;
            Store(m, lines + [line]) == match ParseSlabInfo(line)
                                        case Err(e) => (m', Some(e))
                                        case Ok(si) => (if si.Comment? then m' else m'[si.name := si], Nothing)
    decreases |lines|
  {
    if |lines| == 0 {
      assert lines + [line] == [line];
    } else {
      assert (lines + [line])[1..] == lines[1..] + [line];
      match ParseSlabInfo(lines[0])
      case Ok(si) =>
        StoreAppend(if si.Comment? then m else m[si.name := si], lines[1..], line);
    }
  }

  /** Every entry of the map is a cache filed under its own name. */
  predicate Named(m: map<seq<char>, SlabInfo>) {
    forall k :: k in m ==> m[k].Slab? && m[k].name == k
  }

  /** Storing keeps every entry filed under its own name, and never drops a name. */
  lemma {:induction false} StoreNames(m: map<seq<char>, SlabInfo>, lines: seq<seq<char>>)
    requires Named(m)
    ensures Named(Store(m, lines).0)
    ensures m.Keys <= Store(m, lines).0.Keys
    decreases |lines|
  {
    if |lines| > 0 {
      match ParseSlabInfo(lines[0])
      case Err(_) =>
      case Ok(si) => StoreNames(if si.Comment? then m else m[si.name := si], lines[1..]);
    }
  }

  /** The text of newline-terminated lines. */
  function JoinLines(lines: seq<seq<char>>): seq<char> {
    if |lines| == 0 then [] else lines[0] + (['\n'] + JoinLines(lines[1..]))
  }

  /** A line the loop reads whole: shorter than its buffer, without newline or NUL. */
  predicate ShortLine(l: seq<char>) {
    |l| < SLABINFO_LINE_LEN && forall i :: 0 <= i < |l| ==> l[i] != '\n' && l[i] != '\0'
  }

  /** The loop reads back exactly the lines written from `p` to the end of the file. */
  lemma {:induction false} RecordsOfLines(t: seq<char>, p: nat, lines: seq<seq<char>>)
    requires forall i :: 0 <= i < |lines| ==> ShortLine(lines[i])
    requires Occurs(t, p, JoinLines(lines)) && p + |JoinLines(lines)| == |t|
    ensures Records(t, Stream(p, false, false)) == lines
    decreases |lines|
  {
    if |lines| > 0 {
      var l := lines[0];
      var rest := JoinLines(lines[1..]);
      OccursSplit(t, p, l, ['\n'] + rest);
      OccursSplit(t, p + |l|, ['\n'], rest);
      assert t[p + |l| + 0] == ['\n'][0];
      GetLineAt(t, p, l, SLABINFO_LINE_LEN);
      CStrOf(l);
      RecordsOfLines(t, p + |l| + 1, lines[1..]);
    }
  }

  /**
   * A slabinfo file written by a version 2.N kernel: the header, then the
   * cache lines, each read back in order.
   */
  lemma {:induction false} SlabFileRecords(minor: nat, lines: seq<seq<char>>)
    requires minor <= ULONG_MAX && |VersionLine(2, minor)| < SLABINFO_VER_LEN
    requires forall i :: 0 <= i < |lines| ==> ShortLine(lines[i])
    ensures var t := VersionLine(2, minor) + (['\n'] + JoinLines(lines));
            ReadHeader(Text(t)).Ok? && Records(t, ReadHeader(Text(t)).value.1) == lines
  {
    var l := VersionLine(2, minor);
    var t := l + (['\n'] + JoinLines(lines));
    ReadHeaderOf(2, minor, JoinLines(lines));
    assert ReadHeader(Text(t)) == Ok((t, Stream(|l| + 1, false, false)));
    LinePieces(t, l, JoinLines(lines));
    RecordsOfLines(t, |l| + 1, lines);
  }

  /** What getInfo returns on a fresh SlabInfos object: the caches by name, or the error it throws. */
  function SlabMap(file: FileContent): (r: Result<map<seq<char>, SlabInfo>>)
    ensures r.Ok? ==> Named(r.value)
  {
    match ReadHeader(file)
    case Err(e) => Err(e)
    case Ok((t, st)) =>
      StoreNames(map[], Records(t, st));
      var (m, e) := Store(map[], Records(t, st));
      if e.Some? then Err(e.value) else Ok(m)
  }

  /** SlabInfos: the caches of /proc/slabinfo by name. */
  class SlabInfos {
    var info: map<seq<char>, SlabInfo>

    constructor ()
      ensures info == map[]
    {
      info := map[];
    }

    /**
     * SlabInfos::getInfo: checks the version header, then files every cache
     * line under its name; the first line the SlabInfo constructor rejects
     * ends the call, keeping what was filed before it.
     */
    method GetInfo(file: FileContent) returns (r: Result<map<seq<char>, SlabInfo>>)
      modifies this
      ensures ReadHeader(file).Err? ==> r == Err(ReadHeader(file).error) && info == old(info)
      ensures ReadHeader(file).Ok? ==>
        var (t, st) := ReadHeader(file).value;
        var (m, e) := Store(old(info), Records(t, st));
        info == m && r == (if e.Some? then Err(e.value) else Ok(m))
    {
      var header := ReadHeader(file);
      if header.Err? {
        r := Err(header.error);
        return;
      }
      var (t, f) := header.value;
      var m := info;
      ghost var goal := Store(m, Records(t, f));
      var failure: Option<Error> := Nothing;
      var x := GetLine(t, f, SLABINFO_LINE_LEN);
      while !x.0.fail && failure.Nothing?
        invariant f.pos <= |t|
        invariant failure.Nothing? ==> Store(m, Records(t, f)) == goal && x == GetLine(t, f, SLABINFO_LINE_LEN)
        invariant failure.Some? ==> goal == (m, failure)
        decreases |t| - f.pos + (if x.0.fail || failure.Some? then 0 else 1)
      {
        var si := ParseSlabInfo(CStr(x.1));
        if si.Err? {
          failure := Some(si.error);
        } else {
          if !si.value.Comment? {
            m := m[si.value.name := si.value];
          }
          f := x.0;
          x := GetLine(t, f, SLABINFO_LINE_LEN);
        }
      }
      info := m;
      if failure.Some? {
        r := Err(failure.value);
      } else {
        r := Ok(m);
      }
    }
  }
}
