/**
 * The framebuffer part of `kdumptool calibrate`: Framebuffers::DirFilter
 * picks the framebuffer devices among the entries of /sys/class/graphics,
 * Framebuffer::size reads one device's "virtual_size" and "stride" files,
 * and Framebuffers::size adds up the devices.
 *
 * The directory listing and the files of each device are inputs.
 */
module Framebuffers {

  import opened Outcomes
  import opened StdStream

  // ---------------------------------------------------------------------------
  // Framebuffers::DirFilter::test

  /**
   * DirFilter::test: the entry's name starts with "fb" and `strtoul` reads
   * a number that reaches the end of the name.
   */
  predicate DirFilterTest(name: seq<char>) {
    StartsWith(name, "fb")
    && var (_, end) := Strtoul(name, 2);
       CharAt(name, end) == '\0' && end != 2
  }

  /**
   * `s` holds, from `a` on, what `strtoul` consumes to the very end: an
   * optional sign, then one or more digits.
   */
  predicate SignedDigits(s: seq<char>, a: nat) {
    a < |s|
    && var d := if s[a] == '+' || s[a] == '-' then a + 1 else a;
       d < |s| && forall k :: d <= k < |s| ==> IsDigit(s[k])
  }

  /** `s` holds, from `i` on, a numeral: white space, an optional sign and digits up to the end. */
  predicate IsNumeral(s: seq<char>, i: nat) {
    exists a :: i <= a < |s| && SignedDigits(s, a) && forall k :: i <= k < a ==> IsSpace(s[k])
  }

  /**
   * DirFilter::test accepts exactly the names made of "fb" and a numeral.
   * A directory entry's name never holds a NUL.
   */
  lemma {:induction false} DirFilterAccepts(name: seq<char>)
    requires forall i :: 0 <= i < |name| ==> name[i] != '\0'
    ensures DirFilterTest(name) <==> StartsWith(name, "fb") && IsNumeral(name, 2)
  {
    if StartsWith(name, "fb") {
      if DirFilterTest(name) {
        var j := SkipSpaces(name, 2);
        SkipSpacesStops(name, 2);
        var d := if j < |name| && (name[j] == '+' || name[j] == '-') then j + 1 else j;
        var e := SkipDigits(name, d);
        SkipDigitsStops(name, d);
        assert e == |name|;
        assert SignedDigits(name, j);
      }
      if IsNumeral(name, 2) {
        var a :| 2 <= a < |name| && SignedDigits(name, a) && forall k :: 2 <= k < a ==> IsSpace(name[k]);
        SkipSpacesTo(name, 2, a);
        var d := if name[a] == '+' || name[a] == '-' then a + 1 else a;
        SkipDigitsStops(name, d);
        assert IsDigit(name[d]);
      }
    }
  }

  /** Every device name "fbN" passes the filter; "fb" alone and "fb0a" do not. */
  lemma {:induction false} DirFilterDevices(n: nat)
    ensures DirFilterTest("fb" + NumText(n))
    ensures !DirFilterTest("fb") && !DirFilterTest("fb0a")
  {
    var name := "fb" + NumText(n);
    assert forall k :: 2 <= k < |name| ==> IsDigit(name[k]) by {
      forall k | 2 <= k < |name| ensures IsDigit(name[k]) {
        assert name[k] == NumText(n)[k - 2];
      }
    }
    assert SignedDigits(name, 2);
    assert forall i :: 0 <= i < |name| ==> name[i] != '\0';
    DirFilterAccepts(name);
    assert SkipDigits("fb0a", 3) == 3;
  }

  // ---------------------------------------------------------------------------
  // Framebuffer::size

  /** The product of two counts. */
  function Mul(a: nat, b: nat): nat {
    a * b
  }

  /**
   * `f >> width >> sep >> height` on "virtual_size": the height, or Nothing
   * when the stream fails or the separator is not ','.
   */
  function VirtualHeight(t: seq<char>): Option<nat> {
    var (s1, width) := ExtractNum(t, Start);
    var (s2, sep) := ExtractChar(t, s1);
    var (s3, height) := ExtractNum(t, s2);
    if s3.fail || sep != Some(',') then Nothing else Some(height)
  }

  /** `f >> stride` on "stride": the bytes per line, or Nothing when the stream fails. */
  function StrideBytes(u: seq<char>): Option<nat> {
    var (s4, bytes) := ExtractNum(u, Start);
    if s4.fail then Nothing else Some(bytes)
  }

  /**
   * Framebuffer::size: "virtual_size" holds "width,height" and "stride" the
   * bytes per line; the size in bytes is stride * height.  A file that does
   * not open, or whose content is not of that form, is an error.
   */
  function FramebufferSize(virtualSize: FileContent, stride: FileContent): (r: Result<nat>)
    ensures r.Err? ==> r.error == KError(CannotOpen) || r.error == KError(InvalidContent)
    ensures r.Ok? <==> virtualSize.Text? && VirtualHeight(virtualSize.text).Some?
                       && stride.Text? && StrideBytes(stride.text).Some?
  {
    match virtualSize
    case OpenFailed(_) => Err(KError(CannotOpen))
    case Text(t) =>
      match VirtualHeight(t)
      case Nothing => Err(KError(InvalidContent))
      case Some(height) =>
        match stride
        case OpenFailed(_) => Err(KError(CannotOpen))
        case Text(u) =>
          match StrideBytes(u)
          case Nothing => Err(KError(InvalidContent))
          case Some(bytes) => Ok(Mul(bytes, height))
  }

  /** The text the kernel writes to "virtual_size". */
  function VirtualSizeText(width: nat, height: nat): seq<char> {
    NumText(width) + ([','] + (NumText(height) + ['\n']))
  }

  /** Where the width, the comma, the height and the newline stand in "virtual_size". */
  lemma {:induction false} VirtualSizePieces(t: seq<char>, width: nat, height: nat)
    requires t == VirtualSizeText(width, height)
    ensures var w, h := |NumText(width)|, |NumText(height)|;
      && Occurs(t, 0, NumText(width)) && t[w] == ','
      && Occurs(t, w + 1, NumText(height)) && t[w + 1 + h] == '\n' && |t| == w + h + 2
  {
    var a, b := NumText(width), NumText(height);
    var tail := [','] + (b + ['\n']);
    assert t == a + tail;
    forall k | 0 <= k < |a| ensures t[0 + k] == a[k] {}
    assert t[|a|] == tail[0] == ',';
    forall k | 0 <= k < |b| ensures t[|a| + 1 + k] == b[k] {
      assert t[|a| + 1 + k] == tail[1 + k];
    }
    assert t[|a| + 1 + |b|] == tail[1 + |b|] == '\n';
  }

  /** "width,height" as the kernel writes it is read back as the height. */
  lemma {:induction false} VirtualHeightOf(t: seq<char>, width: nat, height: nat)
    requires width <= ULONG_MAX && height <= ULONG_MAX && t == VirtualSizeText(width, height)
    ensures VirtualHeight(t) == Some(height)
  {
    var w := |NumText(width)|;
    VirtualSizePieces(t, width, height);
    ExtractNumAt(t, 0, 0, width);
    ExtractCharAt(t, w, w);
    ExtractNumAt(t, w + 1, w + 1, height);
  }

  /** The stride as the kernel writes it is read back. */
  lemma {:induction false} StrideBytesOf(u: seq<char>, stride: nat)
    requires stride <= ULONG_MAX && u == NumText(stride) + ['\n']
    ensures StrideBytes(u) == Some(stride)
  {
    OccursWhole(u);
    OccursSplit(u, 0, NumText(stride), ['\n']);
    assert u[|NumText(stride)| + 0] == ['\n'][0];
    ExtractNumAt(u, 0, 0, stride);
  }

  /** The sysfs files of a framebuffer, as the kernel writes them, give stride * height. */
  lemma {:induction false} FramebufferSizeOf(width: nat, height: nat, stride: nat)
    requires width <= ULONG_MAX && height <= ULONG_MAX && stride <= ULONG_MAX
    ensures FramebufferSize(Text(VirtualSizeText(width, height)), Text(NumText(stride) + ['\n']))
         == Ok(Mul(stride, height))
  {
    VirtualHeightOf(VirtualSizeText(width, height), width, height);
    StrideBytesOf(NumText(stride) + ['\n'], stride);
  }

  /** A virtual size whose separator is not ',' (such as "1024x768") is invalid content. */
  lemma {:induction false} FramebufferSizeRejects(width: nat, c: char, rest: seq<char>, stride: FileContent)
    requires width <= ULONG_MAX && c != ',' && !IsSpace(c) && !IsDigit(c)
    ensures FramebufferSize(Text(NumText(width) + ([c] + rest)), stride) == Err(KError(InvalidContent))
  {
    var t := NumText(width) + ([c] + rest);
    var w := |NumText(width)|;
    OccursWhole(t);
    OccursSplit(t, 0, NumText(width), [c] + rest);
    assert t[w + 0] == ([c] + rest)[0];
    ExtractNumAt(t, 0, 0, width);
    ExtractCharAt(t, w, w);
    assert VirtualHeight(t).Nothing?;
  }

  // ---------------------------------------------------------------------------
  // Framebuffers::size

  /** A framebuffer device directory: its "virtual_size" and "stride" files. */
  datatype FbDevice = FbDevice(virtualSize: FileContent, stride: FileContent)

  /** What `listDir(DirFilter())` returns for the entries of the directory. */
  function ListFramebuffers(entries: seq<seq<char>>): (v: seq<seq<char>>)
    ensures forall name :: name in v <==> name in entries && DirFilterTest(name)
  {
    if |entries| == 0 then []
    else if DirFilterTest(entries[0]) then [entries[0]] + ListFramebuffers(entries[1..])
    else ListFramebuffers(entries[1..])
  }

  /** The size of one device. */
  function DeviceSize(name: seq<char>, device: seq<char> -> FbDevice): Result<nat> {
    FramebufferSize(device(name).virtualSize, device(name).stride)
  }

  /** The total size of the devices `names`, or the error of the first one whose size is an error. */
  function FbTotal(names: seq<seq<char>>, device: seq<char> -> FbDevice): Result<nat> {
    if |names| == 0 then Ok(0)
    else
      match DeviceSize(names[0], device)
      case Err(e) => Err(e)
      case Ok(n) =>
        var rest := FbTotal(names[1..], device);
        if rest.Err? then rest else Ok(n + rest.value)
  }

  /**
   * The total is an error exactly when some device's size is, and it is then
   * the error of the first such device; otherwise it adds up every size.
   */
  lemma {:induction false} FbTotalFirstError(names: seq<seq<char>>, device: seq<char> -> FbDevice)
    ensures FbTotal(names, device).Err? <==> exists i :: 0 <= i < |names| && DeviceSize(names[i], device).Err?
    ensures FbTotal(names, device).Err? ==>
              exists i :: 0 <= i < |names| && FbTotal(names, device) == DeviceSize(names[i], device)
                && forall j :: 0 <= j < i ==> DeviceSize(names[j], device).Ok?
  {
    if |names| > 0 {
      var tail := names[1..];
      FbTotalFirstError(tail, device);
      FbTotalCons(names, device);
      if DeviceSize(names[0], device).Err? {
        assert FbTotal(names, device) == DeviceSize(names[0], device);
      } else if FbTotal(tail, device).Err? {
        var i :| 0 <= i < |tail| && FbTotal(tail, device) == DeviceSize(tail[i], device)
                 && forall j :: 0 <= j < i ==> DeviceSize(tail[j], device).Ok?;
        forall j | 0 <= j < i + 1 ensures DeviceSize(names[j], device).Ok? {
          if j > 0 {
            assert names[j] == tail[j - 1];
          }
        }
        assert names[i + 1] == tail[i];
      } else {
        forall k | 0 <= k < |names| ensures DeviceSize(names[k], device).Ok? {
          if k > 0 {
            assert names[k] == tail[k - 1];
          }
        }
      }
    }
  }

  /** `ret` added to a total, an error left as it is. */
  function AddTo(ret: nat, total: Result<nat>): Result<nat> {
    if total.Err? then total else Ok(ret + total.value)
  }

  /** The total of a non-empty list: the first device's size, then the rest. */
  lemma {:induction false} FbTotalCons(names: seq<seq<char>>, device: seq<char> -> FbDevice)
    requires |names| > 0
    ensures var first := DeviceSize(names[0], device);
      var rest := FbTotal(names[1..], device);
      FbTotal(names, device) == if first.Err? then Err(first.error) else if rest.Err? then rest else Ok(first.value + rest.value)
  {
  }

  /** A device whose size is an error ends the loop of Framebuffers::size with that error. */
  lemma {:induction false} FbTotalStops(v: seq<seq<char>>, i: nat, ret: nat, device: seq<char> -> FbDevice)
    requires i < |v| && DeviceSize(v[i], device).Err?
    ensures AddTo(ret, FbTotal(v[i..], device)) == Err(DeviceSize(v[i], device).error)
  {
    FbTotalCons(v[i..], device);
    assert v[i..][0] == v[i];
  }

  /** A device whose size is read adds it to the sum, and the loop of Framebuffers::size goes on at the next one. */
  lemma {:induction false} FbTotalAdvance(v: seq<seq<char>>, i: nat, ret: nat, next: nat, sum: nat, device: seq<char> -> FbDevice)
    requires i < |v| && DeviceSize(v[i], device).Ok?
    requires next == i + 1 && sum == ret + DeviceSize(v[i], device).value
    ensures AddTo(ret, FbTotal(v[i..], device)) == AddTo(sum, FbTotal(v[next..], device))
  {
    FbTotalCons(v[i..], device);
    assert v[i..][0] == v[i] && v[i..][1..] == v[next..];
  }

  /**
   * What Framebuffers::size computes from the directory listing: the error of
   * `listDir` when the directory cannot be listed, else the total of the
   * framebuffer devices in it.
   */
  function FbDirTotal(listing: Result<seq<seq<char>>>, device: seq<char> -> FbDevice): Result<nat> {
    match listing
    case Err(e) => Err(e)
    case Ok(entries) => FbTotal(ListFramebuffers(entries), device)
  }

  /**
   * Framebuffers::size fails exactly when the directory cannot be listed or
   * some framebuffer device in it has a size that cannot be read.
   */
  lemma {:induction false} FbDirTotalFails(listing: Result<seq<seq<char>>>, device: seq<char> -> FbDevice)
    ensures FbDirTotal(listing, device).Err? <==>
              listing.Err? ||
              exists i :: 0 <= i < |ListFramebuffers(listing.value)| && DeviceSize(ListFramebuffers(listing.value)[i], device).Err?
    ensures listing.Err? ==> FbDirTotal(listing, device) == Err(listing.error)
  {
    if listing.Ok? {
      var v := ListFramebuffers(listing.value);
      FbTotalFirstError(v, device);
      assert FbDirTotal(listing, device) == FbTotal(v, device);
      if FbTotal(v, device).Err? {
        var i :| 0 <= i < |v| && DeviceSize(v[i], device).Err?;
        assert DeviceSize(ListFramebuffers(listing.value)[i], device).Err?;
      } else {
        assert forall i :: 0 <= i < |v| ==> DeviceSize(v[i], device).Ok?;
      }
    }
  }

  /**
   * Framebuffers::size: lists the directory, then adds Framebuffer::size over
   * its framebuffer devices; a failed listing or the first device whose size
   * cannot be read ends it.
   */
  method FramebuffersSize(listing: Result<seq<seq<char>>>, device: seq<char> -> FbDevice) returns (r: Result<nat>)
    ensures r == FbDirTotal(listing, device)
  {
    if listing.Err? {
      return Err(listing.error);
    }
    var v := ListFramebuffers(listing.value);
    var ret: nat := 0;
    var i := 0;
    while i < |v|
      invariant 0 <= i <= |v|
      invariant FbTotal(v, device) == AddTo(ret, FbTotal(v[i..], device))
    {
      var size := DeviceSize(v[i], device);
      if size.Err? {
        FbTotalStops(v, i, ret, device);
        return Err(size.error);
      }
      ghost var i0, ret0 := i, ret;
      ret := ret + size.value;
      i := i + 1;
      FbTotalAdvance(v, i0, ret0, i, ret, device);
    }
    assert v[i..] == [];
    return Ok(ret);
  }
}
