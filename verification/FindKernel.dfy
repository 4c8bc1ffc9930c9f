/**
 * The `find_kernel` subcommand of kdumptool: which kernel image under /boot
 * the capture kernel is loaded from, and which initrd goes with it.
 *
 * What the subcommand learns from the system (the architecture, the running
 * kernel's release, the image names KernelTool knows for the architecture,
 * which files exist, what the kernel tools report about an image, and how an
 * image path splits into directory and stripped name) is an input.
 */
module FindKernel {

  import opened FileUtil

  const BOOTDIR: string := "/boot"
  const KDUMP_SUFFIX: string := "-kdump"

  /** A value read from a kernel's configuration: absent, a string (read as a number), or of another type. */
  datatype KconfigValue = Invalid | StringValue(intValue: int) | OtherType

  /** What the kernel tools report about one kernel image. */
  datatype KernelFacts = KernelFacts(relocatable: bool, nrCpus: KconfigValue, preemptRt: KconfigValue)

  /** Everything find_kernel learns from the system. */
  datatype System = System(
    arch: string,
    release: string,
    imageNames: seq<string>,
    existing: set<string>,
    facts: string -> KernelFacts,
    stripImageName: string -> (string, string))

  // ---------------------------------------------------------------------------
  // Names

  predicate EndsWith(s: string, suffix: string) {
    |suffix| <= |s| && s[|s| - |suffix|..] == suffix
  }

  /** FindKernel::isKdumpKernel: the name ends with "-kdump". */
  predicate IsKdumpKernel(image: string): (b: bool)
    ensures b <==> |image| >= |KDUMP_SUFFIX| && image == image[..|image| - |KDUMP_SUFFIX|] + KDUMP_SUFFIX
  {
    EndsWith(image, KDUMP_SUFFIX)
  }

  /** A name is a kdump kernel exactly when it is some name followed by "-kdump". */
  lemma {:induction false} KdumpKernelNames(image: string, prefix: string)
    ensures IsKdumpKernel(prefix + KDUMP_SUFFIX)
    ensures IsKdumpKernel(image) ==> image == image[..|image| - |KDUMP_SUFFIX|] + KDUMP_SUFFIX
  {
    assert (prefix + KDUMP_SUFFIX)[|prefix|..] == KDUMP_SUFFIX;
  }

  /**
   * FindKernel::findInitrd: "initrd-" and the stripped image name in the
   * image's directory, with "-kdump" added unless the name already ends
   * with it; so the initrd name always ends with "-kdump".
   */
  function FindInitrd(sys: System, kernelPath: string): (r: string)
    ensures var (dir, stripped) := sys.stripImageName(kernelPath);
      && |r| == |dir| + 8 + |stripped| + (if IsKdumpKernel(stripped) then 0 else |KDUMP_SUFFIX|)
      && r[..|dir| + 8 + |stripped|] == PathConcat(dir, "initrd-" + stripped)
      && IsKdumpKernel(r)
  {
    var (dir, stripped) := sys.stripImageName(kernelPath);
    if IsKdumpKernel(stripped) then
      var r := PathConcat(dir, "initrd-" + stripped);
      assert r[|r| - |KDUMP_SUFFIX|..] == stripped[|stripped| - |KDUMP_SUFFIX|..];
      r
    else
      var r := PathConcat(dir, "initrd-" + stripped + KDUMP_SUFFIX);
      assert r == PathConcat(dir, "initrd-" + stripped) + KDUMP_SUFFIX;
      KdumpKernelNames(r, PathConcat(dir, "initrd-" + stripped));
      r
  }

  // ---------------------------------------------------------------------------
  // findForVersion

  /** The path tried for one image name: /boot/<name>, or /boot/<name>-<version>. */
  function Candidate(name: string, version: string): (r: string)
    ensures |r| > |BOOTDIR| && r[..|BOOTDIR| + 1] == BOOTDIR + "/"
  {
    if |version| == 0 then PathConcat(BOOTDIR, name) else PathConcat(BOOTDIR, name + "-" + version)
  }

  /** The first candidate among `names` that exists, or "". */
  function FirstExisting(names: seq<string>, version: string, existing: set<string>): (r: string)
    ensures |r| != 0 ==> r in existing && |r| > |BOOTDIR| && r[..|BOOTDIR| + 1] == BOOTDIR + "/"
    ensures |r| == 0 <==> forall i :: 0 <= i < |names| ==> Candidate(names[i], version) !in existing
    decreases |names|
  {
    if |names| == 0 then ""
    else if Candidate(names[0], version) in existing then Candidate(names[0], version)
    else
      var r := FirstExisting(names[1..], version, existing);
      assert forall i :: 1 <= i < |names| ==> names[1..][i - 1] == names[i];
      r
  }

  /** A path found is the candidate of some name, and no earlier name's candidate exists. */
  lemma {:induction false} FirstExistingIsFirst(names: seq<string>, version: string, existing: set<string>)
    ensures var r := FirstExisting(names, version, existing);
      |r| != 0 ==> (exists i :: 0 <= i < |names| && r == Candidate(names[i], version)
                                && forall j :: 0 <= j < i ==> Candidate(names[j], version) !in existing)
    decreases |names|
  {
    var r := FirstExisting(names, version, existing);
    if |names| != 0 && Candidate(names[0], version) !in existing {
      FirstExistingIsFirst(names[1..], version, existing);
      if |r| != 0 {
        var i :| 0 <= i < |names[1..]| && r == Candidate(names[1..][i], version)
                 && forall j :: 0 <= j < i ==> Candidate(names[1..][j], version) !in existing;
        forall j | 1 <= j < i + 1 ensures Candidate(names[j], version) !in existing {
          assert names[1..][j - 1] == names[j];
        }
        assert r == Candidate(names[i + 1], version);
      }
    }
  }

  /** FindKernel::findForVersion: the first image of the architecture that exists for `version`, or "". */
  function FindForVersion(sys: System, version: string): (r: string)
    ensures |r| != 0 ==> r in sys.existing && |r| > |BOOTDIR| && r[..|BOOTDIR| + 1] == BOOTDIR + "/"
    ensures |r| == 0 <==> forall i :: 0 <= i < |sys.imageNames| ==> Candidate(sys.imageNames[i], version) !in sys.existing
  {
    FirstExisting(sys.imageNames, version, sys.existing)
  }

  /**
   * What findForVersion returns exists, lies in /boot and is the candidate of
   * one of the image names; "" means no candidate exists.
   */
  lemma {:induction false} FindForVersionExists(sys: System, version: string)
    ensures var r := FindForVersion(sys, version);
      (|r| != 0 ==> r in sys.existing && |r| > |BOOTDIR| && r[..|BOOTDIR| + 1] == BOOTDIR + "/"
                    && exists name :: name in sys.imageNames && r == Candidate(name, version))
      && (|r| == 0 <==> forall name :: name in sys.imageNames ==> Candidate(name, version) !in sys.existing)
  {
    var r := FindForVersion(sys, version);
    var names := sys.imageNames;
    if |r| == 0 {
      forall name | name in names ensures Candidate(name, version) !in sys.existing {
        var i :| 0 <= i < |names| && names[i] == name;
      }
    } else {
      FirstExistingIsFirst(names, version, sys.existing);
    }
  }

  // ---------------------------------------------------------------------------
  // suitableForKdump

  /** On x86 the strict test avoids kernels built for 1024 CPUs or more. */
  predicate TooManyCpus(arch: string, facts: KernelFacts) {
    (arch == "i386" || arch == "x86_64") && facts.nrCpus.StringValue? && facts.nrCpus.intValue >= 1024
  }

  /**
   * FindKernel::suitableForKdump: an image not named "-kdump" must be
   * relocatable; the strict test also turns down too many CPUs on x86 and
   * any realtime kernel.
   */
  predicate Suitable(sys: System, image: string, strict: bool): (b: bool)
    ensures b ==> IsKdumpKernel(image) || sys.facts(image).relocatable
    ensures b && strict ==> !TooManyCpus(sys.arch, sys.facts(image)) && sys.facts(image).preemptRt.Invalid?
  {
    var facts := sys.facts(image);
    if !IsKdumpKernel(image) && !facts.relocatable then false
    else if strict && TooManyCpus(sys.arch, facts) then false
    else if strict && !facts.preemptRt.Invalid? then false
    else true
  }

  /** The loose test checks relocation only; the strict test is the loose one and two more. */
  lemma {:induction false} SuitableStrictness(sys: System, image: string)
    ensures Suitable(sys, image, false) <==> IsKdumpKernel(image) || sys.facts(image).relocatable
    ensures Suitable(sys, image, true) <==>
      Suitable(sys, image, false) && !TooManyCpus(sys.arch, sys.facts(image)) && sys.facts(image).preemptRt.Invalid?
  {
  }

  // ---------------------------------------------------------------------------
  // The running kernel's release with its last component replaced

  /** The fields of `s` between the separators, empty ones kept; "" gives [""]. */
  function Split(s: string, sep: char): (r: seq<string>)
    ensures |r| >= 1
    ensures forall i :: 0 <= i < |r| ==> sep !in r[i]
    decreases |s|
  {
    if sep !in s then [s]
    else
      var i := IndexOf(s, sep);
      [s[..i]] + Split(s[i + 1..], sep)
  }

  /** The first position of `c` in `s`. */
  function IndexOf(s: string, c: char): (i: nat)
    requires c in s
    ensures i < |s| && s[i] == c && c !in s[..i]
    decreases |s|
  {
    if s[0] == c then 0
    else
      var i := IndexOf(s[1..], c);
      assert s[..i + 1] == [s[0]] + s[1..][..i];
      i + 1
  }

  /** The fields put back together with the separator between them. */
  function Join(parts: seq<string>, sep: char): string
    decreases |parts|
  {
    if |parts| == 0 then ""
    else if |parts| == 1 then parts[0]
    else parts[0] + [sep] + Join(parts[1..], sep)
  }

  /** Joining the fields of a string gives the string back. */
  lemma {:induction false} JoinSplit(s: string, sep: char)
    ensures Join(Split(s, sep), sep) == s
    decreases |s|
  {
    if sep in s {
      var i := IndexOf(s, sep);
      JoinSplit(s[i + 1..], sep);
      var rest := Split(s[i + 1..], sep);
      assert Split(s, sep) == [s[..i]] + rest;
      assert ([s[..i]] + rest)[1..] == rest;
      assert s == s[..i] + [sep] + s[i + 1..];
    }
  }

  /** Splitting fields joined with a separator none of them holds gives the fields back. */
  lemma {:induction false} SplitJoin(parts: seq<string>, sep: char)
    requires |parts| >= 1
    requires forall i :: 0 <= i < |parts| ==> sep !in parts[i]
    ensures Split(Join(parts, sep), sep) == parts
    decreases |parts|
  {
    if |parts| > 1 {
      var rest := Join(parts[1..], sep);
      var s := parts[0] + [sep] + rest;
      assert Join(parts, sep) == s;
      var i := |parts[0]|;
      assert s[i] == sep && s[..i] == parts[0] && s[i + 1..] == rest;
      IndexOfAt(s, sep, i);
      assert Split(s, sep) == [parts[0]] + Split(rest, sep);
      SplitJoin(parts[1..], sep);
      assert parts == [parts[0]] + parts[1..];
    } else {
      assert Join(parts, sep) == parts[0];
    }
  }

  lemma {:induction false} IndexOfAt(s: string, c: char, i: nat)
    requires i < |s| && s[i] == c && c !in s[..i]
    ensures IndexOf(s, c) == i
  {
  }

  /** Joining one more field adds the separator and the field. */
  lemma {:induction false} JoinAppend(parts: seq<string>, last: string, sep: char)
    requires |parts| >= 1
    ensures Join(parts + [last], sep) == Join(parts, sep) + [sep] + last
    decreases |parts|
  {
    if |parts| == 1 {
      assert (parts + [last])[1..] == [last];
    } else {
      assert (parts + [last])[1..] == parts[1..] + [last];
      JoinAppend(parts[1..], last, sep);
    }
  }

  /** The first step of the automatic search: the release's fields, the last one replaced by "kdump". */
  function KdumpVersion(release: string): (r: string)
    ensures |r| >= 5 && r[|r| - 5..] == "kdump"
  {
    var elements := Split(release, '-');
    var head := elements[..|elements| - 1];
    if |head| == 0 then
      assert head + ["kdump"] == ["kdump"];
      Join(head + ["kdump"], '-')
    else
      JoinAppend(head, "kdump", '-');
      Join(head + ["kdump"], '-')
  }

  /** "4.12.14-default" gives "4.12.14-kdump"; a release without a dash gives "kdump". */
  lemma {:induction false} KdumpVersionReplacesLast(head: string, last: string)
    requires '-' !in last
    ensures KdumpVersion(head + "-" + last) == head + KDUMP_SUFFIX
    ensures KdumpVersion(last) == "kdump"
  {
    var parts := Split(head, '-') + [last];
    forall i | 0 <= i < |parts| ensures '-' !in parts[i] {
      if i < |parts| - 1 { assert parts[i] == Split(head, '-')[i]; }
    }
    JoinAppend(Split(head, '-'), last, '-');
    JoinSplit(head, '-');
    assert Join(parts, '-') == head + "-" + last;
    SplitJoin(parts, '-');
    var release := head + "-" + last;
    assert Split(release, '-') == parts;
    assert parts[..|parts| - 1] == Split(head, '-');
    JoinAppend(Split(head, '-'), "kdump", '-');
    calc {
      KdumpVersion(release);
      Join(Split(head, '-') + ["kdump"], '-');
      Join(Split(head, '-'), '-') + ['-'] + "kdump";
      head + KDUMP_SUFFIX;
    }
  }

  // ---------------------------------------------------------------------------
  // findKernelAuto

  /** One attempt of the automatic search: a version to look for, and whether the strict test applies. */
  datatype Attempt = Attempt(version: string, strict: bool)

  /** The six attempts of findKernelAuto, in order. */
  function Attempts(release: string): (a: seq<Attempt>)
    ensures |a| == 6
  {
    [Attempt(KdumpVersion(release), true), Attempt("kdump", true), Attempt(release, true),
     Attempt("", true), Attempt(release, false), Attempt("", false)]
  }

  /** The image an attempt looks at: the one findForVersion returns for its version. */
  function AttemptImage(sys: System, a: Attempt): string {
    FindForVersion(sys, a.version)
  }

  /** An attempt succeeds when it finds an image and the image passes the attempt's test. */
  predicate Succeeds(sys: System, a: Attempt) {
    |AttemptImage(sys, a)| != 0 && Suitable(sys, AttemptImage(sys, a), a.strict)
  }

  /** The image of the first attempt that succeeds, or "". */
  function FirstSuitable(sys: System, attempts: seq<Attempt>): (r: string)
    ensures |r| != 0 ==> exists i :: 0 <= i < |attempts| && Succeeds(sys, attempts[i]) && r == AttemptImage(sys, attempts[i])
    ensures |r| == 0 <==> forall i :: 0 <= i < |attempts| ==> !Succeeds(sys, attempts[i])
    decreases |attempts|
  {
    if |attempts| == 0 then ""
    else if Succeeds(sys, attempts[0]) then AttemptImage(sys, attempts[0])
    else
      var r := FirstSuitable(sys, attempts[1..]);
      assert forall i :: 1 <= i < |attempts| ==> attempts[1..][i - 1] == attempts[i];
      r
  }

  /** FindKernel::findKernelAuto. */
  function FindKernelAuto(sys: System): (r: string)
    ensures |r| != 0 ==> exists i :: 0 <= i < 6 && Succeeds(sys, Attempts(sys.release)[i]) && r == AttemptImage(sys, Attempts(sys.release)[i])
    ensures |r| == 0 <==> forall i :: 0 <= i < 6 ==> !Succeeds(sys, Attempts(sys.release)[i])
  {
    FirstSuitable(sys, Attempts(sys.release))
  }

  /** The image of the first attempt that succeeds is chosen: no earlier attempt found a suitable image. */
  lemma {:induction false} FirstSuitableIsFirst(sys: System, attempts: seq<Attempt>, k: nat)
    requires k < |attempts| && Succeeds(sys, attempts[k])
    requires forall j :: 0 <= j < k ==> !Succeeds(sys, attempts[j])
    ensures FirstSuitable(sys, attempts) == AttemptImage(sys, attempts[k])
    decreases k
  {
    if k > 0 {
      assert !Succeeds(sys, attempts[0]);
      forall j | 0 <= j < k - 1 ensures !Succeeds(sys, attempts[1..][j]) {
        assert attempts[1..][j] == attempts[j + 1];
      }
      FirstSuitableIsFirst(sys, attempts[1..], k - 1);
    }
  }

  /**
   * The automatic search returns an existing image that at least passes the
   * loose test; an existing "-kdump" image for the release, strictly
   * suitable, always wins.
   */
  lemma {:induction false} FindKernelAutoFinds(sys: System)
    ensures var r := FindKernelAuto(sys);
      |r| != 0 ==> r in sys.existing && Suitable(sys, r, false)
    ensures var image := FindForVersion(sys, KdumpVersion(sys.release));
      |image| != 0 && Suitable(sys, image, true) ==> FindKernelAuto(sys) == image
  {
    var r := FindKernelAuto(sys);
    var attempts := Attempts(sys.release);
    if |r| != 0 {
      var i :| 0 <= i < |attempts| && Succeeds(sys, attempts[i]) && r == AttemptImage(sys, attempts[i]);
      FindForVersionExists(sys, attempts[i].version);
      SuitableStrictness(sys, r);
    }
    var image := FindForVersion(sys, KdumpVersion(sys.release));
    if |image| != 0 && Suitable(sys, image, true) {
      assert Succeeds(sys, attempts[0]);
      FirstSuitableIsFirst(sys, attempts, 0);
    }
  }

  // ---------------------------------------------------------------------------
  // execute

  /** Why find_kernel gives up; each sets the error code -1. */
  datatype Failure = NoSuchKernel | NotSuitable | NoneFound

  /** The outcome of find_kernel: the kernel and initrd it prints, or a failure. */
  datatype FindResult = Found(kernel: string, initrd: string) | Failed(failure: Failure)

  /** The error code find_kernel leaves behind. */
  function ErrorCode(r: FindResult): int {
    if r.Failed? then -1 else 0
  }

  /**
   * FindKernel::execute: a configured kernel version must have an image,
   * and that image must pass the loose test; without one, the automatic
   * search must find an image.  The initrd follows from the image.
   */
  function Execute(sys: System, kernelver: string): (r: FindResult)
    ensures r.Found? ==> r.initrd == FindInitrd(sys, r.kernel)
    ensures r.Found? && |kernelver| != 0 ==> r.kernel == FindForVersion(sys, kernelver)
    ensures r.Found? && |kernelver| == 0 ==> r.kernel == FindKernelAuto(sys)
  {
    var kernelimage :=
      if |kernelver| != 0 then FindForVersion(sys, kernelver) else FindKernelAuto(sys);
    if |kernelver| != 0 && |kernelimage| == 0 then Failed(NoSuchKernel)
    else if |kernelver| != 0 && !Suitable(sys, kernelimage, false) then Failed(NotSuitable)
    else if |kernelimage| == 0 then Failed(NoneFound)
    else Found(kernelimage, FindInitrd(sys, kernelimage))
  }

  /**
   * find_kernel fails with -1 exactly in three cases: the configured version
   * has no image, its image is not suitable, or the automatic search finds
   * nothing.  Whatever it finds exists and passes the loose test.
   */
  lemma {:induction false} ExecuteOutcome(sys: System, kernelver: string)
    ensures var r := Execute(sys, kernelver);
      && (ErrorCode(r) == -1 <==> (
               (|kernelver| != 0 && |FindForVersion(sys, kernelver)| == 0)
            || (|kernelver| != 0 && |FindForVersion(sys, kernelver)| != 0 && !Suitable(sys, FindForVersion(sys, kernelver), false))
            || (|kernelver| == 0 && |FindKernelAuto(sys)| == 0)))
      && (r.Found? ==> r.kernel in sys.existing && Suitable(sys, r.kernel, false) && IsKdumpKernel(r.initrd))
  {
    FindForVersionExists(sys, kernelver);
    FindKernelAutoFinds(sys);
  }
}
