/**
 * File helpers of kdumptool: path concatenation, `mkdir` (one level or
 * recursive) over the set of paths that exist, and `mount`/`umount`/
 * `nfsmount`, which build the command line of the external program, run it
 * and turn a non-zero exit code into an error.
 *
 * The file system is a set of existing paths plus the paths the system
 * refuses to create (with the errno it reports); running a command is a
 * function from the command line to its exit code and output lines.
 */
module FileUtil {

  import opened Outcomes
  import opened StdStream

  /** FileUtil::pathconcat: the two paths joined by one slash. */
  function PathConcat(a: string, b: string): (r: string)
    ensures |r| == |a| + 1 + |b|
    ensures r[..|a|] == a && r[|a|] == '/' && r[|a| + 1..] == b
  {
    a + "/" + b
  }

  // ---------------------------------------------------------------------------
  // mkdir

  /** What one `::mkdir` call does: nothing if the path exists, else create it unless the system refuses. */
  function MkdirStep(paths: set<string>, refusals: map<string, int>, dir: string): (r: (set<string>, Outcome))
    ensures r.1.Pass? <==> dir in paths || dir !in refusals
    ensures r.1.Pass? ==> r.0 == paths + {dir}
    ensures r.1.Fail? ==> r.0 == paths && r.1.error == KSystemError(MkdirFailed, refusals[dir])
  {
    if dir in paths then (paths, Pass)
    else if dir in refusals then (paths, Fail(KSystemError(MkdirFailed, refusals[dir])))
    else (paths + {dir}, Pass)
  }

  /** `::mkdir` on each target in turn; the first failure ends the run. */
  function MkdirAll(paths: set<string>, refusals: map<string, int>, targets: seq<string>): (set<string>, Outcome)
    decreases |targets|
  {
    if |targets| == 0 then (paths, Pass)
    else
      var step := MkdirStep(paths, refusals, targets[0]);
      if step.1.Fail? then step else MkdirAll(step.0, refusals, targets[1..])
  }

  /** A run over `t` then `ts` is one `::mkdir` followed, unless it failed, by the rest. */
  lemma {:induction false} MkdirAllCons(paths: set<string>, refusals: map<string, int>, t: string, ts: seq<string>)
    ensures var step := MkdirStep(paths, refusals, t);
      MkdirAll(paths, refusals, [t] + ts) == if step.1.Fail? then step else MkdirAll(step.0, refusals, ts)
  {
    assert ([t] + ts)[1..] == ts;
  }

  /**
   * A run that passes leaves every target in place and creates nothing
   * else; a run that fails stops at the first target the system refuses.
   */
  lemma {:induction false} MkdirAllCreates(paths: set<string>, refusals: map<string, int>, targets: seq<string>)
    ensures var (paths', r) := MkdirAll(paths, refusals, targets);
      && paths <= paths'
      && (forall p :: p in paths' ==> p in paths || p in targets)
      && (r.Pass? <==> forall i :: 0 <= i < |targets| ==> targets[i] in paths || targets[i] !in refusals)
      && (r.Pass? ==> forall i :: 0 <= i < |targets| ==> targets[i] in paths')
      && (r.Fail? ==> (exists i :: 0 <= i < |targets| && targets[i] !in paths && targets[i] in refusals
                          && r.error == KSystemError(MkdirFailed, refusals[targets[i]])))
    decreases |targets|
  {
    if |targets| != 0 {
      var (p1, r1) := MkdirStep(paths, refusals, targets[0]);
      if r1.Pass? {
        MkdirAllCreates(p1, refusals, targets[1..]);
        var (paths', r) := MkdirAll(p1, refusals, targets[1..]);
        assert MkdirAll(paths, refusals, targets) == (paths', r);
        forall p | p in paths' ensures p in paths || p in targets {
          if p !in p1 {
            assert p in targets[1..];
          }
        }
        if r.Pass? {
          forall i | 0 <= i < |targets| ensures targets[i] in paths' {
            if i > 0 { assert targets[1..][i - 1] == targets[i]; }
          }
        } else {
          var i :| 0 <= i < |targets[1..]| && targets[1..][i] !in p1 && targets[1..][i] in refusals
            && r.error == KSystemError(MkdirFailed, refusals[targets[1..][i]]);
          assert targets[i + 1] !in paths;
        }
        if !(forall i :: 0 <= i < |targets| ==> targets[i] in paths || targets[i] !in refusals) {
          var i :| 0 <= i < |targets| && !(targets[i] in paths || targets[i] !in refusals);
          assert targets[1..][i - 1] == targets[i];
        }
        if r.Fail? {
          var i :| 0 <= i < |targets[1..]| && targets[1..][i] !in p1 && targets[1..][i] in refusals;
          assert !(targets[i + 1] in paths || targets[i + 1] !in refusals);
        }
      }
    }
  }

  /**
   * The trailing-slash loop of the recursive mkdir, as written: the guard
   * reads `directory[directory.size() - 1]` before checking that anything
   * is left, so a path made of slashes only ends in a read before the
   * string (`Nothing`).
   */
  function StripAsWritten(s: string): Option<string>
    decreases |s|
  {
    if |s| == 0 then Nothing
    else if s[|s| - 1] == '/' then StripAsWritten(s[..|s| - 1])
    else Some(s)
  }

  /** The trailing-slash loop, stopping when the string is empty. */
  function StripTrailingSlashes(s: string): (r: string)
    ensures r <= s
    ensures |r| == 0 || r[|r| - 1] != '/'
    ensures forall i :: |r| <= i < |s| ==> s[i] == '/'
    decreases |s|
  {
    if |s| != 0 && s[|s| - 1] == '/' then StripTrailingSlashes(s[..|s| - 1]) else s
  }

  /** `mkdir("/", true)`, and any path of slashes only, reads before the string. */
  lemma {:induction false} SlashesReadBeforeString(s: string)
    requires forall i :: 0 <= i < |s| ==> s[i] == '/'
    ensures StripAsWritten(s) == Nothing
    decreases |s|
  {
    if |s| != 0 {
      SlashesReadBeforeString(s[..|s| - 1]);
    }
  }

  /** Wherever the loop as written is defined, the corrected loop agrees with it. */
  lemma {:induction false} StripAgrees(s: string)
    requires StripAsWritten(s).Some?
    ensures StripAsWritten(s) == Some(StripTrailingSlashes(s))
    decreases |s|
  {
    if s[|s| - 1] == '/' {
      StripAgrees(s[..|s| - 1]);
    }
  }

  /** `std::string::find('/', from)`: the first slash at or after `from`, if any. */
  function NextSlash(d: string, from: nat): (r: Option<nat>)
    ensures r.Some? ==> from <= r.value < |d| && d[r.value] == '/'
    decreases |d| - from
  {
    if from >= |d| then Nothing
    else if d[from] == '/' then Some(from)
    else NextSlash(d, from + 1)
  }

  /** The slash found is the first one: no slash at or after `from` comes before it. */
  lemma {:induction false} NextSlashIsFirst(d: string, from: nat, p: nat)
    requires from <= p < |d| && d[p] == '/'
    ensures NextSlash(d, from).Some? && NextSlash(d, from).value <= p
    decreases p - from
  {
    if d[from] != '/' {
      NextSlashIsFirst(d, from + 1, p);
    }
  }

  /**
   * The paths the recursive mkdir creates one level at a time: the prefix
   * before every slash found at or after `from`, then the whole path.
   */
  function TargetsFrom(d: string, from: nat): (t: seq<string>)
    ensures |t| >= 1 && t[|t| - 1] == d
    decreases |d| - from
  {
    match NextSlash(d, from)
    case Nothing => [d]
    case Some(p) => [d[..p]] + TargetsFrom(d, p + 1)
  }

  /** The targets of a recursive mkdir of `d`: the search for slashes starts after index 0. */
  function Targets(d: string): seq<string> {
    TargetsFrom(d, 1)
  }

  /** Every prefix that ends just before a slash past `from` is a target. */
  lemma {:induction false} TargetsCoverSlashes(d: string, from: nat, p: nat)
    requires from <= p < |d| && d[p] == '/'
    ensures d[..p] in TargetsFrom(d, from)
    decreases |d| - from
  {
    NextSlashIsFirst(d, from, p);
    match NextSlash(d, from)
    case Some(q) =>
      if q != p {
        TargetsCoverSlashes(d, q + 1, p);
      }
  }

  /** Every target is a prefix of the path. */
  lemma {:induction false} TargetsArePrefixes(d: string, from: nat)
    ensures var t := TargetsFrom(d, from);
      forall i :: 0 <= i < |t| ==> |t[i]| <= |d| && t[i] == d[..|t[i]|]
    decreases |d| - from
  {
    match NextSlash(d, from)
    case Nothing =>
    case Some(p) =>
      TargetsArePrefixes(d, p + 1);
      var t := TargetsFrom(d, from);
      assert t == [d[..p]] + TargetsFrom(d, p + 1);
  }

  /** Every target but the last ends just before a slash past `from`, and they grow in length. */
  lemma {:induction false} TargetsAreSlashPrefixes(d: string, from: nat, t: seq<string>)
    requires t == TargetsFrom(d, from)
    ensures forall i :: 0 <= i < |t| - 1 ==> from <= |t[i]| < |d| && d[|t[i]|] == '/' && |t[i]| < |t[i + 1]|
    decreases |d| - from
  {
    match NextSlash(d, from)
    case Nothing =>
    case Some(p) =>
      var u := TargetsFrom(d, p + 1);
      TargetsAreSlashPrefixes(d, p + 1, u);
      assert t == [d[..p]] + u;
      assert p < |u[0]| by {
        if |u| > 1 {
          assert |u[0]| >= p + 1;
        }
      }
      forall i | 0 <= i < |t| - 1
        ensures from <= |t[i]| < |d| && d[|t[i]|] == '/' && |t[i]| < |t[i + 1]|
      {
        if i == 0 {
          assert t[0] == d[..p] && t[1] == u[0];
        } else {
          assert t[i] == u[i - 1] && t[i + 1] == u[i];
        }
      }
  }

  /**
   * A recursive mkdir that passes leaves the path (trailing slashes
   * dropped) and every prefix of it that ends before a slash past index 0.
   */
  lemma {:induction false} MkdirParentsExist(paths: set<string>, refusals: map<string, int>, dir: string)
    ensures var s := StripTrailingSlashes(dir);
      var run := MkdirAll(paths, refusals, Targets(s));
      run.1.Pass? ==> s in run.0 && forall p :: 1 <= p < |s| && s[p] == '/' ==> s[..p] in run.0
  {
    var s := StripTrailingSlashes(dir);
    var t := Targets(s);
    var run := MkdirAll(paths, refusals, t);
    MkdirAllCreates(paths, refusals, t);
    if run.1.Pass? {
      assert t[|t| - 1] == s;
      forall p | 1 <= p < |s| && s[p] == '/' ensures s[..p] in run.0 {
        TargetsCoverSlashes(s, 1, p);
        var i :| 0 <= i < |t| && t[i] == s[..p];
      }
    }
  }

  /** The file system as kdumptool sees it: what exists, and what the system refuses to create. */
  class FileSystem {
    var paths: set<string>
    const refusals: map<string, int>

    constructor (existing: set<string>, refused: map<string, int>)
      ensures paths == existing && refusals == refused
    {
      paths := existing;
      refusals := refused;
    }

    /** FileUtil::exists: `stat` succeeds. */
    predicate Exists(file: string)
      reads this
    {
      file in paths
    }

    /**
     * FileUtil::mkdir.  Without `recursive`, the directory is created only
     * if it does not exist yet.  With it, trailing slashes are dropped and
     * every prefix before a slash past index 0 is created, then the path
     * itself; the first refusal ends the call.
     */
    method Mkdir(dir: string, recursive: bool) returns (r: Outcome)
      modifies this
      ensures !recursive ==> (paths, r) == MkdirStep(old(paths), refusals, dir)
      ensures recursive ==> (paths, r) == MkdirAll(old(paths), refusals, Targets(StripTrailingSlashes(dir)))
    {
      if !recursive {
        r := MkdirOne(dir);
        return;
      }
      var directory := dir;
      while |directory| != 0 && directory[|directory| - 1] == '/'
        invariant StripTrailingSlashes(directory) == StripTrailingSlashes(dir)
        decreases |directory|
      {
        directory := directory[..|directory| - 1];
      }
      r := MkdirLevels(directory);
    }

    /** FileUtil::mkdir without `recursive`: `::mkdir` unless the directory exists. */
    method MkdirOne(dir: string) returns (r: Outcome)
      modifies this
      ensures (paths, r) == MkdirStep(old(paths), refusals, dir)
    {
      if !Exists(dir) {
        if dir in refusals {
          return Fail(KSystemError(MkdirFailed, refusals[dir]));
        }
        paths := paths + {dir};
      }
      return Pass;
    }

    /** The slash loop of the recursive mkdir: one level at a time, stopping at the first failure. */
    method MkdirLevels(directory: string) returns (r: Outcome)
      modifies this
      ensures (paths, r) == MkdirAll(old(paths), refusals, Targets(directory))
    {
      ghost var goal := MkdirAll(paths, refusals, Targets(directory));
      ResumesAtStart(paths, refusals, directory);
      var currentSlash: nat := 0;
      var done := false;
      r := Pass;
      while !done
        invariant currentSlash <= |directory|
        invariant !done ==> Resumes(paths, refusals, directory, currentSlash + 1, goal)
        invariant done ==> (paths, r) == goal
        decreases |directory| - currentSlash, !done
      {
        var next;
        r, next := MkdirLevel(directory, currentSlash + 1, goal);
        if next.Nothing? {
          done := true;
        } else {
          currentSlash := next.value;
        }
      }
    }

    /**
     * One pass of the slash loop: the next slash at or after `from`, then
     * the prefix before it (or, with no slash left, the whole path).  The
     * run is over when no slash is left or the level fails.
     */
    method MkdirLevel(directory: string, from: nat, ghost goal: (set<string>, Outcome)) returns (r: Outcome, next: Option<nat>)
      modifies this
      requires Resumes(paths, refusals, directory, from, goal)
      ensures next.Some? ==> from <= next.value < |directory| && Resumes(paths, refusals, directory, next.value + 1, goal)
      ensures next.Nothing? ==> (paths, r) == goal
    {
      var slash := NextSlash(directory, from);
      if slash.Nothing? {
        MkdirLast(paths, refusals, directory, from);
        r := MkdirOne(directory);
        return r, Nothing;
      }
      ghost var before := paths;
      r := MkdirOne(directory[..slash.value]);
      if r.Fail? {
        MkdirStops(before, refusals, directory, from, slash.value, goal);
        return r, Nothing;
      }
      MkdirAdvance(before, paths, refusals, directory, from, slash.value, goal);
      return r, slash;
    }
  }

  /** What is left of a recursive mkdir of `d` at the slash search from `from` ends as `goal`. */
  ghost predicate Resumes(paths: set<string>, refusals: map<string, int>, d: string, from: nat, goal: (set<string>, Outcome)) {
    MkdirAll(paths, refusals, TargetsFrom(d, from)) == goal
  }

  /** A recursive mkdir starts with its slash search after index 0. */
  lemma ResumesAtStart(paths: set<string>, refusals: map<string, int>, d: string)
    ensures Resumes(paths, refusals, d, 1, MkdirAll(paths, refusals, Targets(d)))
  {
  }

  /** After a level is made, what remains of the run is the run over the targets past its slash. */
  lemma {:induction false} MkdirAdvance(before: set<string>, after: set<string>, refusals: map<string, int>,
                                        d: string, from: nat, p: nat, goal: (set<string>, Outcome))
    requires NextSlash(d, from) == Some(p)
    requires MkdirAll(before, refusals, TargetsFrom(d, from)) == goal
    requires MkdirStep(before, refusals, d[..p]) == (after, Pass)
    ensures MkdirAll(after, refusals, TargetsFrom(d, p + 1)) == goal
  {
    MkdirNext(before, refusals, d, from, p);
  }

  /** A level the system refuses ends the run with that level's failure. */
  lemma {:induction false} MkdirStops(before: set<string>, refusals: map<string, int>,
                                      d: string, from: nat, p: nat, goal: (set<string>, Outcome))
    requires NextSlash(d, from) == Some(p)
    requires MkdirAll(before, refusals, TargetsFrom(d, from)) == goal
    requires MkdirStep(before, refusals, d[..p]).1.Fail?
    ensures MkdirStep(before, refusals, d[..p]) == goal
  {
    MkdirNext(before, refusals, d, from, p);
  }

  /** With no slash left, the only target left is the whole path. */
  lemma {:induction false} MkdirLast(paths: set<string>, refusals: map<string, int>, d: string, from: nat)
    requires NextSlash(d, from).Nothing?
    ensures MkdirAll(paths, refusals, TargetsFrom(d, from)) == MkdirStep(paths, refusals, d)
  {
    MkdirAllCons(paths, refusals, d, []);
    assert TargetsFrom(d, from) == [d] + [];
  }

  /** With a slash at `p`, the prefix before it comes first, then the targets past it. */
  lemma {:induction false} MkdirNext(paths: set<string>, refusals: map<string, int>, d: string, from: nat, p: nat)
    requires NextSlash(d, from) == Some(p)
    ensures MkdirStep(paths, refusals, d[..p]).1.Fail? ==>
      MkdirAll(paths, refusals, TargetsFrom(d, from)) == MkdirStep(paths, refusals, d[..p])
    ensures MkdirStep(paths, refusals, d[..p]).1.Pass? ==>
      MkdirAll(paths, refusals, TargetsFrom(d, from)) == MkdirAll(MkdirStep(paths, refusals, d[..p]).0, refusals, TargetsFrom(d, p + 1))
  {
    TargetsFromSlash(d, from, p);
    MkdirAllCons(paths, refusals, d[..p], TargetsFrom(d, p + 1));
  }

  /** The targets from a slash on: the prefix before it, then the targets past it. */
  lemma {:induction false} TargetsFromSlash(d: string, from: nat, p: nat)
    requires NextSlash(d, from) == Some(p)
    ensures TargetsFrom(d, from) == [d[..p]] + TargetsFrom(d, p + 1)
  {
  }

  // ---------------------------------------------------------------------------
  // mount, umount, nfsmount

  /** A command line: the program and its arguments. */
  datatype Command = Command(program: string, args: seq<string>)

  /** How a command ended: its exit code and the lines it wrote to stdout. */
  datatype CommandResult = CommandResult(exitCode: int, output: seq<string>)

  /** "-o" before every mount option, in order. */
  function OptionArgs(options: seq<string>): seq<string>
    decreases |options|
  {
    if |options| == 0 then [] else ["-o", options[0]] + OptionArgs(options[1..])
  }

  /** The option arguments alternate "-o" and the options, in order. */
  lemma {:induction false} OptionArgsShape(options: seq<string>)
    ensures |OptionArgs(options)| == 2 * |options|
    ensures forall i :: 0 <= i < |options| ==>
      OptionArgs(options)[2 * i] == "-o" && OptionArgs(options)[2 * i + 1] == options[i]
    decreases |options|
  {
    if |options| != 0 {
      OptionArgsShape(options[1..]);
      forall i | 1 <= i < |options|
        ensures OptionArgs(options)[2 * i] == "-o" && OptionArgs(options)[2 * i + 1] == options[i]
      {
        assert options[1..][i - 1] == options[i];
      }
    }
  }

  lemma {:induction false} OptionArgsAppend(options: seq<string>, o: string)
    ensures OptionArgs(options + [o]) == OptionArgs(options) + ["-o", o]
    decreases |options|
  {
    if |options| != 0 {
      assert (options + [o])[1..] == options[1..] + [o];
      OptionArgsAppend(options[1..], o);
    }
  }

  /** The arguments of mount(8): the options, then "-t" and the type, then device and mount point. */
  function MountArgs(device: string, mountpoint: string, fs: string, options: seq<string>): seq<string> {
    OptionArgs(options) + ["-t", fs, device, mountpoint]
  }

  /** The argument vector of mount has 2 * |options| + 4 entries and ends with -t, type, device, mount point. */
  lemma {:induction false} MountArgsShape(device: string, mountpoint: string, fs: string, options: seq<string>)
    ensures var args := MountArgs(device, mountpoint, fs, options);
      && |args| == 2 * |options| + 4
      && args[2 * |options|..] == ["-t", fs, device, mountpoint]
  {
    OptionArgsShape(options);
  }

  /** The argument loop of FileUtil::mount. */
  method BuildMountArgs(device: string, mountpoint: string, fs: string, options: seq<string>)
    returns (args: seq<string>)
    ensures args == MountArgs(device, mountpoint, fs, options)
  {
    args := [];
    var i := 0;
    while i < |options|
      invariant 0 <= i <= |options|
      invariant args == OptionArgs(options[..i])
    {
      OptionArgsAppend(options[..i], options[i]);
      assert options[..i + 1] == options[..i] + [options[i]];
      args := args + ["-o", options[i]];
      i := i + 1;
    }
    assert options[..i] == options;
    args := args + ["-t", fs];
    args := args + [device, mountpoint];
  }

  /** FileUtil::mount: run mount(8); a non-zero exit code is an error. */
  method Mount(device: string, mountpoint: string, fs: string, options: seq<string>, run: Command -> CommandResult)
    returns (r: Outcome)
    ensures r.Fail? <==> run(Command("mount", MountArgs(device, mountpoint, fs, options))).exitCode != 0
    ensures r.Fail? ==> r.error == KError(MountFailed)
  {
    var args := BuildMountArgs(device, mountpoint, fs, options);
    var ret := run(Command("mount", args)).exitCode;
    if ret != 0 {
      return Fail(KError(MountFailed));
    }
    return Pass;
  }

  /** FileUtil::umount: run umount(8) on the mount point; a non-zero exit code is an error. */
  method Umount(mountpoint: string, run: Command -> CommandResult) returns (r: Outcome)
    ensures r.Fail? <==> run(Command("umount", [mountpoint])).exitCode != 0
    ensures r.Fail? ==> r.error == KError(UmountFailed)
  {
    var args := [mountpoint];
    var ret := run(Command("umount", args)).exitCode;
    if ret != 0 {
      return Fail(KError(UmountFailed));
    }
    return Pass;
  }

  /** The first line of the export list that `dir` starts with. */
  function FirstExport(dirs: seq<string>, dir: string): (r: Option<nat>)
    ensures r.Some? ==> r.value < |dirs| && StartsWith(dir, dirs[r.value])
    ensures r.Some? ==> forall j :: 0 <= j < r.value ==> !StartsWith(dir, dirs[j])
    ensures r.Nothing? ==> forall j :: 0 <= j < |dirs| ==> !StartsWith(dir, dirs[j])
    decreases |dirs|
  {
    if |dirs| == 0 then Nothing
    else if StartsWith(dir, dirs[0]) then Some(0)
    else match FirstExport(dirs[1..], dir)
      case Nothing => Nothing
      case Some(i) => Some(i + 1)
  }

  /** The showmount command nfsmount runs to learn the exports of the host. */
  function Showmount(host: string): Command {
    Command("showmount", ["--directories", host])
  }

  /**
   * What FileUtil::nfsmount does: the export of the host that `dir` starts
   * with, mounted on `mountpoint`, or the error of the step that failed.
   * An empty matching line counts as no export.
   */
  function NfsMountResult(host: string, dir: string, mountpoint: string, options: seq<string>,
                          run: Command -> CommandResult): (r: Result<string>)
    ensures r.Err? ==> r.error in {KError(ShowmountFailed), KError(NotExported), KError(MountFailed)}
    ensures r.Ok? ==> |r.value| != 0 && StartsWith(dir, r.value) && r.value in run(Showmount(host)).output
  {
    var shown := run(Showmount(host));
    if shown.exitCode != 0 then Err(KError(ShowmountFailed))
    else
      var mountdir := match FirstExport(shown.output, dir) case Nothing => "" case Some(i) => shown.output[i];
      if |mountdir| == 0 then Err(KError(NotExported))
      else if run(Command("mount", MountArgs(host + ":" + mountdir, mountpoint, "nfs", options))).exitCode != 0 then
        Err(KError(MountFailed))
      else Ok(mountdir)
  }

  /** nfsmount mounts the first export that `dir` starts with, as host:export with type nfs. */
  lemma {:induction false} NfsMountFirstExport(host: string, dir: string, mountpoint: string, options: seq<string>,
                                               run: Command -> CommandResult)
    requires NfsMountResult(host, dir, mountpoint, options, run).Ok?
    ensures var shown := run(Showmount(host));
      var mountdir := NfsMountResult(host, dir, mountpoint, options, run).value;
      && shown.exitCode == 0
      && (exists i :: 0 <= i < |shown.output| && shown.output[i] == mountdir
            && forall j :: 0 <= j < i ==> !StartsWith(dir, shown.output[j]))
      && run(Command("mount", MountArgs(host + ":" + mountdir, mountpoint, "nfs", options))).exitCode == 0
  {
    var shown := run(Showmount(host));
    var i := FirstExport(shown.output, dir).value;
    assert shown.output[i] == NfsMountResult(host, dir, mountpoint, options, run).value;
  }

  /** FileUtil::nfsmount: list the exports, pick the first that `dir` starts with, mount it. */
  method NfsMount(host: string, dir: string, mountpoint: string, options: seq<string>, run: Command -> CommandResult)
    returns (r: Result<string>)
    ensures r == NfsMountResult(host, dir, mountpoint, options, run)
  {
    var args := ["--directories", host];
    var shown := run(Command("showmount", args));
    if shown.exitCode != 0 {
      return Err(KError(ShowmountFailed));
    }
    var dirs := shown.output;
    var mountdir := "";
    var i := 0;
    while i < |dirs|
      invariant 0 <= i <= |dirs|
      invariant forall j :: 0 <= j < i ==> !StartsWith(dir, dirs[j])
    {
      if StartsWith(dir, dirs[i]) {
        mountdir := dirs[i];
        break;
      }
      i := i + 1;
    }
    assert mountdir == (match FirstExport(dirs, dir) case Nothing => "" case Some(k) => dirs[k]);
    if |mountdir| == 0 {
      return Err(KError(NotExported));
    }
    var mounted := Mount(host + ":" + mountdir, mountpoint, "nfs", options, run);
    if mounted.Fail? {
      return Err(mounted.error);
    }
    return Ok(mountdir);
  }
}
