/**
 * Subprocess and pipe bookkeeping (kdumptool/process.cc).
 *
 * `SubProcess` owns a map from a standard-stream number to a `PipeInfo`
 * and the pid of the spawned child; `MultiplexIO` owns the poll entries and
 * the count of active ones.  The system calls around them (pipe, fork, poll,
 * kill, waitpid) are not executed here: their outcomes are parameters.
 */
module Process {
  import opened Outcomes

  const STDIN_FILENO: int := 0
  const STDOUT_FILENO: int := 1
  const STDERR_FILENO: int := 2
  const SIGKILL: int := 9

  /** The "closed" / "no process" sentinel used for descriptors and pids. */
  const CLOSED: int := -1

  //--------------------------------------------------------------------------
  // PipeInfo
  //--------------------------------------------------------------------------

  datatype PipeDirection = None | ParentToChild | ChildToParent

  /** One pipe: its direction and the descriptors held by parent and child. */
  datatype PipeInfo = PipeInfo(dir: PipeDirection, parentfd: int, childfd: int)

  /** `PipeInfo(dir)`: a pipe with both ends closed. */
  function NewPipeInfo(dir: PipeDirection): (p: PipeInfo)
    ensures p.dir == dir && IsClosed(p)
  {
    PipeInfo(dir, CLOSED, CLOSED)
  }

  predicate IsClosed(p: PipeInfo) {
    p.parentfd < 0 && p.childfd < 0
  }

  /** `PipeInfo::closeParent`: close the parent end if it is open. */
  function CloseParent(p: PipeInfo): (r: PipeInfo)
    ensures r.dir == p.dir && r.childfd == p.childfd
    ensures r.parentfd < 0
    ensures p.parentfd >= 0 ==> r.parentfd == CLOSED
    ensures p.parentfd < 0 ==> r == p
  {
    if p.parentfd >= 0 then p.(parentfd := CLOSED) else p
  }

  /** `PipeInfo::closeChild`: close the child end if it is open. */
  function CloseChild(p: PipeInfo): (r: PipeInfo)
    ensures r.dir == p.dir && r.parentfd == p.parentfd
    ensures r.childfd < 0
    ensures p.childfd >= 0 ==> r.childfd == CLOSED
    ensures p.childfd < 0 ==> r == p
  {
    if p.childfd >= 0 then p.(childfd := CLOSED) else p
  }

  /** `PipeInfo::close`: close both ends. */
  function Close(p: PipeInfo): (r: PipeInfo)
    ensures r.dir == p.dir && IsClosed(r)
    ensures IsClosed(p) ==> r == p
  {
    CloseChild(CloseParent(p))
  }

  /** Closing is idempotent, in either order of the two halves. */
  lemma {:induction false} CloseIdempotent(p: PipeInfo)
    ensures Close(Close(p)) == Close(p)
    ensures CloseParent(CloseParent(p)) == CloseParent(p)
    ensures CloseChild(CloseChild(p)) == CloseChild(p)
    ensures CloseParent(CloseChild(p)) == Close(p)
  {
  }

  /** The descriptors for one entry after a successful pipe(2) call. */
  function AttachPipe(p: PipeInfo, readEnd: int, writeEnd: int): (r: PipeInfo)
    requires p.dir == ParentToChild || p.dir == ChildToParent
    ensures r.dir == p.dir
    ensures p.dir == ParentToChild ==> r.parentfd == writeEnd && r.childfd == readEnd
    ensures p.dir == ChildToParent ==> r.parentfd == readEnd && r.childfd == writeEnd
  {
    if p.dir == ParentToChild then PipeInfo(p.dir, writeEnd, readEnd)
    else PipeInfo(p.dir, readEnd, writeEnd)
  }

  //--------------------------------------------------------------------------
  // The pipe map as a value
  //--------------------------------------------------------------------------

  /** `setPipeDirection` on the map alone. */
  function SetDirection(m: map<int, PipeInfo>, fd: int, dir: PipeDirection): map<int, PipeInfo>
  {
    if dir == None then m - {fd}
    else if fd in m then m[fd := Close(m[fd]).(dir := dir)]
    else m[fd := NewPipeInfo(dir)]
  }

  /** `getPipeDirection` on the map alone. */
  function DirectionOf(m: map<int, PipeInfo>, fd: int): PipeDirection
  {
    if fd in m then m[fd].dir else None
  }

  /** No entry carries the direction None. */
  predicate NoneFree(m: map<int, PipeInfo>) {
    forall k :: k in m ==> m[k].dir != None
  }

  /**
   * Reading a direction back after setting it gives what was set, for every
   * direction including None, and setting one stream leaves the others alone.
   * A set entry is always closed, and no entry ever holds None.
   */
  lemma {:induction false} SetThenGet(m: map<int, PipeInfo>, fd: int, dir: PipeDirection, other: int)
    requires other != fd
    ensures DirectionOf(SetDirection(m, fd, dir), fd) == dir
    ensures DirectionOf(SetDirection(m, fd, dir), other) == DirectionOf(m, other)
    ensures other in m ==> other in SetDirection(m, fd, dir) && SetDirection(m, fd, dir)[other] == m[other]
    ensures dir != None ==> IsClosed(SetDirection(m, fd, dir)[fd])
    ensures NoneFree(m) ==> NoneFree(SetDirection(m, fd, dir))
  {
  }

  /** Setting the same direction twice is the same as setting it once. */
  lemma {:induction false} SetDirectionIdempotent(m: map<int, PipeInfo>, fd: int, dir: PipeDirection)
    ensures SetDirection(SetDirection(m, fd, dir), fd, dir) == SetDirection(m, fd, dir)
  {
  }

  /** Every entry, with its parent end closed. */
  function CloseAllParents(m: map<int, PipeInfo>): (r: map<int, PipeInfo>)
    ensures r.Keys == m.Keys
    ensures forall k :: k in r ==> r[k] == CloseParent(m[k])
  {
    map k | k in m :: CloseParent(m[k])
  }

  /** Every entry, with its child end closed. */
  function CloseAllChildren(m: map<int, PipeInfo>): (r: map<int, PipeInfo>)
    ensures r.Keys == m.Keys
    ensures forall k :: k in r ==> r[k] == CloseChild(m[k])
  {
    map k | k in m :: CloseChild(m[k])
  }

  /** A set with no element is empty (lets `:|` pick from a non-empty set). */
  lemma {:induction false} EmptyIfNoElement(s: set<int>)
    ensures (forall y :: y !in s) ==> s == {}
  {
    if forall y :: y !in s {
      assert forall y :: y in s <==> y in {};
    }
  }

  /** The least key of a non-empty set: std::map visits its keys in this order. */
  ghost function MinKey(s: set<int>): (k: int)
    requires s != {}
    ensures k in s && forall y :: y in s ==> k <= y
  {
    EmptyIfNoElement(s);
    var x :| x in s;
    var rest := s - {x};
    assert forall y :: y in s ==> y == x || y in rest;
    if rest == {} then x
    else
      var m := MinKey(rest);
      if x < m then x else m
  }

  //--------------------------------------------------------------------------
  // SubProcess
  //--------------------------------------------------------------------------

  /** What one pipe(2) call returned. */
  datatype PipeCall = PipeFds(readEnd: nat, writeEnd: nat) | PipeFailed(errno: int)

  /** Which side of fork() the caller continues on after a successful spawn. */
  datatype Side = ParentSide | ChildSide

  /** The pipe of this entry cannot be set up: bad direction or pipe(2) failed. */
  predicate SetupFails(p: PipeInfo, call: PipeCall) {
    (p.dir != ParentToChild && p.dir != ChildToParent) || call.PipeFailed?
  }

  /** The exception spawn() raises for an entry whose setup fails. */
  function SetupError(p: PipeInfo, call: PipeCall): Error
    requires SetupFails(p, call)
  {
    if p.dir != ParentToChild && p.dir != ChildToParent then KError(InvalidPipeDirection)
    else KSystemError(CannotCreatePipe, call.errno)
  }

  /** Every entry has a valid direction and gets its pipe. */
  predicate AllSetUp(m: map<int, PipeInfo>, pipeFor: int -> PipeCall) {
    forall k :: k in m ==> !SetupFails(m[k], pipeFor(k))
  }

  /** `k` is the least stream whose setup fails. */
  predicate FirstFailing(m: map<int, PipeInfo>, pipeFor: int -> PipeCall, k: int) {
    && k in m && SetupFails(m[k], pipeFor(k))
    && forall j :: j in m && j < k ==> !SetupFails(m[j], pipeFor(j))
  }

  class SubProcess {
    var pipes: map<int, PipeInfo>
    var pid: int
    var killSignal: int

    constructor ()
      ensures pipes == map[] && pid == CLOSED && killSignal == SIGKILL
    {
      pipes := map[];
      pid := CLOSED;
      killSignal := SIGKILL;
    }

    /** `checkSpawned`: fails exactly when there is no process. */
    method CheckSpawned() returns (r: Outcome)
      ensures r.Fail? <==> pid == CLOSED
      ensures r.Fail? ==> r.error == KError(NoSubprocess)
    {
      if pid == CLOSED {
        return Fail(KError(NoSubprocess));
      }
      return Pass;
    }

    /**
     * `setPipeDirection`: None removes the entry; any other direction adds a
     * closed entry, or closes the existing one and overwrites its direction.
     */
    method SetPipeDirection(fd: int, dir: PipeDirection)
      modifies this
      ensures pid == old(pid) && killSignal == old(killSignal)
      ensures pipes == SetDirection(old(pipes), fd, dir)
      ensures dir == None ==> fd !in pipes && pipes == old(pipes) - {fd}
      ensures dir != None ==> pipes.Keys == old(pipes).Keys + {fd}
      ensures dir != None ==> fd in pipes && pipes[fd].dir == dir && IsClosed(pipes[fd])
      ensures forall k :: k != fd && k in old(pipes) ==> k in pipes && pipes[k] == old(pipes)[k]
      ensures pipes.Keys - {fd} == old(pipes).Keys - {fd}
    {
      if dir == None {
        pipes := pipes - {fd};
      } else if fd !in pipes {
        pipes := pipes[fd := NewPipeInfo(dir)];
      } else {
        var existing := Close(pipes[fd]);
        pipes := pipes[fd := existing.(dir := dir)];
      }
    }

    /** `getPipeDirection`: None for an unmapped stream. */
    method GetPipeDirection(fd: int) returns (dir: PipeDirection)
      ensures fd !in pipes ==> dir == None
      ensures fd in pipes ==> dir == pipes[fd].dir
    {
      if fd in pipes {
        dir := pipes[fd].dir;
      } else {
        dir := None;
      }
    }

    /** `getPipeFD`: out_of_range for an unmapped stream, else its parent end. */
    method GetPipeFD(fd: int) returns (r: Result<int>)
      ensures fd !in pipes <==> r == Err(OutOfRange)
      ensures fd in pipes ==> r == Ok(pipes[fd].parentfd)
    {
      if fd !in pipes {
        return Err(OutOfRange);
      }
      return Ok(pipes[fd].parentfd);
    }

    /** `_closeParentFDs`: close the parent end of every entry. */
    method CloseParentFds()
      modifies this
      ensures pid == old(pid) && killSignal == old(killSignal)
      ensures pipes == CloseAllParents(old(pipes))
    {
      var todo := pipes.Keys;
      while todo != {}
        invariant todo <= pipes.Keys == old(pipes).Keys
        invariant forall k :: k in todo ==> pipes[k] == old(pipes)[k]
        invariant forall k :: k in pipes && k !in todo ==> pipes[k] == CloseParent(old(pipes)[k])
        invariant pid == old(pid) && killSignal == old(killSignal)
        decreases todo
      {
        EmptyIfNoElement(todo);
        var k :| k in todo;
        pipes := pipes[k := CloseParent(pipes[k])];
        todo := todo - {k};
      }
      assert forall k :: k in pipes ==> pipes[k] == CloseAllParents(old(pipes))[k];
    }

    /** `_closeChildFDs`: close the child end of every entry. */
    method CloseChildFds()
      modifies this
      ensures pid == old(pid) && killSignal == old(killSignal)
      ensures pipes == CloseAllChildren(old(pipes))
    {
      var todo := pipes.Keys;
      while todo != {}
        invariant todo <= pipes.Keys == old(pipes).Keys
        invariant forall k :: k in todo ==> pipes[k] == old(pipes)[k]
        invariant forall k :: k in pipes && k !in todo ==> pipes[k] == CloseChild(old(pipes)[k])
        invariant pid == old(pid) && killSignal == old(killSignal)
        decreases todo
      {
        EmptyIfNoElement(todo);
        var k :| k in todo;
        pipes := pipes[k := CloseChild(pipes[k])];
        todo := todo - {k};
      }
      assert forall k :: k in pipes ==> pipes[k] == CloseAllChildren(old(pipes))[k];
    }

    /** `_closeParentFDs` followed by `_closeChildFDs`: every entry closed. */
    method CloseBoth()
      modifies this
      ensures pid == old(pid) && killSignal == old(killSignal)
      ensures pipes.Keys == old(pipes).Keys
      ensures forall k :: k in pipes ==> pipes[k] == Close(old(pipes)[k])
    {
      CloseParentFds();
      CloseChildFds();
    }

    /**
     * The pipe-setup phase of `spawn`: the entries are visited in increasing
     * stream order (std::map order) and each gets a fresh pipe, its ends
     * assigned by direction.  The first entry whose direction is invalid or
     * whose pipe(2) fails raises, after every descriptor of every entry has
     * been closed.
     */
    method SetupPipes(pipeFor: int -> PipeCall) returns (r: Outcome)
      modifies this
      ensures pid == old(pid) && killSignal == old(killSignal)
      ensures pipes.Keys == old(pipes).Keys
      ensures forall k :: k in pipes ==> pipes[k].dir == old(pipes)[k].dir
      ensures r.Pass? <==> AllSetUp(old(pipes), pipeFor)
      ensures r.Pass? ==> forall k :: k in pipes ==>
        pipes[k] == AttachPipe(old(pipes)[k], pipeFor(k).readEnd, pipeFor(k).writeEnd)
      ensures r.Fail? ==> (forall k :: k in pipes ==> IsClosed(pipes[k]))
      ensures r.Fail? ==> exists k :: FirstFailing(old(pipes), pipeFor, k) && r.error == SetupError(old(pipes)[k], pipeFor(k))
    {
      ghost var m0 := pipes;
      var todo := pipes.Keys;
      while todo != {}
        invariant todo <= pipes.Keys == m0.Keys
        invariant pid == old(pid) && killSignal == old(killSignal)
        invariant forall k :: k in todo ==> pipes[k] == m0[k]
        invariant forall k, j :: k in pipes && k !in todo && j in todo ==> k < j
        invariant forall k :: k in pipes && k !in todo ==> !SetupFails(m0[k], pipeFor(k))
        invariant forall k :: k in pipes && k !in todo ==>
          pipes[k] == AttachPipe(m0[k], pipeFor(k).readEnd, pipeFor(k).writeEnd)
        decreases todo
      {
        ghost var least := MinKey(todo);
        EmptyIfNoElement(todo);
        var k :| k in todo && forall x :: x in todo ==> k <= x;
        var entry := pipes[k];
        if SetupFails(entry, pipeFor(k)) {
          assert FirstFailing(m0, pipeFor, k);
          var e := SetupError(entry, pipeFor(k));
          CloseBoth();
          return Fail(e);
        }
        pipes := pipes[k := AttachPipe(entry, pipeFor(k).readEnd, pipeFor(k).writeEnd)];
        todo := todo - {k};
      }
      return Pass;
    }

    /**
     * `spawn`, with the outcome of pipe(2) for each stream given by `pipeFor`
     * and the value fork() returned given by `forkResult` (errno `forkErrno`).
     * After a successful fork the parent keeps only the parent ends and
     * records the pid; the child side closes both ends of every entry here
     * (its dup2/execvp are not part of this model); a failed fork closes
     * everything and raises.
     */
    method Spawn(pipeFor: int -> PipeCall, forkResult: int, forkErrno: int) returns (r: Result<Side>)
      modifies this
      ensures killSignal == old(killSignal)
      ensures pipes.Keys == old(pipes).Keys
      ensures forall k :: k in pipes ==> pipes[k].dir == old(pipes)[k].dir
      ensures !AllSetUp(old(pipes), pipeFor) ==>
        && r.Err? && pid == old(pid)
        && (forall k :: k in pipes ==> IsClosed(pipes[k]))
        && exists k :: FirstFailing(old(pipes), pipeFor, k) && r.error == SetupError(old(pipes)[k], pipeFor(k))
      ensures AllSetUp(old(pipes), pipeFor) && forkResult > 0 ==>
        && r == Ok(ParentSide) && pid == forkResult
        && forall k :: k in pipes ==>
             pipes[k].childfd == CLOSED &&
             pipes[k].parentfd == AttachPipe(old(pipes)[k], pipeFor(k).readEnd, pipeFor(k).writeEnd).parentfd
      ensures AllSetUp(old(pipes), pipeFor) && forkResult <= 0 ==>
        && pid == old(pid)
        && (forkResult == 0 ==> r == Ok(ChildSide))
        && (forkResult < 0 ==> r == Err(KSystemError(ForkFailed, forkErrno)))
        && forall k :: k in pipes ==> IsClosed(pipes[k])
    {
      var setup := SetupPipes(pipeFor);
      if setup.Fail? {
        return Err(setup.error);
      }
      ghost var attached := pipes;
      if forkResult > 0 {
        pid := forkResult;
        CloseChildFds();
        assert forall k :: k in pipes ==> pipes[k] == CloseChild(attached[k]);
        return Ok(ParentSide);
      }
      CloseBoth();
      if forkResult != 0 {
        return Err(KSystemError(ForkFailed, forkErrno));
      }
      return Ok(ChildSide);
    }

    /**
     * `kill`: no process is a KError; otherwise the signal is sent, and a
     * non-zero return of kill(2) (`osResult`, errno `osErrno`) is a system error.
     */
    method Kill(sig: int, osResult: int, osErrno: int) returns (r: Outcome)
      ensures pid == CLOSED ==> r == Fail(KError(NoSubprocess))
      ensures pid != CLOSED && osResult != 0 ==> r == Fail(KSystemError(CannotSendSignal, osErrno))
      ensures r.Pass? <==> pid != CLOSED && osResult == 0
    {
      var spawned := CheckSpawned();
      if spawned.Fail? {
        return spawned;
      }
      if osResult != 0 {
        return Fail(KSystemError(CannotSendSignal, osErrno));
      }
      return Pass;
    }

    /**
     * `wait`, with waitpid(2) returning `reaped` (errno `osErrno`) and the
     * raw `status`.  Only a reap of exactly the spawned pid succeeds; it
     * forgets the pid and returns the raw status.
     */
    method Wait(reaped: int, status: int, osErrno: int) returns (r: Result<int>)
      modifies this`pid
      ensures old(pid) == CLOSED ==> r == Err(KError(NoSubprocess))
      ensures old(pid) != CLOSED && reaped == -1 ==> r == Err(KSystemError(CannotGetState, osErrno))
      ensures old(pid) != CLOSED && reaped != -1 && reaped != old(pid) ==> r == Err(KError(WrongPidExited))
      ensures r.Ok? <==> old(pid) != CLOSED && reaped == old(pid)
      ensures r.Ok? ==> r.value == status && pid == CLOSED
      ensures r.Err? ==> pid == old(pid)
    {
      var spawned := CheckSpawned();
      if spawned.Fail? {
        return Err(spawned.error);
      }
      if reaped == -1 {
        return Err(KSystemError(CannotGetState, osErrno));
      }
      if reaped != pid {
        return Err(KError(WrongPidExited));
      }
      pid := CLOSED;
      return Ok(status);
    }
  }

  //--------------------------------------------------------------------------
  // MultiplexIO
  //--------------------------------------------------------------------------

  const POLLIN: bv16 := 0x0001
  const POLLOUT: bv16 := 0x0004
  const POLLHUP: bv16 := 0x0010

  /** Whether `revents` reports one of the events in `mask`. */
  predicate Has(revents: bv16, mask: bv16) {
    revents & mask != 0
  }

  /** One `struct pollfd`. */
  datatype PollFd = PollFd(fd: int, events: bv16, revents: bv16)

  /** The number of entries whose descriptor is not the inactive sentinel. */
  function CountActive(s: seq<PollFd>): (n: nat)
    ensures n <= |s|
  {
    if s == [] then 0
    else CountActive(s[..|s| - 1]) + (if s[|s| - 1].fd >= 0 then 1 else 0)
  }

  /** Replacing one entry changes the count by that entry's contribution only. */
  lemma {:induction false} CountActiveUpdate(s: seq<PollFd>, i: nat, x: PollFd)
    requires i < |s|
    ensures CountActive(s[i := x])
            == CountActive(s) - (if s[i].fd >= 0 then 1 else 0) + (if x.fd >= 0 then 1 else 0)
  {
    if i == |s| - 1 {
      assert s[i := x][..|s| - 1] == s[..|s| - 1];
    } else {
      CountActiveUpdate(s[..|s| - 1], i, x);
      assert s[i := x][..|s| - 1] == s[..|s| - 1][i := x];
    }
  }

  /** The count is zero exactly when every entry is inactive. */
  /** With no active entries, every entry is closed. */
  lemma {:induction false} InactiveEntry(s: seq<PollFd>, i: int)
    requires CountActive(s) == 0 && 0 <= i < |s|
    ensures s[i].fd < 0
  {
    CountActiveZero(s);
  }

  lemma {:induction false} CountActiveZero(s: seq<PollFd>)
    ensures CountActive(s) == 0 <==> forall i :: 0 <= i < |s| ==> s[i].fd < 0
  {
    if s != [] {
      CountActiveZero(s[..|s| - 1]);
      assert forall i :: 0 <= i < |s| - 1 ==> s[..|s| - 1][i] == s[i];
    }
  }

  /** What one poll(2) call did. */
  datatype PollAttempt = Interrupted | PollError(errno: int) | Ready(revents: seq<bv16>)

  /** The index of the first poll(2) call that was not interrupted by a signal. */
  function FirstCompleted(attempts: seq<PollAttempt>): (i: nat)
    requires exists j :: 0 <= j < |attempts| && !attempts[j].Interrupted?
    ensures i < |attempts| && !attempts[i].Interrupted?
    ensures forall j :: 0 <= j < i ==> attempts[j].Interrupted?
  {
    if !attempts[0].Interrupted? then 0
    else
      assert forall j :: 0 < j < |attempts| ==> attempts[1..][j - 1] == attempts[j];
      1 + FirstCompleted(attempts[1..])
  }

  /**
   * The entries after poll(2) reported `revents`: an entry with a negative
   * descriptor is ignored by poll(2) and gets no events.
   */
  function Deliver(fds: seq<PollFd>, revents: seq<bv16>): (r: seq<PollFd>)
    requires |revents| == |fds|
    ensures |r| == |fds|
    ensures forall i :: 0 <= i < |r| ==> r[i].fd == fds[i].fd && r[i].events == fds[i].events
    ensures forall i :: 0 <= i < |r| ==> r[i].revents == (if fds[i].fd < 0 then 0 else revents[i])
  {
    seq(|fds|, i requires 0 <= i < |fds| =>
      fds[i].(revents := if fds[i].fd < 0 then 0 else revents[i]))
  }

  /** The value poll(2) returns: the number of entries with some event. */
  function CountReady(fds: seq<PollFd>): (n: nat)
    ensures n <= |fds|
  {
    if fds == [] then 0
    else CountReady(fds[..|fds| - 1]) + (if fds[|fds| - 1].revents != 0 then 1 else 0)
  }

  class MultiplexIO {
    var fds: seq<PollFd>
    var active: int

    /** `m_active` counts exactly the entries with a non-negative descriptor. */
    ghost predicate Valid()
      reads this
    {
      active == CountActive(fds)
    }

    constructor ()
      ensures Valid() && fds == [] && active == 0
    {
      fds := [];
      active := 0;
    }

    /** `add`: append an entry; only a non-negative descriptor is counted. */
    method Add(fd: int, events: bv16) returns (idx: int)
      requires Valid()
      modifies this
      ensures Valid()
      ensures idx == |old(fds)|
      ensures fds == old(fds) + [PollFd(fd, events, 0)]
      ensures active == old(active) + (if fd >= 0 then 1 else 0)
    {
      if fd >= 0 {
        active := active + 1;
      }
      fds := fds + [PollFd(fd, events, 0)];
      assert fds[..|fds| - 1] == old(fds);
      idx := |fds| - 1;
    }

    /** `operator[]`, which uses `vector::at`: out_of_range outside the vector. */
    method At(idx: int) returns (r: Result<PollFd>)
      ensures 0 <= idx < |fds| ==> r == Ok(fds[idx])
      ensures !(0 <= idx < |fds|) ==> r == Err(OutOfRange)
    {
      if 0 <= idx < |fds| {
        return Ok(fds[idx]);
      }
      return Err(OutOfRange);
    }

    /** `deactivate`: the entry gets the sentinel; the count drops only if it was active. */
    method Deactivate(idx: int)
      requires Valid() && 0 <= idx < |fds|
      modifies this
      ensures Valid()
      ensures fds == old(fds)[idx := old(fds)[idx].(fd := CLOSED)]
      ensures active == old(active) - (if old(fds)[idx].fd >= 0 then 1 else 0)
    {
      CountActiveUpdate(fds, idx, fds[idx].(fd := CLOSED));
      if fds[idx].fd >= 0 {
        active := active - 1;
      }
      fds := fds[idx := fds[idx].(fd := CLOSED)];
    }

    /** `active`. */
    method Active() returns (n: int)
      requires Valid()
      ensures n == CountActive(fds)
      ensures n == 0 <==> forall i :: 0 <= i < |fds| ==> fds[i].fd < 0
    {
      CountActiveZero(fds);
      n := active;
    }

    /**
     * `monitor`: call poll(2) again as long as it fails with EINTR; another
     * failure raises, a success records the returned events.
     */
    method Monitor(attempts: seq<PollAttempt>) returns (r: Result<nat>)
      requires Valid()
      requires exists j :: 0 <= j < |attempts| && !attempts[j].Interrupted?
      requires forall j :: 0 <= j < |attempts| && attempts[j].Ready? ==> |attempts[j].revents| == |fds|
      modifies this
      ensures Valid() && active == old(active)
      ensures attempts[FirstCompleted(attempts)].PollError? ==>
        r == Err(KSystemError(PollFailed, attempts[FirstCompleted(attempts)].errno)) && fds == old(fds)
      ensures attempts[FirstCompleted(attempts)].Ready? ==>
        fds == Deliver(old(fds), attempts[FirstCompleted(attempts)].revents) && r == Ok(CountReady(fds))
    {
      var i := 0;
      while attempts[i].Interrupted?
        invariant 0 <= i <= FirstCompleted(attempts)
        decreases FirstCompleted(attempts) - i
      {
        i := i + 1;
      }
      match attempts[i]
      case PollError(errno) =>
        return Err(KSystemError(PollFailed, errno));
      case Ready(revents) =>
        var delivered := Deliver(fds, revents);
        assert forall j :: 0 <= j < |fds| ==> (delivered[j].fd >= 0 <==> fds[j].fd >= 0);
        ActiveUnchangedByEvents(fds, delivered);
        fds := delivered;
        return Ok(CountReady(fds));
    }
  }

  /** Changing only the returned events leaves the active count alone. */
  lemma {:induction false} ActiveUnchangedByEvents(s: seq<PollFd>, t: seq<PollFd>)
    requires |s| == |t|
    requires forall j :: 0 <= j < |s| ==> (s[j].fd >= 0 <==> t[j].fd >= 0)
    ensures CountActive(s) == CountActive(t)
  {
    if s != [] {
      ActiveUnchangedByEvents(s[..|s| - 1], t[..|t| - 1]);
    }
  }

  //--------------------------------------------------------------------------
  // ProcessFilter
  //--------------------------------------------------------------------------

  /** The size of `inbuf` and `outbuf`. */
  const BUFSIZ: nat := 8192

  function Min(a: int, b: int): int {
    if a <= b then a else b
  }

  /**
   * The caller's input stream: its bytes, the read position, and the errno
   * of a device that fails when read from (which sets badbit), if any.
   */
  datatype InStream = InStream(data: seq<bv8>, pos: nat, failure: Option<int>)

  /**
   * `clear()` then `read(inbuf, BUFSIZ)`: the next BUFSIZ bytes, or all that
   * are left, in which case eofbit is set; a failing device is the
   * "cannot get data for stdin pipe" error.
   */
  function ReadBlock(s: InStream): (r: Result<(InStream, seq<bv8>, bool)>)
    requires s.pos <= |s.data|
    ensures r.Err? <==> s.failure.Some?
    ensures r.Err? ==> r.error == KSystemError(CannotReadStdin, s.failure.value)
    ensures r.Ok? ==>
      && r.value.0.data == s.data && r.value.0.failure == s.failure
      && s.pos <= r.value.0.pos <= |s.data|
      && r.value.1 == s.data[s.pos .. r.value.0.pos]
      && |r.value.1| == Min(BUFSIZ, |s.data| - s.pos)
      && (r.value.2 <==> |r.value.1| < BUFSIZ)
  {
    if s.failure.Some? then Err(KSystemError(CannotReadStdin, s.failure.value))
    else
      var n := Min(BUFSIZ, |s.data| - s.pos);
      Ok((s.(pos := s.pos + n), s.data[s.pos .. s.pos + n], n < BUFSIZ))
  }

  /**
   * The parent's side of the child's stdin: the stream, `inbuf` filled up to
   * `inbufend` (`buf`), the cursor `inbufptr` (`ptr`), eofbit after the last
   * refill, and the bytes write(2) has accepted so far (`sent`).
   */
  datatype StdinFeed = StdinFeed(src: InStream, buf: seq<bv8>, ptr: nat, eof: bool, sent: seq<bv8>)

  /**
   * Everything read from the stream since position `start` is either
   * accepted by the child or still waiting in the buffer, in order; eofbit
   * means the stream has been read to its end.
   */
  ghost predicate FeedInv(f: StdinFeed, start: nat) {
    && start <= f.src.pos <= |f.src.data|
    && |f.buf| <= BUFSIZ && f.ptr <= |f.buf|
    && f.sent + f.buf[f.ptr..] == f.src.data[start .. f.src.pos]
    && (f.eof ==> f.src.pos == |f.src.data|)
  }

  /** The cursor lies inside the buffer and the read position inside the stream. */
  predicate FeedWF(f: StdinFeed) {
    f.src.pos <= |f.src.data| && f.ptr <= |f.buf|
  }

  /** What write(2) on the stdin pipe did: bytes accepted, or a failure. */
  datatype WriteCall = Accepted(n: nat) | WriteFailed(errno: int)

  /** The feed after the stdin handler, and whether the handler deactivated stdin. */
  datatype FeedStep = FeedStep(next: StdinFeed, done: bool)

  /**
   * The stdin handler, entered when poll(2) reports POLLOUT: refill the
   * buffer when it is used up, write what is pending (write(2) accepts at
   * most what was offered), and stop feeding once eofbit is set.
   */
  function OnWritable(f: StdinFeed, w: WriteCall): (r: Result<FeedStep>)
    requires f.src.pos <= |f.src.data| && f.ptr <= |f.buf|
    ensures r.Err? <==> (f.ptr >= |f.buf| && f.src.failure.Some?) || w.WriteFailed?
    ensures r.Err? ==>
      r.error.KSystemError? && (r.error.reason == CannotReadStdin || (w.WriteFailed? && r.error == KSystemError(CannotWriteStdin, w.errno)))
    ensures r.Ok? ==> w.Accepted? && |f.sent| <= |r.value.next.sent| <= |f.sent| + w.n && r.value.next.sent[..|f.sent|] == f.sent
    ensures r.Ok? ==> FeedWF(r.value.next) && r.value.done == r.value.next.eof
    ensures r.Ok? && f.ptr < |f.buf| ==>
      var g := r.value.next;
      && g.src == f.src && g.buf == f.buf && g.eof == f.eof
      && g.ptr == f.ptr + Min(w.n, |f.buf| - f.ptr)
      && g.sent == f.sent + f.buf[f.ptr .. g.ptr]
    ensures r.Ok? && f.ptr >= |f.buf| ==>
      var block := ReadBlock(f.src).value;
      var g := r.value.next;
      && g.src == block.0 && g.buf == block.1 && g.eof == block.2
      && g.ptr == Min(w.n, |block.1|)
      && g.sent == f.sent + block.1[..g.ptr]
  {
    match Refill(f)
    case Err(e) => Err(e)
    case Ok(g) => Send(g, w)
  }

  /**
   * The buffer underflow step of the stdin handler: while bytes are pending
   * the feed is unchanged, otherwise the buffer holds the next block of the
   * stream with the cursor at its start.  The stream has moved even when the
   * write(2) that follows fails.
   */
  function Refill(f: StdinFeed): (r: Result<StdinFeed>)
    requires FeedWF(f)
    ensures r.Err? <==> f.ptr >= |f.buf| && f.src.failure.Some?
    ensures r.Err? ==> r.error == ReadBlock(f.src).error
    ensures r.Ok? ==> FeedWF(r.value) && r.value.sent == f.sent
    ensures r.Ok? && f.ptr < |f.buf| ==> r.value == f
    ensures r.Ok? && f.ptr >= |f.buf| ==>
      var block := ReadBlock(f.src).value;
      && r.value.src == block.0 && r.value.buf == block.1 && r.value.eof == block.2 && r.value.ptr == 0
  {
    if f.ptr < |f.buf| then Ok(f)
    else
      match ReadBlock(f.src)
      case Err(e) => Err(e)
      case Ok((src, chunk, eof)) => Ok(StdinFeed(src, chunk, 0, eof, f.sent))
  }

  /**
   * The refill keeps the feed invariant: the block read is appended to what
   * is pending, and the stream only moves forward over it.
   */
  lemma {:induction false} RefillPreserved(f: StdinFeed, start: nat)
    requires FeedInv(f, start)
    ensures Refill(f).Ok? ==>
      var g := Refill(f).value;
      && FeedInv(g, start)
      && g.src.data == f.src.data && g.src.failure == f.src.failure
      && f.src.pos <= g.src.pos && g.sent == f.sent
  {
    if f.ptr >= |f.buf| && Refill(f).Ok? {
      var g := Refill(f).value;
      assert f.sent == f.src.data[start .. f.src.pos];
      assert f.src.data[start .. g.src.pos] == f.src.data[start .. f.src.pos] + g.buf;
    }
  }

  function Send(f: StdinFeed, w: WriteCall): (r: Result<FeedStep>)
    requires f.ptr <= |f.buf|
  {
    match w
    case WriteFailed(errno) => Err(KSystemError(CannotWriteStdin, errno))
    case Accepted(n) =>
      var cnt := Min(n, |f.buf| - f.ptr);
      Ok(FeedStep(f.(ptr := f.ptr + cnt, sent := f.sent + f.buf[f.ptr .. f.ptr + cnt]), f.eof))
  }

  /**
   * The stdin handler keeps the feed invariant: bytes are neither invented,
   * reordered nor duplicated, the stream only moves forward, and stdin is
   * deactivated only once the stream has been read to its end.
   */
  lemma {:induction false} FeedPreserved(f: StdinFeed, w: WriteCall, start: nat)
    requires FeedInv(f, start)
    ensures OnWritable(f, w).Ok? ==>
      var g := OnWritable(f, w).value.next;
      && FeedInv(g, start)
      && g.src.data == f.src.data && g.src.failure == f.src.failure
      && f.src.pos <= g.src.pos
      && f.sent <= g.sent
      && g.eof == OnWritable(f, w).value.done
  {
    RefillPreserved(f, start);
    if Refill(f).Ok? {
      SendPreserved(Refill(f).value, w, start);
    }
  }

  lemma {:induction false} SendPreserved(f: StdinFeed, w: WriteCall, start: nat)
    requires FeedInv(f, start)
    ensures Send(f, w).Ok? ==>
      var g := Send(f, w).value.next;
      FeedInv(g, start) && g.src == f.src && f.sent <= g.sent && g.eof == f.eof == Send(f, w).value.done
  {
    if w.Accepted? {
      var cnt := Min(w.n, |f.buf| - f.ptr);
      var g := Send(f, w).value.next;
      var taken := f.buf[f.ptr .. f.ptr + cnt];
      assert g.sent == f.sent + taken && g.buf[g.ptr..] == f.buf[f.ptr + cnt ..];
      assert f.buf[f.ptr..] == taken + f.buf[f.ptr + cnt ..];
      assert g.sent + g.buf[g.ptr..] == f.sent + f.buf[f.ptr..];
      assert g.sent[..|f.sent|] == f.sent;
    }
  }

  /**
   * Once stdin is deactivated the child has received the whole stream
   * exactly when the last write took everything that was buffered; bytes
   * still buffered at that point are dropped.
   */
  lemma {:induction false} FeedComplete(f: StdinFeed, start: nat)
    requires FeedInv(f, start) && f.eof
    ensures f.sent == f.src.data[start..] <==> f.ptr == |f.buf|
  {
    assert f.src.data[start..] == f.sent + f.buf[f.ptr..];
    if f.sent == f.src.data[start..] {
      assert |f.buf[f.ptr..]| == 0;
    }
  }

  /** What read(2) on an output pipe did: the bytes read (none at end of file), or a failure. */
  datatype ReadCall = Bytes(data: seq<bv8>) | ReadFailed(errno: int)

  /** The bytes the handler passes to the caller's stream, and whether it deactivated the pipe. */
  datatype DrainStep = DrainStep(chunk: seq<bv8>, closed: bool)

  /**
   * The stdout/stderr handler, entered when poll(2) reports POLLIN or
   * POLLHUP: read when there is input, and treat an empty read, or a hangup
   * without input, as the end of the pipe.
   */
  function OnReadable(revents: bv16, rd: ReadCall, reason: Reason): (r: Result<DrainStep>)
    ensures r.Err? <==> Has(revents, POLLIN) && rd.ReadFailed?
    ensures r.Err? ==> r.error == KSystemError(reason, rd.errno)
    ensures r.Ok? ==> (r.value.closed <==> r.value.chunk == [])
    ensures r.Ok? && !Has(revents, POLLIN) ==> r.value.chunk == []
    ensures r.Ok? && Has(revents, POLLIN) ==> r.value.chunk == rd.data
  {
    if Has(revents, POLLIN) then
      match rd
      case ReadFailed(errno) => Err(KSystemError(reason, errno))
      case Bytes(data) => Ok(DrainStep(data, data == []))
    else Ok(DrainStep([], true))
  }

  /** The concatenation of the chunks, in order. */
  function Flatten(chunks: seq<seq<bv8>>): seq<bv8> {
    if chunks == [] then [] else Flatten(chunks[..|chunks| - 1]) + chunks[|chunks| - 1]
  }

  lemma {:induction false} FlattenAppend(chunks: seq<seq<bv8>>, c: seq<bv8>)
    ensures Flatten(chunks + [c]) == Flatten(chunks) + c
  {
    assert (chunks + [c])[..|chunks|] == chunks;
  }

  /** What the child accepted is a prefix of the stream from where feeding started. */
  lemma {:induction false} FedIsPrefix(f: StdinFeed, start: nat)
    requires FeedInv(f, start)
    ensures start + |f.sent| <= f.src.pos
    ensures f.sent == f.src.data[start .. start + |f.sent|]
  {
    var all := f.src.data[start .. f.src.pos];
    assert all[..|f.sent|] == f.sent;
  }

  /**
   * `WEXITSTATUS`: bits 8 to 15 of the status word waitpid(2) stores.
   */
  function ExitStatus(status: int): (code: nat)
    ensures code < 256
  {
    (status % 0x1_0000) / 0x100
  }

  /** A child that called exit(code) yields code. */
  lemma {:induction false} ExitStatusOfExit(code: int)
    requires 0 <= code < 256
    ensures ExitStatus(code * 0x100) == code
  {
  }

  /**
   * Only bits 8 to 15 of the status word matter: a word with exit code
   * `code`, any low byte and any higher bits yields `code`.
   */
  lemma {:induction false} ExitStatusOfWord(code: int, low: int, high: int)
    requires 0 <= code < 256 && 0 <= low < 256
    ensures ExitStatus(high * 0x1_0000 + code * 0x100 + low) == code
  {
    var w := high * 0x1_0000 + code * 0x100 + low;
    DivModUnique(w, 0x1_0000, high, code * 0x100 + low);
    DivModUnique(code * 0x100 + low, 0x100, code, low);
  }

  /** The quotient and remainder of a division are the only ones with a remainder in range. */
  lemma {:induction false} DivModUnique(n: int, m: int, q: int, r: int)
    requires m > 0 && 0 <= r < m && n == q * m + r
    ensures n / m == q && n % m == r
  {
    var d := n / m - q;
    assert d * m == r - n % m;
  }

  /** One round of the transfer loop: poll(2), and what each handler's system call returns if it runs. */
  datatype Round = Round(poll: seq<PollAttempt>, write: WriteCall, outRead: ReadCall, errRead: ReadCall)

  /**
   * What the operating system does while a filter runs: the pipes and the
   * fork of `spawn`, the rounds of the transfer loop, and waitpid(2).
   */
  datatype FilterEnv = FilterEnv(
    pipeFor: int -> PipeCall, forkResult: int, forkErrno: int,
    rounds: seq<Round>,
    reaped: int, status: int, waitErrno: int)

  /** Some poll(2) call of the round is not interrupted by a signal, so `monitor` returns. */
  predicate PollEnds(rd: Round) {
    exists j :: 0 <= j < |rd.poll| && !rd.poll[j].Interrupted?
  }

  /** A round poll(2) can produce for `n` entries; read(2) returns at most BUFSIZ bytes. */
  predicate RoundFits(rd: Round, n: nat) {
    && PollEnds(rd)
    && (forall j :: 0 <= j < |rd.poll| && rd.poll[j].Ready? ==> |rd.poll[j].revents| == n)
    && (rd.outRead.Bytes? ==> |rd.outRead.data| <= BUFSIZ)
    && (rd.errRead.Bytes? ==> |rd.errRead.data| <= BUFSIZ)
  }

  /** Every round of the script fits `n` poll entries. */
  predicate ScriptFits(rounds: seq<Round>, n: nat) {
    forall i :: 0 <= i < |rounds| ==> RoundFits(rounds[i], n)
  }

  /** What read(2) returns in round `rd` on the stdout pipe, or on the stderr pipe. */
  function ReadOf(rd: Round, fromStdout: bool): ReadCall {
    if fromStdout then rd.outRead else rd.errRead
  }

  /**
   * The events `monitor` leaves in poll entry `idx` in round `rd`: those of
   * the first poll(2) call that was not interrupted, and none for an entry
   * that is closed (or when poll(2) failed).
   */
  function Revents(rd: Round, idx: int, open: bool): bv16 {
    if !open || !PollEnds(rd) then 0
    else
      var a := rd.poll[FirstCompleted(rd.poll)];
      if a.Ready? && 0 <= idx < |a.revents| then a.revents[idx] else 0
  }

  /**
   * What the stdout (or stderr) handler makes of round `rd` for the pipe in
   * poll entry `idx`, which is `open` before the round: the bytes passed on
   * and whether the pipe is closed afterwards.  A read error passes nothing
   * on (it ends the loop).
   */
  function DrainRound(rd: Round, idx: int, open: bool, fromStdout: bool): (r: DrainStep)
    ensures r.chunk == [] || ReadOf(rd, fromStdout) == Bytes(r.chunk)
    ensures !open ==> r == DrainStep([], true)
    ensures r.chunk != [] ==> !r.closed
  {
    var revents := Revents(rd, idx, open);
    if !Has(revents, POLLIN | POLLHUP) then DrainStep([], !open)
    else
      match OnReadable(revents, ReadOf(rd, fromStdout), if fromStdout then CannotReadStdout else CannotReadStderr)
      case Err(_) => DrainStep([], !open)
      case Ok(step) => step
  }

  /**
   * The chunks the handler passes on from one output pipe over the first
   * `n` rounds, and whether the pipe is still open after them; the pipe is
   * open before the first round.
   */
  function DrainLog(rounds: seq<Round>, n: nat, idx: int, fromStdout: bool): (r: (seq<seq<bv8>>, bool))
    requires n <= |rounds|
    ensures |r.0| == n
  {
    if n == 0 then ([], true)
    else
      var prev := DrainLog(rounds, n - 1, idx, fromStdout);
      var step := DrainRound(rounds[n - 1], idx, prev.1, fromStdout);
      (prev.0 + [step.chunk], !step.closed)
  }

  /** Each chunk passed on from a pipe is nothing or exactly the bytes read(2) returned in its round. */
  lemma {:induction false} DrainLogReads(rounds: seq<Round>, n: nat, idx: int, fromStdout: bool)
    requires n <= |rounds|
    ensures forall i :: 0 <= i < n ==>
      DrainLog(rounds, n, idx, fromStdout).0[i] == [] || ReadOf(rounds[i], fromStdout) == Bytes(DrainLog(rounds, n, idx, fromStdout).0[i])
  {
    if n > 0 {
      DrainLogReads(rounds, n - 1, idx, fromStdout);
      var prev := DrainLog(rounds, n - 1, idx, fromStdout).0;
      assert forall i :: 0 <= i < n - 1 ==> DrainLog(rounds, n, idx, fromStdout).0[i] == prev[i];
    }
  }

  /** Once a pipe is closed it stays closed, and nothing more is passed on from it. */
  lemma {:induction false} DrainLogStaysClosed(rounds: seq<Round>, m: nat, n: nat, idx: int, fromStdout: bool)
    requires m <= n <= |rounds| && !DrainLog(rounds, m, idx, fromStdout).1
    ensures !DrainLog(rounds, n, idx, fromStdout).1
    ensures forall i :: m <= i < n ==> DrainLog(rounds, n, idx, fromStdout).0[i] == []
    decreases n
  {
    if m < n {
      DrainLogStaysClosed(rounds, m, n - 1, idx, fromStdout);
      var prev := DrainLog(rounds, n - 1, idx, fromStdout).0;
      assert forall i :: m <= i < n - 1 ==> DrainLog(rounds, n, idx, fromStdout).0[i] == prev[i];
    }
  }

  /**
   * What the stdin handler makes of round `rd` for the pipe in poll entry
   * `idx`, which is `open` before the round: the feed afterwards, and
   * whether the pipe is closed.  Without POLLOUT the feed is unchanged; when
   * write(2) raises after a refill, the block stays read from the stream.
   */
  function FeedRound(rd: Round, idx: int, open: bool, f: StdinFeed): (r: FeedStep)
    requires FeedWF(f)
    ensures FeedWF(r.next)
    ensures !open ==> r == FeedStep(f, true)
    ensures open && r.done ==> r.next.eof
    ensures !Has(Revents(rd, idx, open), POLLOUT) ==> r == FeedStep(f, !open)
    ensures open && Has(Revents(rd, idx, open), POLLOUT) ==>
      match OnWritable(f, rd.write)
      case Ok(step) => r == step
      case Err(_) => !r.done && r.next == (if Refill(f).Ok? then Refill(f).value else f)
    ensures open && Has(Revents(rd, idx, open), POLLOUT) && f.ptr >= |f.buf| && f.src.failure.Nothing? ==>
      r.next.src == ReadBlock(f.src).value.0
  {
    if !Has(Revents(rd, idx, open), POLLOUT) then FeedStep(f, !open)
    else
      match Refill(f)
      case Err(_) => FeedStep(f, !open)
      case Ok(g) =>
        match Send(g, rd.write)
        case Err(_) => FeedStep(g, !open)
        case Ok(step) => step
  }

  /** The feed before the first round: nothing buffered, nothing sent. */
  function StartFeed(s0: InStream): StdinFeed {
    StdinFeed(s0, [], 0, false, [])
  }

  /**
   * The stdin feed after the first `n` rounds, starting from stream `s0`,
   * and whether the pipe is still open after them.
   */
  function FeedLog(rounds: seq<Round>, n: nat, idx: int, s0: InStream): (r: (StdinFeed, bool))
    requires n <= |rounds| && s0.pos <= |s0.data|
    ensures FeedWF(r.0)
  {
    if n == 0 then (StartFeed(s0), true)
    else
      var prev := FeedLog(rounds, n - 1, idx, s0);
      var step := FeedRound(rounds[n - 1], idx, prev.1, prev.0);
      (step.next, !step.done)
  }

  /** One more round of the feed is `FeedRound` of the last one. */
  lemma FeedLogNext(rounds: seq<Round>, n: nat, idx: int, s0: InStream)
    requires n < |rounds| && s0.pos <= |s0.data|
    ensures var prev := FeedLog(rounds, n, idx, s0);
      var step := FeedRound(rounds[n], idx, prev.1, prev.0);
      FeedLog(rounds, n + 1, idx, s0) == (step.next, !step.done)
  {
  }

  /**
   * Over any number of rounds the feed keeps the invariant: what the child
   * accepted, followed by what is buffered, is the stream from `s0` on up to
   * the read position; the stream's bytes never change; a closed pipe has
   * read the stream to its end.
   */
  lemma {:induction false} FeedLogInv(rounds: seq<Round>, n: nat, idx: int, s0: InStream)
    requires n <= |rounds| && s0.pos <= |s0.data|
    ensures var g := FeedLog(rounds, n, idx, s0);
      && FeedInv(g.0, s0.pos)
      && g.0.src.data == s0.data && g.0.src.failure == s0.failure
      && (!g.1 ==> g.0.eof)
  {
    if n > 0 {
      FeedLogInv(rounds, n - 1, idx, s0);
      var prev := FeedLog(rounds, n - 1, idx, s0);
      FeedRoundPreserved(rounds[n - 1], idx, prev.1, prev.0, s0.pos);
    }
  }

  /**
   * The first round in which stdin is writable reads the first block of the
   * stream before write(2) is called: the stream has moved past that block
   * whether the write succeeds or raises, and a failed write leaves the
   * pipe open.
   */
  lemma {:induction false} FirstWritableRoundReads(rd: Round, idx: int, s0: InStream)
    requires s0.pos <= |s0.data| && s0.failure.Nothing? && Has(Revents(rd, idx, true), POLLOUT)
    ensures FeedLog([rd], 1, idx, s0).0.src == ReadBlock(s0).value.0
    ensures rd.write.WriteFailed? ==> FeedLog([rd], 1, idx, s0).1
  {
  }

  /**
   * One round of the stdin handler keeps the feed invariant, also when it
   * raises, and the stream only moves forward.
   */
  lemma {:induction false} FeedRoundPreserved(rd: Round, idx: int, open: bool, f: StdinFeed, start: nat)
    requires FeedInv(f, start)
    ensures var g := FeedRound(rd, idx, open, f).next;
      && FeedInv(g, start)
      && g.src.data == f.src.data && g.src.failure == f.src.failure
      && f.src.pos <= g.src.pos && f.sent <= g.sent
  {
    FeedPreserved(f, rd.write, start);
    RefillPreserved(f, start);
  }

  /**
   * The chunks passed on from one output pipe, round by round: each is what
   * the handler made of its round (`complete`), except that when an
   * exception cut the last round short its chunk may be missing.
   */
  predicate Logged(log: seq<seq<bv8>>, rounds: seq<Round>, idx: int, fromStdout: bool, complete: bool) {
    && |log| <= |rounds|
    && if complete then log == DrainLog(rounds, |log|, idx, fromStdout).0
       else
         && |log| > 0
         && var prev := DrainLog(rounds, |log| - 1, idx, fromStdout);
            && log[..|log| - 1] == prev.0
            && (log[|log| - 1] == [] || log[|log| - 1] == DrainRound(rounds[|log| - 1], idx, prev.1, fromStdout).chunk)
  }

  /** The chunk a round adds to a log that matches the earlier rounds. */
  predicate NextChunk(c: seq<bv8>, log: seq<seq<bv8>>, rounds: seq<Round>, idx: int, fromStdout: bool, complete: bool)
    requires |log| < |rounds|
  {
    c == DrainRound(rounds[|log|], idx, DrainLog(rounds, |log|, idx, fromStdout).1, fromStdout).chunk
    || (!complete && c == [])
  }

  /**
   * How `execute` ends: the child's exit code, an exception, the return in
   * the forked child, or (when the rounds run out while a pipe is still
   * open) the parent still waiting in poll(2).
   */
  datatype FilterResult = Exited(code: nat) | Raised(error: Error) | InChild | Blocked

  /**
   * The stdin handler of the transfer loop in round `rd`, acting on the pipe
   * and poll bookkeeping.  When the entry's events are those `monitor`
   * delivered for a pipe that was `open`, the handler does what `FeedRound`
   * says.
   */
  method HandleStdin(p: SubProcess, io: MultiplexIO, idx: int, f: StdinFeed, rd: Round, ghost open: bool, ghost start: nat)
    returns (failure: Option<Error>, next: StdinFeed)
    requires io.Valid() && 0 <= idx < |io.fds| && FeedInv(f, start)
    modifies p, io
    ensures io.Valid() && |io.fds| == |old(io.fds)| && p.pid == old(p.pid)
    ensures forall j :: 0 <= j < |io.fds| && j != idx ==> io.fds[j] == old(io.fds[j])
    ensures !Has(old(io.fds[idx]).revents, POLLOUT) ==> failure.Nothing? && next == f && io.fds == old(io.fds)
    ensures Has(old(io.fds[idx]).revents, POLLOUT) ==>
      && (failure.Some? <==> OnWritable(f, rd.write).Err?)
      && (failure.Some? ==> failure.value == OnWritable(f, rd.write).error)
      && (failure.Some? ==> next == if Refill(f).Ok? then Refill(f).value else f)
      && (failure.Nothing? ==> next == OnWritable(f, rd.write).value.next)
    ensures FeedInv(next, start)
    ensures next.src.data == f.src.data && next.src.failure == f.src.failure && f.sent <= next.sent
    ensures failure.Some? ==> io.fds == old(io.fds) && p.pipes == old(p.pipes)
    ensures io.fds[idx].fd < 0 ==> next.eof || old(io.fds[idx].fd) < 0
    ensures Has(old(io.fds[idx]).revents, POLLOUT) && failure.Nothing? ==>
      var done := OnWritable(f, rd.write).value.done;
      && io.fds[idx] == (if done then old(io.fds[idx]).(fd := CLOSED) else old(io.fds[idx]))
      && p.pipes == (if done then old(p.pipes) - {STDIN_FILENO} else old(p.pipes))
    ensures !Has(old(io.fds[idx]).revents, POLLOUT) ==> p.pipes == old(p.pipes)
    ensures old(io.fds[idx]).revents == Revents(rd, idx, open) && (old(io.fds[idx].fd) >= 0 <==> open) ==>
      var s := FeedRound(rd, idx, open, f);
      next == s.next && (io.fds[idx].fd >= 0 <==> !s.done)
  {
    if !Has(io.fds[idx].revents, POLLOUT) {
      return Nothing, f;
    }
    RefillPreserved(f, start);
    var refilled := Refill(f);
    if refilled.Err? {
      return Some(refilled.error), f;
    }
    SendPreserved(refilled.value, rd.write, start);
    var step := Send(refilled.value, rd.write);
    if step.Err? {
      return Some(step.error), refilled.value;
    }
    if step.value.done {
      p.SetPipeDirection(STDIN_FILENO, None);
      io.Deactivate(idx);
    }
    return Nothing, step.value.next;
  }

  /**
   * The stdout (`fromStdout`) or stderr handler of the transfer loop in
   * round `rd` (`fd` is the descriptor): the bytes to pass to the caller's
   * stream.  When the entry's events are those `monitor` delivered for a
   * pipe that was `open`, the handler does what `DrainRound` says.
   */
  method HandleOutput(p: SubProcess, io: MultiplexIO, idx: int, fd: int, rd: Round, fromStdout: bool, ghost open: bool)
    returns (r: Result<seq<bv8>>)
    requires io.Valid() && 0 <= idx < |io.fds|
    modifies p, io
    ensures io.Valid() && |io.fds| == |old(io.fds)| && p.pid == old(p.pid)
    ensures forall j :: 0 <= j < |io.fds| && j != idx ==> io.fds[j] == old(io.fds[j])
    ensures !Has(old(io.fds[idx]).revents, POLLIN | POLLHUP) ==> r == Ok([]) && io.fds == old(io.fds)
    ensures Has(old(io.fds[idx]).revents, POLLIN | POLLHUP) ==>
      var step := OnReadable(old(io.fds[idx]).revents, ReadOf(rd, fromStdout),
                             if fromStdout then CannotReadStdout else CannotReadStderr);
      && (r.Err? <==> step.Err?)
      && (r.Err? ==> r.error == step.error)
      && (r.Ok? ==> r.value == step.value.chunk)
      && (r.Ok? ==> io.fds[idx].fd == if step.value.closed then CLOSED else old(io.fds[idx].fd))
    ensures r.Ok? ==> r.value == [] || ReadOf(rd, fromStdout) == Bytes(r.value)
    ensures old(io.fds[idx]).revents == Revents(rd, idx, open) && (old(io.fds[idx]).fd >= 0 <==> open) ==>
      var d := DrainRound(rd, idx, open, fromStdout);
      && (r.Ok? ==> r.value == d.chunk && (io.fds[idx].fd >= 0 <==> !d.closed))
      && (r.Err? ==> d.chunk == [])
  {
    var revents := io.fds[idx].revents;
    if !Has(revents, POLLIN | POLLHUP) {
      return Ok([]);
    }
    var step := OnReadable(revents, ReadOf(rd, fromStdout), if fromStdout then CannotReadStdout else CannotReadStderr);
    if step.Err? {
      return Err(step.error);
    }
    if step.value.closed {
      p.SetPipeDirection(fd, None);
      io.Deactivate(idx);
    }
    return Ok(step.value.chunk);
  }

  /**
   * The input stream only moved forward over the same bytes, and what the
   * child accepted is the input from the old position on, in order.
   */
  ghost predicate InputAdvanced(s0: InStream, s1: InStream, fed: seq<bv8>) {
    && s1.data == s0.data && s1.failure == s0.failure
    && s0.pos + |fed| <= s1.pos <= |s1.data|
    && fed == s1.data[s0.pos .. s0.pos + |fed|]
  }

  /**
   * How the caller's streams after filtering relate to those before: the
   * same streams are set; the input is advanced by what the child accepted
   * (`fed`); each output stream grew by exactly its logged chunks, and the
   * chunks are what the handler of its poll entry (`idxOut`, `idxErr`) made
   * of each round (see `Logged`).
   */
  ghost predicate Advanced(
    in0: Option<InStream>, out0: Option<seq<bv8>>, err0: Option<seq<bv8>>,
    in1: Option<InStream>, out1: Option<seq<bv8>>, err1: Option<seq<bv8>>,
    fed: seq<bv8>, outLog: seq<seq<bv8>>, errLog: seq<seq<bv8>>, rounds: seq<Round>,
    idxIn: int, idxOut: int, idxErr: int, complete: bool)
  {
    && |outLog| == |errLog|
    && FedBy(in0, in1, fed, rounds, |outLog|, idxIn)
    && Drained(out0, out1, outLog, rounds, idxOut, true, complete)
    && Drained(err0, err1, errLog, rounds, idxErr, false, complete)
  }

  /**
   * The input stream `i0` became `i1` over the first `n` rounds: it moved
   * forward over what the child accepted (`fed`), as the feed log of its
   * poll entry `idx` says.
   */
  ghost predicate FedBy(i0: Option<InStream>, i1: Option<InStream>, fed: seq<bv8>, rounds: seq<Round>, n: nat, idx: int) {
    && i1.Some? == i0.Some?
    && (i1.Nothing? ==> fed == [])
    && (i1.Some? ==>
          && InputAdvanced(i0.value, i1.value, fed)
          && n <= |rounds|
          && var g := FeedLog(rounds, n, idx, i0.value).0;
             fed == g.sent && i1.value == g.src)
  }

  /**
   * The output stream `o0` became `o1` by exactly the chunks of `log`, which
   * are what the handler of poll entry `idx` made of each round.
   */
  ghost predicate Drained(o0: Option<seq<bv8>>, o1: Option<seq<bv8>>, log: seq<seq<bv8>>, rounds: seq<Round>,
                          idx: int, fromStdout: bool, complete: bool) {
    && o1.Some? == o0.Some?
    && |log| <= |rounds|
    && (o1.Some? ==> o1.value == o0.value + Flatten(log) && Logged(log, rounds, idx, fromStdout, complete))
    && (o1.Nothing? ==> Flatten(log) == [])
  }

  /** One more round that appended `oc` and `ec` keeps the streams advanced. */
  lemma {:induction false} AdvanceRound(
    in0: Option<InStream>, out0: Option<seq<bv8>>, err0: Option<seq<bv8>>,
    inA: Option<InStream>, outA: Option<seq<bv8>>, errA: Option<seq<bv8>>,
    in1: Option<InStream>, out1: Option<seq<bv8>>, err1: Option<seq<bv8>>,
    fedA: seq<bv8>, fed: seq<bv8>, outLog: seq<seq<bv8>>, errLog: seq<seq<bv8>>,
    oc: seq<bv8>, ec: seq<bv8>, rounds: seq<Round>, idxIn: int, idxOut: int, idxErr: int, complete: bool)
    requires Advanced(in0, out0, err0, inA, outA, errA, fedA, outLog, errLog, rounds, idxIn, idxOut, idxErr, true)
    requires |outLog| < |rounds|
    requires in1.Some? == in0.Some? && (in1.Nothing? ==> fed == [])
    requires in1.Some? ==>
      var prev := FeedLog(rounds, |outLog|, idxIn, in0.value);
      var g := FeedRound(rounds[|outLog|], idxIn, prev.1, prev.0).next;
      fed == g.sent && in1.value == g.src
    requires out1.Some? == outA.Some? && (out1.Some? ==> out1.value == outA.value + oc) && (out1.Nothing? ==> oc == [])
    requires err1.Some? == errA.Some? && (err1.Some? ==> err1.value == errA.value + ec) && (err1.Nothing? ==> ec == [])
    requires out1.Some? ==> NextChunk(oc, outLog, rounds, idxOut, true, complete)
    requires err1.Some? ==> NextChunk(ec, errLog, rounds, idxErr, false, complete)
    ensures Advanced(in0, out0, err0, in1, out1, err1, fed, outLog + [oc], errLog + [ec], rounds, idxIn, idxOut, idxErr, complete)
  {
    if in1.Some? {
      FeedAdvanced(in0.value, in1.value, fed, rounds, |outLog|, idxIn);
    }
    DrainedAppend(out0, outA, out1, outLog, oc, rounds, idxOut, true, complete);
    DrainedAppend(err0, errA, err1, errLog, ec, rounds, idxErr, false, complete);
  }

  /** One more round's chunk `c` keeps an output stream drained by its log. */
  lemma {:induction false} DrainedAppend(o0: Option<seq<bv8>>, oA: Option<seq<bv8>>, o1: Option<seq<bv8>>,
                                         log: seq<seq<bv8>>, c: seq<bv8>, rounds: seq<Round>,
                                         idx: int, fromStdout: bool, complete: bool)
    requires Drained(o0, oA, log, rounds, idx, fromStdout, true) && |log| < |rounds|
    requires o1.Some? == oA.Some? && (o1.Some? ==> o1.value == oA.value + c) && (o1.Nothing? ==> c == [])
    requires o1.Some? ==> NextChunk(c, log, rounds, idx, fromStdout, complete)
    ensures Drained(o0, o1, log + [c], rounds, idx, fromStdout, complete)
  {
    FlattenAppend(log, c);
    if o1.Some? {
      assert o1.value == o0.value + (Flatten(log) + c);
      LoggedAppend(log, c, rounds, idx, fromStdout, complete);
    }
  }

  /**
   * The input after one more round of the feed log is advanced by what the
   * child accepted so far.
   */
  lemma {:induction false} FeedAdvanced(s0: InStream, s1: InStream, fed: seq<bv8>, rounds: seq<Round>, n: nat, idx: int)
    requires n < |rounds| && s0.pos <= |s0.data|
    requires var prev := FeedLog(rounds, n, idx, s0);
      var g := FeedRound(rounds[n], idx, prev.1, prev.0).next;
      fed == g.sent && s1 == g.src
    ensures InputAdvanced(s0, s1, fed)
    ensures var g := FeedLog(rounds, n + 1, idx, s0).0;
      fed == g.sent && s1 == g.src
  {
    FeedLogNext(rounds, n, idx, s0);
    FeedLogInv(rounds, n + 1, idx, s0);
    FedIsPrefix(FeedLog(rounds, n + 1, idx, s0).0, s0.pos);
  }

  /** A log that matches the rounds so far, with the next round's chunk, matches one more round. */
  lemma {:induction false} LoggedAppend(log: seq<seq<bv8>>, c: seq<bv8>, rounds: seq<Round>, idx: int, fromStdout: bool, complete: bool)
    requires Logged(log, rounds, idx, fromStdout, true) && |log| < |rounds|
    requires NextChunk(c, log, rounds, idx, fromStdout, complete)
    ensures Logged(log + [c], rounds, idx, fromStdout, complete)
  {
    assert (log + [c])[..|log|] == log;
  }

  /** The poll entry of stdout: after the one of stdin, if stdin is set. */
  function PollIndexOut(withIn: bool): nat {
    if withIn then 1 else 0
  }

  /** The poll entry of stderr: after those of stdin and stdout, for the ones that are set. */
  function PollIndexErr(withIn: bool, withOut: bool): nat {
    (if withIn then 1 else 0) + (if withOut then 1 else 0)
  }

  /**
   * The start of the transfer loop in `execute`: one poll entry per
   * connected stream, in the order stdin, stdout, stderr, watching the
   * parent's end of its pipe.
   */
  method Connect(p: SubProcess, withIn: bool, withOut: bool, withErr: bool)
    returns (io: MultiplexIO, idxIn: int, idxOut: int, idxErr: int)
    requires withIn ==> STDIN_FILENO in p.pipes && p.pipes[STDIN_FILENO].parentfd >= 0
    requires withOut ==> STDOUT_FILENO in p.pipes && p.pipes[STDOUT_FILENO].parentfd >= 0
    requires withErr ==> STDERR_FILENO in p.pipes && p.pipes[STDERR_FILENO].parentfd >= 0
    ensures fresh(io) && io.Valid()
    ensures |io.fds| == (if withIn then 1 else 0) + (if withOut then 1 else 0) + (if withErr then 1 else 0)
    ensures withIn ==> idxIn == 0 && io.fds[idxIn] == PollFd(p.pipes[STDIN_FILENO].parentfd, POLLOUT, 0)
    ensures withOut ==>
      && idxOut == PollIndexOut(withIn)
      && io.fds[idxOut] == PollFd(p.pipes[STDOUT_FILENO].parentfd, POLLIN, 0)
    ensures withErr ==>
      && idxErr == PollIndexErr(withIn, withOut) == |io.fds| - 1
      && io.fds[idxErr] == PollFd(p.pipes[STDERR_FILENO].parentfd, POLLIN, 0)
  {
    io := new MultiplexIO();
    idxIn, idxOut, idxErr := -1, -1, -1;
    if withIn {
      var fd := p.GetPipeFD(STDIN_FILENO);
      idxIn := io.Add(fd.value, POLLOUT);
    }
    if withOut {
      var fd := p.GetPipeFD(STDOUT_FILENO);
      idxOut := io.Add(fd.value, POLLIN);
    }
    if withErr {
      var fd := p.GetPipeFD(STDERR_FILENO);
      idxErr := io.Add(fd.value, POLLIN);
    }
  }

  /**
   * One round of the transfer loop: poll(2), then the stdin, stdout and
   * stderr handlers in that order, each only for a stream that is set
   * (`withIn`, `withOut`, `withErr`).  The feed and the chunks passed on are
   * returned even when a handler raises (`failure`), since whatever happened
   * before the exception has already reached the caller's streams.
   */
  method Pump(p: SubProcess, io: MultiplexIO, withIn: bool, withOut: bool, withErr: bool,
              idxIn: int, idxOut: int, idxErr: int, rd: Round, feed: StdinFeed, ghost start: nat)
    returns (failure: Option<Error>, next: StdinFeed, outChunk: seq<bv8>, errChunk: seq<bv8>)
    requires io.Valid()
    requires withIn ==> 0 <= idxIn < |io.fds|
    requires withOut ==> 0 <= idxOut < |io.fds|
    requires withErr ==> 0 <= idxErr < |io.fds|
    requires withIn && withOut ==> idxOut != idxIn
    requires withIn && withErr ==> idxErr != idxIn
    requires withOut && withErr ==> idxOut != idxErr
    requires RoundFits(rd, |io.fds|)
    requires FeedInv(feed, start)
    requires withIn && io.fds[idxIn].fd < 0 ==> feed.eof
    modifies p, io
    ensures io.Valid() && |io.fds| == |old(io.fds)| && p.pid == old(p.pid)
    ensures FeedInv(next, start)
    ensures next.src.data == feed.src.data && next.src.failure == feed.src.failure
    ensures !withIn ==> next == feed
    ensures withIn && io.fds[idxIn].fd < 0 ==> next.eof
    ensures withIn ==>
      var s := FeedRound(rd, idxIn, old(io.fds[idxIn].fd) >= 0, feed);
      next == s.next && (io.fds[idxIn].fd >= 0 <==> !s.done)
    ensures !withOut ==> outChunk == []
    ensures !withErr ==> errChunk == []
    ensures withOut ==>
      var d := DrainRound(rd, idxOut, old(io.fds[idxOut].fd) >= 0, true);
      && (outChunk == d.chunk || (failure.Some? && outChunk == []))
      && (failure.Nothing? ==> (io.fds[idxOut].fd >= 0 <==> !d.closed))
    ensures withErr ==>
      var d := DrainRound(rd, idxErr, old(io.fds[idxErr].fd) >= 0, false);
      && (errChunk == d.chunk || (failure.Some? && errChunk == []))
      && (failure.Nothing? ==> (io.fds[idxErr].fd >= 0 <==> !d.closed))
  {
    ghost var fds0 := io.fds;
    var polled := io.Monitor(rd.poll);
    if polled.Err? {
      return Some(polled.error), feed, [], [];
    }
    failure, next, outChunk, errChunk :=
      HandleRound(p, io, withIn, withOut, withErr, idxIn, idxOut, idxErr, rd, feed,
                  withIn && fds0[idxIn].fd >= 0, withOut && fds0[idxOut].fd >= 0, withErr && fds0[idxErr].fd >= 0, start);
  }

  /**
   * The handlers of one round once `monitor` delivered the events: stdin,
   * then stdout and stderr, each only for a stream that is set.  `openIn`,
   * `openOut` and `openErr` say whether each pipe was open when the round
   * began.
   */
  method HandleRound(p: SubProcess, io: MultiplexIO, withIn: bool, withOut: bool, withErr: bool,
                     idxIn: int, idxOut: int, idxErr: int, rd: Round, feed: StdinFeed,
                     ghost openIn: bool, ghost openOut: bool, ghost openErr: bool, ghost start: nat)
    returns (failure: Option<Error>, next: StdinFeed, outChunk: seq<bv8>, errChunk: seq<bv8>)
    requires io.Valid()
    requires withIn ==> 0 <= idxIn < |io.fds| && io.fds[idxIn].revents == Revents(rd, idxIn, openIn)
                        && (io.fds[idxIn].fd >= 0 <==> openIn)
    requires withOut ==> 0 <= idxOut < |io.fds| && io.fds[idxOut].revents == Revents(rd, idxOut, openOut)
                         && (io.fds[idxOut].fd >= 0 <==> openOut)
    requires withErr ==> 0 <= idxErr < |io.fds| && io.fds[idxErr].revents == Revents(rd, idxErr, openErr)
                         && (io.fds[idxErr].fd >= 0 <==> openErr)
    requires withIn && withOut ==> idxOut != idxIn
    requires withIn && withErr ==> idxErr != idxIn
    requires withOut && withErr ==> idxOut != idxErr
    requires FeedInv(feed, start)
    requires withIn && !openIn ==> feed.eof
    modifies p, io
    ensures io.Valid() && |io.fds| == |old(io.fds)| && p.pid == old(p.pid)
    ensures FeedInv(next, start)
    ensures next.src.data == feed.src.data && next.src.failure == feed.src.failure
    ensures !withIn ==> next == feed
    ensures withIn && io.fds[idxIn].fd < 0 ==> next.eof
    ensures withIn ==>
      var s := FeedRound(rd, idxIn, openIn, feed);
      next == s.next && (io.fds[idxIn].fd >= 0 <==> !s.done)
    ensures !withOut ==> outChunk == []
    ensures !withErr ==> errChunk == []
    ensures withOut ==>
      var d := DrainRound(rd, idxOut, openOut, true);
      && (outChunk == d.chunk || (failure.Some? && outChunk == []))
      && (failure.Nothing? ==> (io.fds[idxOut].fd >= 0 <==> !d.closed))
    ensures withErr ==>
      var d := DrainRound(rd, idxErr, openErr, false);
      && (errChunk == d.chunk || (failure.Some? && errChunk == []))
      && (failure.Nothing? ==> (io.fds[idxErr].fd >= 0 <==> !d.closed))
  {
    next, outChunk, errChunk := feed, [], [];
    failure := Nothing;
    if withIn {
      failure, next := HandleStdin(p, io, idxIn, feed, rd, openIn, start);
    }
    if failure.Nothing? {
      failure, outChunk, errChunk := HandleOutputs(p, io, withOut, withErr, idxOut, idxErr, rd, openOut, openErr);
    }
  }

  /**
   * The stdout and stderr handlers of one round, in that order, for the
   * streams that are set; `openOut` and `openErr` say whether each pipe was
   * open when the round began, and its entry holds the events `monitor`
   * delivered.  An exception in the stderr handler comes after the stdout
   * chunk was passed on.
   */
  method HandleOutputs(p: SubProcess, io: MultiplexIO, withOut: bool, withErr: bool, idxOut: int, idxErr: int,
                       rd: Round, ghost openOut: bool, ghost openErr: bool)
    returns (failure: Option<Error>, outChunk: seq<bv8>, errChunk: seq<bv8>)
    requires io.Valid()
    requires withOut ==> 0 <= idxOut < |io.fds| && io.fds[idxOut].revents == Revents(rd, idxOut, openOut)
                         && (io.fds[idxOut].fd >= 0 <==> openOut)
    requires withErr ==> 0 <= idxErr < |io.fds| && io.fds[idxErr].revents == Revents(rd, idxErr, openErr)
                         && (io.fds[idxErr].fd >= 0 <==> openErr)
    requires withOut && withErr ==> idxOut != idxErr
    modifies p, io
    ensures io.Valid() && |io.fds| == |old(io.fds)| && p.pid == old(p.pid)
    ensures forall j :: 0 <= j < |io.fds| && (withOut ==> j != idxOut) && (withErr ==> j != idxErr) ==>
      io.fds[j] == old(io.fds[j])
    ensures !withOut ==> outChunk == []
    ensures !withErr ==> errChunk == []
    ensures withOut ==>
      var d := DrainRound(rd, idxOut, openOut, true);
      && (outChunk == d.chunk || (failure.Some? && outChunk == []))
      && (failure.Nothing? ==> (io.fds[idxOut].fd >= 0 <==> !d.closed))
    ensures withErr ==>
      var d := DrainRound(rd, idxErr, openErr, false);
      && (errChunk == d.chunk || (failure.Some? && errChunk == []))
      && (failure.Nothing? ==> (io.fds[idxErr].fd >= 0 <==> !d.closed))
  {
    failure, outChunk, errChunk := Nothing, [], [];
    if withOut {
      var drained := HandleOutput(p, io, idxOut, STDOUT_FILENO, rd, true, openOut);
      if drained.Err? {
        failure := Some(drained.error);
      } else {
        outChunk := drained.value;
      }
    }
    if failure.Nothing? && withErr {
      var drained := HandleOutput(p, io, idxErr, STDERR_FILENO, rd, false, openErr);
      if drained.Err? {
        failure := Some(drained.error);
      } else {
        errChunk := drained.value;
      }
    }
  }

  /**
   * One iteration of the transfer loop on the parent's view of the
   * caller's streams (`sIn`, `sOut`, `sErr`): `Pump`, then the streams
   * take what it produced.
   */
  method Step(p: SubProcess, io: MultiplexIO, idxIn: int, idxOut: int, idxErr: int,
              rounds: seq<Round>, round: nat,
              sIn: Option<InStream>, sOut: Option<seq<bv8>>, sErr: Option<seq<bv8>>, feed: StdinFeed,
              ghost in0: Option<InStream>, ghost out0: Option<seq<bv8>>, ghost err0: Option<seq<bv8>>,
              ghost start: nat, ghost outLog: seq<seq<bv8>>, ghost errLog: seq<seq<bv8>>)
    returns (failure: Option<Error>, sIn': Option<InStream>, sOut': Option<seq<bv8>>, sErr': Option<seq<bv8>>,
             feed': StdinFeed, ghost outLog': seq<seq<bv8>>, ghost errLog': seq<seq<bv8>>)
    requires io.Valid()
    requires sIn.Some? == in0.Some? && (in0.Some? ==> in0.value.pos <= |in0.value.data|)
    requires sIn.Some? ==> 0 <= idxIn < |io.fds|
    requires sOut.Some? ==> 0 <= idxOut < |io.fds|
    requires sErr.Some? ==> 0 <= idxErr < |io.fds|
    requires sIn.Some? && sOut.Some? ==> idxOut != idxIn
    requires sIn.Some? && sErr.Some? ==> idxErr != idxIn
    requires sOut.Some? && sErr.Some? ==> idxOut != idxErr
    requires round < |rounds| && RoundFits(rounds[round], |io.fds|)
    requires |outLog| == round
    requires Advanced(in0, out0, err0, sIn, sOut, sErr, feed.sent, outLog, errLog, rounds, idxIn, idxOut, idxErr, true)
    requires sOut.Some? ==> (io.fds[idxOut].fd >= 0 <==> DrainLog(rounds, round, idxOut, true).1)
    requires sErr.Some? ==> (io.fds[idxErr].fd >= 0 <==> DrainLog(rounds, round, idxErr, false).1)
    requires FeedInv(feed, start)
    requires sIn.Some? ==>
      && sIn == Some(feed.src) && feed.src.data == in0.value.data
      && feed.src.failure == in0.value.failure && start == in0.value.pos
    requires sIn.Some? ==>
      var g := FeedLog(rounds, round, idxIn, in0.value);
      feed == g.0 && (io.fds[idxIn].fd >= 0 <==> g.1)
    modifies p, io
    ensures io.Valid() && |io.fds| == |old(io.fds)| && p.pid == old(p.pid)
    ensures |outLog'| == round + 1
    ensures Advanced(in0, out0, err0, sIn', sOut', sErr', feed'.sent, outLog', errLog', rounds, idxIn, idxOut, idxErr, failure.Nothing?)
    ensures failure.Nothing? && sOut'.Some? ==> (io.fds[idxOut].fd >= 0 <==> DrainLog(rounds, round + 1, idxOut, true).1)
    ensures failure.Nothing? && sErr'.Some? ==> (io.fds[idxErr].fd >= 0 <==> DrainLog(rounds, round + 1, idxErr, false).1)
    ensures FeedInv(feed', start)
    ensures sIn'.Some? ==>
      && sIn' == Some(feed'.src) && feed'.src.data == in0.value.data
      && feed'.src.failure == in0.value.failure && start == in0.value.pos
    ensures sIn'.Some? && io.fds[idxIn].fd < 0 ==> feed'.eof
    ensures sIn'.Some? ==>
      var g := FeedLog(rounds, round + 1, idxIn, in0.value);
      feed' == g.0 && (io.fds[idxIn].fd >= 0 <==> g.1)
  {
    if sIn.Some? {
      FeedLogInv(rounds, round, idxIn, in0.value);
    }
    var outChunk, errChunk;
    failure, feed', outChunk, errChunk :=
      Pump(p, io, sIn.Some?, sOut.Some?, sErr.Some?, idxIn, idxOut, idxErr, rounds[round], feed, start);
    if sIn.Some? {
      FeedLogNext(rounds, round, idxIn, in0.value);
    }
    sIn' := if sIn.Some? then Some(feed'.src) else sIn;
    sOut' := if sOut.Some? then Some(sOut.value + outChunk) else sOut;
    sErr' := if sErr.Some? then Some(sErr.value + errChunk) else sErr;
    AdvanceRound(in0, out0, err0, sIn, sOut, sErr, sIn', sOut', sErr', feed.sent, feed'.sent, outLog, errLog,
                 outChunk, errChunk, rounds, idxIn, idxOut, idxErr, failure.Nothing?);
    outLog', errLog' := outLog + [outChunk], errLog + [errChunk];
  }

  /**
   * The start of `execute`: a pipe towards the child for stdin and from it
   * for stdout and stderr, for each stream that is set, then `spawn`.
   */
  method Launch(withIn: bool, withOut: bool, withErr: bool, env: FilterEnv)
    returns (p: SubProcess, r: Result<Side>)
    ensures fresh(p)
    ensures r.Ok? && r.value == ChildSide ==> env.forkResult == 0
    ensures r.Ok? && r.value == ParentSide ==>
      && p.pid == env.forkResult && env.forkResult > 0
      && (withIn ==> STDIN_FILENO in p.pipes && p.pipes[STDIN_FILENO].parentfd >= 0)
      && (withOut ==> STDOUT_FILENO in p.pipes && p.pipes[STDOUT_FILENO].parentfd >= 0)
      && (withErr ==> STDERR_FILENO in p.pipes && p.pipes[STDERR_FILENO].parentfd >= 0)
    ensures r.Ok? && r.value == ParentSide ==>
      p.pipes.Keys == (if withIn then {STDIN_FILENO} else {}) + (if withOut then {STDOUT_FILENO} else {})
                      + (if withErr then {STDERR_FILENO} else {})
  {
    p := new SubProcess();
    if withIn {
      p.SetPipeDirection(STDIN_FILENO, ParentToChild);
    }
    if withOut {
      p.SetPipeDirection(STDOUT_FILENO, ChildToParent);
    }
    if withErr {
      p.SetPipeDirection(STDERR_FILENO, ChildToParent);
    }
    assert forall k :: k in p.pipes ==> p.pipes[k].dir != None;
    assert p.pipes.Keys == (if withIn then {STDIN_FILENO} else {}) + (if withOut then {STDOUT_FILENO} else {})
                           + (if withErr then {STDERR_FILENO} else {});
    r := p.Spawn(env.pipeFor, env.forkResult, env.forkErrno);
  }

  /**
   * The rounds of the transfer loop on the caller's streams `in0`, `out0`,
   * `err0`: `Step` while no exception was raised, a descriptor is active and
   * rounds remain.  When the loop ends with every descriptor inactive, the
   * input was read to its end and each output pipe was read until it closed.
   */
  method RunRounds(p: SubProcess, io: MultiplexIO, idxIn: int, idxOut: int, idxErr: int, rounds: seq<Round>,
                   in0: Option<InStream>, out0: Option<seq<bv8>>, err0: Option<seq<bv8>>)
    returns (failure: Option<Error>, sIn: Option<InStream>, sOut: Option<seq<bv8>>, sErr: Option<seq<bv8>>,
             ghost fed: seq<bv8>, ghost outLog: seq<seq<bv8>>, ghost errLog: seq<seq<bv8>>)
    requires io.Valid() && |io.fds| == PollIndexErr(in0.Some?, out0.Some?) + (if err0.Some? then 1 else 0)
    requires in0.Some? ==> idxIn == 0 && io.fds[idxIn].fd >= 0 && in0.value.pos <= |in0.value.data|
    requires out0.Some? ==> idxOut == PollIndexOut(in0.Some?) && io.fds[idxOut].fd >= 0
    requires err0.Some? ==> idxErr == PollIndexErr(in0.Some?, out0.Some?) && io.fds[idxErr].fd >= 0
    requires ScriptFits(rounds, |io.fds|)
    modifies p, io
    ensures io.Valid() && p.pid == old(p.pid)
    ensures Advanced(in0, out0, err0, sIn, sOut, sErr, fed, outLog, errLog, rounds, idxIn, idxOut, idxErr, failure.Nothing?)
    ensures failure.Nothing? && io.active == 0 ==>
      && (sIn.Some? ==> sIn.value.pos == |sIn.value.data| && !FeedLog(rounds, |outLog|, idxIn, in0.value).1)
      && (sOut.Some? ==> !DrainLog(rounds, |outLog|, idxOut, true).1)
      && (sErr.Some? ==> !DrainLog(rounds, |errLog|, idxErr, false).1)
    ensures failure.Nothing? && io.active > 0 ==> |outLog| == |rounds|
  {
    sIn, sOut, sErr := in0, out0, err0;
    ghost var n := |io.fds|;
    ghost var start := if sIn.Some? then sIn.value.pos else 0;
    var feed := StdinFeed(if sIn.Some? then sIn.value else InStream([], 0, Nothing), [], 0, false, []);
    fed, outLog, errLog := [], [], [];
    AdvancedByNothing(in0, out0, err0, rounds, idxIn, idxOut, idxErr);
    var round := 0;
    failure := Nothing;
    while failure.Nothing? && io.active > 0 && round < |rounds|
      invariant io.Valid() && |io.fds| == n && p.pid == old(p.pid)
      invariant 0 <= round <= |rounds| && |outLog| == round
      invariant Advanced(in0, out0, err0, sIn, sOut, sErr, fed, outLog, errLog, rounds, idxIn, idxOut, idxErr, failure.Nothing?)
      invariant failure.Nothing? && sOut.Some? ==> (io.fds[idxOut].fd >= 0 <==> DrainLog(rounds, round, idxOut, true).1)
      invariant failure.Nothing? && sErr.Some? ==> (io.fds[idxErr].fd >= 0 <==> DrainLog(rounds, round, idxErr, false).1)
      invariant FeedInv(feed, start) && fed == feed.sent
      invariant sIn.Some? ==>
        && sIn == Some(feed.src) && feed.src.data == in0.value.data
        && feed.src.failure == in0.value.failure && start == in0.value.pos
      invariant sIn.Some? ==>
        var g := FeedLog(rounds, round, idxIn, in0.value);
        feed == g.0 && (io.fds[idxIn].fd >= 0 <==> g.1)
      decreases |rounds| - round
    {
      failure, sIn, sOut, sErr, feed, outLog, errLog :=
        Step(p, io, idxIn, idxOut, idxErr, rounds, round, sIn, sOut, sErr, feed,
             in0, out0, err0, start, outLog, errLog);
      fed := feed.sent;
      round := round + 1;
    }
    if failure.Nothing? && io.active == 0 {
      if sIn.Some? {
        InactiveEntry(io.fds, idxIn);
        FeedLogInv(rounds, round, idxIn, in0.value);
      }
      if sOut.Some? {
        InactiveEntry(io.fds, idxOut);
      }
      if sErr.Some? {
        InactiveEntry(io.fds, idxErr);
      }
    }
  }

  /** Nothing transferred: the streams are advanced by nothing. */
  lemma {:induction false} AdvancedByNothing(in0: Option<InStream>, out0: Option<seq<bv8>>, err0: Option<seq<bv8>>,
                                             rounds: seq<Round>, idxIn: int, idxOut: int, idxErr: int)
    requires in0.Some? ==> in0.value.pos <= |in0.value.data|
    ensures Advanced(in0, out0, err0, in0, out0, err0, [], [], [], rounds, idxIn, idxOut, idxErr, true)
  {
  }

  class ProcessFilter {
    var stdin: Option<InStream>
    var stdout: Option<seq<bv8>>
    var stderr: Option<seq<bv8>>

    constructor ()
      ensures stdin == Nothing && stdout == Nothing && stderr == Nothing
    {
      stdin := Nothing;
      stdout := Nothing;
      stderr := Nothing;
    }

    method SetStdin(s: Option<InStream>)
      modifies this`stdin
      ensures stdin == s
    {
      stdin := s;
    }

    method SetStdout(s: Option<seq<bv8>>)
      modifies this`stdout
      ensures stdout == s
    {
      stdout := s;
    }

    method SetStderr(s: Option<seq<bv8>>)
      modifies this`stderr
      ensures stderr == s
    {
      stderr := s;
    }

    /** The number of streams connected to the child. */
    function StreamCount(): nat
      reads this
    {
      (if stdin.Some? then 1 else 0) + (if stdout.Some? then 1 else 0) + (if stderr.Some? then 1 else 0)
    }

    /**
     * The transfer loop of `execute`, from the `MultiplexIO` set up after
     * the fork up to the point where every pipe is closed (`Ok(true)`) or
     * the rounds ran out with a pipe still open (`Ok(false)`).  `fed` is
     * what the child accepted on stdin, `outLog`/`errLog` what each round
     * passed on from its stdout/stderr; an exception may cut the last round
     * short.
     */
    method Transfer(p: SubProcess, io: MultiplexIO, idxIn: int, idxOut: int, idxErr: int, rounds: seq<Round>)
      returns (r: Result<bool>, ghost fed: seq<bv8>, ghost outLog: seq<seq<bv8>>, ghost errLog: seq<seq<bv8>>)
      requires io.Valid() && |io.fds| == StreamCount()
      requires stdin.Some? ==> idxIn == 0 && io.fds[idxIn].fd >= 0 && stdin.value.pos <= |stdin.value.data|
      requires stdout.Some? ==> idxOut == PollIndexOut(stdin.Some?) && io.fds[idxOut].fd >= 0
      requires stderr.Some? ==> idxErr == PollIndexErr(stdin.Some?, stdout.Some?) && io.fds[idxErr].fd >= 0
      requires ScriptFits(rounds, StreamCount())
      modifies this, p, io
      ensures p.pid == old(p.pid)
      ensures Advanced(old(stdin), old(stdout), old(stderr), stdin, stdout, stderr, fed, outLog, errLog, rounds,
                       idxIn, idxOut, idxErr, r.Ok?)
      ensures r == Ok(true) ==> io.Valid() && io.active == 0
      ensures r == Ok(true) && stdin.Some? ==>
        stdin.value.pos == |stdin.value.data| && !FeedLog(rounds, |outLog|, idxIn, old(stdin).value).1
      ensures r == Ok(true) && stdout.Some? ==> !DrainLog(rounds, |outLog|, idxOut, true).1
      ensures r == Ok(true) && stderr.Some? ==> !DrainLog(rounds, |errLog|, idxErr, false).1
      ensures r == Ok(false) ==> |outLog| == |rounds|
    {
      var failure, sIn, sOut, sErr;
      failure, sIn, sOut, sErr, fed, outLog, errLog := RunRounds(p, io, idxIn, idxOut, idxErr, rounds, stdin, stdout, stderr);
      stdin, stdout, stderr := sIn, sOut, sErr;
      if failure.Some? {
        r := Err(failure.value);
      } else if io.active > 0 {
        r := Ok(false);
      } else {
        r := Ok(true);
      }
    }

    /**
     * `execute`: run the child with a pipe for every stream that is set,
     * move bytes until every pipe is closed, then wait for the child and
     * return its exit code.
     */
    method Execute(name: string, args: seq<string>, env: FilterEnv)
      returns (r: FilterResult, ghost fed: seq<bv8>, ghost outLog: seq<seq<bv8>>, ghost errLog: seq<seq<bv8>>,
               ghost complete: bool)
      requires stdin.Some? ==> stdin.value.pos <= |stdin.value.data|
      requires ScriptFits(env.rounds, StreamCount())
      modifies this
      ensures Advanced(old(stdin), old(stdout), old(stderr), stdin, stdout, stderr, fed, outLog, errLog, env.rounds,
                       0, PollIndexOut(old(stdin).Some?), PollIndexErr(old(stdin).Some?, old(stdout).Some?), complete)
      ensures !complete ==> r.Raised?
      ensures r.Exited? && stdout.Some? ==> !DrainLog(env.rounds, |outLog|, PollIndexOut(old(stdin).Some?), true).1
      ensures r.Exited? && stderr.Some? ==>
        !DrainLog(env.rounds, |errLog|, PollIndexErr(old(stdin).Some?, old(stdout).Some?), false).1
      ensures r.InChild? ==> env.forkResult == 0
      ensures r.Exited? ==> env.forkResult > 0 && env.reaped == env.forkResult && r.code == ExitStatus(env.status)
      ensures r.Exited? && stdin.Some? ==>
        stdin.value.pos == |stdin.value.data| && !FeedLog(env.rounds, |outLog|, 0, old(stdin).value).1
      ensures r.Blocked? ==> |outLog| == |env.rounds|
    {
      fed, outLog, errLog, complete := [], [], [], true;
      ghost var idxOut0, idxErr0 := PollIndexOut(stdin.Some?), PollIndexErr(stdin.Some?, stdout.Some?);
      AdvancedByNothing(stdin, stdout, stderr, env.rounds, 0, idxOut0, idxErr0);
      var p, spawned := Launch(stdin.Some?, stdout.Some?, stderr.Some?, env);
      if spawned.Err? {
        r := Raised(spawned.error);
      } else if spawned.value == ChildSide {
        r := InChild;
      } else {
        var io, idxIn, idxOut, idxErr := Connect(p, stdin.Some?, stdout.Some?, stderr.Some?);
        var finished;
        finished, fed, outLog, errLog := Transfer(p, io, idxIn, idxOut, idxErr, env.rounds);
        complete := finished.Ok?;
        if finished.Err? {
          r := Raised(finished.error);
        } else if !finished.value {
          r := Blocked;
        } else {
          var waited := p.Wait(env.reaped, env.status, env.waitErrno);
          r := if waited.Err? then Raised(waited.error) else Exited(ExitStatus(waited.value));
        }
      }
    }
  }
}
