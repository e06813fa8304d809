/**
 * The supervisor of the PHP-FPM worker process: it starts the worker (after
 * killing a stale one whose socket file is still there), waits until the
 * worker's socket appears, and stops it when the runtime shuts down.
 *
 * The operating system is an object whose fields are the files and the
 * process the supervisor touches, and whose answers to `posix_getpgid`,
 * `posix_kill`, `isRunning` and the socket check are fixed in advance. The
 * state-changing methods are proved against pure step functions on a
 * snapshot of that object, and the properties are lemmas about those.
 */
module FastCgi {
  import opened PhpStrings

  const DefaultConfigPath := "/opt/placeholder/etc/php-fpm.d/php-fpm.conf"
  const PidPath := "/tmp/.placeholder/php-fpm.pid"
  const SocketPath := "/tmp/.placeholder/php-fpm.sock"
  /** `dirname` of the socket path. */
  const SocketDirectory := "/tmp/.placeholder"

  const SIGTERM := 15
  /** Microseconds slept between two evaluations of a wait condition. */
  const PollInterval := 5000
  const StartTimeout := 5000000
  const StopTimeout := 1000000

  const FailedToStartMessage := "PHP-FPM process failed to start"
  const StartTimeoutMessage := "Timeout while waiting for PHP-FPM process to start"
  const StopTimeoutMessage := "Timeout while waiting for PHP-FPM process to stop"

  // ---------------------------------------------------------------------------
  // The command line
  // ---------------------------------------------------------------------------

  /** The worker's command line for a configuration file. */
  function FpmCommand(configPath: string): (r: seq<string>)
    ensures |r| == 5 && r[0] == "php-fpm"
    ensures r[1] == "--nodaemonize" && r[2] == "--force-stderr"
    ensures r[3] == "--fpm-config" && r[4] == configPath
  {
    ["php-fpm", "--nodaemonize", "--force-stderr", "--fpm-config", configPath]
  }

  /** The configuration file a worker command line names, if it is one. */
  function ConfigPathOf(command: seq<string>): Option<string>
  {
    if |command| == 5 && command[..4] == FpmCommand("")[..4] then Some(command[4]) else None
  }

  datatype Option<T> = None | Some(value: T)

  /** The command line gives back the configuration file it was built from. */
  lemma ConfigPathRoundTrip(configPath: string)
    ensures ConfigPathOf(FpmCommand(configPath)) == Some(configPath)
  {
    assert FpmCommand(configPath)[..4] == FpmCommand("")[..4];
  }

  /** Different configuration files give different command lines. */
  lemma FpmCommandInjective(a: string, b: string)
    requires FpmCommand(a) == FpmCommand(b)
    ensures a == b
  {
    assert FpmCommand(a)[4] == FpmCommand(b)[4];
  }

  // ---------------------------------------------------------------------------
  // wait: poll a condition every 5 ms until it is false or time runs out
  // ---------------------------------------------------------------------------

  /** One evaluation of a wait condition: still true, false, or it threw. */
  datatype Probe = Pending | Finished | Raised(message: string)

  /** How a wait ends, and how many times it slept. */
  datatype WaitResult =
    | Completed(sleeps: nat)
    | CallbackFailed(message: string, sleeps: nat)
    | TimedOut(message: string, sleeps: nat)

  /**
   * The sleeps after which `elapsed > timeout`: the wait throws after that
   * many sleeps at the latest, having evaluated the condition that many times.
   */
  function MaxSleeps(timeout: int): (n: nat)
    ensures n >= 1
    ensures PollInterval * n > timeout
  {
    if timeout < 0 then 1 else timeout / PollInterval + 1
  }

  /** The waits of the supervisor: 1001 evaluations for a start, 201 for a stop. */
  lemma TimeoutBounds()
    ensures MaxSleeps(StartTimeout) == 1001
    ensures MaxSleeps(StopTimeout) == 201
  {
  }

  /** Without a timeout after `k + 1` sleeps there is room for one more evaluation. */
  lemma RoomForAnotherPoll(timeout: int, k: nat)
    requires PollInterval * (k + 1) <= timeout
    ensures k + 1 < MaxSleeps(timeout)
  {
  }

  /** A timeout after `k + 1` sleeps happens exactly at the bound. */
  lemma TimeoutAtBound(timeout: int, k: nat)
    requires k < MaxSleeps(timeout)
    requires PollInterval * (k + 1) > timeout
    ensures k + 1 == MaxSleeps(timeout)
  {
  }

  /**
   * The wait from the evaluation that follows `k` sleeps on: a false
   * condition returns, an exception propagates, and a true one sleeps and
   * throws `message` once the time slept exceeds the timeout.
   */
  function WaitFrom(probe: nat -> Probe, message: string, timeout: int, k: nat): WaitResult
    requires k < MaxSleeps(timeout)
    decreases MaxSleeps(timeout) - k
  {
    match probe(k)
    case Finished => Completed(k)
    case Raised(m) => CallbackFailed(m, k)
    case Pending =>
      if PollInterval * (k + 1) > timeout then TimedOut(message, k + 1)
      else
        RoomForAnotherPoll(timeout, k);
        WaitFrom(probe, message, timeout, k + 1)
  }

  /** The index of the last evaluation of the condition. */
  function LastPoll(r: WaitResult): nat
  {
    match r
    case Completed(s) => s
    case CallbackFailed(_, s) => s
    case TimedOut(_, s) => if s == 0 then 0 else s - 1
  }

  /** What a wait from `k` on did: every evaluation before the last was true, and the last decides. */
  lemma {:induction false} WaitFromFacts(probe: nat -> Probe, message: string, timeout: int, k: nat)
    requires k < MaxSleeps(timeout)
    ensures var r := WaitFrom(probe, message, timeout, k);
      && k <= r.sleeps <= MaxSleeps(timeout)
      && (forall j: nat :: k <= j < LastPoll(r) ==> probe(j) == Pending)
      && (r.Completed? ==> probe(r.sleeps) == Finished && r.sleeps < MaxSleeps(timeout))
      && (r.CallbackFailed? ==> probe(r.sleeps) == Raised(r.message) && r.sleeps < MaxSleeps(timeout))
      && (r.TimedOut? ==>
            && r.message == message
            && r.sleeps == MaxSleeps(timeout)
            && LastPoll(r) == r.sleeps - 1
            && probe(LastPoll(r)) == Pending)
    decreases MaxSleeps(timeout) - k
  {
    if probe(k) == Pending {
      if PollInterval * (k + 1) > timeout {
        TimeoutAtBound(timeout, k);
      } else {
        RoomForAnotherPoll(timeout, k);
        WaitFromFacts(probe, message, timeout, k + 1);
      }
    }
  }

  /** Conversely, the first evaluation from `k` on that is not true ends the wait there. */
  lemma {:induction false} WaitFromStopsAt(probe: nat -> Probe, message: string, timeout: int, k: nat, s: nat)
    requires k <= s < MaxSleeps(timeout)
    requires probe(s) != Pending
    requires forall j: nat :: k <= j < s ==> probe(j) == Pending
    ensures WaitFrom(probe, message, timeout, k).sleeps == s
    ensures WaitFrom(probe, message, timeout, k) == if probe(s) == Finished then Completed(s) else CallbackFailed(probe(s).message, s)
    decreases s - k
  {
    if k < s {
      assert probe(k) == Pending;
      assert PollInterval * (k + 1) <= timeout by {
        assert k + 1 < MaxSleeps(timeout);
      }
      WaitFromStopsAt(probe, message, timeout, k + 1, s);
    }
  }

  /** A condition true at every evaluation the bound allows times out after the last one. */
  lemma {:induction false} WaitFromTimesOut(probe: nat -> Probe, message: string, timeout: int, k: nat)
    requires k < MaxSleeps(timeout)
    requires forall j: nat :: k <= j < MaxSleeps(timeout) ==> probe(j) == Pending
    ensures WaitFrom(probe, message, timeout, k) == TimedOut(message, MaxSleeps(timeout))
    decreases MaxSleeps(timeout) - k
  {
    if PollInterval * (k + 1) > timeout {
      TimeoutAtBound(timeout, k);
    } else {
      RoomForAnotherPoll(timeout, k);
      WaitFromTimesOut(probe, message, timeout, k + 1);
    }
  }

  /** A wait returns normally exactly when some evaluation within the bound is false and every one before it true. */
  lemma WaitCompletesIff(probe: nat -> Probe, message: string, timeout: int)
    ensures WaitFrom(probe, message, timeout, 0).Completed?
      <==> exists s: nat :: s < MaxSleeps(timeout) && probe(s) == Finished && forall j: nat :: j < s ==> probe(j) == Pending
  {
    var r := WaitFrom(probe, message, timeout, 0);
    WaitFromFacts(probe, message, timeout, 0);
    if exists s: nat :: s < MaxSleeps(timeout) && probe(s) == Finished && forall j: nat :: j < s ==> probe(j) == Pending {
      var s: nat :| s < MaxSleeps(timeout) && probe(s) == Finished && forall j: nat :: j < s ==> probe(j) == Pending;
      WaitFromStopsAt(probe, message, timeout, 0, s);
    }
  }

  /** For a condition that cannot throw: the wait returns exactly when it is false at some evaluation within the bound. */
  lemma WaitWithoutExceptionsCompletesIff(probe: nat -> Probe, message: string, timeout: int)
    requires forall k: nat :: !probe(k).Raised?
    ensures WaitFrom(probe, message, timeout, 0).Completed?
      <==> exists s: nat :: s < MaxSleeps(timeout) && probe(s) == Finished
  {
    var r := WaitFrom(probe, message, timeout, 0);
    WaitFromFacts(probe, message, timeout, 0);
    if exists s: nat :: s < MaxSleeps(timeout) && probe(s) == Finished {
      var s: nat :| s < MaxSleeps(timeout) && probe(s) == Finished;
      assert !r.CallbackFailed? by {
        assert !probe(r.sleeps).Raised?;
      }
    }
  }

  /** A condition false at its first evaluation returns at once, without sleeping. */
  lemma WaitReturnsAtOnce(probe: nat -> Probe, message: string, timeout: int)
    requires probe(0) == Finished
    ensures WaitFrom(probe, message, timeout, 0) == Completed(0)
  {
  }

  // ---------------------------------------------------------------------------
  // The operating system
  // ---------------------------------------------------------------------------

  /** What the supervisor did to the system, in order. */
  datatype Effect =
    | Unlinked(path: string)
    | MadeDirectory(path: string)
    | Spawned(command: seq<string>)
    | Signalled(pid: int, signal: int)
    | StoppedProcess

  /** The effects of killing a stale worker. */
  predicate IsKillEffect(e: Effect)
  {
    e.Unlinked? || e.Signalled?
  }

  /** The files and the process the supervisor looks at, and what it did so far. */
  datatype OsState = OsState(
    socketExists: bool,
    pidFileExists: bool,
    pidFileContents: string,
    socketDirectoryExists: bool,
    processRunning: bool,
    effects: seq<Effect>)

  /**
   * How the system answers: `posix_getpgid($pid) !== false` before the
   * signal, the result of `posix_kill`, `posix_getpgid` at each evaluation of
   * the stop wait, and `isRunning()` and the socket check at each evaluation
   * of the start wait.
   */
  datatype Answers = Answers(
    processGroupExists: int -> bool,
    killSucceeds: int -> bool,
    processGroupAtPoll: nat -> bool,
    runningAtPoll: nat -> bool,
    socketAtPoll: nat -> bool)

  /** The socket lives in its directory: a file in the socket directory implies the directory. */
  predicate WellFormed(s: OsState)
  {
    s.socketExists ==> s.socketDirectoryExists
  }

  /** The outcome of an operation: a normal return, or the message of the exception it threw. */
  datatype Outcome = Ok | Failed(message: string)

  /** A new system state with the outcome that led to it. */
  datatype Step = Step(state: OsState, outcome: Outcome)

  // ---------------------------------------------------------------------------
  // The step functions
  // ---------------------------------------------------------------------------

  /** `removeProcessFiles`: the socket and the PID file are unlinked, in that order. */
  function RemoveFiles(s: OsState): OsState
  {
    s.(socketExists := false, pidFileExists := false,
       effects := s.effects + [Unlinked(SocketPath), Unlinked(PidPath)])
  }

  /** The stop wait's condition: the process group can still be found. */
  function StopProbe(groupFoundAtPoll: nat -> bool): nat -> Probe
  {
    (k: nat) => if groupFoundAtPoll(k) then Pending else Finished
  }

  /** The start wait's condition: throws if the process is not running, else waits while the socket is missing. */
  function StartProbe(runningAtPoll: nat -> bool, socketAtPoll: nat -> bool): nat -> Probe
  {
    (k: nat) => if !runningAtPoll(k) then Raised(FailedToStartMessage)
                else if socketAtPoll(k) then Finished
                else Pending
  }

  /** The outcome of a wait. */
  function WaitOutcome(r: WaitResult): Outcome
  {
    match r
    case Completed(_) => Ok
    case CallbackFailed(m, _) => Failed(m)
    case TimedOut(m, _) => Failed(m)
  }

  /** The branch `killExistingProcess` takes. */
  datatype KillBranch =
    | NoPidFile
    | NotSignalled(pid: int)
    | SignalRefused(pid: int)
    | SignalDelivered(pid: int)

  /** The branch for the PID file's state: the PID is the `(int)` cast of its contents. */
  function KillBranchOf(s: OsState, a: Answers): KillBranch
  {
    if !s.pidFileExists then NoPidFile
    else
      var pid := IntCast(s.pidFileContents);
      if 0 <= pid || !a.processGroupExists(pid) then NotSignalled(pid)
      else if !a.killSucceeds(pid) then SignalRefused(pid)
      else SignalDelivered(pid)
  }

  /** The stop wait, after a signal was accepted. */
  function StopWait(a: Answers): WaitResult
  {
    WaitFrom(StopProbe(a.processGroupAtPoll), StopTimeoutMessage, StopTimeout, 0)
  }

  /** The start wait, after the spawn. */
  function StartWait(a: Answers): WaitResult
  {
    WaitFrom(StartProbe(a.runningAtPoll, a.socketAtPoll), StartTimeoutMessage, StartTimeout, 0)
  }

  /** What `killExistingProcess` does in `branch`, when its stop wait ends as `w`. */
  function KillIn(s: OsState, branch: KillBranch, w: WaitResult): Step
  {
    match branch
    case NoPidFile =>
      Step(s.(socketExists := false, effects := s.effects + [Unlinked(SocketPath)]), Ok)
    case NotSignalled(_) =>
      Step(RemoveFiles(s), Ok)
    case SignalRefused(pid) =>
      Step(RemoveFiles(s.(effects := s.effects + [Signalled(pid, SIGTERM)])), Ok)
    case SignalDelivered(pid) =>
      var signalled := s.(effects := s.effects + [Signalled(pid, SIGTERM)]);
      if w.Completed? then Step(RemoveFiles(signalled), Ok) else Step(signalled, WaitOutcome(w))
  }

  /** `killExistingProcess`. */
  function KillStep(s: OsState, a: Answers): Step
  {
    KillIn(s, KillBranchOf(s, a), StopWait(a))
  }

  /** `start` after the spawn, when its wait ends as `w`: the process and the socket as the last poll saw them. */
  function LaunchWith(s: OsState, a: Answers, command: seq<string>, w: WaitResult): Step
  {
    var withDirectory :=
      if s.socketDirectoryExists then s
      else s.(socketDirectoryExists := true, effects := s.effects + [MadeDirectory(SocketDirectory)]);
    var spawned := withDirectory.(effects := withDirectory.effects + [Spawned(command)]);
    var last := LastPoll(w);
    Step(spawned.(processRunning := a.runningAtPoll(last), socketExists := a.socketAtPoll(last)), WaitOutcome(w))
  }

  /** `start` once no stale worker is in the way: make the socket directory, spawn, and wait for the socket. */
  function LaunchStep(s: OsState, a: Answers, command: seq<string>): Step
  {
    LaunchWith(s, a, command, StartWait(a))
  }

  /** `start`: a socket left from an earlier worker means that worker is killed first. */
  function StartStep(s: OsState, a: Answers, command: seq<string>): Step
  {
    if s.socketExists then
      var k := KillStep(s, a);
      if k.outcome.Ok? then LaunchStep(k.state, a, command) else k
    else LaunchStep(s, a, command)
  }

  /** `stop`: a running process is stopped; otherwise nothing happens. */
  function StopStep(s: OsState): OsState
  {
    if s.processRunning then s.(processRunning := false, effects := s.effects + [StoppedProcess]) else s
  }

  // ---------------------------------------------------------------------------
  // What the waits of the supervisor promise
  // ---------------------------------------------------------------------------

  /** The stop wait's condition never throws, so it fails only by timing out, with its own message. */
  lemma StopWaitOutcome(a: Answers)
    ensures !StopWait(a).CallbackFailed?
    ensures StopWait(a).TimedOut? ==> StopWait(a).message == StopTimeoutMessage
  {
    WaitFromFacts(StopProbe(a.processGroupAtPoll), StopTimeoutMessage, StopTimeout, 0);
  }

  /** The stop wait fails exactly when the process group is still found at each of its 201 evaluations. */
  lemma StopWaitFailsIff(a: Answers)
    ensures !StopWait(a).Completed? <==> forall k: nat :: k < MaxSleeps(StopTimeout) ==> a.processGroupAtPoll(k)
  {
    var probe := StopProbe(a.processGroupAtPoll);
    var w := StopWait(a);
    WaitFromFacts(probe, StopTimeoutMessage, StopTimeout, 0);
    if forall k: nat :: k < MaxSleeps(StopTimeout) ==> a.processGroupAtPoll(k) {
      assert forall j: nat :: 0 <= j < MaxSleeps(StopTimeout) ==> probe(j) == Pending;
      WaitFromTimesOut(probe, StopTimeoutMessage, StopTimeout, 0);
    }
    if !w.Completed? {
      assert !w.CallbackFailed? by {
        assert !probe(w.sleeps).Raised?;
      }
      forall k: nat | k < MaxSleeps(StopTimeout) ensures a.processGroupAtPoll(k) {
        if k < LastPoll(w) {
          assert probe(k) == Pending;
        } else {
          assert probe(LastPoll(w)) == Pending;
        }
      }
    }
  }

  /** How `start`'s condition evaluates at each poll. */
  lemma StartProbeValues(running: nat -> bool, socket: nat -> bool, k: nat)
    ensures StartProbe(running, socket)(k) == Finished <==> running(k) && socket(k)
    ensures StartProbe(running, socket)(k) == Pending <==> running(k) && !socket(k)
    ensures StartProbe(running, socket)(k).Raised? <==> !running(k)
    ensures StartProbe(running, socket)(k).Raised? ==> StartProbe(running, socket)(k).message == FailedToStartMessage
  {
  }

  /**
   * The start wait returns only when the last poll saw the process running
   * with its socket; it throws the start failure only when the last poll saw
   * the process gone, and its timeout only when the process ran without a
   * socket at every poll.
   */
  lemma StartWaitOutcome(a: Answers)
    ensures var w := StartWait(a);
      && (w.Completed? ==> a.runningAtPoll(LastPoll(w)) && a.socketAtPoll(LastPoll(w)))
      && (w.CallbackFailed? ==> w.message == FailedToStartMessage && !a.runningAtPoll(LastPoll(w)))
      && (w.TimedOut? ==> w.message == StartTimeoutMessage && a.runningAtPoll(LastPoll(w)) && !a.socketAtPoll(LastPoll(w)))
  {
    var probe := StartProbe(a.runningAtPoll, a.socketAtPoll);
    var w := StartWait(a);
    WaitFromFacts(probe, StartTimeoutMessage, StartTimeout, 0);
    StartProbeValues(a.runningAtPoll, a.socketAtPoll, LastPoll(w));
  }

  /**
   * The start wait returns exactly when, at some poll within the 1001
   * allowed, the socket is there with the process running, and at every
   * earlier poll the process was running without its socket.
   */
  lemma StartWaitSucceedsIff(a: Answers)
    ensures StartWait(a).Completed?
      <==> exists k: nat :: (k < MaxSleeps(StartTimeout) && a.runningAtPoll(k) && a.socketAtPoll(k)
             && forall j: nat :: j < k ==> a.runningAtPoll(j) && !a.socketAtPoll(j))
  {
    var probe := StartProbe(a.runningAtPoll, a.socketAtPoll);
    WaitCompletesIff(probe, StartTimeoutMessage, StartTimeout);
    if StartWait(a).Completed? {
      var k: nat :| k < MaxSleeps(StartTimeout) && probe(k) == Finished && forall j: nat :: j < k ==> probe(j) == Pending;
      StartProbeValues(a.runningAtPoll, a.socketAtPoll, k);
      forall j: nat | j < k ensures a.runningAtPoll(j) && !a.socketAtPoll(j) {
        StartProbeValues(a.runningAtPoll, a.socketAtPoll, j);
      }
    }
    if exists k: nat :: (k < MaxSleeps(StartTimeout) && a.runningAtPoll(k) && a.socketAtPoll(k)
             && forall j: nat :: j < k ==> a.runningAtPoll(j) && !a.socketAtPoll(j)) {
      var k: nat :| k < MaxSleeps(StartTimeout) && a.runningAtPoll(k) && a.socketAtPoll(k)
             && forall j: nat :: j < k ==> a.runningAtPoll(j) && !a.socketAtPoll(j);
      StartProbeValues(a.runningAtPoll, a.socketAtPoll, k);
      forall j: nat | j < k ensures probe(j) == Pending {
        StartProbeValues(a.runningAtPoll, a.socketAtPoll, j);
      }
    }
  }

  // ---------------------------------------------------------------------------
  // What `killExistingProcess` promises
  // ---------------------------------------------------------------------------

  /**
   * The effects `killExistingProcess` appends, branch by branch: the socket's
   * unlink alone when there is no PID file; both unlinks when no signal is
   * sent; the signal and both unlinks when it is refused or the process group
   * goes away in time; the signal alone when the stop wait fails.
   */
  function KillLog(branch: KillBranch, w: WaitResult): seq<Effect>
  {
    match branch
    case NoPidFile => [Unlinked(SocketPath)]
    case NotSignalled(_) => [Unlinked(SocketPath), Unlinked(PidPath)]
    case SignalRefused(pid) => [Signalled(pid, SIGTERM), Unlinked(SocketPath), Unlinked(PidPath)]
    case SignalDelivered(pid) =>
      if w.Completed? then [Signalled(pid, SIGTERM), Unlinked(SocketPath), Unlinked(PidPath)]
      else [Signalled(pid, SIGTERM)]
  }

  /** In every branch the kill changes only the two files, and appends exactly its log. */
  lemma KillInFrame(s: OsState, branch: KillBranch, w: WaitResult)
    ensures var t := KillIn(s, branch, w).state;
      t == s.(socketExists := t.socketExists, pidFileExists := t.pidFileExists, effects := s.effects + KillLog(branch, w))
  {
  }

  /**
   * In every branch the kill returns normally with both files gone (the PID
   * file was already missing when there was none), or throws what the
   * failed stop wait threw, with the files left in place.
   */
  lemma KillInOutcome(s: OsState, branch: KillBranch, w: WaitResult)
    ensures var k := KillIn(s, branch, w);
      && (k.outcome.Ok? ==> !k.state.socketExists && (k.state.pidFileExists ==> branch.NoPidFile? && s.pidFileExists))
      && (k.outcome.Failed? ==>
            && branch.SignalDelivered? && !w.Completed? && k.outcome == WaitOutcome(w)
            && k.state.socketExists == s.socketExists
            && k.state.pidFileExists == s.pidFileExists)
  {
  }

  /** The kill's log: only unlinks and signals, and at most one signal, first. */
  lemma KillLogShape(branch: KillBranch, w: WaitResult)
    ensures forall e :: e in KillLog(branch, w) ==> IsKillEffect(e)
    ensures forall i :: 0 < i < |KillLog(branch, w)| ==> KillLog(branch, w)[i].Unlinked?
    ensures KillLog(branch, w)[0].Signalled? ==>
      (branch.SignalRefused? || branch.SignalDelivered?) && KillLog(branch, w)[0] == Signalled(branch.pid, SIGTERM)
  {
  }

  /** `killExistingProcess` changes only the two files, and appends exactly its log. */
  lemma KillFrame(s: OsState, a: Answers)
    ensures var t := KillStep(s, a).state;
      t == s.(socketExists := t.socketExists, pidFileExists := t.pidFileExists,
              effects := s.effects + KillLog(KillBranchOf(s, a), StopWait(a)))
  {
    KillInFrame(s, KillBranchOf(s, a), StopWait(a));
  }

  /**
   * `killExistingProcess` returns normally with both files gone, or throws the
   * stop timeout with the files left in place.
   */
  lemma KillOutcome(s: OsState, a: Answers)
    ensures var k := KillStep(s, a);
      && (k.outcome.Ok? ==> !k.state.socketExists && !k.state.pidFileExists)
      && (k.outcome.Failed? ==>
            && k.outcome == Failed(StopTimeoutMessage)
            && k.state.socketExists == s.socketExists
            && k.state.pidFileExists == s.pidFileExists)
  {
    KillInOutcome(s, KillBranchOf(s, a), StopWait(a));
    StopWaitOutcome(a);
  }

  /**
   * `killExistingProcess` throws exactly when it signalled the process and
   * the process group was still there at each of the 201 evaluations.
   */
  lemma KillTimesOutIff(s: OsState, a: Answers)
    ensures KillStep(s, a).outcome.Failed?
      <==> (KillBranchOf(s, a).SignalDelivered? && forall k: nat :: k < MaxSleeps(StopTimeout) ==> a.processGroupAtPoll(k))
  {
    KillInOutcome(s, KillBranchOf(s, a), StopWait(a));
    StopWaitFailsIff(a);
  }

  /** The two signalling branches: the file holds a negative PID whose process group is found. */
  lemma SignallingBranch(s: OsState, a: Answers)
    ensures var b := KillBranchOf(s, a);
      (b.SignalRefused? || b.SignalDelivered?) ==>
        && s.pidFileExists && b.pid == IntCast(s.pidFileContents)
        && b.pid < 0 && a.processGroupExists(b.pid)
        && (b.SignalDelivered? <==> a.killSucceeds(b.pid))
  {
  }

  /**
   * A signal is only ever the kill's first effect, and it goes only to the PID
   * the file holds, only when that is negative (the contents start, after
   * white space, with a minus sign and a digit) and only when its process
   * group was found.
   */
  lemma SignalOnlyToNegativePid(s: OsState, a: Answers)
    ensures var log := KillLog(KillBranchOf(s, a), StopWait(a));
      forall i :: 0 < i < |log| ==> !log[i].Signalled?
    ensures var e := KillLog(KillBranchOf(s, a), StopWait(a))[0];
      e.Signalled? ==>
        && s.pidFileExists && e.pid == IntCast(s.pidFileContents) && e.signal == SIGTERM
        && e.pid < 0 && a.processGroupExists(e.pid)
        && var t := SkipWhitespace(s.pidFileContents); |t| > 1 && t[0] == '-' && IsDigit(t[1])
  {
    var b := KillBranchOf(s, a);
    KillLogShape(b, StopWait(a));
    SignallingBranch(s, a);
    if b.SignalRefused? || b.SignalDelivered? {
      NegativeCastNeedsMinus(s.pidFileContents);
    }
  }

  /**
   * A PID file holding a process id as PHP-FPM writes it (decimal digits and a
   * newline) is removed without a signal: the guard at the cast lets only
   * negative numbers through.
   */
  lemma WrittenPidNeverSignalled(s: OsState, a: Answers, pid: nat)
    requires s.pidFileExists && pid <= Int64Max
    requires s.pidFileContents == IntToString(pid) + "\n"
    ensures KillStep(s, a) == Step(RemoveFiles(s), Ok)
  {
    IntCastOfIntToString(pid, "\n");
    assert KillBranchOf(s, a) == NotSignalled(pid);
  }

  /** Contents that do not start with a number cast to PID 0, which is never signalled. */
  lemma NonNumericPidNeverSignalled(s: OsState, a: Answers)
    requires s.pidFileExists
    requires var t := SkipWhitespace(s.pidFileContents);
      t == [] || (!IsDigit(t[0]) && !((t[0] == '-' || t[0] == '+') && |t| > 1 && IsDigit(t[1])))
    ensures KillStep(s, a) == Step(RemoveFiles(s), Ok)
  {
    NonNumericCastsToZero(s.pidFileContents);
    assert KillBranchOf(s, a) == NotSignalled(0);
  }

  /** Without a PID file only the socket is unlinked. */
  lemma NoPidFileUnlinksSocketOnly(s: OsState, a: Answers)
    requires !s.pidFileExists
    ensures KillStep(s, a).outcome == Ok
    ensures KillStep(s, a).state == s.(socketExists := false, effects := s.effects + [Unlinked(SocketPath)])
  {
    assert KillBranchOf(s, a) == NoPidFile;
  }

  /**
   * A minus sign and a digit run too long for a double, such as 400 nines,
   * casts to PID 0: both files are removed without a signal.
   */
  lemma OverflowingPidNeverSignalled(s: OsState, a: Answers, ds: string, tail: string)
    requires s.pidFileExists
    requires AllDigits(ds) && DecimalValue(ds) >= DoubleOverflow
    requires tail == [] || !IsDigit(tail[0])
    requires s.pidFileContents == "-" + ds + tail
    ensures KillStep(s, a) == Step(RemoveFiles(s), Ok)
  {
    assert s.pidFileContents == ['-'] + (ds + tail);
    InfiniteCastsToZero(ds, tail);
    assert KillBranchOf(s, a) == NotSignalled(0);
  }

  // ---------------------------------------------------------------------------
  // The guard the kill evidently intends
  // ---------------------------------------------------------------------------

  /**
   * The branch with the guard written `$pid <= 0`: only a PID that is not
   * positive, or whose process group cannot be found, goes without a signal.
   */
  function IntendedKillBranchOf(s: OsState, a: Answers): KillBranch
  {
    if !s.pidFileExists then NoPidFile
    else
      var pid := IntCast(s.pidFileContents);
      if pid <= 0 || !a.processGroupExists(pid) then NotSignalled(pid)
      else if !a.killSucceeds(pid) then SignalRefused(pid)
      else SignalDelivered(pid)
  }

  /** `killExistingProcess` with the intended guard. */
  function IntendedKillStep(s: OsState, a: Answers): Step
  {
    KillIn(s, IntendedKillBranchOf(s, a), StopWait(a))
  }

  /**
   * With the intended guard, the worker whose PID PHP-FPM wrote is sent
   * SIGTERM, as the first effect of the kill, whenever its process group is
   * found.
   */
  lemma IntendedKillSignalsWrittenPid(s: OsState, a: Answers, pid: nat)
    requires s.pidFileExists && 0 < pid <= Int64Max
    requires s.pidFileContents == IntToString(pid) + "\n"
    requires a.processGroupExists(pid)
    ensures IntendedKillBranchOf(s, a) == if a.killSucceeds(pid) then SignalDelivered(pid) else SignalRefused(pid)
    ensures KillLog(IntendedKillBranchOf(s, a), StopWait(a))[0] == Signalled(pid, SIGTERM)
  {
    IntCastOfIntToString(pid, "\n");
  }

  /**
   * With the intended guard, a signal only ever goes to a positive PID whose
   * process group was found, never to 0 or a negative number, which
   * `posix_kill` would take as a whole process group.
   */
  lemma IntendedKillSignalsOnlyPositive(s: OsState, a: Answers)
    ensures var b := IntendedKillBranchOf(s, a);
      (b.SignalRefused? || b.SignalDelivered?) ==>
        && s.pidFileExists && b.pid == IntCast(s.pidFileContents)
        && b.pid > 0 && a.processGroupExists(b.pid)
  {
  }

  /**
   * The two guards meet only where neither signals: the guard as written
   * signals negative PIDs only, the intended one positive PIDs only.
   */
  lemma GuardsNeverSignalTheSamePid(s: OsState, a: Answers)
    ensures KillBranchOf(s, a).SignalDelivered? || KillBranchOf(s, a).SignalRefused?
      ==> IntendedKillBranchOf(s, a).NotSignalled?
  {
  }

  // ---------------------------------------------------------------------------
  // What `start` and `stop` promise
  // ---------------------------------------------------------------------------

  /** After the spawn, `start` returns normally only with the process running and its socket there. */
  lemma LaunchReady(s: OsState, a: Answers, command: seq<string>)
    ensures var l := LaunchStep(s, a, command);
      l.outcome.Ok? ==> l.state.processRunning && l.state.socketExists && l.state.socketDirectoryExists
  {
    StartWaitOutcome(a);
  }

  /**
   * After the spawn, `start` returns normally exactly when, at some poll within
   * the 1001 allowed, the socket is there with the process running, and at
   * every earlier poll the process was running without its socket.
   */
  lemma LaunchSucceedsIff(s: OsState, a: Answers, command: seq<string>)
    ensures LaunchStep(s, a, command).outcome.Ok?
      <==> exists k: nat :: (k < MaxSleeps(StartTimeout) && a.runningAtPoll(k) && a.socketAtPoll(k)
             && forall j: nat :: j < k ==> a.runningAtPoll(j) && !a.socketAtPoll(j))
  {
    StartWaitSucceedsIff(a);
  }

  /**
   * A process found not running fails the start at once, even when its socket
   * is there at that poll: the running check comes first.
   */
  lemma LaunchFailsWhenProcessDies(s: OsState, a: Answers, command: seq<string>, k: nat)
    requires k < MaxSleeps(StartTimeout) && !a.runningAtPoll(k)
    requires forall j: nat :: j < k ==> a.runningAtPoll(j) && !a.socketAtPoll(j)
    ensures LaunchStep(s, a, command).outcome == Failed(FailedToStartMessage)
    ensures !LaunchStep(s, a, command).state.processRunning
  {
    var probe := StartProbe(a.runningAtPoll, a.socketAtPoll);
    StartProbeValues(a.runningAtPoll, a.socketAtPoll, k);
    forall j: nat | j < k ensures probe(j) == Pending {
      StartProbeValues(a.runningAtPoll, a.socketAtPoll, j);
    }
    WaitFromStopsAt(probe, StartTimeoutMessage, StartTimeout, 0, k);
  }

  /**
   * A start that never sees the socket with the process running times out
   * after 1001 polls, with the timeout message.
   */
  lemma LaunchTimesOut(s: OsState, a: Answers, command: seq<string>)
    requires forall k: nat :: k < MaxSleeps(StartTimeout) ==> a.runningAtPoll(k) && !a.socketAtPoll(k)
    ensures LaunchStep(s, a, command).outcome == Failed(StartTimeoutMessage)
    ensures LaunchStep(s, a, command).state.processRunning && !LaunchStep(s, a, command).state.socketExists
  {
    var probe := StartProbe(a.runningAtPoll, a.socketAtPoll);
    forall j: nat | j < MaxSleeps(StartTimeout) ensures probe(j) == Pending {
      StartProbeValues(a.runningAtPoll, a.socketAtPoll, j);
    }
    WaitFromTimesOut(probe, StartTimeoutMessage, StartTimeout, 0);
  }

  /** `start` returns normally only with the worker running and its socket there. */
  lemma StartReady(s: OsState, a: Answers, command: seq<string>)
    ensures var r := StartStep(s, a, command);
      r.outcome.Ok? ==> r.state.processRunning && r.state.socketExists && r.state.socketDirectoryExists
  {
    if s.socketExists {
      var k := KillStep(s, a);
      if k.outcome.Ok? {
        LaunchReady(k.state, a, command);
      }
    } else {
      LaunchReady(s, a, command);
    }
  }

  /** The only exceptions `start` throws are its own two and the stop timeout of the kill. */
  lemma StartFailures(s: OsState, a: Answers, command: seq<string>)
    ensures var r := StartStep(s, a, command);
      r.outcome.Failed? ==>
        r.outcome.message in {FailedToStartMessage, StartTimeoutMessage, StopTimeoutMessage}
  {
    StartWaitOutcome(a);
    KillOutcome(s, a);
  }

  /** The socket directory effect of `start`: made only when it was missing. */
  function DirectoryLog(s: OsState): seq<Effect>
  {
    if s.socketDirectoryExists then [] else [MadeDirectory(SocketDirectory)]
  }

  /** Whether `start` ends in the kill's exception, before spawning anything. */
  predicate KillAborts(s: OsState, a: Answers)
  {
    s.socketExists && KillStep(s, a).outcome.Failed?
  }

  /**
   * The order of `start`'s effects: the kill's, only when a socket was left
   * over; then, unless the kill threw, the socket directory when it was
   * missing and the spawn.
   */
  lemma StartEffects(s: OsState, a: Answers, command: seq<string>)
    ensures StartStep(s, a, command).state.effects
      == s.effects
         + (if s.socketExists then KillLog(KillBranchOf(s, a), StopWait(a)) else [])
         + (if KillAborts(s, a) then [] else DirectoryLog(s) + [Spawned(command)])
  {
    if s.socketExists {
      KillFrame(s, a);
    }
  }

  /** A spawn among the effects after some kill effects is a spawn among the later ones. */
  lemma SpawnAfterKillEffects(before: seq<Effect>, kill: seq<Effect>, rest: seq<Effect>, command: seq<string>)
    requires forall e :: e in kill ==> IsKillEffect(e)
    ensures (before + kill + rest)[|before|..] == kill + rest
    ensures Spawned(command) in (before + kill + rest)[|before|..] <==> Spawned(command) in rest
  {
    assert (before + kill + rest)[|before|..] == kill + rest;
    assert !IsKillEffect(Spawned(command));
  }

  /** `start` spawns the worker exactly when no kill was needed or the kill returned normally. */
  lemma StartSpawnsIff(s: OsState, a: Answers, command: seq<string>)
    ensures var t := StartStep(s, a, command).state;
      |s.effects| <= |t.effects|
      && (Spawned(command) in t.effects[|s.effects|..] <==> !KillAborts(s, a))
  {
    StartEffects(s, a, command);
    var log := KillLog(KillBranchOf(s, a), StopWait(a));
    KillLogShape(KillBranchOf(s, a), StopWait(a));
    var killPart: seq<Effect> := if s.socketExists then log else [];
    var launchPart: seq<Effect> := if KillAborts(s, a) then [] else DirectoryLog(s) + [Spawned(command)];
    SpawnAfterKillEffects(s.effects, killPart, launchPart, command);
    assert Spawned(command) !in DirectoryLog(s);
  }

  /** Every step keeps the socket inside its directory. */
  lemma StepsKeepWellFormed(s: OsState, a: Answers, command: seq<string>)
    requires WellFormed(s)
    ensures WellFormed(KillStep(s, a).state)
    ensures WellFormed(LaunchStep(s, a, command).state)
    ensures WellFormed(StartStep(s, a, command).state)
    ensures WellFormed(RemoveFiles(s)) && WellFormed(StopStep(s))
  {
    KillFrame(s, a);
  }

  /** `stop` leaves no process running, a second `stop` does nothing, and a process is stopped only when it ran. */
  lemma StopFacts(s: OsState)
    ensures !StopStep(s).processRunning
    ensures StopStep(StopStep(s)) == StopStep(s)
    ensures StopStep(s).effects == s.effects + (if s.processRunning then [StoppedProcess] else [])
    ensures StopStep(s).(processRunning := s.processRunning, effects := s.effects) == s
  {
  }

  /** `removeProcessFiles` removes both files, and a second call does not change them again. */
  lemma RemoveFilesFacts(s: OsState)
    ensures !RemoveFiles(s).socketExists && !RemoveFiles(s).pidFileExists
    ensures RemoveFiles(RemoveFiles(s)).(effects := s.effects) == RemoveFiles(s).(effects := s.effects)
  {
  }

  // ---------------------------------------------------------------------------
  // The objects
  // ---------------------------------------------------------------------------

  /** The operating system, with the answers it gives fixed when it is created. */
  class Os {
    var socketExists: bool
    var pidFileExists: bool
    var pidFileContents: string
    var socketDirectoryExists: bool
    var processRunning: bool
    var effects: seq<Effect>
    const answers: Answers

    constructor (initial: OsState, answers: Answers)
      ensures State() == initial && this.answers == answers
    {
      socketExists := initial.socketExists;
      pidFileExists := initial.pidFileExists;
      pidFileContents := initial.pidFileContents;
      socketDirectoryExists := initial.socketDirectoryExists;
      processRunning := initial.processRunning;
      effects := initial.effects;
      this.answers := answers;
    }

    /** A snapshot of the system. */
    function State(): OsState
      reads this
    {
      OsState(socketExists, pidFileExists, pidFileContents, socketDirectoryExists, processRunning, effects)
    }

    /** `unlink` of the socket file. */
    method UnlinkSocket()
      modifies this
      ensures State() == old(State()).(socketExists := false, effects := old(effects) + [Unlinked(SocketPath)])
    {
      socketExists := false;
      effects := effects + [Unlinked(SocketPath)];
    }

    /** `unlink` of the PID file. */
    method UnlinkPidFile()
      modifies this
      ensures State() == old(State()).(pidFileExists := false, effects := old(effects) + [Unlinked(PidPath)])
    {
      pidFileExists := false;
      effects := effects + [Unlinked(PidPath)];
    }

    /** `mkdir` of the socket's directory. */
    method MakeSocketDirectory()
      modifies this
      ensures State() == old(State()).(socketDirectoryExists := true, effects := old(effects) + [MadeDirectory(SocketDirectory)])
    {
      socketDirectoryExists := true;
      effects := effects + [MadeDirectory(SocketDirectory)];
    }

    /** `posix_kill`: the answer says whether the signal was accepted. */
    method SendSignal(pid: int, signal: int) returns (accepted: bool)
      modifies this
      ensures accepted == answers.killSucceeds(pid)
      ensures State() == old(State()).(effects := old(effects) + [Signalled(pid, signal)])
    {
      accepted := answers.killSucceeds(pid);
      effects := effects + [Signalled(pid, signal)];
    }

    /** `Process::start` of the worker's command line. */
    method Spawn(command: seq<string>)
      modifies this
      ensures State() == old(State()).(effects := old(effects) + [Spawned(command)])
    {
      effects := effects + [Spawned(command)];
    }

    /** The process and the socket as the start wait saw them at its last poll. */
    method ObserveStartPoll(k: nat)
      modifies this
      ensures State() == old(State()).(processRunning := answers.runningAtPoll(k), socketExists := answers.socketAtPoll(k))
    {
      processRunning := answers.runningAtPoll(k);
      socketExists := answers.socketAtPoll(k);
    }

    /** `Process::stop`. */
    method StopProcess()
      modifies this
      ensures State() == old(State()).(processRunning := false, effects := old(effects) + [StoppedProcess])
    {
      processRunning := false;
      effects := effects + [StoppedProcess];
    }
  }

  /** The supervisor of one PHP-FPM worker. */
  class PhpFpmProcess {
    const os: Os
    /** The command line the worker process is started with. */
    const command: seq<string>

    constructor (os: Os, command: seq<string>)
      ensures this.os == os && this.command == command
    {
      this.os := os;
      this.command := command;
    }

    /** `createForConfig`: a supervisor for the worker that reads the given configuration file. */
    static method CreateForConfig(os: Os, configPath: string := DefaultConfigPath) returns (p: PhpFpmProcess)
      ensures fresh(p) && p.os == os && p.command == FpmCommand(configPath)
    {
      p := new PhpFpmProcess(os, FpmCommand(configPath));
    }

    /** `isStarted`: the worker counts as started once its socket file exists. */
    method IsStarted() returns (started: bool)
      ensures started == os.socketExists
    {
      started := os.socketExists;
    }

    /** `removeProcessFiles`. */
    method RemoveProcessFiles()
      modifies os
      ensures os.State() == RemoveFiles(old(os.State()))
    {
      os.UnlinkSocket();
      os.UnlinkPidFile();
    }

    /**
     * `wait`: evaluate the condition, and while it is true sleep 5 ms and
     * throw `message` once the time slept exceeds `timeout`.
     */
    static method Wait(probe: nat -> Probe, message: string, timeout: int) returns (r: WaitResult)
      ensures r == WaitFrom(probe, message, timeout, 0)
    {
      var elapsed := 0;
      var sleeps: nat := 0;
      while true
        invariant sleeps < MaxSleeps(timeout)
        invariant elapsed == PollInterval * sleeps
        invariant WaitFrom(probe, message, timeout, sleeps) == WaitFrom(probe, message, timeout, 0)
        decreases MaxSleeps(timeout) - sleeps
      {
        var p := probe(sleeps);
        if p.Finished? {
          return Completed(sleeps);
        }
        if p.Raised? {
          return CallbackFailed(p.message, sleeps);
        }
        sleeps := sleeps + 1;
        elapsed := elapsed + PollInterval;
        if elapsed > timeout {
          return TimedOut(message, sleeps);
        }
        RoomForAnotherPoll(timeout, sleeps - 1);
      }
    }

    /** `killExistingProcess`. */
    method KillExistingProcess() returns (outcome: Outcome)
      modifies os
      ensures os.State() == KillStep(old(os.State()), os.answers).state
      ensures outcome == KillStep(old(os.State()), os.answers).outcome
    {
      ghost var s0 := os.State();
      ghost var stopWait := StopWait(os.answers);
      if !os.pidFileExists {
        assert KillStep(s0, os.answers) == KillIn(s0, NoPidFile, stopWait);
        os.UnlinkSocket();
        return Ok;
      }
      var pid := IntCast(os.pidFileContents);
      if 0 <= pid || !os.answers.processGroupExists(pid) {
        assert KillStep(s0, os.answers) == KillIn(s0, NotSignalled(pid), stopWait);
        RemoveProcessFiles();
        return Ok;
      }
      var accepted := os.SendSignal(pid, SIGTERM);
      if !accepted {
        assert KillStep(s0, os.answers) == KillIn(s0, SignalRefused(pid), stopWait);
        RemoveProcessFiles();
        return Ok;
      }
      assert KillStep(s0, os.answers) == KillIn(s0, SignalDelivered(pid), stopWait);
      var w := Wait(StopProbe(os.answers.processGroupAtPoll), StopTimeoutMessage, StopTimeout);
      assert w == stopWait;
      if !w.Completed? {
        return WaitOutcome(w);
      }
      RemoveProcessFiles();
      return Ok;
    }

    /** `start`. */
    method Start() returns (outcome: Outcome)
      modifies os
      ensures os.State() == StartStep(old(os.State()), os.answers, command).state
      ensures outcome == StartStep(old(os.State()), os.answers, command).outcome
    {
      var started := IsStarted();
      if started {
        var killed := KillExistingProcess();
        if killed.Failed? {
          return killed;
        }
      }
      if !os.socketDirectoryExists {
        os.MakeSocketDirectory();
      }
      os.Spawn(command);
      var w := Wait(StartProbe(os.answers.runningAtPoll, os.answers.socketAtPoll), StartTimeoutMessage, StartTimeout);
      assert w == StartWait(os.answers);
      os.ObserveStartPoll(LastPoll(w));
      return WaitOutcome(w);
    }

    /** `stop`. */
    method Stop()
      modifies os
      ensures os.State() == StopStep(old(os.State()))
    {
      if os.processRunning {
        os.StopProcess();
      }
    }

    /** `__destruct`: destroying the supervisor stops the worker. */
    method Destroy()
      modifies os
      ensures os.State() == StopStep(old(os.State()))
    {
      Stop();
    }
  }
}
