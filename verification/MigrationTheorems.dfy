/**
 The theorems about whole runs of a live migration: order of the QMP commands, meaning
 of success, one-shot channels, and the end of every run.
 */
module MigrationTheorems {
  import opened Wrappers
  import opened MirrorProcessor
  import opened Migration
  import opened MigrationSafety

  // ---------------------------------------------------------------------------
  // Order

  /** The machine state never starts to move before QEMU has reported every device ready. */
  lemma MigrateOnlyWhenAllReady(c: Config, s: State, k: nat, d: Device)
    requires Reachable(c, s) && k < |s.log| && s.log[k] == Migrate && IsDevice(c, d)
    ensures exists j :: 0 <= j < k && s.log[j] == JobReady(d)
  {
    ReachableInv(c, s);
    assert Due(c, s.log[..k], Migrate);
    assert JobReady(d) in s.log[..k];
  }

  /** Nor before QEMU has taken the capabilities and then the parameters. */
  lemma MigrateOnlyWhenPrepared(c: Config, s: State, k: nat)
    requires Reachable(c, s) && k < |s.log| && s.log[k] == Migrate
    ensures exists i, j :: 0 <= i < j < k && s.log[i] == CapabilitiesTaken && s.log[j] == ParametersTaken
  {
    ReachableInv(c, s);
    assert Due(c, s.log[..k], Migrate);
    var j :| 0 <= j < k && s.log[..k][j] == ParametersTaken;
    assert Due(c, s.log[..j], s.log[j]);
    var i :| 0 <= i < j && s.log[..j][i] == CapabilitiesTaken;
    assert s.log[i] == CapabilitiesTaken && s.log[j] == ParametersTaken;
  }

  /** The flash channel is closed before the disks channel, by whomever. */
  lemma FlashIsClosedFirst(c: Config, s: State, k: nat)
    requires Reachable(c, s) && k < |s.log| && s.log[k] == Closed(DisksReady) && c.hasFlash
    ensures exists j :: 0 <= j < k && s.log[j] == Closed(FlashReady)
  {
    ReachableInv(c, s);
    assert Due(c, s.log[..k], s.log[k]);
    assert Closed(FlashReady) in s.log[..k];
  }

  /** No mirror is stopped before the state goroutine has returned and closed its channel. */
  lemma CompleteOnlyAfterStateReturned(c: Config, s: State, k: nat, d: Device)
    requires Reachable(c, s) && k < |s.log| && s.log[k] == BlockJobComplete(d)
    ensures exists j :: 0 <= j < k && s.log[j] == Closed(StateMigrated)
    ensures s.vm.StateReturned? || s.vm.StateExited?
  {
    ReachableInv(c, s);
    assert Due(c, s.log[..k], s.log[k]);
    assert Closed(StateMigrated) in s.log[..k];
  }

  /** Exactly when a mirror that was stopped was stopped after a completed state migration. */
  lemma CompleteFollowsCompletionIffStateOk(c: Config, s: State, k: nat, d: Device)
    requires Reachable(c, s) && k < |s.log| && s.log[k] == BlockJobComplete(d)
    ensures s.vm.StateReturned? || s.vm.StateExited?
    ensures MigrateCompleted in s.log[..k] <==> s.vm.ok
  {
    ReachableInv(c, s);
    CompleteOnlyAfterStateReturned(c, s, k, d);
    if s.vm.ok {
      var i :| 0 <= i < k && s.log[i] == Closed(StateMigrated);
      var j :| 0 <= j < |s.log| && s.log[j] == MigrateCompleted;
      assert Due(c, s.log[..j], MigrateCompleted);
      assert s.log[..k][j] == MigrateCompleted;
    }
  }

  /** `Main` returns nil only after every device was ready and moved, the machine state was
      reported completed, and every mirror was asked to stop after that. */
  lemma SuccessMeansMoved(c: Config, s: State)
    requires Reachable(c, s) && s.main == Returned(true)
    ensures MigrateCompleted in s.log
    ensures forall d :: IsDevice(c, d) ==> JobReady(d) in s.log && BlockJobComplete(d) in s.log
    ensures forall k, d :: 0 <= k < |s.log| && s.log[k] == BlockJobComplete(d) ==> MigrateCompleted in s.log[..k]
  {
    ReachableInv(c, s);
    QuitIsDue(c, s);
    forall k, d | 0 <= k < |s.log| && s.log[k] == BlockJobComplete(d) ensures MigrateCompleted in s.log[..k] {
      CompleteFollowsCompletionIffStateOk(c, s, k, d);
    }
  }

  /** The source machine is told to quit only when everything has been moved. */
  lemma SourceQuitsLast(c: Config, s: State, k: nat)
    requires Reachable(c, s) && k < |s.log| && s.log[k] == SourceQuit
    ensures MigrateCompleted in s.log[..k] && AllReadyIn(c, s.log[..k]) && AllCompletedIn(c, s.log[..k])
  {
    ReachableInv(c, s);
    assert Due(c, s.log[..k], SourceQuit);
  }

  /** The disks are mirrored only once the firmware flash device is ready. */
  lemma FlashIsMirroredFirst(c: Config, s: State, k: nat, i: nat)
    requires Reachable(c, s) && k < |s.log| && s.log[k] == DriveMirror(Device(DisksProc, i)) && c.hasFlash
    ensures JobReady(Device(FlashProc, 0)) in s.log[..k]
  {
    ReachableInv(c, s);
    assert Due(c, s.log[..k], s.log[k]);
  }

  // ---------------------------------------------------------------------------
  // One-shot channels

  lemma {:induction false} ClosedAtMostOnce(c: Config, log: seq<Event>, ch: Channel)
    requires Lawful(c, log)
    ensures multiset(log)[Closed(ch)] == if Closed(ch) in log then 1 else 0
  {
    forall k | 0 <= k < |log| && log[k] == Closed(ch) ensures Closed(ch) !in log[..k] {
      assert Due(c, log[..k], log[k]);
    }
    CountedOnce(log, Closed(ch));
  }

  lemma {:induction false} CountedOnce<T>(log: seq<T>, e: T)
    requires forall k :: 0 <= k < |log| && log[k] == e ==> e !in log[..k]
    ensures multiset(log)[e] == if e in log then 1 else 0
  {
    if log != [] {
      var n := |log| - 1;
      var init := log[..n];
      assert log == init + [log[n]];
      forall k | 0 <= k < n && init[k] == e ensures e !in init[..k] {
        assert init[..k] == log[..k];
      }
      CountedOnce(init, e);
    }
  }

  /** When `Main` has returned, each channel it made has been closed exactly once, and
      `vmstateMigrated` exactly once if the state goroutine was launched, else never. */
  lemma ChannelsClosedExactlyOnce(c: Config, s: State)
    requires Reachable(c, s) && (s.main.Returned? || s.main.Concluded?)
    ensures multiset(s.log)[Closed(DisksReady)] == 1
    ensures multiset(s.log)[Closed(FlashReady)] == if c.hasFlash then 1 else 0
    ensures multiset(s.log)[Closed(StateMigrated)] == if s.vm.Unlaunched? then 0 else 1
  {
    ReachableInv(c, s);
    ClosedAtMostOnce(c, s.log, DisksReady);
    ClosedAtMostOnce(c, s.log, FlashReady);
    ClosedAtMostOnce(c, s.log, StateMigrated);
  }

  lemma MirrorPanicStep(c: Config, s: State, w: Which, a: ProcAction)
    requires Control(c, s) && !s.panicked && ProcEnabled(ViewOf(s), ProcOf(s, w), a) && MirrorApply(s, w, a).panicked
    ensures w.FlashProc? && a.CloseReady? && LeavingEarly(s)
  {
  }

  lemma MainPanicStep(c: Config, s: State, a: MainAction)
    requires Control(c, s) && !s.panicked && MainEnabled(c, s, a) && MainApply(c, s, a).panicked
    ensures a.CloseFlash? && LeavingEarly(s)
  {
  }

  lemma VmNeverPanics(c: Config, s: State, a: StateAction)
    requires Control(c, s) && !s.panicked && VmEnabled(s, a)
    ensures !VmApply(s, a).panicked
  {
  }

  /** Only the firmware flash channel can be closed twice, and only while `Main` leaves
      before having launched anything but the flash mirror. */
  lemma OnlyFlashClosePanics(c: Config, s: State, a: Action)
    requires Reachable(c, s) && Enabled(c, s, a) && Apply(c, s, a).panicked
    ensures a == Main(CloseFlash) || a == Mirror(FlashProc, CloseReady)
    ensures c.hasFlash && s.cancelled && s.vm.Unlaunched? && s.disks.pc.NotStarted?
    ensures Migrate !in s.log && forall d :: BlockJobComplete(d) !in s.log
  {
    ReachableInv(c, s);
    match a {
    case Main(ma) => MainPanicStep(c, s, ma);
    case Mirror(w, pa) => MirrorPanicStep(c, s, w, pa);
    case Vm(va) => VmNeverPanics(c, s, va);
    case CancelTask =>
    }
    forall d ensures BlockJobComplete(d) !in s.log {
      if BlockJobComplete(d) in s.log {
        var k :| 0 <= k < |s.log| && s.log[k] == BlockJobComplete(d);
        CompleteOnlyAfterStateReturned(c, s, k, d);
      }
    }
  }

  lemma {:induction false} RunSnoc(c: Config, s: State, acts: seq<Action>, t: State, a: Action)
    requires Run(c, s, acts, t) && Enabled(c, t, a)
    ensures Run(c, s, acts + [a], Apply(c, t, a))
    decreases |acts|
  {
    if acts == [] {
      assert Run(c, Apply(c, t, a), [], Apply(c, t, a));
    } else {
      RunSnoc(c, Apply(c, s, acts[0]), acts[1..], t, a);
      assert (acts + [a])[1..] == acts[1..] + [a];
    }
  }

  /** One more step of a reachable state. */
  lemma Extend(c: Config, s: State, a: Action) returns (t: State)
    requires Reachable(c, s) && Enabled(c, s, a)
    ensures t == Apply(c, s, a) && Reachable(c, t)
  {
    var acts :| Run(c, Init(c), acts, s);
    RunSnoc(c, Init(c), acts, s, a);
    t := Apply(c, s, a);
  }

  lemma ExtendMain(c: Config, s: State, a: MainAction) returns (t: State)
    requires Reachable(c, s) && !s.panicked && MainEnabled(c, s, a)
    ensures t == MainApply(c, s, a) && Reachable(c, t)
  {
    t := Extend(c, s, Main(a));
  }

  lemma ExtendMirror(c: Config, s: State, w: Which, a: ProcAction) returns (t: State)
    requires Reachable(c, s) && !s.panicked && ProcEnabled(ViewOf(s), ProcOf(s, w), a)
    ensures t == MirrorApply(s, w, a) && Reachable(c, t)
  {
    t := Extend(c, s, Mirror(w, a));
  }

  lemma ExtendVm(c: Config, s: State, a: StateAction) returns (t: State)
    requires Reachable(c, s) && !s.panicked && VmEnabled(s, a)
    ensures t == VmApply(s, a) && Reachable(c, t)
  {
    t := Extend(c, s, Vm(a));
  }

  ghost predicate CanPanic(c: Config) {
    exists s :: Reachable(c, s) && s.panicked
  }

  /** A flash mirror that has just become ready while `Main` still waits for it. */
  lemma FlashMirrorReady(c: Config) returns (s: State)
    requires c.hasFlash
    ensures Reachable(c, s) && s.main == AwaitFlash && s.flash.pc == Announcing
    ensures s.closed == {} && !s.cancelled && !s.panicked
  {
    s := Init(c);
    assert Run(c, s, [], s);
    s := ExtendMain(c, s, StartFlash);
    s := ExtendMirror(c, s, FlashProc, MirrorAccepted);
    assert s.flash == Proc(Mirroring, 1, [AwaitRunning], None, [Unborn], None);
    s := ExtendMirror(c, s, FlashProc, JobRunning(0));
    s := ExtendMirror(c, s, FlashProc, ReaderReady(0));
    assert s.flash == Proc(Mirroring, 1, [Gone(Success)], None, [Unborn], None);
    s := ExtendMirror(c, s, FlashProc, JoinReaders);
  }

  /** The double close is real: it can happen exactly for machines with a firmware flash. */
  lemma PanicIffFlash(c: Config)
    ensures CanPanic(c) <==> c.hasFlash
  {
    if c.hasFlash {
      var s := FlashMirrorReady(c);
      s := Extend(c, s, CancelTask);
      s := ExtendMain(c, s, FlashCancelled);
      s := ExtendMain(c, s, FlashStillOpen);
      s := ExtendMirror(c, s, FlashProc, CloseReady);
      s := ExtendMain(c, s, CloseFlash);
      assert s.panicked;
    }
    if s :| Reachable(c, s) && s.panicked {
      ReachableInv(c, s);
    }
  }

  // ---------------------------------------------------------------------------
  // Progress

  function MainRank(pc: MainPC): nat {
    match pc
    case Begin => 10
    case AwaitFlash => 9
    case LaunchDisks => 8
    case LaunchState => 7
    case Joining => 6
    case FlashCleanup(_) => 5
    case FlashCleanupClose(_) => 4
    case DisksCleanup(_) => 3
    case DisksCleanupClose(_) => 2
    case Returned(_) => 1
    case Concluded => 0
  }

  function VmRank(pc: StatePC): nat {
    match pc
    case Unlaunched => 8
    case AwaitDisks => 7
    case SetCapabilities => 6
    case SetParameters => 5
    case IssueMigrate => 4
    case PollMigrate => 3
    case Closing(_) => 2
    case StateReturned(_) => 1
    case StateExited(_) => 0
  }

  function Measure(s: State): nat {
    MainRank(s.main) + VmRank(s.vm) + ProcMeasure(s.flash) + ProcMeasure(s.disks) + (if s.cancelled then 0 else 1)
  }

  /** A polling round that brought no news. */
  predicate IsPoll(a: Action) {
    a == Vm(QueryPending) || (a.Mirror? && IsProcPoll(a.pa))
  }

  /** QEMU or the user says no. */
  predicate IsRefusal(a: Action) {
    match a
    case CancelTask => true
    case Main(_) => false
    case Mirror(_, pa) => IsProcRefusal(pa)
    case Vm(va) => va.CapabilitiesRefused? || va.ParametersRefused? || va.MigrateRefused? || va.QueryFailed?
  }

  lemma MirrorDecreases(s: State, w: Which, q: Proc, a: ProcAction, es: seq<Event>)
    ensures Measure(MirrorResult(s, w, q, a, es)) <= Measure(s) + ProcMeasure(q) - ProcMeasure(ProcOf(s, w))
    ensures !a.Retire? ==>
      Measure(MirrorResult(s, w, q, a, es)) == Measure(s) + ProcMeasure(q) - ProcMeasure(ProcOf(s, w))
  {
  }

  lemma MirrorStepDecreases(c: Config, s: State, w: Which, a: ProcAction)
    requires ProcInv(ProcOf(s, w), if w.FlashProc? then FlashCount(c) else c.disks)
    requires ProcEnabled(ViewOf(s), ProcOf(s, w), a)
    ensures IsProcPoll(a) ==> Measure(MirrorApply(s, w, a)) == Measure(s)
    ensures !IsProcPoll(a) ==> Measure(MirrorApply(s, w, a)) < Measure(s)
  {
    var p := ProcOf(s, w);
    ProcStepDecreases(ViewOf(s), p, a, if w.FlashProc? then FlashCount(c) else c.disks);
    MirrorDecreases(s, w, ProcApply(ViewOf(s), p, a), a, MirrorEvents(w, p, a));
  }

  lemma MainDecreases(c: Config, s: State, a: MainAction)
    requires MainEnabled(c, s, a)
    requires s.main.Begin? ==> s.flash.pc.NotStarted?
    requires s.main.LaunchDisks? ==> s.disks.pc.NotStarted?
    requires s.main.LaunchState? ==> s.vm.Unlaunched?
    ensures Measure(MainApply(c, s, a)) < Measure(s)
  {
  }

  lemma VmDecreases(s: State, a: StateAction)
    requires VmEnabled(s, a)
    ensures Measure(VmApply(s, a)) + (if a.QueryPending? then 0 else 1) <= Measure(s)
    ensures a.QueryPending? ==> VmApply(s, a) == s
  {
  }

  lemma StepDecreases(c: Config, s: State, a: Action)
    requires Inv(c, s) && Enabled(c, s, a)
    ensures IsPoll(a) ==> Measure(Apply(c, s, a)) == Measure(s)
    ensures !IsPoll(a) ==> Measure(Apply(c, s, a)) < Measure(s)
  {
    match a
    case Mirror(w, pa) => MirrorStepDecreases(c, s, w, pa);
    case Vm(va) => VmDecreases(s, va);
    case Main(ma) => MainDecreases(c, s, ma);
    case CancelTask =>
  }

  function Moves(acts: seq<Action>): nat {
    if acts == [] then 0 else (if IsPoll(acts[0]) then 0 else 1) + Moves(acts[1..])
  }

  lemma {:induction false} MovesAreBounded(c: Config, s: State, acts: seq<Action>, t: State)
    requires Inv(c, s) && Run(c, s, acts, t)
    ensures Moves(acts) + Measure(t) <= Measure(s)
    decreases |acts|
  {
    if acts != [] {
      StepDecreases(c, s, acts[0]);
      StepKeepsInv(c, s, acts[0]);
      MovesAreBounded(c, Apply(c, s, acts[0]), acts[1..], t);
    }
  }

  lemma {:induction false} UnbornRanks(n: nat)
    ensures Ranks(seq(n, _ => Unborn)) == 3 * n
  {
    if n > 0 {
      assert seq(n, _ => Unborn)[1..] == seq(n - 1, _ => Unborn);
      UnbornRanks(n - 1);
    }
  }

  /** Every run, whatever the interleaving and whatever QEMU answers, consists of at most
      this many steps besides polling rounds. */
  lemma RunsAreFinite(c: Config, acts: seq<Action>, t: State)
    requires Run(c, Init(c), acts, t)
    ensures Moves(acts) <= 31 + 6 * (FlashCount(c) + c.disks)
  {
    InitKeepsInv(c);
    MovesAreBounded(c, Init(c), acts, t);
    UnbornRanks(FlashCount(c));
    UnbornRanks(c.disks);
  }

  /** Main has returned and no goroutine is left, not even one that was abandoned. */
  ghost predicate Finished(s: State) {
    && (s.main.Returned? || s.main.Concluded?)
    && ProcFinished(s.flash) && ProcFinished(s.disks)
    && (s.vm.Unlaunched? || s.vm.StateExited?)
  }

  function MainMove(c: Config, s: State): MainAction {
    match s.main
    case Begin => if c.hasFlash then StartFlash else SkipFlash
    case AwaitFlash => if FlashReady in s.closed then FlashSeen else FlashCancelled
    case LaunchDisks => if c.disks > 0 then StartDisks else NoDisks
    case LaunchState => StartState
    case Joining => Join
    case FlashCleanup(_) => if FlashReady in s.closed then FlashAlreadyClosed else FlashStillOpen
    case FlashCleanupClose(_) => CloseFlash
    case DisksCleanup(_) => if DisksReady in s.closed then DisksAlreadyClosed else DisksStillOpen
    case DisksCleanupClose(_) => CloseDisks
    case _ => Quit
  }

  // ---------------------------------------------------------------------------
  // After cancellation everything ends, whatever QEMU answers

  /** The alternatives among which QEMU chooses by its answer. */
  datatype Move =
    | Cancelling
    | MainMoves(ma: MainAction)
    | MirrorMoves(w: Which, pm: ProcMove)
    | AwaitReady | AwaitDone | Capabilities | Parameters | MigrateRequest
    | QueryTick | QueryDone | StateClose | StateReport

  function MoveOf(a: Action): Move {
    match a
    case CancelTask => Cancelling
    case Main(ma) => MainMoves(ma)
    case Mirror(w, pa) => MirrorMoves(w, ProcMoveOf(pa))
    case Vm(va) =>
      match va
      case DisksSeen => AwaitReady
      case DisksCancelled => AwaitDone
      case CapabilitiesSet => Capabilities
      case CapabilitiesRefused => Capabilities
      case ParametersSet => Parameters
      case ParametersRefused => Parameters
      case MigrateAccepted => MigrateRequest
      case MigrateRefused => MigrateRequest
      case QueryPending => QueryTick
      case QueryCompleted => QueryTick
      case QueryFailed => QueryTick
      case QueryCancelled => QueryDone
      case CloseState => StateClose
      case RetireState => StateReport
  }

  /** Whatever QEMU answers to this move, the step is not a mere poll. */
  ghost predicate ForcedMove(c: Config, s: State, a: Action) {
    Enabled(c, s, a) && forall b :: Enabled(c, s, b) && MoveOf(b) == MoveOf(a) ==> !IsPoll(b)
  }

  /** In a done context, with the processors at rest, the state goroutine or `Main` can move. */
  lemma OuterMove(c: Config, s: State) returns (a: Action)
    requires Inv(c, s) && !s.panicked && !Finished(s) && s.cancelled
    requires ProcFinished(s.flash) && ProcFinished(s.disks)
    ensures ForcedMove(c, s, a) && !IsRefusal(a)
  {
    a := match s.vm
      case AwaitDisks => Vm(DisksCancelled)
      case SetCapabilities => Vm(CapabilitiesSet)
      case SetParameters => Vm(ParametersSet)
      case IssueMigrate => Vm(MigrateAccepted)
      case PollMigrate => Vm(QueryCancelled)
      case Closing(_) => Vm(CloseState)
      case StateReturned(_) => Vm(RetireState)
      case _ => Main(MainMove(c, s));
    if a.Main? {
      MainCanMove(c, s);
    }
    ForcedIfNoTick(c, s, a);
  }

  lemma ForcedIfNoTick(c: Config, s: State, a: Action)
    requires Enabled(c, s, a) && (a.Main? || (a.Vm? && MoveOf(a) != QueryTick))
    ensures ForcedMove(c, s, a)
  {
    forall b | MoveOf(b) == MoveOf(a) ensures !IsPoll(b) {
    }
  }

  lemma MainCanMove(c: Config, s: State)
    requires Control(c, s) && s.cancelled && !Finished(s)
    requires ProcFinished(s.flash) && ProcFinished(s.disks) && (s.vm.Unlaunched? || s.vm.StateExited?)
    ensures MainEnabled(c, s, MainMove(c, s))
  {
  }

  lemma CancelledCanMove(c: Config, s: State) returns (a: Action)
    requires Inv(c, s) && s.cancelled && !s.panicked && !Finished(s)
    ensures ForcedMove(c, s, a)
  {
    if !ProcFinished(s.flash) {
      var pa := ProcCancelledCanMove(ViewOf(s), s.flash, FlashCount(c));
      a := Mirror(FlashProc, pa);
    } else if !ProcFinished(s.disks) {
      var pa := ProcCancelledCanMove(ViewOf(s), s.disks, c.disks);
      a := Mirror(DisksProc, pa);
    } else {
      a := OuterMove(c, s);
    }
  }

  lemma CancelledStays(c: Config, s: State, a: Action)
    requires s.cancelled && Enabled(c, s, a)
    ensures Apply(c, s, a).cancelled
  {
  }

  /** A way for QEMU to answer: it may pick any enabled alternative of a move. */
  ghost predicate IsReply(c: Config, reply: (State, Move) -> Action) {
    forall s, a :: Enabled(c, s, a) ==>
      Enabled(c, s, reply(s, MoveOf(a))) && MoveOf(reply(s, MoveOf(a))) == MoveOf(a)
  }

  /** Once the context is done, the scheduler can bring every goroutine to its exit against
      any answers of QEMU (or the program crashes on the flash channel). */
  lemma {:induction false} CancelledRunEnds(c: Config, s: State, reply: (State, Move) -> Action)
    returns (acts: seq<Action>, t: State)
    requires Inv(c, s) && s.cancelled && IsReply(c, reply)
    ensures Run(c, s, acts, t) && Follows(c, s, acts, reply)
    ensures Finished(t) || t.panicked
    decreases Measure(s)
  {
    if s.panicked || Finished(s) {
      acts, t := [], s;
    } else {
      var a := CancelledCanMove(c, s);
      var b := reply(s, MoveOf(a));
      StepDecreases(c, s, b);
      StepKeepsInv(c, s, b);
      CancelledStays(c, s, b);
      acts, t := CancelledRunEnds(c, Apply(c, s, b), reply);
      assert ([b] + acts)[1..] == acts;
      acts := [b] + acts;
    }
  }

  /** Every step of the run is the answer QEMU gives by `reply`. */
  ghost predicate Follows(c: Config, s: State, acts: seq<Action>, reply: (State, Move) -> Action)
    decreases |acts|
  {
    acts == [] ||
    (&& Enabled(c, s, acts[0]) && acts[0] == reply(s, MoveOf(acts[0]))
     && Follows(c, Apply(c, s, acts[0]), acts[1..], reply))
  }

  /** From every reachable state, a cancellation lets everything come to an end. */
  lemma EveryStateCanEnd(c: Config, s: State, reply: (State, Move) -> Action) returns (acts: seq<Action>, t: State)
    requires Reachable(c, s) && IsReply(c, reply)
    ensures Run(c, s, acts, t) && (Finished(t) || t.panicked)
  {
    ReachableInv(c, s);
    if s.cancelled || s.panicked {
      acts, t := CancelledRunEnds(c, s, reply);
    } else {
      StepKeepsInv(c, s, CancelTask);
      acts, t := CancelledRunEnds(c, Apply(c, s, CancelTask), reply);
      assert ([CancelTask] + acts)[1..] == acts;
      acts := [CancelTask] + acts;
    }
  }
}
