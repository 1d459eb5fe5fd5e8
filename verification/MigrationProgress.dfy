/**
 What a live migration can still achieve: there is no circular wait, success is within
 reach exactly as long as nothing has failed, and what can follow a failure.
 */
module MigrationProgress {
  import opened MirrorProcessor
  import opened Migration
  import opened MigrationSafety
  import opened MigrationTheorems

  /** A goroutine notices that its context is done. */
  predicate IsReaction(a: Action) {
    match a
    case CancelTask => false
    case Main(ma) => ma.FlashCancelled?
    case Mirror(_, pa) => IsProcReaction(pa)
    case Vm(va) => va.DisksCancelled? || va.QueryCancelled?
  }

  /** A step that leads on without bad news. */
  predicate IsHelpful(a: Action) {
    !IsPoll(a) && !IsRefusal(a)
  }

  predicate IsSmooth(a: Action) {
    IsHelpful(a) && !IsReaction(a)
  }

  ghost predicate AtRest(s: State, w: Which) {
    ProcFinished(ProcOf(s, w)) || ProcAwaits(ViewOf(s), ProcOf(s, w))
  }

  // ---------------------------------------------------------------------------
  // What can still succeed

  predicate VmUnfailed(vm: StatePC) {
    vm.Closing? || vm.StateReturned? || vm.StateExited? ==> vm.ok
  }

  /** No goroutine has failed or is bound to. A cancellation that nobody has noticed yet is
      no failure. */
  ghost predicate Unfailed(s: State) {
    && !s.panicked && !s.groupFailed
    && ProcUnfailed(s.flash) && ProcUnfailed(s.disks) && VmUnfailed(s.vm)
    && (Leaving(s) ==> ExitOk(s))
  }

  ghost predicate Succeeded(s: State) {
    s.main == Returned(true) || s.main.Concluded?
  }

  // ---------------------------------------------------------------------------
  // No circular wait

  /** With both processors finished or waiting for the machine state, the state goroutine or
      `Main` can move, and needs no cancellation for it. */
  lemma RestingMove(c: Config, s: State) returns (a: Action)
    requires Inv(c, s) && !s.panicked && !Finished(s) && (!s.cancelled || Unfailed(s))
    requires AtRest(s, FlashProc) && AtRest(s, DisksProc)
    ensures Enabled(c, s, a) && IsSmooth(a)
  {
    a := match s.vm
      case AwaitDisks => Vm(DisksSeen)
      case SetCapabilities => Vm(CapabilitiesSet)
      case SetParameters => Vm(ParametersSet)
      case IssueMigrate => Vm(MigrateAccepted)
      case PollMigrate => Vm(QueryCompleted)
      case Closing(_) => Vm(CloseState)
      case StateReturned(_) => Vm(RetireState)
      case _ => Main(MainMove(c, s));
  }

  lemma ProcessorMove(c: Config, s: State, w: Which) returns (a: Action)
    requires Inv(c, s) && !s.panicked && !AtRest(s, w)
    ensures Enabled(c, s, a) && IsSmooth(a)
  {
    var pa := ProcCanMove(ViewOf(s), ProcOf(s, w), if w.FlashProc? then FlashCount(c) else c.disks);
    a := Mirror(w, pa);
  }

  /** As long as nothing has failed, some step leads on without bad news and without
      noticing a cancellation. */
  lemma UnfailedCanMove(c: Config, s: State) returns (a: Action)
    requires Inv(c, s) && !s.panicked && !Finished(s) && (!s.cancelled || Unfailed(s))
    ensures Enabled(c, s, a) && IsSmooth(a)
  {
    if !AtRest(s, FlashProc) {
      a := ProcessorMove(c, s, FlashProc);
    } else if !AtRest(s, DisksProc) {
      a := ProcessorMove(c, s, DisksProc);
    } else {
      a := RestingMove(c, s);
    }
  }

  /** No deadlock and no circular wait: unless the program has ended or crashed, some
      goroutine can take a step that is no empty poll, no refusal and no new cancellation. */
  lemma NoDeadlock(c: Config, s: State) returns (a: Action)
    requires Reachable(c, s) && !s.panicked && !Finished(s)
    ensures Enabled(c, s, a) && IsHelpful(a)
  {
    ReachableInv(c, s);
    if !s.cancelled {
      a := UnfailedCanMove(c, s);
    } else if !AtRest(s, FlashProc) {
      a := ProcessorMove(c, s, FlashProc);
    } else if !AtRest(s, DisksProc) {
      a := ProcessorMove(c, s, DisksProc);
    } else if !ProcFinished(s.flash) {
      a := Mirror(FlashProc, StateCancelled);
    } else if !ProcFinished(s.disks) {
      a := Mirror(DisksProc, StateCancelled);
    } else {
      a := OuterMove(c, s);
    }
  }

  // ---------------------------------------------------------------------------
  // Success is within reach exactly as long as nothing has failed

  lemma MirrorStaysUnfailed(s: State, w: Which, q: Proc, a: ProcAction, es: seq<Event>)
    requires Unfailed(s) && ProcUnfailed(q) && (a.Retire? ==> q.pc.Exited?)
    requires !MirrorResult(s, w, q, a, es).panicked
    ensures Unfailed(MirrorResult(s, w, q, a, es))
  {
  }

  lemma MirrorFailureStays(s: State, w: Which, q: Proc, a: ProcAction, es: seq<Event>)
    requires !Unfailed(s) && !s.panicked && (!ProcUnfailed(ProcOf(s, w)) ==> !ProcUnfailed(q))
    ensures !Unfailed(MirrorResult(s, w, q, a, es))
  {
  }

  lemma MainKeepsPromise(c: Config, s: State, a: MainAction)
    requires Inv(c, s) && Unfailed(s) && MainEnabled(c, s, a) && !a.FlashCancelled?
    ensures Unfailed(MainApply(c, s, a))
  {
  }

  lemma VmKeepsPromise(c: Config, s: State, a: StateAction)
    requires Inv(c, s) && Unfailed(s) && VmEnabled(s, a) && IsSmooth(Vm(a))
    ensures Unfailed(VmApply(s, a))
  {
  }

  lemma SmoothKeepsPromise(c: Config, s: State, a: Action)
    requires Inv(c, s) && Unfailed(s) && Enabled(c, s, a) && IsSmooth(a)
    ensures Unfailed(Apply(c, s, a))
  {
    match a
    case Main(ma) => MainKeepsPromise(c, s, ma);
    case Vm(va) => VmKeepsPromise(c, s, va);
    case Mirror(w, pa) =>
      StepKeepsInv(c, s, a);
      var p := ProcOf(s, w);
      SmoothStaysUnfailed(ViewOf(s), p, pa);
      MirrorStaysUnfailed(s, w, ProcApply(ViewOf(s), p, pa), pa, MirrorEvents(w, p, pa));
  }

  lemma StepKeepsFailure(c: Config, s: State, a: Action)
    requires Inv(c, s) && !Unfailed(s) && Enabled(c, s, a)
    ensures !Unfailed(Apply(c, s, a))
  {
    match a
    case CancelTask =>
    case Main(ma) => MainKeepsFailure(c, s, ma);
    case Vm(va) =>
    case Mirror(w, pa) =>
      var p := ProcOf(s, w);
      if !ProcUnfailed(p) {
        FailureStays(ViewOf(s), p, pa);
      }
      MirrorFailureStays(s, w, ProcApply(ViewOf(s), p, pa), pa, MirrorEvents(w, p, pa));
  }

  lemma MainKeepsFailure(c: Config, s: State, a: MainAction)
    requires Inv(c, s) && !Unfailed(s) && MainEnabled(c, s, a)
    ensures !Unfailed(MainApply(c, s, a))
  {
  }

  // ---------------------------------------------------------------------------
  // What is shown of a step

  /** A command that QEMU refuses has been issued all the same, and shows in the history. */
  lemma RefusedIsIssued(s: State, w: Which)
    ensures VmEnabled(s, MigrateRefused) ==> VmApply(s, MigrateRefused).log == s.log + [Migrate]
    ensures ProcEnabled(ViewOf(s), ProcOf(s, w), MirrorRefused) ==>
              MirrorApply(s, w, MirrorRefused).log == s.log + [DriveMirror(Device(w, ProcOf(s, w).next))]
    ensures ProcEnabled(ViewOf(s), ProcOf(s, w), CompleteRefused) ==>
              MirrorApply(s, w, CompleteRefused).log == s.log + [BlockJobComplete(Device(w, ProcOf(s, w).next))]
  {
  }

  // ---------------------------------------------------------------------------
  // Which steps are failures

  /** A goroutine gives up by this step: on a refusal, or because its context is done. Mirrors
      that cannot be stopped are forgiven; a finisher that notices the done context is fatal
      unless another finisher had an error before it. */
  predicate IsFatal(s: State, a: Action) {
    match a
    case CancelTask => false
    case Main(ma) => ma.FlashCancelled?
    case Mirror(w, pa) => IsProcFatal(ProcOf(s, w), pa)
    case Vm(va) =>
      || va.CapabilitiesRefused? || va.ParametersRefused? || va.MigrateRefused? || va.QueryFailed?
      || va.DisksCancelled? || va.QueryCancelled?
  }

  /** Exactly the fatal steps put an end to the hope for success. */
  lemma StepFailsIff(c: Config, s: State, a: Action)
    requires Inv(c, s) && Unfailed(s) && Enabled(c, s, a)
    ensures Unfailed(Apply(c, s, a)) <==> !IsFatal(s, a)
  {
    match a
    case CancelTask =>
    case Main(ma) => if !ma.FlashCancelled? { MainKeepsPromise(c, s, ma); }
    case Vm(va) => VmFailsIff(c, s, va);
    case Mirror(w, pa) =>
      StepKeepsInv(c, s, a);
      var p := ProcOf(s, w);
      var q := ProcApply(ViewOf(s), p, pa);
      ProcFailsIff(ViewOf(s), p, pa, if w.FlashProc? then FlashCount(c) else c.disks);
      MirrorLeavesOther(s, w, pa, w);
      if !IsProcFatal(p, pa) {
        MirrorStaysUnfailed(s, w, q, pa, MirrorEvents(w, p, pa));
      }
  }

  lemma VmFailsIff(c: Config, s: State, a: StateAction)
    requires Inv(c, s) && Unfailed(s) && VmEnabled(s, a)
    ensures Unfailed(VmApply(s, a)) <==> !IsFatal(s, Vm(a))
  {
  }

  /** After a fatal step no continuation is a success. */
  lemma FatalIsFinal(c: Config, s: State, a: Action, acts: seq<Action>, t: State)
    requires Reachable(c, s) && Enabled(c, s, a) && IsFatal(s, a) && Run(c, Apply(c, s, a), acts, t)
    ensures !Succeeded(t)
  {
    ReachableInv(c, s);
    StepKeepsInv(c, s, a);
    if Unfailed(s) {
      StepFailsIff(c, s, a);
    } else {
      StepKeepsFailure(c, s, a);
    }
    if Succeeded(t) {
      FailureIsFinal(c, Apply(c, s, a), acts, t);
    }
  }

  /** QEMU may answer every request of a processor as it likes. */
  lemma AnswersOfProcAreFree(v: View, p: Proc, i: nat)
    ensures ProcEnabled(v, p, MirrorAccepted) <==> ProcEnabled(v, p, MirrorRefused)
    ensures ProcEnabled(v, p, MirrorAccepted) <==> ProcEnabled(v, p, OverrideInvalid)
    ensures ProcEnabled(v, p, JobRunning(i)) <==> ProcEnabled(v, p, JobNeverRan(i))
    ensures ProcEnabled(v, p, ReaderReady(i)) <==> ProcEnabled(v, p, ReaderNotReady(i))
    ensures ProcEnabled(v, p, ReaderReady(i)) <==> ProcEnabled(v, p, ReaderBroken(i))
  {
  }

  lemma LaterAnswersAreFree(v: View, p: Proc, i: nat)
    ensures ProcEnabled(v, p, StatePoll) <==> ProcEnabled(v, p, StatePollBroken)
    ensures ProcEnabled(v, p, CompleteAccepted) <==> ProcEnabled(v, p, CompleteRefused)
    ensures ProcEnabled(v, p, FinisherDone(i)) <==> ProcEnabled(v, p, FinisherPending(i))
    ensures ProcEnabled(v, p, FinisherDone(i)) <==> ProcEnabled(v, p, FinisherBroken(i))
  {
  }

  /** And a done context may be noticed wherever a job or the machine state is waited for. */
  lemma CancellationIsNoticed(v: View, p: Proc, i: nat)
    ensures v.cancelled ==> (ProcEnabled(v, p, ReaderReady(i)) <==> ProcEnabled(v, p, ReaderCancelled(i)))
    ensures v.cancelled ==> (ProcEnabled(v, p, StatePoll) <==> ProcEnabled(v, p, StateCancelled))
    ensures v.cancelled ==> (ProcEnabled(v, p, FinisherDone(i)) <==> ProcEnabled(v, p, FinisherCancelled(i)))
  {
  }

  lemma AnswersToStateAreFree(s: State)
    ensures VmEnabled(s, CapabilitiesSet) <==> VmEnabled(s, CapabilitiesRefused)
    ensures VmEnabled(s, ParametersSet) <==> VmEnabled(s, ParametersRefused)
    ensures VmEnabled(s, MigrateAccepted) <==> VmEnabled(s, MigrateRefused)
    ensures VmEnabled(s, QueryCompleted) <==> VmEnabled(s, QueryPending)
    ensures VmEnabled(s, QueryCompleted) <==> VmEnabled(s, QueryFailed)
    ensures s.cancelled ==> (VmEnabled(s, QueryCompleted) <==> VmEnabled(s, QueryCancelled))
    ensures s.cancelled ==> (s.vm == AwaitDisks <==> VmEnabled(s, DisksCancelled))
  {
  }

  /** A goroutine reacts to a cancellation only if there was one, or an error in its group. */
  lemma NoReactionWithoutCause(c: Config, s: State, a: Action)
    requires Enabled(c, s, a) && IsReaction(a)
    ensures s.cancelled || (a.Mirror? && (ProcOf(s, a.w).readErr.Some? || ProcOf(s, a.w).finishErr.Some?))
  {
  }

  lemma SuccessIsUnfailed(c: Config, s: State)
    requires Inv(c, s) && Succeeded(s)
    ensures Unfailed(s)
  {
  }

  lemma {:induction false} FailureIsFinal(c: Config, s: State, acts: seq<Action>, t: State)
    requires Inv(c, s) && Run(c, s, acts, t) && Succeeded(t)
    ensures Unfailed(s)
    decreases |acts|
  {
    if acts == [] {
      SuccessIsUnfailed(c, s);
    } else {
      StepKeepsInv(c, s, acts[0]);
      FailureIsFinal(c, Apply(c, s, acts[0]), acts[1..], t);
      if !Unfailed(s) {
        StepKeepsFailure(c, s, acts[0]);
      }
    }
  }

  ghost predicate AllSmooth(acts: seq<Action>) {
    forall a :: a in acts ==> IsSmooth(a)
  }

  /** One such step. */
  lemma SmoothStep(c: Config, s: State) returns (a: Action, t: State)
    requires Inv(c, s) && Unfailed(s) && !Succeeded(s)
    ensures Enabled(c, s, a) && IsSmooth(a) && t == Apply(c, s, a)
    ensures Inv(c, t) && Unfailed(t) && Measure(t) < Measure(s) && !t.main.Concluded?
  {
    a := UnfailedCanMove(c, s);
    StepDecreases(c, s, a);
    StepKeepsInv(c, s, a);
    SmoothKeepsPromise(c, s, a);
    t := Apply(c, s, a);
    OnlyQuitConcludes(c, s, a);
  }

  lemma OnlyQuitConcludes(c: Config, s: State, a: Action)
    requires Enabled(c, s, a) && !Succeeded(s)
    ensures !Apply(c, s, a).main.Concluded?
  {
  }

  lemma {:induction false} SmoothRun(c: Config, s: State) returns (acts: seq<Action>, t: State)
    requires Inv(c, s) && Unfailed(s)
    ensures Run(c, s, acts, t) && AllSmooth(acts) && Succeeded(t)
    ensures !s.main.Concluded? ==> t.main == Returned(true)
    decreases Measure(s)
  {
    if Succeeded(s) {
      acts, t := [], s;
    } else {
      var a, next := SmoothStep(c, s);
      var more;
      more, t := SmoothRun(c, next);
      RunCons(c, s, a, more, t);
      acts := [a] + more;
    }
  }

  lemma RunCons(c: Config, s: State, a: Action, acts: seq<Action>, t: State)
    requires Enabled(c, s, a) && Run(c, Apply(c, s, a), acts, t)
    ensures Run(c, s, [a] + acts, t)
  {
    assert ([a] + acts)[1..] == acts;
  }

  ghost predicate CanSucceed(c: Config, s: State) {
    exists acts, t :: Run(c, s, acts, t) && Succeeded(t)
  }

  /** From a reachable state `Main` can still return nil if and only if nothing has failed;
      a cancellation that nobody has noticed is not in the way. */
  lemma CanSucceedIff(c: Config, s: State)
    requires Reachable(c, s)
    ensures CanSucceed(c, s) <==> Unfailed(s)
  {
    ReachableInv(c, s);
    if Unfailed(s) {
      var acts, t := SmoothRun(c, s);
    }
    if acts, t :| Run(c, s, acts, t) && Succeeded(t) {
      FailureIsFinal(c, s, acts, t);
    }
  }

  /** In particular every machine can be migrated. */
  lemma MigrationCanSucceed(c: Config) returns (acts: seq<Action>, t: State)
    ensures Run(c, Init(c), acts, t) && AllSmooth(acts) && Succeeded(t)
  {
    InitKeepsInv(c);
    acts, t := SmoothRun(c, Init(c));
  }

  // ---------------------------------------------------------------------------
  // Mirrors may be told to complete although the state has not moved

  ghost predicate CompletesUnmoved(s: State, k: int, d: Device) {
    0 <= k < |s.log| && s.log[k] == BlockJobComplete(d) && MigrateCompleted !in s.log[..k]
  }

  ghost predicate CanCompleteUnmoved(c: Config) {
    exists s, k, d :: Reachable(c, s) && CompletesUnmoved(s, k, d)
  }

  /** The mirrors become ready while the state goroutine waits for them. */
  lemma {:induction false} MirrorsReady(c: Config, s: State) returns (t: State)
    requires Reachable(c, s) && s.main == Joining && s.vm == AwaitDisks && !s.panicked
    requires s.disks.pc.Mirroring? || s.disks.pc.Announcing? || s.disks.pc.AwaitingState?
    requires ProcUnfailed(s.disks)
    ensures Reachable(c, t) && t.main == Joining && t.vm == AwaitDisks && !t.panicked
    ensures t.disks.pc == AwaitingState
    decreases ProcMeasure(s.disks)
  {
    ReachableInv(c, s);
    if s.disks.pc.AwaitingState? {
      t := s;
    } else {
      var a := ProcCanMove(ViewOf(s), s.disks, c.disks);
      ProcStepDecreases(ViewOf(s), s.disks, a, c.disks);
      SmoothStaysUnfailed(ViewOf(s), s.disks, a);
      StepShape(ViewOf(s), s.disks, a, c.disks);
      t := ExtendMirror(c, s, DisksProc, a);
      ReachableInv(c, t);
      t := MirrorsReady(c, t);
    }
  }

  /** The state goroutine gives up while a processor waits for it. */
  lemma StateGivesUp(c: Config, s: State, w: Which) returns (t: State)
    requires Reachable(c, s) && s.vm == AwaitDisks && !s.panicked && ProcOf(s, w).pc.AwaitingState?
    ensures Reachable(c, t) && t.vm == StateReturned(false) && !t.panicked && StateMigrated in t.closed
    ensures ProcOf(t, w) == ProcOf(s, w)
  {
    ReachableInv(c, s);
    t := s;
    if !t.cancelled {
      t := Extend(c, t, CancelTask);
    }
    t := ExtendVm(c, t, DisksCancelled);
    t := ExtendVm(c, t, CloseState);
  }

  /** The processor takes that for the end of the state migration and goes on. */
  lemma CompletesAfterFailure(c: Config, s: State, w: Which) returns (t: State, k: nat)
    requires Reachable(c, s) && s.vm == StateReturned(false) && !s.panicked && StateMigrated in s.closed
    requires ProcOf(s, w).pc.AwaitingState? && IsDevice(c, Device(w, 0))
    ensures Reachable(c, t) && CompletesUnmoved(t, k, Device(w, 0))
  {
    ReachableInv(c, s);
    t := ExtendMirror(c, s, w, StateSeen);
    assert ProcOf(t, w).next == 0 && ProcOf(t, w).pc == Completing;
    t := Completes(c, t, w);
    ReachableInv(c, t);
    k := |t.log| - 1;
    assert MigrateCompleted !in t.log;
  }

  lemma Completes(c: Config, s: State, w: Which) returns (t: State)
    requires Reachable(c, s) && !s.panicked && IsDevice(c, Device(w, 0))
    requires ProcOf(s, w).pc == Completing && ProcOf(s, w).next == 0
    ensures Reachable(c, t) && t.vm == s.vm && t.log == s.log + [BlockJobComplete(Device(w, 0))]
  {
    ReachableInv(c, s);
    t := ExtendMirror(c, s, w, CompleteAccepted);
  }

  /** A machine can be migrated so that a mirror is told to complete although the state has
      not moved if and only if there is anything to mirror. */
  lemma CompleteCanFollowAFailureIff(c: Config)
    ensures CanCompleteUnmoved(c) <==> c.hasFlash || c.disks > 0
  {
    if c.hasFlash {
      var s := FlashWaits(c);
      s := StateGivesUp(c, s, FlashProc);
      var t, k := CompletesAfterFailure(c, s, FlashProc);
    } else if c.disks > 0 {
      var s := DisksWait(c);
      s := StateGivesUp(c, s, DisksProc);
      var t, k := CompletesAfterFailure(c, s, DisksProc);
    }
    if CanCompleteUnmoved(c) {
      var s, k, d :| Reachable(c, s) && CompletesUnmoved(s, k, d);
      ReachableInv(c, s);
      assert Due(c, s.log[..k], s.log[k]);
    }
  }

  lemma FlashWaits(c: Config) returns (s: State)
    requires c.hasFlash
    ensures Reachable(c, s) && s.vm == AwaitDisks && !s.panicked && s.flash.pc.AwaitingState?
  {
    s := FlashMirrorReady(c);
    s := ExtendMirror(c, s, FlashProc, CloseReady);
    s := ExtendMain(c, s, FlashSeen);
    s := ExtendMain(c, s, if c.disks > 0 then StartDisks else NoDisks);
    s := ExtendMain(c, s, StartState);
  }

  lemma DisksWait(c: Config) returns (s: State)
    requires !c.hasFlash && c.disks > 0
    ensures Reachable(c, s) && s.vm == AwaitDisks && !s.panicked && s.disks.pc.AwaitingState?
  {
    s := Init(c);
    assert Run(c, s, [], s);
    s := ExtendMain(c, s, SkipFlash);
    s := ExtendMain(c, s, StartDisks);
    s := ExtendMain(c, s, StartState);
    s := MirrorsReady(c, s);
  }

  // ---------------------------------------------------------------------------
  // `Main` forgives mirrors that cannot be stopped

  ghost predicate Forgives(t: State) {
    t.main == Returned(true) && (HasRefused(t.flash) || HasRefused(t.disks))
  }

  ghost predicate CanForgive(c: Config) {
    exists t :: Reachable(c, t) && Forgives(t)
  }

  /** Good news lead a processor to the point where it stops its mirrors. */
  lemma {:induction false} ReachesCompleting(c: Config, s: State, w: Which) returns (t: State)
    requires Reachable(c, s) && Unfailed(s) && IsEarly(ProcOf(s, w)) && IsDevice(c, Device(w, 0))
    ensures Reachable(c, t) && Unfailed(t) && ProcOf(t, w).pc == Completing && ProcOf(t, w).next == 0
    decreases Measure(s)
  {
    ReachableInv(c, s);
    EarlyIsUnfinished(c, s, w);
    var a;
    a, t := SmoothStep(c, s);
    t := Extend(c, s, a);
    SmoothPasses(c, s, a, w);
    if IsEarly(ProcOf(t, w)) {
      t := ReachesCompleting(c, t, w);
    }
  }

  lemma SmoothPasses(c: Config, s: State, a: Action, w: Which)
    requires Unfailed(s) && IsEarly(ProcOf(s, w)) && Enabled(c, s, a) && IsSmooth(a)
    ensures var q := ProcOf(Apply(c, s, a), w); IsEarly(q) || (q.pc == Completing && q.next == 0)
  {
    match a
    case CancelTask =>
    case Main(ma) =>
    case Vm(va) =>
    case Mirror(w', pa) =>
      MirrorLeavesOther(s, w', pa, w);
      if w' == w {
        SmoothPassesCompleting(ViewOf(s), ProcOf(s, w), pa);
      }
  }

  /** A step of one processor is its own affair. */
  lemma MirrorLeavesOther(s: State, w: Which, a: ProcAction, other: Which)
    requires ProcEnabled(ViewOf(s), ProcOf(s, w), a)
    ensures ProcOf(MirrorApply(s, w, a), w) == ProcApply(ViewOf(s), ProcOf(s, w), a)
    ensures w != other ==> ProcOf(MirrorApply(s, w, a), other) == ProcOf(s, other)
  {
    MirrorResultProcs(s, w, ProcApply(ViewOf(s), ProcOf(s, w), a), a, MirrorEvents(w, ProcOf(s, w), a));
  }

  lemma MirrorResultProcs(s: State, w: Which, q: Proc, a: ProcAction, es: seq<Event>)
    ensures ProcOf(MirrorResult(s, w, q, a, es), w) == q
    ensures forall other :: other != w ==> ProcOf(MirrorResult(s, w, q, a, es), other) == ProcOf(s, other)
  {
  }

  lemma EarlyIsUnfinished(c: Config, s: State, w: Which)
    requires Inv(c, s) && Unfailed(s) && IsEarly(ProcOf(s, w)) && IsDevice(c, Device(w, 0))
    ensures !Succeeded(s)
  {
  }

  lemma RefusedIsNoFailure(c: Config, s: State, w: Which) returns (t: State)
    requires Reachable(c, s) && Unfailed(s) && IsDevice(c, Device(w, 0))
    requires ProcOf(s, w).pc == Completing && ProcOf(s, w).next == 0
    ensures Reachable(c, t) && Unfailed(t) && HasRefused(ProcOf(t, w)) && !t.main.Concluded?
  {
    ReachableInv(c, s);
    t := ExtendMirror(c, s, w, CompleteRefused);
    var q := ProcOf(t, w);
    assert q.finishers[0] == Refused;
    MirrorStaysUnfailed(s, w, q, CompleteRefused, MirrorEvents(w, ProcOf(s, w), CompleteRefused));
  }

  lemma StepKeepsRefusal(c: Config, s: State, a: Action, w: Which)
    requires Inv(c, s) && Enabled(c, s, a) && HasRefused(ProcOf(s, w))
    ensures HasRefused(ProcOf(Apply(c, s, a), w))
  {
    match a
    case CancelTask =>
    case Main(ma) => MainLeavesFinishers(c, s, ma, w);
    case Vm(va) => VmLeavesProcs(s, va, w);
    case Mirror(w', pa) =>
      MirrorLeavesOther(s, w', pa, w);
      if w' == w {
        RefusalStays(ViewOf(s), ProcOf(s, w), pa);
      }
  }

  lemma MainLeavesFinishers(c: Config, s: State, a: MainAction, w: Which)
    requires MainEnabled(c, s, a)
    ensures ProcOf(MainApply(c, s, a), w).finishers == ProcOf(s, w).finishers
  {
  }

  lemma VmLeavesProcs(s: State, a: StateAction, w: Which)
    requires VmEnabled(s, a)
    ensures ProcOf(VmApply(s, a), w) == ProcOf(s, w)
  {
  }

  lemma {:induction false} RunKeepsRefusal(c: Config, s: State, acts: seq<Action>, t: State, w: Which)
    requires Inv(c, s) && Run(c, s, acts, t) && HasRefused(ProcOf(s, w))
    ensures HasRefused(ProcOf(t, w))
    decreases |acts|
  {
    if acts != [] {
      StepKeepsInv(c, s, acts[0]);
      StepKeepsRefusal(c, s, acts[0], w);
      RunKeepsRefusal(c, Apply(c, s, acts[0]), acts[1..], t, w);
    }
  }

  lemma {:induction false} RunJoins(c: Config, s: State, acts: seq<Action>, t: State, more: seq<Action>, u: State)
    requires Run(c, s, acts, t) && Run(c, t, more, u)
    ensures Run(c, s, acts + more, u)
    decreases |acts|
  {
    if acts == [] {
      assert acts + more == more;
    } else {
      RunJoins(c, Apply(c, s, acts[0]), acts[1..], t, more, u);
      assert (acts + more)[1..] == acts[1..] + more;
    }
  }

  lemma ForgivesAt(c: Config, w: Which) returns (t: State)
    requires IsDevice(c, Device(w, 0))
    ensures Reachable(c, t) && Forgives(t)
  {
    assert Run(c, Init(c), [], Init(c));
    var s := ReachesCompleting(c, Init(c), w);
    s := RefusedIsNoFailure(c, s, w);
    t := GoesOnTo(c, s, w);
  }

  lemma GoesOnTo(c: Config, s: State, w: Which) returns (t: State)
    requires Reachable(c, s) && Unfailed(s) && HasRefused(ProcOf(s, w)) && !s.main.Concluded?
    ensures Reachable(c, t) && t.main == Returned(true) && HasRefused(ProcOf(t, w))
  {
    ReachableInv(c, s);
    var more;
    more, t := SmoothRun(c, s);
    RunKeepsRefusal(c, s, more, t, w);
    var acts :| Run(c, Init(c), acts, s);
    RunJoins(c, Init(c), acts, s, more, t);
  }

  /** `Main` can return nil although QEMU refused to stop a mirror if and only if there is
      anything to mirror. */
  lemma RefusalIsForgivenIff(c: Config)
    ensures CanForgive(c) <==> c.hasFlash || c.disks > 0
  {
    if c.hasFlash {
      var t := ForgivesAt(c, FlashProc);
    } else if c.disks > 0 {
      var t := ForgivesAt(c, DisksProc);
    }
    if CanForgive(c) {
      var t :| Reachable(c, t) && Forgives(t);
      ReachableInv(c, t);
    }
  }
}
