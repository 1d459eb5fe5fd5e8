/** What every step of a live migration keeps, whatever the interleaving. */
module MigrationSafety {
  import opened MirrorProcessor
  import opened Migration

  // ---------------------------------------------------------------------------
  // The grammar of logs

  ghost predicate IsDevice(c: Config, d: Device) {
    if d.proc.FlashProc? then c.hasFlash && d.i == 0 else d.i < c.disks
  }

  ghost predicate AllReadyIn(c: Config, past: seq<Event>) {
    forall d :: IsDevice(c, d) ==> JobReady(d) in past
  }

  ghost predicate AllCompletedIn(c: Config, past: seq<Event>) {
    forall d :: IsDevice(c, d) ==> BlockJobComplete(d) in past
  }

  /** What must already have happened when an event happens. */
  ghost predicate Due(c: Config, past: seq<Event>, e: Event) {
    match e
    case DriveMirror(d) =>
      IsDevice(c, d) && (d.proc.DisksProc? && c.hasFlash ==> JobReady(Device(FlashProc, 0)) in past)
    case JobReady(d) => IsDevice(c, d) && DriveMirror(d) in past
    case Closed(ch) => Closed(ch) !in past && (ch.DisksReady? && c.hasFlash ==> Closed(FlashReady) in past)
    case CapabilitiesTaken => AllReadyIn(c, past)
    case ParametersTaken => CapabilitiesTaken in past
    case Migrate => AllReadyIn(c, past) && ParametersTaken in past && Migrate !in past
    case MigrateCompleted => Migrate in past && Closed(StateMigrated) !in past
    case BlockJobComplete(d) => IsDevice(c, d) && JobReady(d) in past && Closed(StateMigrated) in past
    case SourceQuit => MigrateCompleted in past && AllReadyIn(c, past) && AllCompletedIn(c, past)
  }

  ghost predicate Lawful(c: Config, log: seq<Event>) {
    forall k :: 0 <= k < |log| ==> Due(c, log[..k], log[k])
  }

  lemma LawfulAppend(c: Config, log: seq<Event>, e: Event)
    requires Lawful(c, log) && Due(c, log, e)
    ensures Lawful(c, log + [e])
  {
    var log' := log + [e];
    forall k | 0 <= k < |log'| ensures Due(c, log'[..k], log'[k]) {
      assert log'[..k] == if k < |log| then log[..k] else log;
    }
  }

  // ---------------------------------------------------------------------------
  // The invariant

  function FlashCount(c: Config): nat { if c.hasFlash then 1 else 0 }

  /** Main has left the errgroup, or is about to, without having launched everything. */
  ghost predicate LeavingEarly(s: State) {
    s.vm.Unlaunched? &&
    (s.main.FlashCleanup? || s.main.FlashCleanupClose? || s.main.DisksCleanup? || s.main.DisksCleanupClose? ||
     s.main.Returned?)
  }

  ghost predicate Leaving(s: State) {
    s.main.FlashCleanup? || s.main.FlashCleanupClose? || s.main.DisksCleanup? || s.main.DisksCleanupClose? ||
    s.main.Returned? || s.main.Concluded?
  }

  function ExitOk(s: State): bool
    requires Leaving(s)
  {
    if s.main.Concluded? then true else s.main.ok
  }

  /** Where Main stands decides which goroutines exist. */
  ghost predicate MainInv(c: Config, s: State) {
    && (s.main.Begin? ==> s.flash.pc.NotStarted?)
    && (!c.hasFlash ==>
          s.flash.pc.NotStarted? && !s.main.AwaitFlash? && !s.main.FlashCleanup? && !s.main.FlashCleanupClose?)
    && (s.main.AwaitFlash? ==> !s.flash.pc.NotStarted?)
    && (s.main.Begin? || s.main.AwaitFlash? || s.main.LaunchDisks? ==> s.disks.pc.NotStarted?)
    && (s.main.LaunchDisks? || s.main.LaunchState? || s.main.Joining? ==>
          c.hasFlash ==> FlashReady in s.closed && !s.flash.pc.NotStarted?)
    && (s.main.LaunchState? || s.main.Joining? ==> (s.disks.pc.NotStarted? <==> c.disks == 0))
    && (c.disks == 0 ==> s.disks.pc.NotStarted?)
    && (s.vm.Unlaunched? <==>
          s.main.Begin? || s.main.AwaitFlash? || s.main.LaunchDisks? || s.main.LaunchState? || LeavingEarly(s))
    && (Leaving(s) ==> s.cancelled)
    && (LeavingEarly(s) ==> c.hasFlash && s.disks.pc.NotStarted? && !s.main.ok && !s.flash.pc.NotStarted?)
    && (Leaving(s) && !LeavingEarly(s) ==>
          && s.vm.StateExited? && ProcDone(s.flash) && ProcDone(s.disks)
          && (c.hasFlash ==> s.flash.pc.Exited?) && (c.disks > 0 ==> s.disks.pc.Exited?)
          && ExitOk(s) == !s.groupFailed)
  }

  /** Who has closed which channel. */
  ghost predicate ChannelInv(c: Config, s: State) {
    && (s.flash.pc.AwaitingState? || s.flash.pc.Completing? ==> FlashReady in s.closed)
    && (s.flash.pc.Returning? || s.flash.pc.Exited? ==> s.flash.pc.exit.Success? ==> FlashReady in s.closed)
    && (s.disks.pc.AwaitingState? || s.disks.pc.Completing? ==> DisksReady in s.closed)
    && (s.disks.pc.Returning? || s.disks.pc.Exited? ==> s.disks.pc.exit.Success? ==> DisksReady in s.closed)
    && (FlashReady in s.closed ==> c.hasFlash && !s.main.Begin?)
    && (FlashReady in s.closed && !LeavingEarly(s) ==> AllReady(s.flash))
    && (DisksReady in s.closed && !Leaving(s) ==> AllReady(s.disks))
    && (DisksReady in s.closed ==> !s.main.Begin? && !s.main.AwaitFlash? && !s.main.LaunchDisks?)
    && (LeavingEarly(s) && DisksReady in s.closed ==> s.main.Returned?)
    && (s.main.DisksCleanupClose? ==> DisksReady !in s.closed)
    && (s.main.LaunchState? || s.main.Joining? ==> c.disks == 0 ==> DisksReady in s.closed)
    && (s.main.Returned? || s.main.Concluded? ==> DisksReady in s.closed)
    && (s.main.DisksCleanup? || s.main.DisksCleanupClose? || s.main.Returned? || s.main.Concluded? ==>
          c.hasFlash ==> FlashReady in s.closed)
    && ((s.flash.pc.Mirroring? || s.flash.pc.Announcing?) && FlashReady in s.closed ==> LeavingEarly(s))
    && (s.main.FlashCleanupClose? && FlashReady in s.closed ==> LeavingEarly(s))
    && (s.disks.pc.Mirroring? || s.disks.pc.Announcing? ==> DisksReady !in s.closed)
    && (s.vm.SetCapabilities? || s.vm.SetParameters? || s.vm.IssueMigrate? || s.vm.PollMigrate? ==>
          DisksReady in s.closed)
    && (StateMigrated in s.closed <==> s.vm.StateReturned? || s.vm.StateExited?)
    && (s.flash.pc.Completing? || s.disks.pc.Completing? ==> StateMigrated in s.closed)
    && (Leaving(s) && !LeavingEarly(s) && c.hasFlash ==> FlashReady in s.closed)
    && (s.panicked ==> LeavingEarly(s))
  }

  ghost predicate FailureInv(s: State) {
    && (s.groupFailed ==> s.cancelled)
    && (s.flash.pc.Exited? && s.flash.pc.exit.Failure? ==> s.groupFailed)
    && (s.disks.pc.Exited? && s.disks.pc.exit.Failure? ==> s.groupFailed)
    && (s.vm.StateExited? && !s.vm.ok ==> s.groupFailed)
  }

  /** What the log remembers of the disks of one processor. */
  ghost predicate Recorded(w: Which, p: Proc, log: seq<Event>) {
    && (forall i :: 0 <= i < |p.readers| && p.readers[i] == Gone(Success) ==> JobReady(Device(w, i)) in log)
    && (forall i :: 0 <= i < |p.readers| && p.readers[i] != Unborn ==> DriveMirror(Device(w, i)) in log)
    && (forall i :: 0 <= i < |p.finishers| && p.finishers[i] != Unborn ==> BlockJobComplete(Device(w, i)) in log)
  }

  /** What the log remembers of the channels, the state goroutine and `Main`. */
  ghost predicate OuterLogInv(s: State) {
    && (forall ch :: Closed(ch) in s.log <==> ch in s.closed)
    && (s.vm.SetParameters? || s.vm.IssueMigrate? ==> CapabilitiesTaken in s.log)
    && (s.vm.IssueMigrate? ==> ParametersTaken in s.log)
    && (s.vm.PollMigrate? ==> Migrate in s.log)
    && (Migrate in s.log ==> s.vm.PollMigrate? || s.vm.Closing? || s.vm.StateReturned? || s.vm.StateExited?)
    && (MigrateCompleted in s.log <==> (s.vm.Closing? || s.vm.StateReturned? || s.vm.StateExited?) && s.vm.ok)
    && (SourceQuit in s.log ==> s.main.Concluded?)
  }

  /** What the log remembers of the present state. */
  ghost predicate LogInv(c: Config, s: State) {
    OuterLogInv(s) && Recorded(FlashProc, s.flash, s.log) && Recorded(DisksProc, s.disks, s.log)
  }

  ghost predicate Control(c: Config, s: State) {
    && ProcInv(s.flash, FlashCount(c))
    && ProcInv(s.disks, c.disks)
    && MainInv(c, s)
    && ChannelInv(c, s)
    && FailureInv(s)
  }

  ghost predicate Inv(c: Config, s: State) {
    Control(c, s) && LogInv(c, s) && Lawful(c, s.log)
  }

  lemma InitKeepsInv(c: Config)
    ensures Inv(c, Init(c))
  {
    FreshInv(FlashCount(c));
    FreshInv(c.disks);
  }

  lemma MainControl(c: Config, s: State, a: MainAction)
    requires Control(c, s) && !s.panicked && MainEnabled(c, s, a)
    ensures Control(c, MainApply(c, s, a))
  {
    MainKeepsProcs(c, s, a);
    MainKeepsPlace(c, s, a);
    MainKeepsChannels(c, s, a);
  }

  lemma MainKeepsProcs(c: Config, s: State, a: MainAction)
    requires ProcInv(s.flash, FlashCount(c)) && ProcInv(s.disks, c.disks) && MainInv(c, s) && MainEnabled(c, s, a)
    ensures ProcInv(MainApply(c, s, a).flash, FlashCount(c)) && ProcInv(MainApply(c, s, a).disks, c.disks)
  {
  }

  lemma MainKeepsPlace(c: Config, s: State, a: MainAction)
    requires MainInv(c, s) && ChannelInv(c, s) && FailureInv(s) && !s.panicked && MainEnabled(c, s, a)
    ensures MainInv(c, MainApply(c, s, a)) && FailureInv(MainApply(c, s, a))
  {
  }

  lemma MainKeepsChannels(c: Config, s: State, a: MainAction)
    requires Control(c, s) && !s.panicked && MainEnabled(c, s, a)
    ensures ChannelInv(c, MainApply(c, s, a))
  {
  }

  lemma VmControl(c: Config, s: State, a: StateAction)
    requires Control(c, s) && !s.panicked && VmEnabled(s, a)
    ensures Control(c, VmApply(s, a))
  {
  }

  lemma MirrorControlShape(c: Config, s: State, w: Which, q: Proc, a: ProcAction, es: seq<Event>)
    requires Control(c, s) && !s.panicked
    requires Shape(ViewOf(s), ProcOf(s, w), q, a)
    requires ProcInv(q, if w.FlashProc? then FlashCount(c) else c.disks)
    ensures Control(c, MirrorResult(s, w, q, a, es))
  {
    MirrorKeepsPlace(c, s, w, q, a, es);
    MirrorKeepsChannels(c, s, w, q, a, es);
  }

  lemma MirrorKeepsPlace(c: Config, s: State, w: Which, q: Proc, a: ProcAction, es: seq<Event>)
    requires MainInv(c, s) && ChannelInv(c, s) && FailureInv(s) && !s.panicked
    requires Shape(ViewOf(s), ProcOf(s, w), q, a)
    ensures MainInv(c, MirrorResult(s, w, q, a, es)) && FailureInv(MirrorResult(s, w, q, a, es))
  {
  }

  lemma MirrorKeepsChannels(c: Config, s: State, w: Which, q: Proc, a: ProcAction, es: seq<Event>)
    requires Control(c, s) && !s.panicked
    requires Shape(ViewOf(s), ProcOf(s, w), q, a)
    requires ProcInv(q, if w.FlashProc? then FlashCount(c) else c.disks)
    ensures ChannelInv(c, MirrorResult(s, w, q, a, es))
  {
  }

  lemma MirrorControl(c: Config, s: State, w: Which, a: ProcAction)
    requires Control(c, s) && !s.panicked && ProcEnabled(ViewOf(s), ProcOf(s, w), a)
    ensures Control(c, MirrorApply(s, w, a))
  {
    var p := ProcOf(s, w);
    ProcStepKeepsInv(ViewOf(s), p, a, if w.FlashProc? then FlashCount(c) else c.disks);
    StepShape(ViewOf(s), p, a, if w.FlashProc? then FlashCount(c) else c.disks);
    MirrorControlShape(c, s, w, ProcApply(ViewOf(s), p, a), a, MirrorEvents(w, p, a));
  }

  lemma MainLog(c: Config, s: State, a: MainAction)
    requires Control(c, s) && LogInv(c, s) && !s.panicked && MainEnabled(c, s, a)
    ensures LogInv(c, MainApply(c, s, a))
  {
    MainOuterLog(c, s, a);
    MainRecords(c, s, a);
  }

  lemma MainOuterLog(c: Config, s: State, a: MainAction)
    requires MainInv(c, s) && ChannelInv(c, s) && OuterLogInv(s) && !s.panicked && MainEnabled(c, s, a)
    ensures OuterLogInv(MainApply(c, s, a))
  {
  }

  /** A step of `Main` starts mirrors at most; it adds to the log at most. */
  lemma MainRecords(c: Config, s: State, a: MainAction)
    requires LogInv(c, s) && MainEnabled(c, s, a)
    ensures Recorded(FlashProc, MainApply(c, s, a).flash, MainApply(c, s, a).log)
    ensures Recorded(DisksProc, MainApply(c, s, a).disks, MainApply(c, s, a).log)
  {
    var t := MainApply(c, s, a);
    var es := t.log[|s.log|..];
    assert t.log == s.log + es;
    RecordedGrows(FlashProc, s.flash, s.log, es);
    RecordedGrows(DisksProc, s.disks, s.log, es);
  }

  lemma VmLog(c: Config, s: State, a: StateAction)
    requires Control(c, s) && LogInv(c, s) && !s.panicked && VmEnabled(s, a)
    ensures LogInv(c, VmApply(s, a))
  {
    VmOuterLog(c, s, a);
    var t := VmApply(s, a);
    var es := t.log[|s.log|..];
    VmLogGrows(s, a);
    RecordedGrows(FlashProc, s.flash, s.log, es);
    RecordedGrows(DisksProc, s.disks, s.log, es);
  }

  lemma VmOuterLog(c: Config, s: State, a: StateAction)
    requires ChannelInv(c, s) && OuterLogInv(s) && !s.panicked && VmEnabled(s, a)
    ensures OuterLogInv(VmApply(s, a))
  {
  }

  lemma VmLogGrows(s: State, a: StateAction)
    requires VmEnabled(s, a)
    ensures var t := VmApply(s, a);
            s.log <= t.log && t.log == s.log + t.log[|s.log|..] && t.flash == s.flash && t.disks == s.disks
  {
  }

  lemma RecordedGrows(w: Which, p: Proc, log: seq<Event>, es: seq<Event>)
    requires Recorded(w, p, log)
    ensures Recorded(w, p, log + es)
  {
  }

  lemma StepRecorded(v: View, w: Which, p: Proc, a: ProcAction, log: seq<Event>)
    requires ProcEnabled(v, p, a) && Recorded(w, p, log)
    ensures Recorded(w, ProcApply(v, p, a), log + MirrorEvents(w, p, a))
  {
    RecordedGrows(w, p, log, MirrorEvents(w, p, a));
  }

  /** The part of LogInv that does not look into the processors. */
  lemma MirrorLog(c: Config, s: State, w: Which, a: ProcAction)
    requires LogInv(c, s) && ProcEnabled(ViewOf(s), ProcOf(s, w), a)
    ensures LogInv(c, MirrorApply(s, w, a))
  {
    var p, q := ProcOf(s, w), ProcApply(ViewOf(s), ProcOf(s, w), a);
    var es := MirrorEvents(w, p, a);
    StepRecorded(ViewOf(s), w, p, a, s.log);
    RecordedGrows(FlashProc, s.flash, s.log, es);
    RecordedGrows(DisksProc, s.disks, s.log, es);
    MirrorLogShape(c, s, w, q, a, es);
  }

  lemma MirrorLogShape(c: Config, s: State, w: Which, q: Proc, a: ProcAction, es: seq<Event>)
    requires LogInv(c, s)
    requires Recorded(FlashProc, WithProc(s, w, q).flash, s.log + es)
    requires Recorded(DisksProc, WithProc(s, w, q).disks, s.log + es)
    requires forall e :: e in es ==> e.JobReady? || e.DriveMirror? || e.BlockJobComplete?
    ensures LogInv(c, MirrorResult(s, w, q, a, es))
  {
    MirrorOuterLog(s, w, q, a, es);
    var s' := WithProc(s, w, q).(log := s.log + es);
    RecordedGrows(FlashProc, s'.flash, s'.log, [Closed(ReadyChannel(w))]);
    RecordedGrows(DisksProc, s'.disks, s'.log, [Closed(ReadyChannel(w))]);
  }

  lemma MirrorOuterLog(s: State, w: Which, q: Proc, a: ProcAction, es: seq<Event>)
    requires OuterLogInv(s)
    requires forall e :: e in es ==> e.JobReady? || e.DriveMirror? || e.BlockJobComplete?
    ensures OuterLogInv(MirrorResult(s, w, q, a, es))
  {
    assert OuterLogInv(s.(log := s.log + es));
  }

  // ---------------------------------------------------------------------------
  // Every event is due when it happens

  lemma MainLawful(c: Config, s: State, a: MainAction)
    requires Inv(c, s) && !s.panicked && MainEnabled(c, s, a)
    ensures Lawful(c, MainApply(c, s, a).log)
  {
    if a.Quit? {
      QuitIsDue(c, s);
      LawfulAppend(c, s.log, SourceQuit);
    } else if MainApply(c, s, a).log != s.log {
      LawfulAppend(c, s.log, Closed(if a.CloseFlash? then FlashReady else DisksReady));
    }
  }

  lemma QuitIsDue(c: Config, s: State)
    requires Control(c, s) && LogInv(c, s) && s.main == Returned(true)
    ensures Due(c, s.log, SourceQuit)
  {
    forall d | IsDevice(c, d) ensures JobReady(d) in s.log && BlockJobComplete(d) in s.log {
      var p := ProcOf(s, d.proc);
      assert p.readers[d.i] == Gone(Success) && p.finishers[d.i] != Unborn;
    }
  }

  lemma MigrateIsDue(c: Config, s: State)
    requires Control(c, s) && LogInv(c, s) && s.vm == IssueMigrate
    ensures Due(c, s.log, Migrate)
  {
    assert s.main == Joining;
    forall d | IsDevice(c, d) ensures JobReady(d) in s.log {
      assert ProcOf(s, d.proc).readers[d.i] == Gone(Success);
    }
  }

  lemma CapabilitiesAreDue(c: Config, s: State)
    requires Control(c, s) && LogInv(c, s) && s.vm == SetCapabilities
    ensures Due(c, s.log, CapabilitiesTaken)
  {
    assert s.main == Joining;
    forall d | IsDevice(c, d) ensures JobReady(d) in s.log {
      assert ProcOf(s, d.proc).readers[d.i] == Gone(Success);
    }
  }

  lemma VmLawful(c: Config, s: State, a: StateAction)
    requires Inv(c, s) && !s.panicked && VmEnabled(s, a)
    ensures Lawful(c, VmApply(s, a).log)
  {
    if a.CapabilitiesSet? {
      CapabilitiesAreDue(c, s);
      LawfulAppend(c, s.log, CapabilitiesTaken);
    } else if a.ParametersSet? {
      LawfulAppend(c, s.log, ParametersTaken);
    } else if a.MigrateAccepted? || a.MigrateRefused? {
      MigrateIsDue(c, s);
      LawfulAppend(c, s.log, Migrate);
    } else if a.QueryCompleted? {
      LawfulAppend(c, s.log, MigrateCompleted);
    } else if a.CloseState? {
      LawfulAppend(c, s.log, Closed(StateMigrated));
    }
  }

  /** The events a processor step shows are due, one by one. */
  lemma MirrorEventsDue(c: Config, s: State, w: Which, a: ProcAction)
    requires Control(c, s) && LogInv(c, s) && !s.panicked
    requires ProcEnabled(ViewOf(s), ProcOf(s, w), a)
    ensures forall e :: e in MirrorEvents(w, ProcOf(s, w), a) ==> Due(c, s.log, e)
  {
    var p := ProcOf(s, w);
    match a
    case MirrorAccepted => FlashBeforeDisks(c, s, w);
    case MirrorRefused => FlashBeforeDisks(c, s, w);
    case ReaderReady(i) => assert p.readers[i] != Unborn;
    case CompleteAccepted => assert p.readers[p.next] == Gone(Success);
    case CompleteRefused => assert p.readers[p.next] == Gone(Success);
    case _ =>
  }

  lemma FlashBeforeDisks(c: Config, s: State, w: Which)
    requires Control(c, s) && LogInv(c, s) && ProcOf(s, w).pc.Mirroring?
    ensures w.DisksProc? && c.hasFlash ==> JobReady(Device(FlashProc, 0)) in s.log
  {
    if w.DisksProc? && c.hasFlash {
      assert FlashReady in s.closed && !LeavingEarly(s);
      assert s.flash.readers[0] == Gone(Success);
    }
  }

  lemma MirrorLawful(c: Config, s: State, w: Which, a: ProcAction)
    requires Inv(c, s) && !s.panicked && ProcEnabled(ViewOf(s), ProcOf(s, w), a)
    ensures Lawful(c, MirrorApply(s, w, a).log)
  {
    MirrorEventsDue(c, s, w, a);
    var es := MirrorEvents(w, ProcOf(s, w), a);
    if es != [] {
      assert es == [es[0]];
      LawfulAppend(c, s.log, es[0]);
    } else {
      assert s.log + es == s.log;
      if a.CloseReady? && ReadyChannel(w) !in s.closed {
        LawfulAppend(c, s.log, Closed(ReadyChannel(w)));
      }
    }
  }

  lemma StepKeepsInv(c: Config, s: State, a: Action)
    requires Inv(c, s) && Enabled(c, s, a)
    ensures Inv(c, Apply(c, s, a))
  {
    match a
    case CancelTask =>
    case Main(ma) => MainControl(c, s, ma); MainLog(c, s, ma); MainLawful(c, s, ma);
    case Vm(va) => VmControl(c, s, va); VmLog(c, s, va); VmLawful(c, s, va);
    case Mirror(w, pa) => MirrorControl(c, s, w, pa); MirrorLog(c, s, w, pa); MirrorLawful(c, s, w, pa);
  }

  lemma {:induction false} RunKeepsInv(c: Config, s: State, acts: seq<Action>, t: State)
    requires Inv(c, s) && Run(c, s, acts, t)
    ensures Inv(c, t)
    decreases |acts|
  {
    if acts != [] {
      StepKeepsInv(c, s, acts[0]);
      RunKeepsInv(c, Apply(c, s, acts[0]), acts[1..], t);
    }
  }

  lemma ReachableInv(c: Config, t: State)
    requires Reachable(c, t)
    ensures Inv(c, t)
  {
    var acts :| Run(c, Init(c), acts, t);
    InitKeepsInv(c);
    RunKeepsInv(c, Init(c), acts, t);
  }
}
