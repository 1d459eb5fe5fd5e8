/**
 Live migration on the source host: `Main`, the machine-state goroutine and up to two
 mirroring processors, interleaved in every possible way. Goroutines meet only through
 three one-shot channels and the errgroup context.
 */
module Migration {
  import opened MirrorProcessor

  /** What is to be moved: a firmware flash device (or not) and `disks` disks. */
  datatype Config = Config(hasFlash: bool, disks: nat)

  datatype Which = FlashProc | DisksProc

  datatype Device = Device(proc: Which, i: nat)

  datatype Channel = FlashReady | DisksReady | StateMigrated

  /** What the outside world can observe of a run, in order. */
  datatype Event =
    | DriveMirror(d: Device)       // QMP command issued
    | JobReady(d: Device)          // QEMU reported the mirror as ready
    | Closed(ch: Channel)
    | CapabilitiesTaken            // QMP command accepted
    | ParametersTaken              // QMP command accepted
    | Migrate                      // QMP command issued
    | MigrateCompleted             // query-migrate answered "completed"
    | BlockJobComplete(d: Device)  // QMP command issued
    | SourceQuit                   // QMP command issued by OnSuccess

  datatype MainPC =
    | Begin
    | AwaitFlash
    | LaunchDisks
    | LaunchState
    | Joining
    | FlashCleanup(ok: bool) | FlashCleanupClose(ok: bool)
    | DisksCleanup(ok: bool) | DisksCleanupClose(ok: bool)
    | Returned(ok: bool)
    | Concluded                    // OnSuccess has run

  /** `Closing` is the window between deciding to return and the deferred channel close. */
  datatype StatePC =
    | Unlaunched
    | AwaitDisks
    | SetCapabilities
    | SetParameters
    | IssueMigrate
    | PollMigrate
    | Closing(ok: bool)
    | StateReturned(ok: bool)
    | StateExited(ok: bool)

  datatype State = State(
    main: MainPC,
    flash: Proc,
    disks: Proc,
    vm: StatePC,
    cancelled: bool,       // the errgroup context is done
    groupFailed: bool,     // the errgroup has recorded an error
    closed: set<Channel>,
    panicked: bool,        // a closed channel was closed again
    log: seq<Event>)

  datatype MainAction =
    | StartFlash | SkipFlash
    | FlashCancelled | FlashSeen
    | StartDisks | NoDisks
    | StartState
    | Join
    | FlashAlreadyClosed | FlashStillOpen | CloseFlash
    | DisksAlreadyClosed | DisksStillOpen | CloseDisks
    | Quit

  datatype StateAction =
    | DisksSeen | DisksCancelled
    | CapabilitiesSet | CapabilitiesRefused
    | ParametersSet | ParametersRefused
    | MigrateAccepted | MigrateRefused
    | QueryPending | QueryCompleted | QueryFailed | QueryCancelled
    | CloseState
    | RetireState

  datatype Action =
    | CancelTask
    | Main(ma: MainAction)
    | Mirror(w: Which, pa: ProcAction)
    | Vm(va: StateAction)

  function Init(c: Config): State {
    State(Begin, Fresh(if c.hasFlash then 1 else 0), Fresh(c.disks), Unlaunched,
          false, false, {}, false, [])
  }

  function ProcOf(s: State, w: Which): Proc {
    if w.FlashProc? then s.flash else s.disks
  }

  function WithProc(s: State, w: Which, p: Proc): State {
    if w.FlashProc? then s.(flash := p) else s.(disks := p)
  }

  function ReadyChannel(w: Which): Channel {
    if w.FlashProc? then FlashReady else DisksReady
  }

  function ViewOf(s: State): View {
    View(s.cancelled, StateMigrated in s.closed)
  }

  predicate ProcDone(p: Proc) {
    p.pc.NotStarted? || p.pc.Exited?
  }

  /** Closing a closed channel panics, and the whole process is gone. */
  function CloseChannel(s: State, ch: Channel): State {
    if ch in s.closed then s.(panicked := true)
    else s.(closed := s.closed + {ch}, log := s.log + [Closed(ch)])
  }

  predicate MainEnabled(c: Config, s: State, a: MainAction) {
    match a
    case StartFlash => s.main == Begin && c.hasFlash
    case SkipFlash => s.main == Begin && !c.hasFlash
    case FlashCancelled => s.main == AwaitFlash && s.cancelled
    case FlashSeen => s.main == AwaitFlash && FlashReady in s.closed
    case StartDisks => s.main == LaunchDisks && c.disks > 0
    case NoDisks => s.main == LaunchDisks && c.disks == 0
    case StartState => s.main == LaunchState
    case Join => s.main == Joining && ProcDone(s.flash) && ProcDone(s.disks) && s.vm.StateExited?
    case FlashAlreadyClosed => s.main.FlashCleanup? && FlashReady in s.closed
    case FlashStillOpen => s.main.FlashCleanup? && FlashReady !in s.closed
    case CloseFlash => s.main.FlashCleanupClose?
    case DisksAlreadyClosed => s.main.DisksCleanup? && DisksReady in s.closed
    case DisksStillOpen => s.main.DisksCleanup? && DisksReady !in s.closed
    case CloseDisks => s.main.DisksCleanupClose?
    case Quit => s.main == Returned(true)
  }

  function MainApply(c: Config, s: State, a: MainAction): State
    requires MainEnabled(c, s, a)
  {
    match a
    case StartFlash => s.(main := AwaitFlash, flash := s.flash.(pc := Mirroring))
    case SkipFlash => s.(main := LaunchDisks)
    case FlashCancelled => s.(main := FlashCleanup(false))
    case FlashSeen => s.(main := LaunchDisks)
    case StartDisks => s.(main := LaunchState, disks := s.disks.(pc := Mirroring))
    case NoDisks => CloseChannel(s, DisksReady).(main := LaunchState)
    case StartState => s.(main := Joining, vm := AwaitDisks)
    case Join =>
      // Wait cancels the context; deferred functions run last in, first out
      var ok := !s.groupFailed;
      s.(main := if c.hasFlash then FlashCleanup(ok) else DisksCleanup(ok), cancelled := true)
    case FlashAlreadyClosed => s.(main := DisksCleanup(s.main.ok))
    case FlashStillOpen => s.(main := FlashCleanupClose(s.main.ok))
    case CloseFlash => CloseChannel(s, FlashReady).(main := DisksCleanup(s.main.ok))
    case DisksAlreadyClosed => s.(main := Returned(s.main.ok))
    case DisksStillOpen => s.(main := DisksCleanupClose(s.main.ok))
    case CloseDisks => CloseChannel(s, DisksReady).(main := Returned(s.main.ok))
    case Quit => s.(main := Concluded, log := s.log + [SourceQuit])
  }

  predicate VmEnabled(s: State, a: StateAction) {
    match a
    case DisksSeen => s.vm == AwaitDisks && DisksReady in s.closed
    case DisksCancelled => s.vm == AwaitDisks && s.cancelled
    case CapabilitiesSet => s.vm == SetCapabilities
    case CapabilitiesRefused => s.vm == SetCapabilities
    case ParametersSet => s.vm == SetParameters
    case ParametersRefused => s.vm == SetParameters
    case MigrateAccepted => s.vm == IssueMigrate
    case MigrateRefused => s.vm == IssueMigrate
    case QueryPending => s.vm == PollMigrate
    case QueryCompleted => s.vm == PollMigrate
    case QueryFailed => s.vm == PollMigrate
    case QueryCancelled => s.vm == PollMigrate && s.cancelled
    case CloseState => s.vm.Closing?
    case RetireState => s.vm.StateReturned?
  }

  function VmApply(s: State, a: StateAction): State
    requires VmEnabled(s, a)
  {
    match a
    case DisksSeen => s.(vm := SetCapabilities)
    case DisksCancelled => s.(vm := Closing(false))
    case CapabilitiesSet => s.(vm := SetParameters, log := s.log + [CapabilitiesTaken])
    case CapabilitiesRefused => s.(vm := Closing(false))
    case ParametersSet => s.(vm := IssueMigrate, log := s.log + [ParametersTaken])
    case ParametersRefused => s.(vm := Closing(false))
    case MigrateAccepted => s.(vm := PollMigrate, log := s.log + [Migrate])
    case MigrateRefused => s.(vm := Closing(false), log := s.log + [Migrate])
    case QueryPending => s
    case QueryCompleted => s.(vm := Closing(true), log := s.log + [MigrateCompleted])
    case QueryFailed => s.(vm := Closing(false))
    case QueryCancelled => s.(vm := Closing(false))
    case CloseState => CloseChannel(s, StateMigrated).(vm := StateReturned(s.vm.ok))
    case RetireState => Report(s, s.vm.ok).(vm := StateExited(s.vm.ok))
  }

  /** A goroutine of the errgroup reports its result. */
  function Report(s: State, ok: bool): State {
    if ok then s else s.(cancelled := true, groupFailed := true)
  }

  function MirrorEvents(w: Which, p: Proc, a: ProcAction): seq<Event> {
    match a
    case MirrorAccepted => [DriveMirror(Device(w, p.next))]
    case MirrorRefused => [DriveMirror(Device(w, p.next))]
    case ReaderReady(i) => [JobReady(Device(w, i))]
    case CompleteAccepted => [BlockJobComplete(Device(w, p.next))]
    case CompleteRefused => [BlockJobComplete(Device(w, p.next))]
    case _ => []
  }

  /** The processor `w` becomes `p` and its step shows the events `es`. */
  function MirrorResult(s: State, w: Which, p: Proc, a: ProcAction, es: seq<Event>): State {
    var s' := WithProc(s, w, p).(log := s.log + es);
    if a.CloseReady? then CloseChannel(s', ReadyChannel(w))
    else if a.Retire? then Report(s', p.pc.Exited? && p.pc.exit.Success?)
    else s'
  }

  function MirrorApply(s: State, w: Which, a: ProcAction): State
    requires ProcEnabled(ViewOf(s), ProcOf(s, w), a)
  {
    var p := ProcOf(s, w);
    MirrorResult(s, w, ProcApply(ViewOf(s), p, a), a, MirrorEvents(w, p, a))
  }

  predicate Enabled(c: Config, s: State, a: Action) {
    && !s.panicked
    && match a
       case CancelTask => !s.cancelled
       case Main(ma) => MainEnabled(c, s, ma)
       case Mirror(w, pa) => ProcEnabled(ViewOf(s), ProcOf(s, w), pa)
       case Vm(va) => VmEnabled(s, va)
  }

  function Apply(c: Config, s: State, a: Action): State
    requires Enabled(c, s, a)
  {
    match a
    case CancelTask => s.(cancelled := true)
    case Main(ma) => MainApply(c, s, ma)
    case Mirror(w, pa) => MirrorApply(s, w, pa)
    case Vm(va) => VmApply(s, va)
  }

  /** `t` is where the run `acts` leads from `s`. */
  ghost predicate Run(c: Config, s: State, acts: seq<Action>, t: State)
    decreases |acts|
  {
    if acts == [] then s == t
    else Enabled(c, s, acts[0]) && Run(c, Apply(c, s, acts[0]), acts[1..], t)
  }

  ghost predicate Reachable(c: Config, t: State) {
    exists acts :: Run(c, Init(c), acts, t)
  }
}
