/**
 The storage mirroring processor of a live migration (the `run` goroutine and the
 goroutines it spawns), as a transition system.

 An action names both the goroutine that moves and the answer QEMU gives it, so that
 a step is a function of the action. The processor sees its surroundings only through
 a `View`: whether the errgroup context is done and whether the channel
 `vmstateMigrated` is closed.
 */
module MirrorProcessor {
  import opened Wrappers

  /** Why a goroutine gave up: its context was done, or anything else went wrong. */
  datatype Cause = Cancelled | Broken

  datatype Exit = Success | Failure(cause: Cause)

  /** A goroutine that watches one block job (waitForReady or waitForCompleted). */
  datatype Waiter = Unborn | AwaitRunning | Polling | Refused | Gone(exit: Exit)
  {
    predicate Live() { AwaitRunning? || Polling? }
  }

  datatype ProcPC =
    | NotStarted
    | Mirroring                // loop issuing drive-mirror, then group1.Wait
    | Announcing               // about to close readyToComplete
    | AwaitingState            // waitMachineStateMigrated
    | Completing               // loop issuing block-job-complete, then group2.Wait
    | Returning(exit: Exit)    // run has returned, the errgroup has not noticed yet
    | Exited(exit: Exit)

  /** `readers` and `finishers` have one entry per disk; the errors are those of the two
      inner errgroups (the first error reported wins). */
  datatype Proc = Proc(
    pc: ProcPC,
    next: nat,
    readers: seq<Waiter>,
    readErr: Option<Cause>,
    finishers: seq<Waiter>,
    finishErr: Option<Cause>)

  datatype View = View(cancelled: bool, stateMigrated: bool)

  datatype ProcAction =
    | OverrideInvalid | MirrorAccepted | MirrorRefused
    | JobRunning(i: nat) | JobNeverRan(i: nat)
    | ReaderNotReady(i: nat) | ReaderReady(i: nat) | ReaderBroken(i: nat) | ReaderCancelled(i: nat)
    | JoinReaders
    | CloseReady
    | StatePoll | StatePollBroken | StateCancelled | StateSeen
    | CompleteAccepted | CompleteRefused
    | FinisherPending(i: nat) | FinisherDone(i: nat) | FinisherBroken(i: nat) | FinisherCancelled(i: nat)
    | JoinFinishers
    | Retire

  function Fresh(n: nat): (p: Proc) {
    Proc(NotStarted, 0, seq(n, _ => Unborn), None, seq(n, _ => Unborn), None)
  }

  predicate NoneLive(ws: seq<Waiter>) {
    forall i :: 0 <= i < |ws| ==> !ws[i].Live()
  }

  predicate ProcEnabled(v: View, p: Proc, a: ProcAction) {
    match a
    case OverrideInvalid => p.pc == Mirroring && p.next < |p.readers|
    case MirrorAccepted => p.pc == Mirroring && p.next < |p.readers|
    case MirrorRefused => p.pc == Mirroring && p.next < |p.readers|
    case JobRunning(i) => i < |p.readers| && p.readers[i] == AwaitRunning
    case JobNeverRan(i) => i < |p.readers| && p.readers[i] == AwaitRunning
    case ReaderNotReady(i) => i < |p.readers| && p.readers[i] == Polling
    case ReaderReady(i) => i < |p.readers| && p.readers[i] == Polling
    case ReaderBroken(i) => i < |p.readers| && p.readers[i] == Polling
    case ReaderCancelled(i) =>
      i < |p.readers| && p.readers[i] == Polling && (v.cancelled || p.readErr.Some?)
    case JoinReaders => p.pc == Mirroring && p.next == |p.readers| && NoneLive(p.readers)
    case CloseReady => p.pc == Announcing
    case StatePoll => p.pc == AwaitingState
    case StatePollBroken => p.pc == AwaitingState
    case StateCancelled => p.pc == AwaitingState && v.cancelled
    case StateSeen => p.pc == AwaitingState && v.stateMigrated
    case CompleteAccepted => p.pc == Completing && p.next < |p.finishers|
    case CompleteRefused => p.pc == Completing && p.next < |p.finishers|
    case FinisherPending(i) => i < |p.finishers| && p.finishers[i] == Polling
    case FinisherDone(i) => i < |p.finishers| && p.finishers[i] == Polling
    case FinisherBroken(i) => i < |p.finishers| && p.finishers[i] == Polling
    case FinisherCancelled(i) =>
      i < |p.finishers| && p.finishers[i] == Polling && (v.cancelled || p.finishErr.Some?)
    case JoinFinishers => p.pc == Completing && p.next == |p.finishers| && NoneLive(p.finishers)
    case Retire => p.pc.Returning?
  }

  function FirstError(e: Option<Cause>, c: Cause): Option<Cause> {
    if e.Some? then e else Some(c)
  }

  function ReaderExits(p: Proc, i: nat, c: Cause): Proc
    requires i < |p.readers|
  {
    p.(readers := p.readers[i := Gone(Failure(c))], readErr := FirstError(p.readErr, c))
  }

  function FinisherExits(p: Proc, i: nat, c: Cause): Proc
    requires i < |p.finishers|
  {
    p.(finishers := p.finishers[i := Gone(Failure(c))], finishErr := FirstError(p.finishErr, c))
  }

  function ProcApply(v: View, p: Proc, a: ProcAction): Proc
    requires ProcEnabled(v, p, a)
  {
    match a
    case OverrideInvalid => p.(pc := Returning(Failure(Broken)))
    case MirrorAccepted => p.(next := p.next + 1, readers := p.readers[p.next := AwaitRunning])
    case MirrorRefused => p.(pc := Returning(Failure(Broken)))
    case JobRunning(i) => p.(readers := p.readers[i := Polling])
    case JobNeverRan(i) => ReaderExits(p, i, Broken)
    case ReaderNotReady(i) => p
    case ReaderReady(i) => p.(readers := p.readers[i := Gone(Success)])
    case ReaderBroken(i) => ReaderExits(p, i, Broken)
    case ReaderCancelled(i) => ReaderExits(p, i, Cancelled)
    case JoinReaders =>
      p.(pc := if p.readErr.Some? then Returning(Failure(p.readErr.value)) else Announcing)
    case CloseReady => p.(pc := AwaitingState)
    case StatePoll => p
    case StatePollBroken => p.(pc := Returning(Failure(Broken)))
    case StateCancelled => p.(pc := Returning(Failure(Cancelled)))
    case StateSeen => p.(pc := Completing, next := 0)
    case CompleteAccepted => p.(next := p.next + 1, finishers := p.finishers[p.next := Polling])
    case CompleteRefused => p.(next := p.next + 1, finishers := p.finishers[p.next := Refused])
    case FinisherPending(i) => p
    case FinisherDone(i) => p.(finishers := p.finishers[i := Gone(Success)])
    case FinisherBroken(i) => FinisherExits(p, i, Broken)
    case FinisherCancelled(i) => FinisherExits(p, i, Cancelled)
    case JoinFinishers =>
      // only a cancelled context is reported; other late errors are logged and forgiven
      p.(pc := Returning(if p.finishErr == Some(Cancelled) then Failure(Cancelled) else Success))
    case Retire => p.(pc := Exited(p.pc.exit))
  }

  /** A polling round that found nothing new: the only kind of step that can repeat. */
  predicate IsProcPoll(a: ProcAction) {
    a.ReaderNotReady? || a.StatePoll? || a.FinisherPending?
  }

  /** Steps that are alternative answers to one request of one goroutine share a move. */
  datatype ProcMove =
    | MirrorRequest | WaitRunning(i: nat) | ReaderTick(i: nat) | ReaderDone(i: nat) | ReadersJoin
    | ReadyClose | StateTick | StateDone | StateArrived
    | CompleteRequest | FinisherTick(i: nat) | FinisherDone'(i: nat) | FinishersJoin | Report

  function ProcMoveOf(a: ProcAction): ProcMove {
    match a
    case OverrideInvalid => MirrorRequest
    case MirrorAccepted => MirrorRequest
    case MirrorRefused => MirrorRequest
    case JobRunning(i) => WaitRunning(i)
    case JobNeverRan(i) => WaitRunning(i)
    case ReaderNotReady(i) => ReaderTick(i)
    case ReaderReady(i) => ReaderTick(i)
    case ReaderBroken(i) => ReaderTick(i)
    case ReaderCancelled(i) => ReaderDone(i)
    case JoinReaders => ReadersJoin
    case CloseReady => ReadyClose
    case StatePoll => StateTick
    case StatePollBroken => StateTick
    case StateCancelled => StateDone
    case StateSeen => StateArrived
    case CompleteAccepted => CompleteRequest
    case CompleteRefused => CompleteRequest
    case FinisherPending(i) => FinisherTick(i)
    case FinisherDone(i) => FinisherTick(i)
    case FinisherBroken(i) => FinisherTick(i)
    case FinisherCancelled(i) => FinisherDone'(i)
    case JoinFinishers => FinishersJoin
    case Retire => Report
  }

  // ---------------------------------------------------------------------------
  // What every step of a processor keeps

  ghost predicate AllReady(p: Proc) {
    forall i :: 0 <= i < |p.readers| ==> p.readers[i] == Gone(Success)
  }

  ghost predicate AllUnborn(ws: seq<Waiter>) {
    forall i :: 0 <= i < |ws| ==> ws[i] == Unborn
  }

  ghost predicate ProcInv(p: Proc, n: nat) {
    && |p.readers| == n && |p.finishers| == n
    && p.next <= n
    && (p.pc.NotStarted? ==> AllUnborn(p.readers) && p.next == 0 && p.readErr.None? && p.finishErr.None?)
    && (p.pc.Mirroring? ==>
          forall i :: 0 <= i < n ==> (p.readers[i] == Unborn <==> p.next <= i))
    && (forall i :: 0 <= i < n ==> p.readers[i] != Refused && p.finishers[i] != AwaitRunning)
    && (p.readErr.None? ==> forall i :: 0 <= i < n ==> !(p.readers[i].Gone? && p.readers[i].exit.Failure?))
    && (p.pc.Announcing? || p.pc.AwaitingState? || p.pc.Completing? ==> AllReady(p))
    && (p.pc.Returning? || p.pc.Exited? ==> p.pc.exit.Success? ==> AllReady(p))
    && (p.pc.NotStarted? || p.pc.Mirroring? || p.pc.Announcing? || p.pc.AwaitingState? ==> AllUnborn(p.finishers))
    && (p.pc.Completing? ==> forall i :: 0 <= i < n ==> (p.finishers[i] == Unborn <==> p.next <= i))
    && (p.pc.Returning? || p.pc.Exited? ==> NoneLive(p.finishers))
    && (p.pc.Returning? || p.pc.Exited? ==> p.pc.exit.Success? ==>
          forall i :: 0 <= i < n ==> p.finishers[i] != Unborn)
  }

  lemma FreshInv(n: nat)
    ensures ProcInv(Fresh(n), n)
  {
  }

  /** The goroutine of reader `i` moves. */
  predicate IsReaderStep(a: ProcAction) {
    a.JobRunning? || a.JobNeverRan? || a.ReaderNotReady? || a.ReaderReady? || a.ReaderBroken? || a.ReaderCancelled?
  }

  lemma ReaderStepKeepsInv(v: View, p: Proc, a: ProcAction, n: nat)
    requires ProcInv(p, n) && ProcEnabled(v, p, a) && IsReaderStep(a)
    ensures ProcInv(ProcApply(v, p, a), n)
  {
  }

  lemma ProcStepKeepsInv(v: View, p: Proc, a: ProcAction, n: nat)
    requires ProcInv(p, n) && ProcEnabled(v, p, a)
    ensures ProcInv(ProcApply(v, p, a), n)
  {
    if IsReaderStep(a) {
      ReaderStepKeepsInv(v, p, a, n);
    } else if a.JoinReaders? && p.readErr.None? {
      forall i | 0 <= i < n ensures p.readers[i] == Gone(Success) {
        assert !p.readers[i].Live();
      }
    }
  }

  /** How a step may change the program counter and what it leaves alone. */
  ghost predicate Shape(v: View, p: Proc, q: Proc, a: ProcAction) {
    && (a.CloseReady? ==> p.pc.Announcing? && q.pc.AwaitingState?)
    && (a.Retire? ==> p.pc.Returning? && q.pc == Exited(p.pc.exit))
    && (!a.CloseReady? && !a.Retire? ==>
          || q.pc == p.pc
          || (p.pc.Mirroring? && q.pc.Announcing?)
          || ((p.pc.Mirroring? || p.pc.AwaitingState?) && q.pc.Returning? && q.pc.exit.Failure?)
          || (p.pc.AwaitingState? && q.pc.Completing? && v.stateMigrated)
          || (p.pc.Completing? && q.pc.Returning?))
    && (AllReady(p) ==> AllReady(q))
  }

  lemma StepShape(v: View, p: Proc, a: ProcAction, n: nat)
    requires ProcInv(p, n) && ProcEnabled(v, p, a)
    ensures Shape(v, p, ProcApply(v, p, a), a)
  {
    if AllReady(p) {
      ReadyStays(v, p, a, n);
    }
  }

  /** Once all readers are gone, none comes back. */
  lemma ReadyStays(v: View, p: Proc, a: ProcAction, n: nat)
    requires ProcInv(p, n) && ProcEnabled(v, p, a) && AllReady(p)
    ensures ProcApply(v, p, a).readers == p.readers
  {
    assert p.next < |p.readers| ==> p.readers[p.next] == Gone(Success);
  }

  // ---------------------------------------------------------------------------
  // A measure that every step other than a poll strictly decreases

  function Rank(w: Waiter): nat {
    match w
    case Unborn => 3
    case AwaitRunning => 2
    case Polling => 1
    case Refused => 0
    case Gone(_) => 0
  }

  function Ranks(ws: seq<Waiter>): nat {
    if ws == [] then 0 else Rank(ws[0]) + Ranks(ws[1..])
  }

  lemma {:induction false} RanksUpdate(ws: seq<Waiter>, i: nat, w: Waiter)
    requires i < |ws|
    ensures Ranks(ws[i := w]) + Rank(ws[i]) == Ranks(ws) + Rank(w)
  {
    if i == 0 {
      assert ws[0 := w][1..] == ws[1..];
    } else {
      assert ws[i := w][1..] == ws[1..][i - 1 := w];
      RanksUpdate(ws[1..], i - 1, w);
    }
  }

  function PCRank(pc: ProcPC): nat {
    match pc
    case NotStarted => 6
    case Mirroring => 5
    case Announcing => 4
    case AwaitingState => 3
    case Completing => 2
    case Returning(_) => 1
    case Exited(_) => 0
  }

  function ProcMeasure(p: Proc): nat {
    PCRank(p.pc) + Ranks(p.readers) + Ranks(p.finishers)
  }

  /** One watched job moved on to `w`; nothing else that is measured grew. */
  lemma ReaderMoves(p: Proc, q: Proc, i: nat, w: Waiter)
    requires i < |p.readers| && Rank(w) < Rank(p.readers[i])
    requires q.readers == p.readers[i := w] && q.finishers == p.finishers && q.pc == p.pc
    ensures ProcMeasure(q) < ProcMeasure(p)
  {
    RanksUpdate(p.readers, i, w);
  }

  lemma FinisherMoves(p: Proc, q: Proc, i: nat, w: Waiter)
    requires i < |p.finishers| && Rank(w) < Rank(p.finishers[i])
    requires q.finishers == p.finishers[i := w] && q.readers == p.readers && q.pc == p.pc
    ensures ProcMeasure(q) < ProcMeasure(p)
  {
    RanksUpdate(p.finishers, i, w);
  }

  lemma ProcStepDecreases(v: View, p: Proc, a: ProcAction, n: nat)
    requires ProcInv(p, n) && ProcEnabled(v, p, a)
    ensures IsProcPoll(a) ==> ProcMeasure(ProcApply(v, p, a)) == ProcMeasure(p)
    ensures !IsProcPoll(a) ==> ProcMeasure(ProcApply(v, p, a)) < ProcMeasure(p)
  {
    var q := ProcApply(v, p, a);
    match a
    case MirrorAccepted => ReaderMoves(p, q, p.next, AwaitRunning);
    case JobRunning(i) => ReaderMoves(p, q, i, Polling);
    case JobNeverRan(i) => ReaderMoves(p, q, i, Gone(Failure(Broken)));
    case ReaderReady(i) => ReaderMoves(p, q, i, Gone(Success));
    case ReaderBroken(i) => ReaderMoves(p, q, i, Gone(Failure(Broken)));
    case ReaderCancelled(i) => ReaderMoves(p, q, i, Gone(Failure(Cancelled)));
    case CompleteAccepted => FinisherMoves(p, q, p.next, Polling);
    case CompleteRefused => FinisherMoves(p, q, p.next, Refused);
    case FinisherDone(i) => FinisherMoves(p, q, i, Gone(Success));
    case FinisherBroken(i) => FinisherMoves(p, q, i, Gone(Failure(Broken)));
    case FinisherCancelled(i) => FinisherMoves(p, q, i, Gone(Failure(Cancelled)));
    case _ =>
  }

  // ---------------------------------------------------------------------------
  // Once the context is done, an unfinished processor can move towards its exit

  ghost predicate ProcFinished(p: Proc) {
    (p.pc.NotStarted? || p.pc.Exited?) && NoneLive(p.readers) && NoneLive(p.finishers)
  }

  /** Whatever QEMU answers to this move, the step is not a mere poll. */
  ghost predicate ProcForced(v: View, p: Proc, a: ProcAction) {
    ProcEnabled(v, p, a) && forall b :: ProcEnabled(v, p, b) && ProcMoveOf(b) == ProcMoveOf(a) ==> !IsProcPoll(b)
  }

  lemma ProcCancelledCanMove(v: View, p: Proc, n: nat) returns (a: ProcAction)
    requires ProcInv(p, n) && v.cancelled && !ProcFinished(p)
    ensures ProcForced(v, p, a)
  {
    if !NoneLive(p.readers) {
      var i :| 0 <= i < |p.readers| && p.readers[i].Live();
      a := if p.readers[i].AwaitRunning? then JobNeverRan(i) else ReaderCancelled(i);
    } else if !NoneLive(p.finishers) {
      var i :| 0 <= i < |p.finishers| && p.finishers[i].Live();
      assert p.pc.Completing?;
      a := FinisherCancelled(i);
    } else {
      a := match p.pc
        case Mirroring => if p.next < n then MirrorRefused else JoinReaders
        case Announcing => CloseReady
        case AwaitingState => StateCancelled
        case Completing => if p.next < n then CompleteRefused else JoinFinishers
        case Returning(_) => Retire
        case _ => Retire;
    }
  }

  // ---------------------------------------------------------------------------
  // Progress by good news only

  /** An answer that ends the attempt, or one of its mirrors. */
  predicate IsProcRefusal(a: ProcAction) {
    || a.OverrideInvalid? || a.MirrorRefused? || a.JobNeverRan? || a.ReaderBroken?
    || a.StatePollBroken? || a.CompleteRefused? || a.FinisherBroken?
  }

  /** A goroutine notices that its context is done. */
  predicate IsProcReaction(a: ProcAction) {
    a.ReaderCancelled? || a.StateCancelled? || a.FinisherCancelled?
  }

  predicate IsProcSmooth(a: ProcAction) {
    !IsProcPoll(a) && !IsProcRefusal(a) && !IsProcReaction(a)
  }

  /** The one place where a processor depends on another goroutine. */
  predicate ProcAwaits(v: View, p: Proc) {
    p.pc.AwaitingState? && !v.stateMigrated
  }

  /** A processor that neither has finished nor awaits the machine state can take a step
      that is no poll, no refusal and no reaction to a cancellation. */
  lemma ProcCanMove(v: View, p: Proc, n: nat) returns (a: ProcAction)
    requires ProcInv(p, n) && !ProcFinished(p) && !ProcAwaits(v, p)
    ensures ProcEnabled(v, p, a) && IsProcSmooth(a)
  {
    if !NoneLive(p.readers) {
      var i :| 0 <= i < |p.readers| && p.readers[i].Live();
      a := if p.readers[i].AwaitRunning? then JobRunning(i) else ReaderReady(i);
    } else if !NoneLive(p.finishers) {
      var i :| 0 <= i < |p.finishers| && p.finishers[i].Live();
      a := FinisherDone(i);
    } else {
      a := match p.pc
        case Mirroring => if p.next < n then MirrorAccepted else JoinReaders
        case Announcing => CloseReady
        case AwaitingState => StateSeen
        case Completing => if p.next < n then CompleteAccepted else JoinFinishers
        case _ => Retire;
    }
  }

  /** Nothing has happened that makes the processor fail. */
  predicate ProcUnfailed(p: Proc) {
    && (p.pc.NotStarted? || p.pc.Mirroring? ==> p.readErr.None?)
    && (p.pc.Returning? || p.pc.Exited? ==> p.pc.exit.Success?)
    && (!p.pc.Returning? && !p.pc.Exited? ==> p.finishErr != Some(Cancelled))
  }

  lemma SmoothStaysUnfailed(v: View, p: Proc, a: ProcAction)
    requires ProcUnfailed(p) && ProcEnabled(v, p, a) && IsProcSmooth(a)
    ensures ProcUnfailed(ProcApply(v, p, a))
  {
  }

  /** The processor gives up, or is bound to, by this step. */
  predicate IsProcFatal(p: Proc, a: ProcAction) {
    || a.OverrideInvalid? || a.MirrorRefused? || a.JobNeverRan? || a.ReaderBroken? || a.ReaderCancelled?
    || a.StatePollBroken? || a.StateCancelled? || (a.FinisherCancelled? && p.finishErr.None?)
  }

  lemma ProcFailsIff(v: View, p: Proc, a: ProcAction, n: nat)
    requires ProcInv(p, n) && ProcUnfailed(p) && ProcEnabled(v, p, a)
    ensures ProcUnfailed(ProcApply(v, p, a)) <==> !IsProcFatal(p, a)
  {
  }

  /** The processor has not begun to stop its mirrors. */
  predicate IsEarly(p: Proc) {
    p.pc.NotStarted? || p.pc.Mirroring? || p.pc.Announcing? || p.pc.AwaitingState?
  }

  lemma SmoothPassesCompleting(v: View, p: Proc, a: ProcAction)
    requires ProcUnfailed(p) && IsEarly(p) && ProcEnabled(v, p, a) && IsProcSmooth(a)
    ensures var q := ProcApply(v, p, a); IsEarly(q) || (q.pc == Completing && q.next == 0)
  {
  }

  /** QEMU did not want to stop a mirror; the processor goes on without it. */
  predicate HasRefused(p: Proc) {
    Refused in p.finishers
  }

  lemma RefusalStays(v: View, p: Proc, a: ProcAction)
    requires HasRefused(p) && ProcEnabled(v, p, a)
    requires p.pc.Completing? ==> forall i :: p.next <= i < |p.finishers| ==> p.finishers[i] == Unborn
    ensures HasRefused(ProcApply(v, p, a))
  {
    var i :| 0 <= i < |p.finishers| && p.finishers[i] == Refused;
    assert ProcApply(v, p, a).finishers[i] == Refused;
  }

  /** A failure stays, whatever happens. */
  lemma FailureStays(v: View, p: Proc, a: ProcAction)
    requires !ProcUnfailed(p) && ProcEnabled(v, p, a)
    ensures !ProcUnfailed(ProcApply(v, p, a))
  {
  }
}
