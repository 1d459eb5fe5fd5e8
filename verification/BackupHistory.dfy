/**
 Whole histories of backups of one disk, to any number of targets, interleaved with guest
 writes: which targets an incremental backup may be trusted to bring up to date.
 */
module BackupHistory {
  import opened Wrappers
  import opened Backup

  datatype Action =
    | Start(o: Options)      // a backup task issues its commands
    | During(e: Event)
    | RemoveBitmap           // by the user, while no task runs

  predicate Starts(s: Node, o: Options) {
    s.job.NoJob? && Transaction(s, Commands(o, s.bitmap.Some?)).Some?
  }

  function Step(s: Node, a: Action): Node
    requires WellFormed(s)
  {
    match a
    case Start(o) => if Starts(s, o) then Transaction(s, Commands(o, s.bitmap.Some?)).value else s
    case During(e) => Happen(s, e)
    case RemoveBitmap => if s.job.NoJob? then s.(bitmap := None) else s
  }

  lemma StepKeepsWellFormed(s: Node, a: Action)
    requires WellFormed(s)
    ensures WellFormed(Step(s, a)) && |Step(s, a).disk| == |s.disk|
  {
    match a
    case Start(o) => if Starts(s, o) { StartShape(s, o); }
    case During(e) => HappenKeepsWellFormed(s, e);
    case RemoveBitmap =>
  }

  /** The targets known to be covered by the bitmap, from the order of successes and failures
      alone: a full copy adds its target, a reset bitmap forgets all others (for good if the
      copy then fails), an incremental copy keeps only its own. */
  function Trusted(s: Node, trusted: set<Target>, a: Action): set<Target> {
    match a
    case Start(o) =>
      if Starts(s, o) && (ModeOf(o, s.bitmap.Some?).FirstFull? || ModeOf(o, s.bitmap.Some?).ResetFull?) then {}
      else trusted
    case During(e) =>
      if e.Finish? && s.job.Job? && s.job.remaining == {} then
        match s.job.sync
        case Full => if s.bitmap.Some? then trusted + {s.job.target} else {}
        case Incremental => trusted * {s.job.target}
      else trusted
    case RemoveBitmap => if s.job.NoJob? then {} else trusted
  }

  /** After a history, the disk and the trusted targets. */
  function History(s: Node, trusted: set<Target>, acts: seq<Action>): (Node, set<Target>)
    requires WellFormed(s)
    decreases |acts|
  {
    if acts == [] then (s, trusted)
    else
      StepKeepsWellFormed(s, acts[0]);
      History(Step(s, acts[0]), Trusted(s, trusted, acts[0]), acts[1..])
  }

  // ---------------------------------------------------------------------------
  // The invariant

  /** Wherever the target differs from the disk, the block is in `marked`. */
  ghost predicate DiffersOnlyIn(s: Node, t: Target, marked: set<nat>) {
    && t in s.targets && |s.disk| <= |s.targets[t]|
    && forall b: nat :: b < |s.disk| && s.targets[t][b] != s.disk[b] ==> b in marked
  }

  /** Blocks already copied hold what the disk held when the job started. */
  ghost predicate CopiedHolds(s: Node)
    requires WellFormed(s) && s.job.Job?
  {
    forall b: nat :: b < |s.disk| && b !in s.job.remaining ==> s.targets[s.job.target][b] == s.job.snapshot[b]
  }

  ghost predicate JobInv(s: Node, trusted: set<Target>)
    requires WellFormed(s) && s.job.Job?
  {
    && (forall b: nat :: b in s.job.remaining && b < |s.disk| ==> s.disk[b] == s.job.snapshot[b])
    && (s.bitmap.Some? ==> forall b: nat :: b < |s.disk| && s.disk[b] != s.job.snapshot[b] ==> b in s.bitmap.value)
    && (s.job.sync.Full? ==> s.job.frozen == {})
    && (s.job.sync.Full? || s.job.target in trusted ==> CopiedHolds(s))
  }

  ghost predicate Inv(s: Node, trusted: set<Target>) {
    && WellFormed(s)
    && (s.bitmap.None? ==> trusted == {})
    && (s.job.Job? ==> JobInv(s, trusted))
    && (s.bitmap.Some? ==> forall t :: t in trusted ==>
          DiffersOnlyIn(s, t, s.bitmap.value + (if s.job.Job? then s.job.frozen else {})))
  }

  lemma StartKeepsInv(s: Node, trusted: set<Target>, o: Options)
    requires Inv(s, trusted) && Starts(s, o)
    ensures Inv(Step(s, Start(o)), Trusted(s, trusted, Start(o)))
  {
    StartShape(s, o);
    StartResult(s, o);
  }

  lemma WriteKeepsInv(s: Node, trusted: set<Target>, b: nat, v: Data)
    requires Inv(s, trusted)
    ensures Inv(Happen(s, Write(b, v)), trusted)
  {
    HappenKeepsWellFormed(s, Write(b, v));
    if s.job.Job? && b in s.job.remaining && b < |s.disk| {
      CopyKeepsInv(s, trusted, b);
    }
  }

  lemma CopyKeepsInv(s: Node, trusted: set<Target>, b: nat)
    requires Inv(s, trusted)
    ensures Inv(Happen(s, CopyBlock(b)), trusted)
  {
    HappenKeepsWellFormed(s, CopyBlock(b));
  }

  lemma EndKeepsInv(s: Node, trusted: set<Target>, e: Event)
    requires Inv(s, trusted) && (e.Finish? || e.Break?)
    ensures Inv(Happen(s, e), Trusted(s, trusted, During(e)))
  {
    HappenKeepsWellFormed(s, e);
  }

  lemma StepKeepsInv(s: Node, trusted: set<Target>, a: Action)
    requires Inv(s, trusted)
    ensures Inv(Step(s, a), Trusted(s, trusted, a))
  {
    match a
    case Start(o) => if Starts(s, o) { StartKeepsInv(s, trusted, o); }
    case RemoveBitmap =>
    case During(e) =>
      match e
      case Write(b, v) => WriteKeepsInv(s, trusted, b, v);
      case CopyBlock(b) => CopyKeepsInv(s, trusted, b);
      case Finish => EndKeepsInv(s, trusted, e);
      case Break => EndKeepsInv(s, trusted, e);
  }

  lemma {:induction false} HistoryKeepsInv(s: Node, trusted: set<Target>, acts: seq<Action>)
    requires Inv(s, trusted)
    ensures Inv(History(s, trusted, acts).0, History(s, trusted, acts).1)
    decreases |acts|
  {
    if acts != [] {
      StepKeepsInv(s, trusted, acts[0]);
      HistoryKeepsInv(Step(s, acts[0]), Trusted(s, trusted, acts[0]), acts[1..]);
    }
  }

  // ---------------------------------------------------------------------------
  // Theorems

  /** A trusted target is covered, so by the contract of DiskBackupTask.Copy its next
      successful incremental backup reproduces the disk. */
  lemma TrustedIsCovered(s: Node, acts: seq<Action>, t: Target)
    requires WellFormed(s) && s.job.NoJob?
    requires History(s, {}, acts).0.job.NoJob? && t in History(s, {}, acts).1
    ensures Covered(History(s, {}, acts).0, t)
  {
    HistoryKeepsInv(s, {}, acts);
  }

  /** While a job runs, a block of its target that differs from the disk is marked, or the
      job will still copy it. */
  lemma MarkedOrStillToCopy(s: Node, acts: seq<Action>, b: nat)
    requires WellFormed(s) && s.job.NoJob?
    requires var (s1, trusted) := History(s, {}, acts);
             && s1.job.Job? && s1.bitmap.Some?
             && (s1.job.sync.Full? || s1.job.target in trusted)
             && b < |s1.disk|
    ensures var s1 := History(s, {}, acts).0;
            && s1.job.target in s1.targets && |s1.disk| <= |s1.targets[s1.job.target]|
            && (s1.targets[s1.job.target][b] != s1.disk[b] ==> b in s1.bitmap.value || b in s1.job.remaining)
  {
    HistoryKeepsInv(s, {}, acts);
  }

  /** Every backup goes to `t` and none fails; the bitmap is left alone. */
  ghost predicate Clean(s: Node, acts: seq<Action>, t: Target)
    requires WellFormed(s)
    decreases |acts|
  {
    acts == [] ||
    (StepKeepsWellFormed(s, acts[0]);
     && (acts[0].Start? ==> acts[0].o.target == t)
     && (acts[0] == During(Break) ==> s.job.NoJob?)
     && !acts[0].RemoveBitmap?
     && Clean(Step(s, acts[0]), acts[1..], t))
  }

  /** What a clean history adds to the invariant. */
  ghost predicate CleanInv(s: Node, trusted: set<Target>, t: Target) {
    && (s.job.Job? ==> s.job.target == t)
    && (s.bitmap.Some? ==> t in trusted || (s.job.Job? && s.job.sync.Full?))
  }

  lemma {:induction false} CleanHistory(s: Node, trusted: set<Target>, acts: seq<Action>, t: Target)
    requires WellFormed(s) && CleanInv(s, trusted, t) && Clean(s, acts, t)
    ensures CleanInv(History(s, trusted, acts).0, History(s, trusted, acts).1, t)
    decreases |acts|
  {
    if acts != [] {
      StepKeepsWellFormed(s, acts[0]);
      if acts[0].Start? && Starts(s, acts[0].o) {
        StartShape(s, acts[0].o);
      }
      CleanHistory(Step(s, acts[0]), Trusted(s, trusted, acts[0]), acts[1..], t);
    }
  }

  /** If every backup to one target has succeeded and one of them has made a bitmap, the
      bitmap covers the target between backups, whatever the guest wrote meanwhile. */
  lemma CleanHistoryCovers(s: Node, acts: seq<Action>, t: Target)
    requires WellFormed(s) && s.job.NoJob? && s.bitmap.None? && Clean(s, acts, t)
    requires History(s, {}, acts).0.job.NoJob? && History(s, {}, acts).0.bitmap.Some?
    ensures Covered(History(s, {}, acts).0, t)
  {
    CleanHistory(s, {}, acts, t);
    TrustedIsCovered(s, acts, t);
  }

  /** In a clean history every completed backup leaves the disk of its start in the target,
      whatever is written meanwhile. */
  lemma CleanBackupsReproduce(s: Node, before: seq<Action>, o: Options, es: seq<Event>)
    requires WellFormed(s) && s.job.NoJob? && s.bitmap.None? && Clean(s, before, o.target)
    requires var s1 := History(s, {}, before).0; WellFormed(s1) && Starts(s1, o)
    requires var s0 := Step(History(s, {}, before).0, Start(o));
             WellFormed(s0) && HappenAll(s0, es).job.NoJob? && HappenAll(s0, es).outcome == Completed
    ensures var s1 := History(s, {}, before).0; var s2 := HappenAll(Step(s1, Start(o)), es);
            && o.target in s2.targets && |s1.disk| <= |s2.targets[o.target]|
            && s2.targets[o.target][..|s1.disk|] == s1.disk
  {
    var s1 := History(s, {}, before).0;
    var s0 := Step(s1, Start(o));
    if s1.bitmap.Some? {
      CleanHistoryCovers(s, before, o.target);
    }
    StartShape(s1, o);
    RoundResult(s0, s0, es);
    ResultIff(s1, o, s0, HappenAll(s0, es));
  }

  /** Once the bitmap has been removed, the next incremental request copies everything and
      starts a new bitmap. */
  lemma RemovedBitmapStartsAnew(s: Node, o: Options)
    requires WellFormed(s) && s.job.NoJob? && o.incremental && Starts(s, o)
    ensures var s0 := Step(Step(s, RemoveBitmap), Start(o));
            && s0.bitmap == Some({}) && s0.job == Job(o.target, Full, s.disk, AllBlocks(|s.disk|), {})
            && s0.disk == s.disk && s0.targets == s.targets
  {
    RequestMeans(s, o);
    RequestMeans(Step(s, RemoveBitmap), o);
  }

  // ---------------------------------------------------------------------------
  // A full backup that is not incremental

  lemma OtherStaysCoveredOnce(s: Node, e: Event, t: Target)
    requires WellFormed(s) && Covered(s, t) && (s.job.Job? ==> s.job.target != t)
    ensures Covered(Happen(s, e), t) && (Happen(s, e).job.Job? ==> Happen(s, e).job.target != t)
  {
  }

  lemma {:induction false} OtherStaysCovered(s: Node, es: seq<Event>, t: Target)
    requires WellFormed(s) && Covered(s, t) && (s.job.Job? ==> s.job.target != t)
    ensures Covered(HappenAll(s, es), t)
    decreases |es|
  {
    if es != [] {
      HappenKeepsWellFormed(s, es[0]);
      OtherStaysCoveredOnce(s, es[0], t);
      OtherStaysCovered(Happen(s, es[0]), es[1..], t);
    }
  }

  /** A plain full backup to one target, however it goes on and ends, leaves every other
      covered target covered. */
  lemma PlainFullKeepsOthers(s: Node, o: Options, es: seq<Event>, t: Target)
    requires WellFormed(s) && Covered(s, t) && !o.incremental && o.target != t && Starts(s, o)
    ensures WellFormed(Step(s, Start(o))) && Covered(HappenAll(Step(s, Start(o)), es), t)
  {
    RequestMeans(s, o);
    StartShape(s, o);
    OtherStaysCovered(Step(s, Start(o)), es, t);
  }

  // ---------------------------------------------------------------------------
  // A first full backup that fails

  /** While the job of a first full backup of `s` runs: what is marked has been copied, and
      what has changed is marked. */
  ghost predicate FirstFullRuns(s: Node, s1: Node) {
    && WellFormed(s1) && |s1.disk| == |s.disk| && s1.bitmap.Some?
    && (s1.job.Job? ==>
          && s1.job.sync.Full? && s1.job.frozen == {} && s1.job.snapshot == s.disk
          && (forall b: nat :: b in s1.job.remaining ==> b !in s1.bitmap.value)
          && (forall b: nat :: b < |s.disk| && s1.disk[b] != s.disk[b] ==> b in s1.bitmap.value))
  }

  lemma FirstFullGoesOn(s: Node, s1: Node, e: Event)
    requires FirstFullRuns(s, s1)
    ensures FirstFullRuns(s, Happen(s1, e))
  {
    HappenKeepsWellFormed(s1, e);
  }

  lemma {:induction false} FirstFullRunsOn(s: Node, s1: Node, es: seq<Event>)
    requires FirstFullRuns(s, s1)
    ensures FirstFullRuns(s, HappenAll(s1, es))
    decreases |es|
  {
    if es != [] {
      FirstFullGoesOn(s, s1, es[0]);
      FirstFullRunsOn(s, Happen(s1, es[0]), es[1..]);
    }
  }

  /** A first full backup has started in `s`, and after `es` its job is still running. */
  ghost predicate FirstFullStarted(s: Node, o: Options, es: seq<Event>) {
    && WellFormed(s) && ModeOf(o, s.bitmap.Some?).FirstFull? && Starts(s, o)
    && WellFormed(Step(s, Start(o))) && HappenAll(Step(s, Start(o)), es).job.Job?
  }

  /** The failure of a first full backup does no harm, so that the bitmap covers the target,
      if and only if the blocks it had not copied yet were right before it started. */
  lemma FailedFirstFullCoversIff(s: Node, o: Options, es: seq<Event>)
    requires FirstFullStarted(s, o, es)
    ensures var s1 := HappenAll(Step(s, Start(o)), es);
            && WellFormed(s1) && o.target in s.targets && |s.disk| <= |s.targets[o.target]|
            && (Covered(Happen(s1, Break), o.target) <==>
                  forall b: nat :: b < |s.disk| && b in s1.job.remaining ==> s.targets[o.target][b] == s.disk[b])
  {
    var t, s0 := o.target, Step(s, Start(o));
    StartShape(s, o);
    StartResult(s, o);
    FirstFullRunsOn(s, s0, es);
    RoundResult(s0, s0, es);
    UncopiedDecide(s, s0, HappenAll(s0, es));
  }

  lemma UncopiedDecide(s: Node, s0: Node, s1: Node)
    requires WellFormed(s0) && s0.job.Job? && s0.disk == s.disk && s0.job.remaining == AllBlocks(|s.disk|)
    requires s0.targets == s.targets && s0.job.snapshot == s.disk
    requires FirstFullRuns(s, s1) && Progress(s0, s1) && s1.job.Job?
    ensures var t := s0.job.target;
            Covered(Happen(s1, Break), t) <==>
              forall b: nat :: b < |s.disk| && b in s1.job.remaining ==> s.targets[t][b] == s.disk[b]
  {
    var t, s2 := s0.job.target, Happen(s1, Break);
    assert s1.bitmap.value + {} == s1.bitmap.value;
    assert s2.bitmap == s1.bitmap && s2.disk == s1.disk && s2.targets == s1.targets;
    forall b: nat | b < |s.disk| && b in s1.job.remaining
      ensures s2.targets[t][b] == s.targets[t][b] && s2.disk[b] == s.disk[b] && b !in s2.bitmap.value
    {
    }
    forall b: nat | b < |s.disk| && b !in s1.job.remaining
      ensures s2.targets[t][b] == s.disk[b]
    {
    }
  }

  /** And that decides about the next incremental backup, if it completes. */
  lemma NextIncrementalIff(s: Node, o: Options, es: seq<Event>, s2: Node, during: seq<Event>, s3: Node)
    requires FirstFullStarted(s, o, es) && WellFormed(HappenAll(Step(s, Start(o)), es))
    requires s2 == Happen(HappenAll(Step(s, Start(o)), es), Break) && Starts(s2, o)
    requires WellFormed(s2) && WellFormed(Step(s2, Start(o))) && s3 == HappenAll(Step(s2, Start(o)), during)
    requires s3.job.NoJob? && s3.outcome == Completed
    ensures ModeOf(o, s2.bitmap.Some?).Differential? || ModeOf(o, s2.bitmap.Some?).ResetFull?
    ensures o.target in s3.targets && |s2.disk| <= |s3.targets[o.target]|
    ensures o.target in s.targets && |s.disk| <= |s.targets[o.target]|
    ensures s3.targets[o.target][..|s2.disk|] == s2.disk <==>
              o.clearBitmap ||
              forall b: nat :: b < |s.disk| && b in HappenAll(Step(s, Start(o)), es).job.remaining ==>
                s.targets[o.target][b] == s.disk[b]
  {
    FailedFirstFullCoversIff(s, o, es);
    BitmapIsLeft(s, o, es);
    var s0 := Step(s2, Start(o));
    StartShape(s2, o);
    RoundResult(s0, s0, during);
    ResultIff(s2, o, s0, s3);
  }

  lemma BitmapIsLeft(s: Node, o: Options, es: seq<Event>)
    requires FirstFullStarted(s, o, es)
    ensures WellFormed(HappenAll(Step(s, Start(o)), es))
    ensures Happen(HappenAll(Step(s, Start(o)), es), Break).bitmap.Some?
  {
    StartShape(s, o);
    StartResult(s, o);
    FirstFullRunsOn(s, Step(s, Start(o)), es);
  }

  lemma SameBlocks(a: seq<Data>, b: seq<Data>)
    requires |b| <= |a|
    ensures a[..|b|] == b <==> forall i: nat :: i < |b| ==> a[i] == b[i]
  {
    assert forall i: nat :: i < |b| ==> a[..|b|][i] == a[i];
  }

  /** Wherever it fails, a first full backup does no harm if and only if there was nothing
      to do. */
  lemma FailedFirstFullHarmlessIff(s: Node, o: Options)
    requires FirstFullStarted(s, o, [])
    ensures o.target in s.targets && |s.disk| <= |s.targets[o.target]|
    ensures (forall es :: FirstFullStarted(s, o, es) ==>
               WellFormed(HappenAll(Step(s, Start(o)), es)) &&
               Covered(Happen(HappenAll(Step(s, Start(o)), es), Break), o.target))
            <==> s.targets[o.target][..|s.disk|] == s.disk
  {
    var t, n := o.target, |s.disk|;
    FailedFirstFullCoversIff(s, o, []);
    StartShape(s, o);
    SameBlocks(s.targets[t], s.disk);
    if s.targets[t][..n] == s.disk {
      forall es | FirstFullStarted(s, o, es)
        ensures WellFormed(HappenAll(Step(s, Start(o)), es))
        ensures Covered(Happen(HappenAll(Step(s, Start(o)), es), Break), t)
      {
        FailedFirstFullCoversIff(s, o, es);
      }
    }
  }

  /** An input that shows the harm: the first full backup starts and fails, its bitmap stays
      behind, and the same request, now an incremental backup, completes with nothing
      copied. */
  lemma FailedFirstFullDoesHarm() returns (s: Node, o: Options, acts: seq<Action>)
    ensures WellFormed(s) && s.job.NoJob? && s.bitmap.None?
    ensures acts == [Start(o), During(Break), Start(o), During(Finish)]
    ensures ModeOf(o, s.bitmap.Some?).FirstFull? && Starts(s, o)
    ensures var s2 := History(s, {}, acts[..2]).0;
            s2.outcome == Errored && s2.bitmap == Some({}) && ModeOf(o, s2.bitmap.Some?).Differential? && Starts(s2, o)
    ensures var s4 := History(s, {}, acts).0;
            && s4.outcome == Completed && s4.disk == s.disk
            && o.target in s4.targets && s4.targets[o.target] != s4.disk
  {
    var t := "/dev/vg/backup";
    s := Node([1], None, map[t := [0]], NoJob, Silent);
    o := Options(t, true, false);
    acts := [Start(o), During(Break), Start(o), During(Finish)];
    StartResult(s, o);
    assert AllBlocks(1) == {0};
    var s1, tr1 := OneStep(s, {}, acts);
    assert s1 == Node([1], Some({}), map[t := [0]], Job(t, Full, [1], {0}, {}), Silent);
    assert acts[1..][0] == During(Break) && s1.bitmap.value + s1.job.frozen == {};
    var s2, tr2 := OneStep(s1, tr1, acts[1..]);
    assert s2 == Node([1], Some({}), map[t := [0]], NoJob, Errored);
    FirstTwo(s, acts, s1, tr1, s2);
    StartResult(s2, o);
    var s3, tr3 := OneStep(s2, tr2, acts[1..][1..]);
    assert s3 == Node([1], Some({}), map[t := [0]], Job(t, Incremental, [1], {}, {}), Silent);
    var s4, tr4 := OneStep(s3, tr3, acts[1..][1..][1..]);
    assert acts[1..][1..][1..][1..] == [];
  }

  lemma FirstTwo(s: Node, acts: seq<Action>, s1: Node, trusted1: set<Target>, s2: Node)
    requires WellFormed(s) && |acts| >= 2 && s1 == Step(s, acts[0]) && trusted1 == Trusted(s, {}, acts[0])
    requires WellFormed(s1) && s2 == Step(s1, acts[1])
    ensures History(s, {}, acts[..2]).0 == s2
  {
    var s1', tr1 := OneStep(s, {}, acts[..2]);
    var s2', tr2 := OneStep(s1', tr1, acts[..2][1..]);
    assert acts[..2][1..][1..] == [];
  }

  lemma OneStep(s: Node, trusted: set<Target>, acts: seq<Action>) returns (s1: Node, trusted1: set<Target>)
    requires WellFormed(s) && acts != []
    ensures s1 == Step(s, acts[0]) && WellFormed(s1) && trusted1 == Trusted(s, trusted, acts[0])
    ensures History(s, trusted, acts) == History(s1, trusted1, acts[1..])
  {
    StepKeepsWellFormed(s, acts[0]);
    s1, trusted1 := Step(s, acts[0]), Trusted(s, trusted, acts[0]);
  }
}
