/**
 Backups of a disk that the guest keeps writing to. QEMU's side (block jobs with copy
 before write, dirty bitmaps, transactions) is a small abstract machine; the choice of
 commands is the one made by the backup task.
 */
module Backup {
  import opened Wrappers

  type Data = int
  type Target = string

  datatype Sync = Full | Incremental

  /** The copying block job: the disk as it was when the job started, the blocks still to be
      copied, and the dirty blocks set aside when an incremental job started. */
  datatype Job =
    | NoJob
    | Job(target: Target, sync: Sync, snapshot: seq<Data>, remaining: set<nat>, frozen: set<nat>)

  /** What the monitor has seen of the last job. */
  datatype Outcome = Silent | Completed | Errored

  datatype Node = Node(
    disk: seq<Data>,
    bitmap: Option<set<nat>>,
    targets: map<Target, seq<Data>>,
    job: Job,
    outcome: Outcome)

  datatype Options = Options(target: Target, incremental: bool, clearBitmap: bool)

  // ---------------------------------------------------------------------------
  // QEMU

  datatype Command =
    | BitmapClear
    | BitmapAdd
    | DriveBackup(target: Target, sync: Sync)

  function AllBlocks(n: nat): (r: set<nat>)
    ensures forall b: nat :: b in r <==> b < n
  {
    if n == 0 then {} else AllBlocks(n - 1) + {n - 1}
  }

  function Exec(s: Node, c: Command): Option<Node> {
    match c
    case BitmapClear => if s.bitmap.Some? then Some(s.(bitmap := Some({}))) else None
    case BitmapAdd => if s.bitmap.None? then Some(s.(bitmap := Some({}))) else None
    case DriveBackup(t, sync) =>
      if s.job.Job? || t !in s.targets || |s.targets[t]| < |s.disk| then None
      else
        match sync
        case Full => Some(s.(job := Job(t, Full, s.disk, AllBlocks(|s.disk|), {}), outcome := Silent))
        case Incremental =>
          if s.bitmap.None? then None
          else
            var dirty := s.bitmap.value * AllBlocks(|s.disk|);
            Some(s.(job := Job(t, Incremental, s.disk, dirty, dirty), bitmap := Some({}), outcome := Silent))
  }

  /** A QMP transaction: all of it or nothing. */
  function Transaction(s: Node, cs: seq<Command>): Option<Node>
    decreases |cs|
  {
    if cs == [] then Some(s)
    else
      match Exec(s, cs[0])
      case Some(s') => Transaction(s', cs[1..])
      case None => None
  }

  /** What happens while a job runs: guest writes, background copying, and the job's end. */
  datatype Event =
    | Write(b: nat, v: Data)
    | CopyBlock(b: nat)
    | Finish
    | Break

  function CopyOut(s: Node, b: nat): Node
    requires s.job.Job? && s.job.target in s.targets && b < |s.disk| <= |s.targets[s.job.target]|
  {
    s.(targets := s.targets[s.job.target := s.targets[s.job.target][b := s.disk[b]]],
       job := s.job.(remaining := s.job.remaining - {b}))
  }

  ghost predicate WellFormed(s: Node) {
    && (s.job.Job? ==>
          && s.job.target in s.targets && |s.disk| <= |s.targets[s.job.target]|
          && |s.job.snapshot| == |s.disk|
          && s.job.frozen <= AllBlocks(|s.disk|)
          && s.job.remaining <= (if s.job.sync.Full? then AllBlocks(|s.disk|) else s.job.frozen)
          && (s.job.sync.Incremental? ==> s.bitmap.Some?))
    && (s.job.Job? ==> s.outcome == Silent)
  }

  /** An event that cannot happen now changes nothing. */
  function Happen(s: Node, e: Event): Node
    requires WellFormed(s)
  {
    match e
    case Write(b, v) =>
      if b >= |s.disk| then s
      else
        // copy before write
        var s1 := if s.job.Job? && b in s.job.remaining then CopyOut(s, b) else s;
        s1.(disk := s1.disk[b := v],
            bitmap := if s1.bitmap.Some? then Some(s1.bitmap.value + {b}) else None)
    case CopyBlock(b) =>
      if s.job.Job? && b in s.job.remaining && b < |s.disk| then CopyOut(s, b) else s
    case Finish =>
      if s.job.Job? && s.job.remaining == {} then s.(job := NoJob, outcome := Completed) else s
    case Break =>
      // a failed or cancelled incremental job gives the frozen bits back
      if s.job.Job? then
        s.(job := NoJob, outcome := Errored,
           bitmap := if s.bitmap.Some? then Some(s.bitmap.value + s.job.frozen) else None)
      else s
  }

  function HappenAll(s: Node, es: seq<Event>): Node
    requires WellFormed(s)
    decreases |es|
  {
    if es == [] then s
    else
      HappenKeepsWellFormed(s, es[0]);
      HappenAll(Happen(s, es[0]), es[1..])
  }

  lemma HappenKeepsWellFormed(s: Node, e: Event)
    requires WellFormed(s)
    ensures WellFormed(Happen(s, e))
    ensures |Happen(s, e).disk| == |s.disk|
  {
  }

  lemma {:induction false} HappenAllKeepsWellFormed(s: Node, es: seq<Event>)
    requires WellFormed(s)
    ensures WellFormed(HappenAll(s, es)) && |HappenAll(s, es).disk| == |s.disk|
    decreases |es|
  {
    if es != [] {
      HappenKeepsWellFormed(s, es[0]);
      HappenAllKeepsWellFormed(Happen(s, es[0]), es[1..]);
    }
  }

  // ---------------------------------------------------------------------------
  // The backup task

  datatype Mode = PlainFull | FirstFull | ResetFull | Differential

  function ModeOf(o: Options, hasBitmap: bool): Mode {
    if !o.incremental then PlainFull
    else if !hasBitmap then FirstFull
    else if o.clearBitmap then ResetFull
    else Differential
  }

  function Commands(o: Options, hasBitmap: bool): seq<Command> {
    match ModeOf(o, hasBitmap)
    case PlainFull => [DriveBackup(o.target, Full)]
    case FirstFull => [BitmapAdd, DriveBackup(o.target, Full)]
    case ResetFull => [BitmapClear, DriveBackup(o.target, Full)]
    case Differential => [DriveBackup(o.target, Incremental)]
  }

  /** Where the polling loop leaves the disk: at the first tick that finds the job gone, or
      at the end of the rounds. */
  function Polled(s: Node, rounds: seq<seq<Event>>): Node
    requires WellFormed(s)
    decreases |rounds|
  {
    if rounds == [] || s.job.NoJob? then s
    else
      HappenAllKeepsWellFormed(s, rounds[0]);
      Polled(HappenAll(s, rounds[0]), rounds[1..])
  }

  /** Every block where the target differs from the disk is marked. */
  ghost predicate Covered(s: Node, t: Target) {
    && t in s.targets && |s.disk| <= |s.targets[t]|
    && s.bitmap.Some?
    && forall b :: 0 <= b < |s.disk| && s.targets[t][b] != s.disk[b] ==> b in s.bitmap.value
  }

  class DiskBackupTask {
    var node: Node           // the disk in QEMU
    var srcHasBitmap: bool   // as read by BeforeStart

    constructor (node: Node)
      ensures this.node == node && !srcHasBitmap
    {
      this.node, this.srcHasBitmap := node, false;
    }

    /** `connected`: the target is a disk of this machine; `local`: it is a block device, so
        that its size can be read. The targets that exist are those available. */
    method BeforeStart(o: Options, connected: bool, local: bool) returns (ok: bool)
      modifies this`srcHasBitmap
      ensures ok <==> !connected && o.target in node.targets && (local ==> |node.disk| <= |node.targets[o.target]|)
      ensures srcHasBitmap == if ok then node.bitmap.Some? else old(srcHasBitmap)
    {
      if connected || o.target !in node.targets { return false; }
      if local && |node.targets[o.target]| < |node.disk| { return false; }
      srcHasBitmap := node.bitmap.Some?;
      ok := true;
    }

    /** `rounds` says what happens between two ticks of the polling loop. When they are used
        up the context is done. */
    method Copy(o: Options, rounds: seq<seq<Event>>) returns (ok: bool)
      requires WellFormed(node) && node.job.NoJob?
      requires srcHasBitmap == node.bitmap.Some?
      modifies this`node
      ensures WellFormed(node) && node.job.NoJob?
      // what it runs is the one transaction of its mode; it succeeds if that does and the
      // job completes in time
      ensures var started := Transaction(old(node), Commands(o, old(srcHasBitmap)));
              match started
              case None => !ok && node == old(node)
              case Some(s) =>
                WellFormed(s) &&
                var end := Polled(s, rounds);
                WellFormed(end)
                && (ok <==> end.job.NoJob? && end.outcome == Completed)
                && node == (if end.job.NoJob? then end else Happen(end, Break))
      // a successful copy is the disk as it was at the start, exactly when nothing that
      // differed was left unmarked
      ensures ok ==> o.target in node.targets && |old(node).disk| <= |node.targets[o.target]|
      ensures ok ==>
        (node.targets[o.target][..|old(node).disk|] == old(node).disk <==>
           !ModeOf(o, old(srcHasBitmap)).Differential? || Covered(old(node), o.target))
    {
      var sync := Full;
      var started: Option<Node>;
      if o.incremental {
        if srcHasBitmap {
          if o.clearBitmap {
            started := Transaction(node, [BitmapClear, DriveBackup(o.target, sync)]);
          } else {
            sync := Incremental;
            started := Transaction(node, [DriveBackup(o.target, sync)]);
          }
        } else {
          started := Transaction(node, [BitmapAdd, DriveBackup(o.target, sync)]);
        }
      } else {
        started := Transaction(node, [DriveBackup(o.target, sync)]);
      }
      assert started == Transaction(node, Commands(o, srcHasBitmap));
      if started.None? {
        return false;
      }
      StartShape(node, o);
      var s0 := started.value;
      node := s0;
      assert rounds[0..] == rounds;
      for i := 0 to |rounds|
        invariant WellFormed(node) && node.job.Job? && Progress(s0, node)
        invariant Polled(node, rounds[i..]) == Polled(s0, rounds)
      {
        assert rounds[i..][0] == rounds[i] && rounds[i..][1..] == rounds[i + 1..];
        RoundResult(s0, node, rounds[i]);
        node := HappenAll(node, rounds[i]);
        if node.job.NoJob? {
          if node.outcome != Completed {
            return false;
          }
          ResultIff(old(node), o, s0, node);
          return true;
        }
      }
      // OnFailure cancels the job
      HappenKeepsWellFormed(node, Break);
      node := Happen(node, Break);
      ok := false;
    }
  }

  // ---------------------------------------------------------------------------
  // What a running job does to its target

  lemma StartShape(s: Node, o: Options)
    requires WellFormed(s) && s.job.NoJob?
    requires Transaction(s, Commands(o, s.bitmap.Some?)).Some?
    ensures var s0 := Transaction(s, Commands(o, s.bitmap.Some?)).value;
            && WellFormed(s0) && s0.job.Job? && s0.job.target == o.target && Progress(s0, s0)
            && s0.disk == s.disk == s0.job.snapshot && s0.targets == s.targets
            && o.target in s.targets && |s.disk| <= |s.targets[o.target]|
            && s0.job.remaining == (if ModeOf(o, s.bitmap.Some?).Differential?
                                    then s.bitmap.value * AllBlocks(|s.disk|) else AllBlocks(|s.disk|))
            && (ModeOf(o, s.bitmap.Some?).Differential? <==> s0.job.sync.Incremental?)
  {
    StartResult(s, o);
  }

  /** The state right after the commands, mode by mode. */
  lemma StartResult(s: Node, o: Options)
    ensures Transaction(s, Commands(o, s.bitmap.Some?)) ==
      match ModeOf(o, s.bitmap.Some?)
      case PlainFull => Exec(s, DriveBackup(o.target, Full))
      case FirstFull => Exec(s.(bitmap := Some({})), DriveBackup(o.target, Full))
      case ResetFull => Exec(s.(bitmap := Some({})), DriveBackup(o.target, Full))
      case Differential => Exec(s, DriveBackup(o.target, Incremental))
  {
    var cs := Commands(o, s.bitmap.Some?);
    if |cs| == 1 {
      TransactionOne(s, cs[0]);
    } else {
      assert cs[1..] == [cs[1]];
      TransactionOne(s.(bitmap := Some({})), cs[1]);
    }
  }

  /** Which request does what: it is accepted exactly if no job runs and the target exists and
      is large enough. An incremental request that finds a bitmap and need not clear it copies
      the dirty blocks, any other one copies all. A request that is not incremental leaves the
      bitmap alone, and every other one starts a new account of the writes. */
  lemma RequestMeans(s: Node, o: Options)
    ensures var started := Transaction(s, Commands(o, s.bitmap.Some?));
            && (started.Some? <==> s.job.NoJob? && o.target in s.targets && |s.disk| <= |s.targets[o.target]|)
            && (started.Some? ==>
                  && started.value.disk == s.disk && started.value.targets == s.targets
                  && started.value.outcome == Silent
                  && started.value.bitmap == (if o.incremental then Some({}) else s.bitmap)
                  && started.value.job == StartedJob(s, o))
  {
    StartResult(s, o);
  }

  function StartedJob(s: Node, o: Options): Job {
    if o.incremental && s.bitmap.Some? && !o.clearBitmap then
      var dirty := s.bitmap.value * AllBlocks(|s.disk|);
      Job(o.target, Incremental, s.disk, dirty, dirty)
    else Job(o.target, Full, s.disk, AllBlocks(|s.disk|), {})
  }

  lemma TransactionOne(s: Node, c: Command)
    ensures Transaction(s, [c]) == Exec(s, c)
  {
    assert [c][1..] == [];
  }

  /** Since the job started in `s0`, precisely the blocks no longer remaining have been
      copied, with their contents of that moment; the others are as they were. */
  ghost predicate Progress(s0: Node, s: Node)
    requires WellFormed(s0) && s0.job.Job?
  {
    var t := s0.job.target;
    && |s.disk| == |s0.disk| && t in s.targets && |s.targets[t]| == |s0.targets[t]|
    && (s.job.Job? ==>
          && s.job.target == t && s.job.snapshot == s0.job.snapshot && s.job.remaining <= s0.job.remaining
          && (forall b :: b in s.job.remaining && b < |s.disk| ==> s.disk[b] == s0.job.snapshot[b]))
    && (s.job.NoJob? && s.outcome == Completed ==> CopiedAll(s0, s, {}))
    && (s.job.Job? ==> CopiedAll(s0, s, s.job.remaining))
  }

  ghost predicate CopiedAll(s0: Node, s: Node, remaining: set<nat>)
    requires WellFormed(s0) && s0.job.Job?
    requires s0.job.target in s.targets && |s.targets[s0.job.target]| == |s0.targets[s0.job.target]|
  {
    var t := s0.job.target;
    forall b :: 0 <= b < |s0.disk| ==>
      s.targets[t][b] == if b in s0.job.remaining && b !in remaining then s0.job.snapshot[b] else s0.targets[t][b]
  }

  lemma HappenKeepsProgress(s0: Node, s: Node, e: Event)
    requires WellFormed(s0) && s0.job.Job? && WellFormed(s) && Progress(s0, s)
    ensures Progress(s0, Happen(s, e))
  {
  }

  lemma {:induction false} RoundResult(s0: Node, s: Node, es: seq<Event>)
    requires WellFormed(s0) && s0.job.Job? && WellFormed(s) && Progress(s0, s)
    ensures WellFormed(HappenAll(s, es)) && Progress(s0, HappenAll(s, es))
    decreases |es|
  {
    if es != [] {
      HappenKeepsWellFormed(s, es[0]);
      HappenKeepsProgress(s0, s, es[0]);
      RoundResult(s0, Happen(s, es[0]), es[1..]);
    }
  }

  /** A completed job leaves the disk as it was at the start in the target, exactly if the
      job was a full one or the bitmap covered the differences. */
  lemma ResultIff(s: Node, o: Options, s0: Node, s1: Node)
    requires WellFormed(s) && s.job.NoJob?
    requires Transaction(s, Commands(o, s.bitmap.Some?)) == Some(s0)
    requires WellFormed(s0) && s0.job.Job? && Progress(s0, s1) && s1.job.NoJob? && s1.outcome == Completed
    ensures o.target in s1.targets && |s.disk| <= |s1.targets[o.target]|
    ensures s1.targets[o.target][..|s.disk|] == s.disk <==>
            !ModeOf(o, s.bitmap.Some?).Differential? || Covered(s, o.target)
  {
    StartShape(s, o);
    var t, n := o.target, |s.disk|;
    assert CopiedAll(s0, s1, {});
    if s1.targets[t][..n] == s.disk && ModeOf(o, s.bitmap.Some?).Differential? {
      forall b | 0 <= b < n && s.targets[t][b] != s.disk[b] ensures b in s.bitmap.value {
        assert s1.targets[t][..n][b] == s.disk[b];
      }
    }
  }
}
