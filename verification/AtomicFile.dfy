/**
 Crash-safe replacement of a file. The new content goes to a side file; on
 close the current file is moved aside, the side file takes its place and the
 old file is removed. Construction cleans up whatever a crash left behind.
 */
module AtomicFile {
  import opened Options

  type Content = seq<int>

  /** The three files of one transaction: the path itself, the new and the previous version. */
  datatype Disk = Disk(path: Option<Content>, next: Option<Content>, previous: Option<Content>)

  /** The changes of the file system that the protocol makes, each of them atomic. */
  datatype Op = RemoveNew | RemoveOld | RestoreOld | SaveOld | Publish

  function Do(d: Disk, op: Op): Disk {
    match op
    case RemoveNew => d.(next := None)
    case RemoveOld => d.(previous := None)
    case RestoreOld => d.(path := d.previous, previous := None)
    case SaveOld => d.(previous := d.path, path := None)
    case Publish => d.(path := d.next, next := None)
  }

  function DoAll(d: Disk, ops: seq<Op>): Disk
    decreases |ops|
  {
    if ops == [] then d else DoAll(Do(d, ops[0]), ops[1..])
  }

  /** The few lengths of plan that occur, written out. */
  lemma Unfolded(d: Disk, ops: seq<Op>)
    requires |ops| <= 3
    ensures |ops| == 1 ==> DoAll(d, ops) == Do(d, ops[0])
    ensures |ops| == 2 ==> DoAll(d, ops) == Do(Do(d, ops[0]), ops[1])
    ensures |ops| == 3 ==> DoAll(d, ops) == Do(Do(Do(d, ops[0]), ops[1]), ops[2])
    decreases |ops|
  {
    if |ops| == 2 {
      assert DoAll(d, ops) == DoAll(Do(d, ops[0]), ops[1..]);
    } else if |ops| == 3 {
      Unfolded(Do(d, ops[0]), ops[1..]);
    }
  }

  /** What recovery undertakes, by which files it finds. */
  function TidyOps(d: Disk): seq<Op> {
    if d.path.Some? then
      (if d.next.Some? then [RemoveNew] else []) + (if d.previous.Some? then [RemoveOld] else [])
    else if d.previous.Some? then
      [RestoreOld] + (if d.next.Some? then [RemoveNew] else [])
    else
      if d.next.Some? then [RemoveNew] else []
  }

  /** What closing a write undertakes. */
  function CommitOps(d: Disk): seq<Op> {
    if d.path.Some? then [SaveOld, Publish, RemoveOld] else [Publish]
  }

  /** The content that the three files stand for. */
  function Current(d: Disk): Option<Content> {
    if d.path.Some? then d.path else d.previous
  }

  /** A disk with no transaction under way. */
  predicate Clean(d: Disk) {
    d.next.None? && d.previous.None?
  }

  function Tidied(d: Disk): Disk {
    DoAll(d, TidyOps(d))
  }

  lemma TidiedIsClean(d: Disk)
    ensures Clean(Tidied(d)) && Tidied(d).path == Current(d)
  {
    Unfolded(d, TidyOps(d));
  }

  /** A recovery that crashes after `k` changes leaves the content alone. */
  lemma PartialTidy(d: Disk, k: nat)
    requires k <= |TidyOps(d)|
    ensures Current(DoAll(d, TidyOps(d)[..k])) == Current(d)
  {
    var ops := TidyOps(d);
    if k == |ops| {
      assert ops[..k] == ops;
      TidiedIsClean(d);
    } else {
      Unfolded(d, ops[..k]);
    }
  }

  /** The disk after recoveries that crashed after `crashes[0]`, `crashes[1]`, ... changes each. */
  function Interrupted(d: Disk, crashes: seq<nat>): Disk
    decreases |crashes|
  {
    if crashes == [] then d
    else
      var ops := TidyOps(d);
      var k := if crashes[0] <= |ops| then crashes[0] else |ops|;
      Interrupted(DoAll(d, ops[..k]), crashes[1..])
  }

  /** Recovery can be interrupted and restarted at will: the outcome is that of one full run. */
  lemma {:induction false} RecoveryIsRestartable(d: Disk, crashes: seq<nat>)
    ensures Tidied(Interrupted(d, crashes)) == Tidied(d)
    decreases |crashes|
  {
    if crashes != [] {
      var ops := TidyOps(d);
      var k := if crashes[0] <= |ops| then crashes[0] else |ops|;
      PartialTidy(d, k);
      var d' := DoAll(d, ops[..k]);
      TidiedIsClean(d);
      TidiedIsClean(d');
      RecoveryIsRestartable(d', crashes[1..]);
    }
  }

  /** How many changes of a commit come before the new content shows. */
  function PublishedAfter(d: Disk): nat {
    if d.path.Some? then 1 else 0
  }

  /** A commit that crashes after `k` changes: all of the new content, or none of it. */
  lemma PartialCommit(d: Disk, w: Content, k: nat)
    requires d.next == Some(w) && d.previous.None? && k <= |CommitOps(d)|
    ensures
      var crashed := DoAll(d, CommitOps(d)[..k]);
      Tidied(crashed).path == (if k > PublishedAfter(d) then Some(w) else d.path) && Clean(Tidied(crashed))
  {
    var ops := CommitOps(d)[..k];
    Unfolded(d, ops);
    TidiedIsClean(DoAll(d, ops));
  }

  // ---------------------------------------------------------------------
  // Whole runs, one file system change at a time, with crashes in between.

  datatype Process =
    | Down
    | Tidying(ops: seq<Op>, found: bool)
    | Idle
    | Reading
    | Writing(written: Content)
    | Committing(ops: seq<Op>, content: Content)

  /** `present` is the flag of the object; `committed` records each content whose commit took effect. */
  datatype System = System(disk: Disk, process: Process, present: bool, committed: seq<Content>)

  datatype Step =
    | Crash
    | Restart
    | TidyOne
    | TidyDone
    | OpenRead
    | CloseRead
    | OpenWrite
    | Write(bytes: Content)
    | Flush(n: nat)
    | CloseWrite
    | CommitOne
    | CommitDone

  predicate Enabled(s: System, step: Step) {
    match step
    case Crash => true
    case Restart => s.process.Down?
    case TidyOne => s.process.Tidying? && s.process.ops != []
    case TidyDone => s.process.Tidying? && s.process.ops == []
    case OpenRead => s.process.Idle? && s.present
    case CloseRead => s.process.Reading?
    case OpenWrite => s.process.Idle?
    case Write(_) => s.process.Writing?
    case Flush(n) => s.process.Writing? && n <= |s.process.written|
    case CloseWrite => s.process.Writing?
    case CommitOne => s.process.Committing? && s.process.ops != []
    case CommitDone => s.process.Committing? && s.process.ops == []
  }

  function Apply(s: System, step: Step): System
    requires Enabled(s, step)
  {
    match step
    case Crash => s.(process := Down)
    case Restart => s.(process := Tidying(TidyOps(s.disk), Current(s.disk).Some?))
    case TidyOne =>
      s.(disk := Do(s.disk, s.process.ops[0]), process := Tidying(s.process.ops[1..], s.process.found))
    case TidyDone => s.(process := Idle, present := s.process.found)
    case OpenRead => s.(process := Reading)
    case CloseRead => s.(process := Idle)
    case OpenWrite => s.(disk := s.disk.(next := Some([])), process := Writing([]))
    case Write(bytes) => s.(process := Writing(s.process.written + bytes))
    case Flush(n) => s.(disk := s.disk.(next := Some(s.process.written[..n])))
    case CloseWrite =>
      var d := s.disk.(next := Some(s.process.written));
      s.(disk := d, process := Committing(CommitOps(d), s.process.written))
    case CommitOne =>
      var op, w := s.process.ops[0], s.process.content;
      var s' := s.(disk := Do(s.disk, op), process := Committing(s.process.ops[1..], w));
      if op.Publish? then s'.(present := true, committed := s.committed + [w]) else s'
    case CommitDone => s.(process := Idle)
  }

  /** The step at which new content becomes current. */
  predicate TakesEffect(s: System, step: Step) {
    step.CommitOne? && s.process.Committing? && s.process.ops != [] && s.process.ops[0].Publish?
  }

  predicate Inv(s: System) {
    match s.process
    case Down => true
    case Tidying(ops, found) => ops == TidyOps(s.disk) && found == Current(s.disk).Some?
    case Idle => Clean(s.disk) && s.present == s.disk.path.Some?
    case Reading => Clean(s.disk) && s.present && s.disk.path.Some?
    case Writing(w) =>
      && s.disk.previous.None? && s.disk.next.Some? && s.disk.next.value <= w
      && s.present == s.disk.path.Some?
    case Committing(ops, w) =>
      || (&& ops == [SaveOld, Publish, RemoveOld]
          && s.disk.next == Some(w) && s.disk.path.Some? && s.disk.previous.None? && s.present)
      || (&& ops == [Publish, RemoveOld]
          && s.disk.next == Some(w) && s.disk.path.None? && s.disk.previous.Some? && s.present)
      || (ops == [Publish] && s.disk.next == Some(w) && s.disk.path.None? && s.disk.previous.None? && !s.present)
      || (ops == [RemoveOld] && s.disk.next.None? && s.disk.path == Some(w) && s.present)
      || (ops == [] && Clean(s.disk) && s.disk.path == Some(w) && s.present)
  }

  /** The tail of the recovery plan is the recovery plan of what is left. */
  lemma TidyPlanShrinks(d: Disk)
    requires TidyOps(d) != []
    ensures TidyOps(Do(d, TidyOps(d)[0])) == TidyOps(d)[1..]
    ensures Current(Do(d, TidyOps(d)[0])) == Current(d)
  {
  }

  /** Each step keeps the invariant, and only the second rename changes the content. */
  lemma StepRefinesRegister(s: System, step: Step)
    requires Inv(s) && Enabled(s, step)
    ensures Inv(Apply(s, step))
    ensures Current(Apply(s, step).disk) ==
              if TakesEffect(s, step) then Some(s.process.content) else Current(s.disk)
    ensures Apply(s, step).committed ==
              if TakesEffect(s, step) then s.committed + [s.process.content] else s.committed
  {
    if step.TidyOne? {
      TidyPlanShrinks(s.disk);
    }
  }

  function Exec(s: System, steps: seq<Step>): Option<System>
    decreases |steps|
  {
    if steps == [] then Some(s)
    else if Enabled(s, steps[0]) then Exec(Apply(s, steps[0]), steps[1..])
    else None
  }

  /** The content of an atomic register after these commits. */
  function Register(initial: Option<Content>, committed: seq<Content>): Option<Content> {
    if committed == [] then initial else Some(committed[|committed| - 1])
  }

  lemma {:induction false} RunRefinesRegister(initial: Option<Content>, s: System, steps: seq<Step>)
    requires Inv(s) && Exec(s, steps).Some?
    requires Current(s.disk) == Register(initial, s.committed)
    ensures
      var s' := Exec(s, steps).value;
      Inv(s') && Current(s'.disk) == Register(initial, s'.committed) && s.committed <= s'.committed
    decreases |steps|
  {
    if steps != [] {
      StepRefinesRegister(s, steps[0]);
      RunRefinesRegister(initial, Apply(s, steps[0]), steps[1..]);
    }
  }

  /**
   Any run of any number of writes, crashes and restarts, from any leftover of
   the three files: recovery yields the content of the last commit that took
   effect, whole, and a reader sees it.
   */
  lemma CrashSafe(d: Disk, steps: seq<Step>)
    requires Exec(System(d, Down, false, []), steps).Some?
    ensures
      var s := Exec(System(d, Down, false, []), steps).value;
      var content := Register(Current(d), s.committed);
      && Tidied(s.disk) == Disk(content, None, None)
      && (s.process.Idle? ==> s.disk == Tidied(s.disk) && s.present == content.Some?)
      && (s.process.Reading? ==> s.disk.path == content && content.Some?)
  {
    RunRefinesRegister(Current(d), System(d, Down, false, []), steps);
    TidiedIsClean(Exec(System(d, Down, false, []), steps).value.disk);
  }

  /** What was written since the write was opened, one step on. */
  function Session(written: Content, step: Step): Content {
    match step
    case OpenWrite => []
    case Write(bytes) => written + bytes
    case _ => written
  }

  /** The process holds these bytes, if it is writing or committing. */
  predicate Carries(s: System, written: Content) {
    match s.process
    case Writing(w) => w == written
    case Committing(_, w) => w == written
    case _ => true
  }

  lemma StepCarries(s: System, step: Step, written: Content)
    requires Enabled(s, step) && Carries(s, written)
    ensures Carries(Apply(s, step), Session(written, step))
  {
  }

  /** What the run should commit: for each commit that takes effect, the bytes written since its write was opened. */
  function Sessions(s: System, steps: seq<Step>, written: Content): seq<Content>
    requires Exec(s, steps).Some?
    decreases |steps|
  {
    if steps == [] then []
    else
      (if TakesEffect(s, steps[0]) then [written] else []) +
      Sessions(Apply(s, steps[0]), steps[1..], Session(written, steps[0]))
  }

  lemma {:induction false} CommitsWhatWasWritten(s: System, steps: seq<Step>, written: Content)
    requires Inv(s) && Exec(s, steps).Some? && Carries(s, written)
    ensures Exec(s, steps).value.committed == s.committed + Sessions(s, steps, written)
    decreases |steps|
  {
    if steps != [] {
      StepRefinesRegister(s, steps[0]);
      StepCarries(s, steps[0], written);
      CommitsWhatWasWritten(Apply(s, steps[0]), steps[1..], Session(written, steps[0]));
    }
  }

  /** A write that runs to its end without a crash: opened, its portions written, closed and committed. */
  function WholeWrite(portions: seq<Content>, replacing: bool): seq<Step> {
    [OpenWrite] + seq(|portions|, i requires 0 <= i < |portions| => Write(portions[i])) + [CloseWrite] +
    (if replacing then [CommitOne, CommitOne, CommitOne] else [CommitOne]) + [CommitDone]
  }

  function Joined(portions: seq<Content>): Content {
    if portions == [] then [] else Joined(portions[..|portions| - 1]) + portions[|portions| - 1]
  }

  lemma {:induction false} ExecConcat(s: System, steps: seq<Step>, more: seq<Step>)
    requires Exec(s, steps).Some?
    ensures Exec(s, steps + more) == Exec(Exec(s, steps).value, more)
    decreases |steps|
  {
    if steps == [] {
      assert steps + more == more;
    } else {
      var all := steps + more;
      assert all[0] == steps[0] && all[1..] == steps[1..] + more;
      ExecConcat(Apply(s, steps[0]), steps[1..], more);
    }
  }

  lemma ExecOne(s: System, step: Step)
    requires Enabled(s, step)
    ensures Exec(s, [step]) == Some(Apply(s, step))
  {
    assert [step][1..] == [];
  }

  lemma {:induction false} PortionsAreWritten(s: System, portions: seq<Content>)
    requires s.process == Writing([])
    ensures
      var steps := seq(|portions|, i requires 0 <= i < |portions| => Write(portions[i]));
      Exec(s, steps) == Some(s.(process := Writing(Joined(portions))))
    decreases |portions|
  {
    if portions != [] {
      var init, last := portions[..|portions| - 1], portions[|portions| - 1];
      PortionsAreWritten(s, init);
      var steps := seq(|portions|, i requires 0 <= i < |portions| => Write(portions[i]));
      var first := seq(|init|, i requires 0 <= i < |init| => Write(init[i]));
      assert steps == first + [Write(last)];
      ExecConcat(s, first, [Write(last)]);
      ExecOne(s.(process := Writing(Joined(init))), Write(last));
    }
  }

  /** Such a write is possible whenever the file is idle, and leaves exactly what was written. */
  lemma WriteTakesEffect(s: System, portions: seq<Content>)
    requires s.process.Idle? && Inv(s)
    ensures Exec(s, WholeWrite(portions, s.present)) ==
              Some(System(Disk(Some(Joined(portions)), None, None), Idle, true, s.committed + [Joined(portions)]))
  {
    var w := Joined(portions);
    var writes := seq(|portions|, i requires 0 <= i < |portions| => Write(portions[i]));
    var s1 := Apply(s, OpenWrite);
    ExecOne(s, OpenWrite);
    PortionsAreWritten(s1, portions);
    ExecConcat(s, [OpenWrite], writes);
    var s2 := s1.(process := Writing(w));
    ExecOne(s2, CloseWrite);
    ExecConcat(s, [OpenWrite] + writes, [CloseWrite]);
    var s3 := Apply(s2, CloseWrite);
    var commits := if s.present then [CommitOne, CommitOne, CommitOne] else [CommitOne];
    CommitCompletes(s3, w, s.present);
    ExecConcat(s, [OpenWrite] + writes + [CloseWrite], commits);
    var s4 := Exec(s3, commits).value;
    ExecOne(s4, CommitDone);
    ExecConcat(s, [OpenWrite] + writes + [CloseWrite] + commits, [CommitDone]);
  }

  lemma CommitCompletes(s: System, w: Content, replacing: bool)
    requires s.disk.next == Some(w) && s.disk.previous.None? && s.disk.path.Some? == replacing
    requires s.process == Committing(CommitOps(s.disk), w)
    ensures
      var commits := if replacing then [CommitOne, CommitOne, CommitOne] else [CommitOne];
      Exec(s, commits) == Some(System(Disk(Some(w), None, None), Committing([], w), true, s.committed + [w]))
  {
    var s1 := Apply(s, CommitOne);
    if replacing {
      assert s1.process.ops == [Publish, RemoveOld];
      var s2 := Apply(s1, CommitOne);
      assert s2.process.ops == [RemoveOld];
      var s3 := Apply(s2, CommitOne);
      assert s3.process.ops == [];
      ExecOne(s, CommitOne);
      ExecOne(s1, CommitOne);
      ExecOne(s2, CommitOne);
      ExecConcat(s, [CommitOne], [CommitOne]);
      ExecConcat(s, [CommitOne, CommitOne], [CommitOne]);
      assert [CommitOne] + [CommitOne] == [CommitOne, CommitOne];
      assert [CommitOne, CommitOne] + [CommitOne] == [CommitOne, CommitOne, CommitOne];
    } else {
      assert CommitOps(s.disk) == [Publish] && s1.process.ops == [];
      ExecOne(s, CommitOne);
    }
  }

  // ---------------------------------------------------------------------
  // The object itself.

  class FileSystem {
    var path: Option<Content>
    var next: Option<Content>
    var previous: Option<Content>

    function Abs(): Disk
      reads this
    {
      Disk(path, next, previous)
    }
  }

  class File {
    const files: FileSystem
    var present: bool
    var reading: bool
    var writing: bool

    ghost predicate Valid()
      reads this, files
    {
      && !(reading && writing)
      && files.previous.None?
      && files.next.Some? == writing
      && present == files.path.Some?
      && (reading ==> present)
    }

    constructor (files: FileSystem)
      modifies files
      ensures this.files == files && Valid() && !reading && !writing
      ensures files.Abs() == Tidied(old(files.Abs()))
      ensures present == Current(old(files.Abs())).Some?
    {
      this.files := files;
      present, reading, writing := false, false, false;
      new;
      TidiedIsClean(files.Abs());
      var found := Tidy();
      present := found;
    }

    method Tidy() returns (found: bool)
      modifies files
      ensures files.Abs() == Tidied(old(files.Abs())) && found == Current(old(files.Abs())).Some?
    {
      TidiedIsClean(files.Abs());
      if files.path.Some? {
        if files.next.Some? {
          files.next := None;
        }
        if files.previous.Some? {
          files.previous := None;
        }
        return true;
      } else if files.previous.Some? {
        files.path, files.previous := files.previous, None;
        if files.next.Some? {
          files.next := None;
        }
        return true;
      } else {
        if files.next.Some? {
          files.next := None;
        }
        return false;
      }
    }

    method OpenWrite()
      requires Valid() && !reading && !writing
      modifies this`writing, files`next
      ensures Valid() && writing && files.next == Some([])
    {
      files.next := Some([]);
      writing := true;
    }

    method Append(bytes: Content)
      requires Valid() && writing
      modifies files`next
      ensures Valid() && files.next == Some(old(files.next).value + bytes)
    {
      files.next := Some(files.next.value + bytes);
    }

    /** Closing a write replaces the content with what was written and leaves nothing else behind. */
    method CloseWrite()
      requires Valid() && writing
      modifies this, files
      ensures Valid() && !reading && !writing && present
      ensures files.Abs() == DoAll(old(files.Abs()), CommitOps(old(files.Abs())))
      ensures files.Abs() == Disk(old(files.next), None, None)
    {
      writing := false;
      Commit();
    }

    method Commit()
      requires files.next.Some? && files.previous.None?
      modifies this`present, files
      ensures present && files.Abs() == DoAll(old(files.Abs()), CommitOps(old(files.Abs())))
      ensures files.Abs() == Disk(old(files.next), None, None)
    {
      ghost var d := files.Abs();
      var replacing := files.path.Some?;
      if replacing {
        files.previous, files.path := files.path, None;
      }
      files.path, files.next := files.next, None;
      present := true;
      if replacing {
        files.previous := None;
      }
      Unfolded(d, CommitOps(d));
    }

    method OpenRead() returns (content: Content)
      requires Valid() && present && !reading && !writing
      modifies this`reading
      ensures Valid() && reading && Some(content) == Current(files.Abs())
    {
      content := files.path.value;
      reading := true;
    }

    method CloseRead()
      requires Valid() && reading
      modifies this`reading
      ensures Valid() && !reading
    {
      reading := false;
    }
  }
}
