/**
 * The directory checks testWriteableDirectory and testReadableDirectory (the
 * same in BootstrapSmarty and StMarksSmarty) as decision tables over the
 * filesystem facts observed for one directory, and the constructor's sweep
 * that checks every Smarty directory in turn and stops at the first
 * exception.
 */
module DirectoryGuard {
  import opened Wrappers
  import opened Errors
  import opened PhpArrays
  import opened DirectoryMerge

  /** What the filesystem answers about one directory when it is checked. */
  datatype Probe = Probe(
    exists_: bool,    // file_exists
    isDir: bool,      // is_dir
    permitted: bool,  // is_writable or is_readable, whichever the check asks
    chmodOk: bool,    // the result chmod would return
    mkdirOk: bool)    // the result mkdir would return

  /** The filesystem call a check makes, if any. */
  datatype FsAction = NoAction | Chmod(mode: int) | Mkdir

  /** What a check does to the filesystem, and whether it throws. */
  datatype Check = Check(action: FsAction, outcome: Outcome<ErrorCode>)

  /** The octal modes 0775 and 0555 handed to chmod. */
  const WriteRepairMode: int := 7 * 64 + 7 * 8 + 5
  const ReadRepairMode: int := 5 * 64 + 5 * 8 + 5

  /** testWriteableDirectory. */
  function TestWriteable(p: Probe): (c: Check)
    ensures c.outcome == Pass <==>
      (p.exists_ && p.isDir && (p.permitted || p.chmodOk)) || (!p.exists_ && p.mkdirOk)
    ensures c.outcome != Pass ==> c.outcome == Fail(UnwritableDirectory)
    ensures !p.exists_ <==> c.action == Mkdir
    ensures c.action.Chmod? <==> p.exists_ && p.isDir && !p.permitted
    ensures c.action.Chmod? ==> c.action.mode == WriteRepairMode
  {
    var (action, success) :=
      if p.exists_ then
        if p.isDir then
          if p.permitted then (NoAction, true) else (Chmod(WriteRepairMode), p.chmodOk)
        else (NoAction, false)
      else (Mkdir, p.mkdirOk);
    Check(action, if success then Pass else Fail(UnwritableDirectory))
  }

  /** testReadableDirectory: a missing directory is created and still reported. */
  function TestReadable(p: Probe): (c: Check)
    ensures !p.exists_ ==> c == Check(Mkdir, Fail(MissingFiles))
    ensures p.exists_ ==> (c.outcome == Pass <==> p.isDir && (p.permitted || p.chmodOk))
    ensures p.exists_ && c.outcome != Pass ==> c.outcome == Fail(UnreadableDirectory)
    ensures c.action == Mkdir <==> !p.exists_
    ensures c.action.Chmod? <==> p.exists_ && p.isDir && !p.permitted
    ensures c.action.Chmod? ==> c.action.mode == ReadRepairMode
  {
    if p.exists_ then
      var (action, success) :=
        if p.isDir then
          if p.permitted then (NoAction, true) else (Chmod(ReadRepairMode), p.chmodOk)
        else (NoAction, false);
      Check(action, if success then Pass else Fail(UnreadableDirectory))
    else
      Check(Mkdir, Fail(MissingFiles))
  }

  datatype Need = Read | Write

  function Test(need: Need, p: Probe): Check {
    match need
    case Read => TestReadable(p)
    case Write => TestWriteable(p)
  }

  predicate Passes(need: Need, p: Probe) {
    Test(need, p).outcome == Pass
  }

  /** One directory to check and the access it needs. */
  datatype Job = Job(dir: Value, need: Need)

  /** The directories of a Smarty directory setting: the values of an array, or the scalar itself. */
  function Dirs(v: Value): (r: seq<Value>)
    ensures !v.Arr? ==> r == [v]
    ensures v.Arr? ==> |r| == |v.entries| && forall i :: 0 <= i < |r| ==> r[i] == v.entries[i].val
  {
    if v.Arr? then Values(v.entries) else [v]
  }

  /**
   * The constructor's order of checks: every template directory and every
   * config directory for reading, then the compile and cache directories for
   * writing.
   */
  function Plan(d: SmartyDirs): (r: seq<Job>)
    ensures |r| == |Dirs(d.template)| + |Dirs(d.config)| + 2
    ensures forall i :: 0 <= i < |Dirs(d.template)| ==> r[i] == Job(Dirs(d.template)[i], Read)
    ensures forall i :: 0 <= i < |Dirs(d.config)| ==>
      r[|Dirs(d.template)| + i] == Job(Dirs(d.config)[i], Read)
    ensures r[|r| - 2] == Job(d.compile, Write) && r[|r| - 1] == Job(d.cache, Write)
  {
    seq(|Dirs(d.template)|, i requires 0 <= i < |Dirs(d.template)| => Job(Dirs(d.template)[i], Read))
    + seq(|Dirs(d.config)|, i requires 0 <= i < |Dirs(d.config)| => Job(Dirs(d.config)[i], Read))
    + [Job(d.compile, Write), Job(d.cache, Write)]
  }

  /**
   * The outcome of checking the jobs in order, given what the filesystem
   * answers at each check: the exception of the first failing check, if any.
   */
  function FirstFailure(jobs: seq<Job>, probes: seq<Probe>): (o: Outcome<ErrorCode>)
    requires |jobs| == |probes|
    ensures o == Pass <==> forall i :: 0 <= i < |jobs| ==> Passes(jobs[i].need, probes[i])
    ensures o.Fail? ==> exists i :: 0 <= i < |jobs| && FailsFirstAt(jobs, probes, i, o)
    decreases |jobs|
  {
    if jobs == [] then Pass
    else if !Passes(jobs[0].need, probes[0]) then
      var o := Test(jobs[0].need, probes[0]).outcome;
      assert FailsFirstAt(jobs, probes, 0, o);
      o
    else
      var o := FirstFailure(jobs[1..], probes[1..]);
      assert o.Fail? ==> exists i :: 0 <= i < |jobs| - 1 && FailsFirstAt(jobs[1..], probes[1..], i, o);
      assert o.Fail? ==> exists i :: 0 <= i < |jobs| && FailsFirstAt(jobs, probes, i, o) by {
        if o.Fail? {
          var i :| 0 <= i < |jobs| - 1 && FailsFirstAt(jobs[1..], probes[1..], i, o);
          assert FailsFirstAt(jobs, probes, i + 1, o);
        }
      }
      o
  }

  /** Check i throws o and every earlier check passes. */
  predicate FailsFirstAt(jobs: seq<Job>, probes: seq<Probe>, i: int, o: Outcome<ErrorCode>)
    requires |jobs| == |probes| && 0 <= i < |jobs|
  {
    && Test(jobs[i].need, probes[i]).outcome == o
    && o.Fail?
    && forall j :: 0 <= j < i ==> Passes(jobs[j].need, probes[j])
  }

  /** The constructor's checking loops: run the checks in order until one throws. */
  method CheckAll(jobs: seq<Job>, probes: seq<Probe>) returns (o: Outcome<ErrorCode>, actions: seq<FsAction>)
    requires |jobs| == |probes|
    ensures o == FirstFailure(jobs, probes)
    ensures o == Pass ==> |actions| == |jobs|
    ensures o.Fail? ==> 1 <= |actions| <= |jobs| && FailsFirstAt(jobs, probes, |actions| - 1, o)
    ensures forall i :: 0 <= i < |actions| ==> actions[i] == Test(jobs[i].need, probes[i]).action
  {
    o := Pass;
    actions := [];
    var i := 0;
    while i < |jobs|
      invariant 0 <= i <= |jobs| && |actions| == i
      invariant ActionsMatch(jobs, probes, actions)
      invariant AllPass(jobs, probes, i)
      invariant FirstFailure(jobs, probes) == FirstFailure(jobs[i..], probes[i..])
    {
      var c := Test(jobs[i].need, probes[i]);
      ActionsSnoc(actions, jobs, probes, c.action);
      actions := actions + [c.action];
      FirstFailureStep(jobs, probes, i);
      if c.outcome.Fail? {
        o := c.outcome;
        assert FailsFirstAt(jobs, probes, i, o);
        return;
      }
      i := i + 1;
    }
    assert jobs[i..] == [];
  }

  /** The recorded actions are those of the first |actions| checks. */
  predicate ActionsMatch(jobs: seq<Job>, probes: seq<Probe>, actions: seq<FsAction>)
    requires |actions| <= |jobs| == |probes|
  {
    forall j :: 0 <= j < |actions| ==> actions[j] == Test(jobs[j].need, probes[j]).action
  }

  /** The first n checks pass. */
  predicate AllPass(jobs: seq<Job>, probes: seq<Probe>, n: int)
    requires n <= |jobs| == |probes|
  {
    forall j :: 0 <= j < n ==> Passes(jobs[j].need, probes[j])
  }

  /** Recording the action of the next check keeps the record in step with the checks. */
  lemma ActionsSnoc(actions: seq<FsAction>, jobs: seq<Job>, probes: seq<Probe>, x: FsAction)
    requires |actions| < |jobs| == |probes|
    requires ActionsMatch(jobs, probes, actions)
    requires x == Test(jobs[|actions|].need, probes[|actions|]).action
    ensures ActionsMatch(jobs, probes, actions + [x])
  {
    forall j | 0 <= j < |actions| + 1
      ensures (actions + [x])[j] == Test(jobs[j].need, probes[j]).action
    {
      if j < |actions| {
        assert (actions + [x])[j] == actions[j];
      }
    }
  }

  /** One check of the sweep: a passing check hands over to the rest, a failing one decides. */
  lemma FirstFailureStep(jobs: seq<Job>, probes: seq<Probe>, i: int)
    requires |jobs| == |probes| && 0 <= i < |jobs|
    ensures Passes(jobs[i].need, probes[i]) ==>
      FirstFailure(jobs[i..], probes[i..]) == FirstFailure(jobs[i + 1..], probes[i + 1..])
    ensures !Passes(jobs[i].need, probes[i]) ==>
      FirstFailure(jobs[i..], probes[i..]) == Test(jobs[i].need, probes[i]).outcome
  {
    assert jobs[i..][0] == jobs[i] && probes[i..][0] == probes[i];
    assert jobs[i..][1..] == jobs[i + 1..] && probes[i..][1..] == probes[i + 1..];
  }
}
