/**
 What no startup may remove, whether or not it finishes, and concrete disks on which a crash is fatal.
 */
module StagingSafety {
  import opened Outcomes
  import opened StagingRecovery
  import opened StagingParts
  import opened StagingUnits
  import opened StagingCrash
  import opened StagingTheorems
  import SD = StageDiscard
  import VC = VolumeCleanup
  import VR = VolumeRecovery

  /** A file may go only by a discard, or by a restarted encryption if it is the stored object. */
  predicate FilesKept(before: SD.Stage, after: SD.Stage, d: Option<SD.Disposition>) {
    forall name :: name in before.files ==>
      || (name in after.files && after.files[name] == before.files[name])
      || (d.Some? && d.value.action.DiscardRecovered?)
      || (d.Some? && d.value.action.ResumePrepared? && d.value.action.restartEncryption && SD.RoleOf(name) == SD.StoredObject)
  }

  /** A marker goes only by a terminal discard, and after the files, the directory and the reservation. */
  predicate MarkerLast(before: SD.Stage, after: SD.Stage, d: Option<SD.Disposition>) {
    before.marker && !after.marker ==>
      && d.Some? && d.value.action.DiscardRecovered? && SD.RetiresMarker(d.value)
      && after.files == map[] && !after.point && !after.reservation
  }

  predicate Safe(before: SD.Stage, after: SD.Stage, d: Option<SD.Disposition>) {
    FilesKept(before, after, d) && MarkerLast(before, after, d)
  }

  lemma {:induction false} SweepKeeps(s: SD.Stage, part: seq<SD.Op>)
    requires part <= SD.SweepOps(s)
    ensures SD.Run(s, part).files == s.files && SD.Run(s, part).marker == s.marker
  {
    SD.SweepContinues(s, |part|);
    assert part == SD.SweepOps(s)[..|part|];
  }

  /** Operations that end in a marker removal, with everything else removed before it. */
  lemma {:induction false} MarkerOpsLast(s: SD.Stage, d: SD.Disposition, before: seq<SD.Op>, part: seq<SD.Op>)
    requires d.action.DiscardRecovered? && SD.RemoveMarker !in before && part <= before + SD.MarkerOps(s, d)
    requires var after := SD.Run(s, before); after.files == map[] && !after.point && !after.reservation
    ensures MarkerLast(s, SD.Run(s, part), Some(d))
  {
    if |part| <= |before| {
      assert part <= before;
      SD.NoMarkerKeepsMarker(s, part);
    } else {
      assert part == before + SD.MarkerOps(s, d);
      SD.RunAppend(s, before, SD.MarkerOps(s, d));
      var emptied := SD.Run(s, before);
      assert SD.Run(emptied, [SD.RemoveMarker]) == SD.Run(SD.Step(emptied, SD.RemoveMarker), []);
    }
  }

  /** A discard stopped anywhere has not removed the marker, or has removed everything else. */
  lemma {:induction false} DiscardSafe(s: SD.Stage, d: SD.Disposition, part: seq<SD.Op>)
    requires d.action.DiscardRecovered? && SD.Ordered(s) && part <= SD.Pass(s, d).ops
    ensures Safe(s, SD.Run(s, part), Some(d))
  {
    hide SD.Run;
    hide SD.RemovalOps;
    if s.files == map[] {
      SD.SweepRuns(s);
      MarkerOpsLast(s, d, SD.SweepOps(s), part);
    } else {
      SD.DiscardPass(s, d);
      SD.NamesListed(s.files);
      SD.RemovalEmpties(s, SD.Names(s.files));
      MarkerOpsLast(s, d, SD.RemovalOps(SD.Names(s.files)), part);
    }
  }

  /** A resume stopped anywhere has removed at most the derived object. */
  lemma {:induction false} ResumeSafe(s: SD.Stage, d: SD.Disposition, part: seq<SD.Op>)
    requires d.action.ResumePrepared? && SD.Ordered(s) && s.files != map[] && part <= SD.Pass(s, d).ops
    ensures Safe(s, SD.Run(s, part), Some(d))
  {
    SD.ResumePass(s, d);
    assert forall op :: op in SD.DerivedOps(s.files) ==> op.RemoveFile? && SD.RoleOf(op.name) == SD.StoredObject;
    if part != [] {
      assert d.action.restartEncryption;
      assert forall op :: op in part ==> op in SD.DerivedOps(s.files);
      DerivedRuns(s, part);
    }
  }

  lemma {:induction false} DerivedRuns(s: SD.Stage, ops: seq<SD.Op>)
    requires forall op :: op in ops ==> op.RemoveFile? && SD.RoleOf(op.name) == SD.StoredObject
    ensures SD.Run(s, ops).marker == s.marker
    ensures forall name :: name in s.files && SD.RoleOf(name) == SD.SourcePlaintext ==>
              name in SD.Run(s, ops).files && SD.Run(s, ops).files[name] == s.files[name]
    decreases |ops|
  {
    if ops != [] {
      assert ops[0] in ops;
      DerivedRuns(SD.Step(s, ops[0]), ops[1..]);
    }
  }

  /** Any prefix of what a pass does to a stage is safe, even when the pass fails. */
  lemma {:induction false} StagePassSafe(s: SD.Stage, d: Option<SD.Disposition>, part: seq<SD.Op>)
    requires part <= StageOps(s, d)
    ensures Safe(s, SD.Run(s, part), d)
  {
    if d.None? {
      SweepKeeps(s, part);
    } else if !SD.Ordered(s) {
      assert part == [];
    } else if d.value.action.DiscardRecovered? {
      DiscardSafe(s, d.value, part);
    } else if d.value.action.ResumePrepared? && s.files != map[] {
      ResumeSafe(s, d.value, part);
    } else {
      if s.files == map[] { SD.SweepRuns(s); }
      assert SD.Pass(s, d.value).ops == SD.SweepOps(s) + SD.Dispose(SD.Swept(s), d.value).ops;
      assert SD.Dispose(SD.Swept(s), d.value).ops == [];
      SweepKeeps(s, part);
    }
  }

  /** No startup, finished or crashed, removes what its plan does not authorise. */
  lemma {:induction false} StartupSafe(d: Disk, retained: Inventory, plan: Plan, count: nat, key: nat)
    requires ValidPlan(retained, plan) && key in d.stages && count <= |Pass(d, retained, plan).ops|
    ensures Safe(d.stages[key], Run(d, Pass(d, retained, plan).ops[..count]).stages[key], FindStage(plan.stages, key))
  {
    hide Pass;
    hide Safe;
    hide StageOps;
    ValidPlanSorted(retained, plan);
    var ops := Pass(d, retained, plan).ops;
    PassStagePart(d, retained, plan, key);
    StagePartOfPrefix(ops, count, key);
    StageRuns(d, ops[..count], key);
    StagePassSafe(d.stages[key], FindStage(plan.stages, key), StagePart(ops[..count], key));
  }

  /** Held and unplanned stages keep every file through any run of startups, whatever else crashes. */
  lemma {:induction false} HeldFilesSurvive(d: Disk, retained: Inventory, plan: Plan, cuts: seq<nat>, key: nat)
    requires ValidPlan(retained, plan) && key in d.stages
    requires FindStage(plan.stages, key).Some? ==> !FindStage(plan.stages, key).value.action.DiscardRecovered?
    ensures var after := Crashes(d, retained, plan, cuts);
      && key in after.stages
      && after.stages[key].marker == d.stages[key].marker
      && forall name :: name in d.stages[key].files ==>
           || (name in after.stages[key].files && after.stages[key].files[name] == d.stages[key].files[name])
           || (SD.RoleOf(name) == SD.StoredObject && FindStage(plan.stages, key).Some? &&
               FindStage(plan.stages, key).value.action.ResumePrepared? &&
               FindStage(plan.stages, key).value.action.restartEncryption)
    decreases |cuts|
  {
    hide Pass;
    if cuts != [] {
      var ops := Pass(d, retained, plan).ops;
      var count := if cuts[0] < |ops| then cuts[0] else |ops|;
      assert ops[..|ops|] == ops;
      var next := Run(d, ops[..count]);
      StartupSafe(d, retained, plan, count, key);
      StageRuns(d, ops[..count], key);
      SD.RunShrinks(d.stages[key], StagePart(ops[..count], key));
      HeldFilesSurvive(next, retained, plan, cuts[1..], key);
    }
  }

  /** One journal with no mutation, authorised for cleanup: it is discarded. */
  const BLANK := VC.Component(VC.Active, true, Some(VC.Log(0, 7, true, false, false, false)), None)

  /** One journal whose root deletion completed: it is cleaned up. */
  const COMPLETED := VC.Component(VC.Active, true, Some(VC.Log(2, 7, true, false, true, false)), None)

  function Lone(journal: VC.Component): VR.Volume {
    VR.Volume(VR.Identity(1, 2, 3, 4, 5), VR.JournalSeal(1, 2, 3, 4, 1, 1), VR.ReceiverSeal(3, 4, 9, 1), journal, VC.GONE)
  }

  function LoneRow(journal: VC.Component): VR.Recovered
    requires journal == BLANK || journal == COMPLETED
  {
    VR.Recovered(0, VR.Identity(1, 2, 3, 4, 5),
                 Some(VR.JournalRow(VR.JournalSeal(1, 2, 3, 4, 1, 1), VC.Inventory(VC.Journal, journal).row)), None)
  }

  /** A disk with one volume, its inventory, and the plan that cleans it up. */
  function LoneDisk(journal: VC.Component): Disk { Disk(map[], map[0 := Lone(journal)]) }

  function LoneInventory(journal: VC.Component): Inventory
    requires journal == BLANK || journal == COMPLETED
  {
    Inventory([], [LoneRow(journal)])
  }

  function LonePlan(journal: VC.Component): Plan
    requires journal == BLANK || journal == COMPLETED
  {
    Plan(LoneInventory(journal), None, [], [VR.Disposition(0, VR.Cleanup)])
  }

  lemma {:induction false} LoneScan(journal: VC.Component)
    requires journal == BLANK || journal == COMPLETED
    ensures VR.Reaped(Lone(journal)) == Lone(journal)
    ensures VR.Inventory(0, Lone(journal)) == VR.Found(LoneRow(journal))
    ensures VR.ValidRow(LoneRow(journal))
  {
    assert VC.Reaped(journal) == journal && VC.Reaped(VC.GONE) == VC.GONE;
  }

  lemma {:induction false} LoneCleanup(journal: VC.Component)
    requires journal == BLANK || journal == COMPLETED
    ensures VC.Cleanup(VC.Journal, journal) == Attempt(
      [VC.Rename, VC.CreateMarker(journal == BLANK), VC.FillMarker, VC.UnlinkLog, VC.UnlinkAuthority,
       VC.UnlinkMarker, VC.RemoveDirectory], true)
  {}

  lemma {:induction false} LoneApplicable(journal: VC.Component)
    requires journal == BLANK || journal == COMPLETED
    ensures Applicable(LoneDisk(journal), LoneInventory(journal), LonePlan(journal))
  {
    hide Pass;
    hide VC.Cleanup;
    hide VR.Inventory;
    hide VR.Reaped;
    var plan := LonePlan(journal);
    LoneScan(journal);
    LoneCleanup(journal);
    assert VC.Cleanup(VC.Receiver, VC.GONE) == Attempt([], true) by { GoneCleanup(); }
    assert FindAction(plan.volumes, 0) == Some(VR.Cleanup);
    assert FindVolume([LoneRow(journal)], 0) == Some(LoneRow(journal));
    assert VolumeReady(0, Lone(journal), LoneInventory(journal), plan);
    PassReady(LoneDisk(journal), LoneInventory(journal), plan);
  }

  lemma {:induction false} GoneCleanup()
    ensures VC.Cleanup(VC.Receiver, VC.GONE) == Attempt([], true)
  {}

  /** The effects of the lone startup: the cleanup of its journal and nothing else. */
  lemma {:induction false} LonePass(journal: VC.Component)
    requires journal == BLANK || journal == COMPLETED
    ensures VolumePart(Pass(LoneDisk(journal), LoneInventory(journal), LonePlan(journal)).ops, 0, VC.Journal) ==
            VC.Cleanup(VC.Journal, journal).ops
  {
    hide Pass;
    hide VC.Cleanup;
    LoneApplicable(journal);
    ValidPlanSorted(LoneInventory(journal), LonePlan(journal));
    PassVolumePart(LoneDisk(journal), LoneInventory(journal), LonePlan(journal), 0, VC.Journal);
    assert VC.ReapOps(journal) == [] && VC.Reaped(journal) == journal;
    assert Cleaned(LonePlan(journal), 0);
  }

  /** A prefix of a list of effects can be chosen to hold any prefix of one component's part. */
  lemma {:induction false} PrefixReaches(es: seq<Effect>, key: nat, store: VC.Store, n: nat)
    requires n <= |VolumePart(es, key, store)|
    ensures exists count: nat :: count <= |es| && VolumePart(es[..count], key, store) == VolumePart(es, key, store)[..n]
    decreases |es|
  {
    if n == 0 {
      assert VolumePart(es[..0], key, store) == VolumePart(es, key, store)[..0];
    } else {
      var one := VolumePart([es[0]], key, store);
      assert es == [es[0]] + es[1..];
      VolumePartAppend([es[0]], es[1..], key, store);
      var m := if |one| <= n then n - |one| else 0;
      PrefixReaches(es[1..], key, store, m);
      var count: nat :| count <= |es[1..]| && VolumePart(es[1..][..count], key, store) == VolumePart(es[1..], key, store)[..m];
      assert es[..count + 1] == [es[0]] + es[1..][..count];
      VolumePartAppend([es[0]], es[1..][..count], key, store);
      assert VolumePart(es[..count + 1], key, store) == VolumePart(es, key, store)[..n];
    }
  }

  /** Some crash of the lone startup ends in a window. */
  lemma {:induction false} LoneWindow(journal: VC.Component) returns (count: nat)
    requires journal == BLANK || journal == COMPLETED
    ensures var d, i, p := LoneDisk(journal), LoneInventory(journal), LonePlan(journal);
      count <= |Pass(d, i, p).ops| && WindowAt(d, p, Pass(d, i, p).ops, count, 0, VC.Journal)
  {
    hide Pass;
    hide VC.Cleanup;
    hide VolumePart;
    var d, i, p := LoneDisk(journal), LoneInventory(journal), LonePlan(journal);
    LonePass(journal);
    LoneCleanup(journal);
    var n := if journal == BLANK then 1 else 4;
    var ops := Pass(d, i, p).ops;
    PrefixReaches(ops, 0, VC.Journal, n);
    count :| count <= |ops| && VolumePart(ops[..count], 0, VC.Journal) == VolumePart(ops, 0, VC.Journal)[..n];
    assert Cleaned(p, 0);
    var whole := VolumePart(ops, 0, VC.Journal);
    assert whole[1] == VC.CreateMarker(journal == BLANK);
  }

  lemma {:induction false} ApplicableFinishes(d: Disk, retained: Inventory, plan: Plan)
    requires Applicable(d, retained, plan)
    ensures Pass(d, retained, plan).done
  {}

  /** No sequence of further startups finishes the plan. */
  ghost predicate Doomed(d: Disk, retained: Inventory, plan: Plan) {
    forall more :: !Pass(Crashes(d, retained, plan, more), retained, plan).done
  }

  /**
   The windows are real: a startup that cleans up one completed journal, crashed after the journal's log is
   unlinked, and one that discards a blank journal, crashed after its directory is renamed. Both startups
   finish when they are not interrupted, and after the crash no startup ever finishes the plan.
   */
  lemma {:induction false} CrashCanBeFatal(journal: VC.Component)
    requires journal == BLANK || journal == COMPLETED
    ensures var d, i, p := LoneDisk(journal), LoneInventory(journal), LonePlan(journal);
      && Pass(d, i, p).done
      && exists count :: Doomed(Crashes(d, i, p, [count]), i, p)
  {
    hide *;
    var d, i, p := LoneDisk(journal), LoneInventory(journal), LonePlan(journal);
    LoneApplicable(journal);
    ApplicableFinishes(d, i, p);
    var count := LoneWindow(journal);
    WindowIsFatal(d, i, p, count, 0, VC.Journal);
  }

  /** A crash in a window, however early the plan was, ends all progress. */
  lemma {:induction false} WindowIsFatal(d: Disk, retained: Inventory, plan: Plan, count: nat, key: nat, store: VC.Store)
    requires Applicable(d, retained, plan) && count <= |Pass(d, retained, plan).ops|
    requires WindowAt(d, plan, Pass(d, retained, plan).ops, count, key, store)
    ensures Doomed(Crashes(d, retained, plan, [count]), retained, plan)
  {
    hide Pass;
    hide StuckDisk;
    hide WindowAt;
    StuckIffWindow(d, retained, plan, count);
    RecoveryFromCrashes(d, retained, plan, [count]);
    var ops := Pass(d, retained, plan).ops;
    assert [count][1..] == [] && ops[..|ops|] == ops;
    assert Crashes(d, retained, plan, [count]) == Crashes(Run(d, ops[..count]), retained, plan, []);
  }
}
