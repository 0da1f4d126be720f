/**
 When the next startup opens at all, over every history of crashed startups and changing plans, whether or not any
 of the plans could be finished: exactly when no cleanup that is still planned lost its log's authority, and no
 cleanup that was taken back has left a trace.
 */
module StagingReopening {
  import opened Outcomes
  import opened StagingRecovery
  import opened StagingParts
  import opened StagingUnits
  import opened StagingCrash
  import opened StagingTheorems
  import opened StagingSupersession
  import SD = StageDiscard
  import VC = VolumeCleanup
  import VR = VolumeRecovery

  /** A cleanup that cannot finish does not begin. */
  lemma {:induction false} UndoneIsIdle(store: VC.Store, c: VC.Component)
    ensures VC.Pass(store, c).done || VC.Pass(store, c).ops == []
  {}

  lemma {:induction false} ReapsFirst(store: VC.Store, c: VC.Component, cleanup: bool)
    ensures VC.ReapOps(c) <= ComponentOps(store, c, cleanup) <= VC.Pass(store, c).ops
  {
    hide VC.Cleanup, VC.ReapOps;
  }

  /** Whatever a startup does to a component is a further part of one and the same cleanup. */
  lemma {:induction false} ComponentProceeds(store: VC.Store, base: VC.Component, c: VC.Component, n: nat, part: seq<VC.Op>)
    requires AtPoint(store, base, c, true, n) && part <= VC.Pass(store, c).ops
    ensures AtPoint(store, base, VC.Run(c, part), true, n + |part|)
  {
    var whole := VC.Pass(store, base).ops;
    UndoneIsIdle(store, base);
    hide VC.Pass, VC.Run;
    if VC.Pass(store, base).done {
      VC.PassContinues(store, base, n);
    } else {
      assert whole[..n] == [];
      NothingRuns(base);
    }
    assert part <= whole[n..];
    assert whole[..n + |part|] == whole[..n] + part;
    VC.RunAppend(base, whole[..n], part);
  }

  lemma {:induction false} NothingRuns(c: VC.Component)
    ensures VC.Run(c, []) == c
  {}

  /** What a startup does to a component, whatever plan it opened under. */
  lemma {:induction false} SessionVolumePart(d: Disk, retained: Inventory, p: Plan, q: Plan, key: nat, store: VC.Store)
    requires SortedPlan(q) && key in d.volumes
    ensures VolumePart(Session(d, retained, p, q).ops, key, store) <= VC.Pass(store, Component(d.volumes[key], store)).ops
  {
    hide Open, Opens, Apply, VC.ReapOps, VC.Cleanup, VC.Reaped, Cleaned;
    OpenVolumePart(d, key, store);
    ReapsFirst(store, Component(d.volumes[key], store), false);
    if Opens(d, retained, p) {
      var scanned := Run(d, Open(d).ops);
      assert Open(d).done by { OpensDone(d, retained, p); }
      OpenVolume(d, key);
      ApplyPart(scanned, q, key, store);
      VolumePartAppend(Open(d).ops, Apply(scanned, q).ops, key, store);
    }
  }

  lemma {:induction false} OpensDone(d: Disk, retained: Inventory, plan: Plan)
    requires Opens(d, retained, plan)
    ensures Open(d).done
  {}

  /** A stage that the next opening accepts. */
  predicate StageFine(key: nat, s: SD.Stage, entries: seq<SD.Entry>) {
    SD.Ordered(s) && StageAdmitted(key, SD.Swept(s), entries)
  }

  lemma {:induction false} UndoneSweeps(s: SD.Stage, d: SD.Disposition)
    requires SD.Ordered(s) && !SD.Pass(s, d).done
    ensures SD.Pass(s, d).ops == SD.SweepOps(s)
  {}

  lemma {:induction false} StageProceeds(key: nat, s: SD.Stage, entries: seq<SD.Entry>, d: Option<SD.Disposition>, part: seq<SD.Op>)
    requires StageFine(key, s, entries) && (d.Some? ==> SD.ValidDecision(d.value))
    requires part <= SD.SweepOps(s) || part <= StageOps(s, d)
    ensures StageFine(key, SD.Run(s, part), entries)
  {
    hide SD.Ordered, SD.Swept, SD.SweepOps, SD.Pass, StageAdmitted;
    if d.Some? && !(part <= SD.SweepOps(s)) {
      if SD.Pass(s, d.value).done {
        assert part == SD.Pass(s, d.value).ops[..|part|];
        StageReopens(key, s, entries, d.value, |part|);
      } else {
        UndoneSweeps(s, d.value);
      }
    } else {
      SweptAgain(s, part);
    }
  }

  lemma {:induction false} SessionStagePart(d: Disk, retained: Inventory, p: Plan, q: Plan, key: nat)
    requires SortedPlan(q) && key in d.stages
    ensures var part := StagePart(Session(d, retained, p, q).ops, key);
      part <= SD.SweepOps(d.stages[key]) || part <= StageOps(d.stages[key], FindStage(q.stages, key))
  {
    OpenStagePart(d, key);
    if Opens(d, retained, p) {
      OpenDone(d);
      hide Open, Opens, SD.SweepOps, SD.Dispose;
      var scanned := Run(d, Open(d).ops);
      ApplyStagePart(scanned, q, key);
      StagePartAppend(Open(d).ops, Apply(scanned, q).ops, key);
    }
  }

  lemma {:induction false} ApplyStagePart(d: Disk, plan: Plan, key: nat)
    requires SortedPlan(plan) && key in d.stages
    ensures match FindStage(plan.stages, key)
      case None => StagePart(Apply(d, plan).ops, key) == []
      case Some(found) => StagePart(Apply(d, plan).ops, key) <= SD.Dispose(d.stages[key], found).ops
  {
    hide SD.Dispose;
    var stages := ApplyStages(d.stages, plan.stages);
    ApplyStagesPart(d.stages, plan.stages, key);
    if stages.done {
      ApplyVolumesStagePart(d.volumes, plan.volumes, key);
      StagePartAppend(stages.ops, ApplyVolumes(d.volumes, plan.volumes).ops, key);
    }
  }

  /** Every stage is fine, and every volume is somewhere in its own cleanup. */
  ghost predicate DiskFine(base: Disk, retained: Inventory, d: Disk) {
    && d.stages.Keys == base.stages.Keys && d.volumes.Keys == base.volumes.Keys
    && (forall key :: key in d.stages ==> StageFine(key, d.stages[key], retained.entries))
    && (forall key :: key in d.volumes ==> InCleanup(base.volumes[key], d.volumes[key]))
  }

  ghost predicate InCleanup(base: VR.Volume, v: VR.Volume) { exists j: nat, r: nat :: VolumeAtPoints(base, v, true, j, r) }

  lemma {:induction false} VolumeProceeds(base: VR.Volume, d: Disk, ops: seq<Effect>, part: seq<Effect>, key: nat)
    requires key in d.volumes && part <= ops && InCleanup(base, d.volumes[key])
    requires VolumePart(ops, key, VC.Journal) <= VC.Pass(VC.Journal, d.volumes[key].journal).ops
    requires VolumePart(ops, key, VC.Receiver) <= VC.Pass(VC.Receiver, d.volumes[key].receiver).ops
    ensures InCleanup(base, Run(d, part).volumes[key])
  {
    hide VC.Pass, AtPoint;
    var v, after := d.volumes[key], Run(d, part).volumes[key];
    var j: nat, r: nat :| VolumeAtPoints(base, v, true, j, r);
    assert part == ops[..|part|];
    VolumePartOfPrefix(ops, |part|, key, VC.Journal);
    VolumePartOfPrefix(ops, |part|, key, VC.Receiver);
    VolumeRuns(d, part, key, VC.Journal);
    VolumeRuns(d, part, key, VC.Receiver);
    ComponentProceeds(VC.Journal, base.journal, v.journal, j, VolumePart(part, key, VC.Journal));
    ComponentProceeds(VC.Receiver, base.receiver, v.receiver, r, VolumePart(part, key, VC.Receiver));
    assert VolumeAtPoints(base, after, true, j + |VolumePart(part, key, VC.Journal)|, r + |VolumePart(part, key, VC.Receiver)|);
  }

  lemma {:induction false} LifeProceeds(base: Disk, s: State, retained: Inventory, life: Life)
    requires DiskFine(base, retained, s.disk) && ValidPlan(retained, life.plan)
    ensures DiskFine(base, retained, Live(s, retained, life).disk)
  {
    hide StageFine, InCleanup, Session, Opens, ValidPlan;
    var d, part := s.disk, Cut(Session(s.disk, retained, s.plan, life.plan).ops, life.cut);
    var after := Run(d, part);
    forall key | key in d.stages ensures StageFine(key, after.stages[key], retained.entries) {
      StageLives(d, retained, s.plan, life.plan, part, key);
    }
    forall key | key in d.volumes ensures InCleanup(base.volumes[key], after.volumes[key]) {
      VolumeLives(base.volumes[key], d, retained, s.plan, life.plan, part, key);
    }
  }

  lemma {:induction false} VolumeLives(base: VR.Volume, d: Disk, retained: Inventory, p: Plan, q: Plan, part: seq<Effect>, key: nat)
    requires ValidPlan(retained, q) && key in d.volumes && InCleanup(base, d.volumes[key])
    requires part <= Session(d, retained, p, q).ops
    ensures InCleanup(base, Run(d, part).volumes[key])
  {
    hide InCleanup, Session, ValidPlan, SortedPlan, VC.Pass;
    ValidPlanSorted(retained, q);
    SessionVolumePart(d, retained, p, q, key, VC.Journal);
    SessionVolumePart(d, retained, p, q, key, VC.Receiver);
    VolumeProceeds(base, d, Session(d, retained, p, q).ops, part, key);
  }

  lemma {:induction false} StageLives(d: Disk, retained: Inventory, p: Plan, q: Plan, part: seq<Effect>, key: nat)
    requires ValidPlan(retained, q) && key in d.stages && StageFine(key, d.stages[key], retained.entries)
    requires part <= Session(d, retained, p, q).ops
    ensures StageFine(key, Run(d, part).stages[key], retained.entries)
  {
    hide StageFine, Session, Opens, ValidPlan, SD.SweepOps, StageOps;
    ValidPlanSorted(retained, q);
    PlanAt(retained, q, key);
    var ops := Session(d, retained, p, q).ops;
    assert part == ops[..|part|];
    SessionStagePart(d, retained, p, q, key);
    StagePartOfPrefix(ops, |part|, key);
    StageRuns(d, part, key);
    StageProceeds(key, d.stages[key], retained.entries, FindStage(q.stages, key), StagePart(part, key));
  }

  predicate ValidPlans(retained: Inventory, lives: seq<Life>) { forall life :: life in lives ==> ValidPlan(retained, life.plan) }

  lemma {:induction false} LivesProceed(base: Disk, s: State, retained: Inventory, lives: seq<Life>)
    requires DiskFine(base, retained, s.disk) && ValidPlans(retained, lives)
    ensures DiskFine(base, retained, Lives(s, retained, lives).disk)
    decreases |lives|
  {
    hide DiskFine, ValidPlan, Live;
    if lives != [] {
      assert lives[0] in lives;
      LifeProceeds(base, s, retained, lives[0]);
      LivesProceed(base, Live(s, retained, lives[0]), retained, lives[1..]);
    }
  }

  /** What the inventory reads of a retirement in progress. */
  lemma {:induction false} RetiringReads(store: VC.Store, c: VC.Component, complete: bool)
    requires VC.InProgress(store, c, complete)
    ensures var scan := VC.Inventory(store, VC.Reaped(c));
      if VC.LostLog(c) then scan.Rejected? else scan.Absent? || (scan.Found? && scan.row.retiring)
  {
    RetiringScan(store, c);
    if !VC.Empty(c) { assert VC.Reaped(c) == c; }
  }

  /** What it reads of a component anywhere in a cleanup: nothing, the same, or a retirement, unless the log was lost. */
  predicate Follows(before: VC.Scan, after: VC.Scan) {
    !after.Rejected? && (after == before || after.Absent? || (before.Found? && after.Found? && after.row.retiring))
  }

  lemma {:induction false} CleanupReads(store: VC.Store, base: VC.Component, c: VC.Component, n: nat)
    requires AtPoint(store, base, c, true, n) && !VC.Inventory(store, VC.Reaped(base)).Rejected?
    ensures var scan := VC.Inventory(store, VC.Reaped(c));
      if VC.LostLog(c) then scan.Rejected? else Follows(VC.Inventory(store, VC.Reaped(base)), scan)
    ensures VC.Inventory(store, VC.Reaped(base)).Absent? ==> !VC.LostLog(c)
  {
    var ops := VC.Pass(store, base).ops;
    UndoneIsIdle(store, base);
    hide VC.Pass, VC.Inventory, VC.Reaped;
    if n == 0 {
      assert ops[..0] == [];
      NothingRuns(base);
      LostIsRejected(store, base);
    } else {
      VC.DoneRow(store, base);
      VC.ReapedCases(store, base);
      if VC.Reaped(base) == VC.GONE && ops == [VC.RemoveDirectory] {
        assert ops[..n] == [VC.RemoveDirectory];
        OnlyDirectory(store, base);
      } else {
        BegunReads(store, base, n);
        VC.GonePass(store, base);
      }
    }
  }

  lemma {:induction false} BegunReads(store: VC.Store, base: VC.Component, n: nat)
    requires VC.Pass(store, base).done && 0 < n <= |VC.Pass(store, base).ops|
    ensures var after := VC.Run(base, VC.Pass(store, base).ops[..n]);
      var scan := VC.Inventory(store, VC.Reaped(after));
      if VC.LostLog(after) then scan.Rejected? else scan.Absent? || (scan.Found? && scan.row.retiring)
  {
    hide VC.Pass, VC.Inventory, VC.Reaped, VC.RetireOps, VC.Retire;
    var ops := VC.Pass(store, base).ops;
    VC.PassShape(store, base);
    if base.place.Active? {
      var next := VC.Step(base, VC.Rename);
      var complete :| VC.InProgress(store, next, complete) && ops == [VC.Rename] + VC.RetireOps(next, complete);
      assert ops[..n][1..] == VC.RetireOps(next, complete)[..n - 1];
      assert VC.Run(base, ops[..n]) == VC.Run(next, VC.RetireOps(next, complete)[..n - 1]);
      RetirementReads(store, next, complete, n - 1);
    } else {
      var complete :| VC.InProgress(store, base, complete) && ops == VC.RetireOps(base, complete);
      RetirementReads(store, base, complete, n);
    }
  }

  lemma {:induction false} OnlyDirectory(store: VC.Store, c: VC.Component)
    ensures VC.Run(c, [VC.RemoveDirectory]) == VC.GONE && VC.Inventory(store, VC.Reaped(VC.GONE)).Absent? && !VC.LostLog(VC.GONE)
  {
    assert VC.Run(c, [VC.RemoveDirectory]) == VC.Run(VC.Step(c, VC.RemoveDirectory), []);
  }

  lemma {:induction false} LostIsRejected(store: VC.Store, c: VC.Component)
    ensures VC.LostLog(c) ==> VC.Inventory(store, VC.Reaped(c)).Rejected?
  {}

  lemma {:induction false} RetirementReads(store: VC.Store, c: VC.Component, complete: bool, n: nat)
    requires VC.InProgress(store, c, complete) && n <= |VC.RetireOps(c, complete)|
    ensures var after := VC.Run(c, VC.RetireOps(c, complete)[..n]);
      var scan := VC.Inventory(store, VC.Reaped(after));
      if VC.LostLog(after) then scan.Rejected? else scan.Absent? || (scan.Found? && scan.row.retiring)
  {
    hide VC.RetireOps, VC.Retire, VC.Inventory, VC.Reaped, VC.Run;
    VC.RetireContinues(store, c, complete, n);
    var after := VC.Run(c, VC.RetireOps(c, complete)[..n]);
    if n < |VC.RetireOps(c, complete)| { RetiringReads(store, after, complete); } else { OnlyDirectory(store, c); }
  }

  /** What is read of a volume when its inventory was taken. */
  predicate Shown(retained: Inventory, key: nat, v: VR.Volume) {
    var scan := VR.Inventory(key, VR.Reaped(v));
    scan.Absent? || (FindVolume(retained.volumes, key).Some? && scan == VR.Found(FindVolume(retained.volumes, key).value))
  }

  predicate LostLog(v: VR.Volume) { VC.LostLog(v.journal) || VC.LostLog(v.receiver) }

  /** Something else is read of the volume than when its inventory was taken. */
  predicate Changed(key: nat, base: VR.Volume, v: VR.Volume) {
    var scan := VR.Inventory(key, VR.Reaped(v));
    !scan.Absent? && scan != VR.Inventory(key, VR.Reaped(base))
  }

  lemma {:induction false} RowFollows(key: nat, base: VR.Volume, v: VR.Volume)
    requires Frame(v) == Frame(base) && !VR.Inventory(key, VR.Reaped(base)).Rejected?
    requires Follows(VC.Inventory(VC.Journal, VC.Reaped(base.journal)), VC.Inventory(VC.Journal, VC.Reaped(v.journal)))
    requires Follows(VC.Inventory(VC.Receiver, VC.Reaped(base.receiver)), VC.Inventory(VC.Receiver, VC.Reaped(v.receiver)))
    ensures var before, after := VR.Inventory(key, VR.Reaped(base)), VR.Inventory(key, VR.Reaped(v));
      after.Absent? || (before.Found? && after.Found? && VR.CleanupSubset(after.row, before.row))
  {
    hide VC.Inventory, VC.Reaped;
  }

  lemma {:induction false} RowLost(key: nat, v: VR.Volume)
    requires LostLog(v)
    ensures VR.Inventory(key, VR.Reaped(v)).Rejected?
  {
    LostIsRejected(VC.Journal, v.journal);
    LostIsRejected(VC.Receiver, v.receiver);
  }

  /** Under a plan that cleans it, a volume anywhere in its cleanup is admitted unless a log was lost. */
  lemma {:induction false} CleanedOpens(retained: Inventory, plan: Plan, key: nat, base: VR.Volume, v: VR.Volume)
    requires Shown(retained, key, base) && InCleanup(base, v) && Cleaned(plan, key)
    ensures VolumeAdmitted(key, VR.Reaped(v), retained.volumes, plan.volumes) <==> !LostLog(v)
  {
    var j: nat, r: nat :| VolumeAtPoints(base, v, true, j, r);
    if LostLog(v) {
      RowLost(key, v);
    } else {
      NotRejected(key, base);
      CleanupReads(VC.Journal, base.journal, v.journal, j);
      CleanupReads(VC.Receiver, base.receiver, v.receiver, r);
      RowFollows(key, base, v);
    }
    hide VR.Inventory, VR.Reaped, VR.CleanupSubset, Follows;
  }

  lemma {:induction false} NotRejected(key: nat, v: VR.Volume)
    requires !VR.Inventory(key, VR.Reaped(v)).Rejected?
    ensures !VC.Inventory(VC.Journal, VC.Reaped(v.journal)).Rejected? && !VC.Inventory(VC.Receiver, VC.Reaped(v.receiver)).Rejected?
  {}

  /** Under any other plan it is admitted as long as nothing else is read of it. */
  lemma {:induction false} HeldOpens(retained: Inventory, plan: Plan, key: nat, base: VR.Volume, v: VR.Volume)
    requires Shown(retained, key, base) && InCleanup(base, v) && !Cleaned(plan, key)
    ensures VolumeAdmitted(key, VR.Reaped(v), retained.volumes, plan.volumes) <==> !Changed(key, base, v)
  {
    var j: nat, r: nat :| VolumeAtPoints(base, v, true, j, r);
    NotRejected(key, base);
    CleanupReads(VC.Journal, base.journal, v.journal, j);
    CleanupReads(VC.Receiver, base.receiver, v.receiver, r);
    if VR.Inventory(key, VR.Reaped(base)).Absent? {
      BothAbsent(key, base);
      NothingFollows(key, base, v);
    }
    hide VR.Inventory, VR.Reaped, VR.CleanupSubset, Follows;
  }

  lemma {:induction false} NothingFollows(key: nat, base: VR.Volume, v: VR.Volume)
    requires VR.Inventory(key, VR.Reaped(base)).Absent? && !LostLog(v)
    requires Follows(VC.Inventory(VC.Journal, VC.Reaped(base.journal)), VC.Inventory(VC.Journal, VC.Reaped(v.journal)))
    requires Follows(VC.Inventory(VC.Receiver, VC.Reaped(base.receiver)), VC.Inventory(VC.Receiver, VC.Reaped(v.receiver)))
    ensures VR.Inventory(key, VR.Reaped(v)).Absent?
  {}

  lemma {:induction false} BothAbsent(key: nat, v: VR.Volume)
    requires VR.Inventory(key, VR.Reaped(v)).Absent?
    ensures VC.Inventory(VC.Journal, VC.Reaped(v.journal)).Absent? && VC.Inventory(VC.Receiver, VC.Reaped(v.receiver)).Absent?
  {}

  /** The next opening refuses the volume. */
  predicate Blocks(base: Disk, d: Disk, plan: Plan, key: nat)
    requires key in base.volumes && key in d.volumes
  {
    if Cleaned(plan, key) then LostLog(d.volumes[key]) else Changed(key, base.volumes[key], d.volumes[key])
  }

  /** The inventory was taken from this disk. */
  predicate Inventoried(base: Disk, retained: Inventory) {
    && (forall key :: key in base.stages ==> StageFine(key, base.stages[key], retained.entries))
    && (forall key :: key in base.volumes ==> Shown(retained, key, base.volumes[key]))
  }

  lemma {:induction false} StartsFine(base: Disk, retained: Inventory)
    requires Inventoried(base, retained)
    ensures DiskFine(base, retained, base)
  {
    hide StageFine, Shown;
    forall key | key in base.volumes ensures InCleanup(base.volumes[key], base.volumes[key]) { StartsInCleanup(base.volumes[key]); }
  }

  lemma {:induction false} StartsInCleanup(v: VR.Volume)
    ensures InCleanup(v, v)
  {
    hide VC.Pass;
    assert VC.Pass(VC.Journal, v.journal).ops[..0] == [] && VC.Pass(VC.Receiver, v.receiver).ops[..0] == [];
    assert VolumeAtPoints(v, v, true, 0, 0);
  }

  lemma {:induction false} FineOpens(base: Disk, retained: Inventory, d: Disk, plan: Plan)
    requires Inventoried(base, retained) && DiskFine(base, retained, d)
    ensures Opens(d, retained, plan) <==> forall key :: key in d.volumes ==> !Blocks(base, d, plan, key)
  {
    hide Opens, Shown, InCleanup, SD.Ordered, StageAdmitted, VolumeAdmitted, LostLog, Changed, Cleaned;
    OpensAll(d, retained, plan);
    forall key | key in d.volumes
      ensures VolumeAdmitted(key, VR.Reaped(d.volumes[key]), retained.volumes, plan.volumes) <==> !Blocks(base, d, plan, key)
    {
      if Cleaned(plan, key) {
        CleanedOpens(retained, plan, key, base.volumes[key], d.volumes[key]);
      } else {
        HeldOpens(retained, plan, key, base.volumes[key], d.volumes[key]);
      }
    }
  }

  /**
   Over every history of crashes and of plans that fit the inventory, finishable or not: the next startup opens
   exactly when no volume that the recorded plan cleans lost a log while its authority is there, and every other
   volume is gone or reads as it did when the inventory was taken.
   */
  lemma {:induction false} OpensExactly(base: Disk, retained: Inventory, plan: Plan, lives: seq<Life>)
    requires Inventoried(base, retained) && ValidPlans(retained, lives)
    ensures var s := Lives(State(base, plan), retained, lives);
      && s.disk.volumes.Keys == base.volumes.Keys
      && (Opens(s.disk, retained, s.plan) <==> forall key :: key in s.disk.volumes ==> !Blocks(base, s.disk, s.plan, key))
  {
    hide *;
    StartsFine(base, retained);
    LivesProceed(base, State(base, plan), retained, lives);
    var s := Lives(State(base, plan), retained, lives);
    SameVolumes(base, retained, s.disk);
    FineOpens(base, retained, s.disk, s.plan);
  }

  lemma {:induction false} SameVolumes(base: Disk, retained: Inventory, d: Disk)
    requires DiskFine(base, retained, d)
    ensures d.volumes.Keys == base.volumes.Keys
  {}

  /** A cleanup of this component has nothing or only the empty directory left. */
  predicate Over(store: VC.Store, base: VC.Component, n: nat) {
    base.place.Gone? || (n > 0 && n + 1 >= |VC.Pass(store, base).ops|)
  }

  lemma {:induction false} ActiveReads(store: VC.Store, base: VC.Component, c: VC.Component, n: nat)
    requires AtPoint(store, base, c, true, n) && !base.place.Retiring? && !VC.Inventory(store, base).Rejected?
    ensures VC.Reaped(base) == base
    ensures var before, scan := VC.Inventory(store, base), VC.Inventory(store, VC.Reaped(c));
      && (before.Absent? <==> base.place.Gone?) && (before.Found? ==> !before.row.retiring)
      && (if Over(store, base, n) then scan.Absent?
          else if n == 0 then scan == before
          else scan.Rejected? || (scan.Found? && scan.row.retiring))
  {
    UndoneIsIdle(store, base);
    if VC.Pass(store, base).done {
      CleanupLeaves(store, base, n);
      VC.GonePass(store, base);
    }
    if n == 0 {
      assert VC.Pass(store, base).ops[..0] == [];
      NothingRuns(base);
    }
  }

  /**
   Where no cleanup had begun when the inventory was taken, something else is read of a volume exactly when its
   cleanup has begun on a component and is not over on both.
   */
  lemma {:induction false} ChangedExactly(key: nat, base: VR.Volume, v: VR.Volume, j: nat, r: nat)
    requires VR.Inventory(key, base).Found? && !base.journal.place.Retiring? && !base.receiver.place.Retiring?
    requires VolumeAtPoints(base, v, true, j, r)
    ensures Changed(key, base, v) <==>
            (j > 0 || r > 0) && !(Over(VC.Journal, base.journal, j) && Over(VC.Receiver, base.receiver, r))
  {
    ActiveReads(VC.Journal, base.journal, v.journal, j);
    ActiveReads(VC.Receiver, base.receiver, v.receiver, r);
    hide Over, VC.Inventory, VC.Reaped, AtPoint;
  }
}
