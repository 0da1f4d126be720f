/**
 The recovery theorems. A startup under a recorded plan may crash after any of its durable operations, any
 number of times. The next startup finishes the plan exactly when no component stopped in a crash window,
 and then leaves the disk of one uninterrupted startup.
 */
module StagingTheorems {
  import opened Outcomes
  import opened StagingRecovery
  import opened StagingParts
  import opened StagingUnits
  import opened StagingCrash
  import SD = StageDiscard
  import VC = VolumeCleanup
  import VR = VolumeRecovery

  /** The disk after startups that each crash after the given number of durable operations. */
  function Crashes(d: Disk, retained: Inventory, plan: Plan, cuts: seq<nat>): Disk
    decreases |cuts|
  {
    if cuts == [] then d
    else
      var ops := Pass(d, retained, plan).ops;
      Crashes(Run(d, if cuts[0] < |ops| then ops[..cuts[0]] else ops), retained, plan, cuts[1..])
  }

  function Finished(d: Disk, retained: Inventory, plan: Plan): Disk { Run(d, Pass(d, retained, plan).ops) }

  lemma {:induction false} PlanAt(retained: Inventory, plan: Plan, key: nat)
    requires ValidPlan(retained, plan)
    ensures FindEntry(retained.entries, key).Some? <==> FindStage(plan.stages, key).Some?
    ensures FindVolume(retained.volumes, key).Some? <==> FindAction(plan.volumes, key).Some?
    ensures FindVolume(retained.volumes, key).Some? ==> FindVolume(retained.volumes, key).value.key == key
    ensures FindStage(plan.stages, key).Some? ==> SD.ValidDecision(FindStage(plan.stages, key).value)
  {
    forall n | 0 <= n < |plan.stages| ensures plan.stages[n].key == retained.entries[n].key {
      assert StageDispositionMatches(plan.stages[n], retained.entries[n]);
    }
    forall n | 0 <= n < |plan.volumes| ensures plan.volumes[n].key == retained.volumes[n].key {
      assert VolumeDispositionMatches(plan.volumes[n], retained.volumes[n]);
    }
    FoundEntry(retained.entries, plan.stages, key);
    FoundVolume(retained.volumes, plan.volumes, key);
    FoundStage(plan.stages, key);
    if FindStage(plan.stages, key).Some? {
      var n :| 0 <= n < |plan.stages| && plan.stages[n] == FindStage(plan.stages, key).value;
      assert ValidStageDisposition(plan.stages[n]);
    }
  }

  /** One stage of a disk from which the plan can be finished. */
  predicate StageReady(key: nat, s: SD.Stage, retained: Inventory, plan: Plan) {
    && SD.Ordered(s)
    && StageAdmitted(key, SD.Swept(s), retained.entries)
    && (FindStage(plan.stages, key).Some? ==> SD.Pass(s, FindStage(plan.stages, key).value).done)
  }

  /** One volume of a disk from which the plan can be finished. */
  predicate VolumeReady(key: nat, v: VR.Volume, retained: Inventory, plan: Plan) {
    match FindAction(plan.volumes, key)
    case None => VR.Inventory(key, VR.Reaped(v)).Absent?
    case Some(action) => FindVolume(retained.volumes, key).Some? && VR.Pass(v, FindVolume(retained.volumes, key).value, action).done
  }

  predicate MissingReady(d: Disk, plan: Plan) {
    && (forall n :: 0 <= n < |plan.stages| && plan.stages[n].key !in d.stages ==> SD.Dispose(NO_STAGE, plan.stages[n]).done)
    && (forall n :: 0 <= n < |plan.volumes| && plan.volumes[n].key !in d.volumes ==> plan.volumes[n].action.Cleanup?)
  }

  /** A pass succeeds exactly when every unit is ready. */
  lemma {:induction false} PassReady(d: Disk, retained: Inventory, plan: Plan)
    requires ValidPlan(retained, plan)
    ensures Pass(d, retained, plan).done <==>
      && (forall key :: key in d.stages ==> StageReady(key, d.stages[key], retained, plan))
      && (forall key :: key in d.volumes ==> VolumeReady(key, d.volumes[key], retained, plan))
      && MissingReady(d, plan)
  {
    PassDone(d, retained, plan);
    ValidPlanSorted(retained, plan);
    StagesReady(d, retained, plan);
    VolumesReady(d, retained, plan);
  }

  lemma {:induction false} StagesReady(d: Disk, retained: Inventory, plan: Plan)
    requires ValidPlan(retained, plan) && SortedPlan(plan)
    ensures (forall key :: key in d.stages ==> SD.Ordered(d.stages[key]) && StageAdmitted(key, SD.Swept(d.stages[key]), retained.entries)) ==>
      (StagesDone(d, plan) <==>
        && (forall key :: key in d.stages ==> StageReady(key, d.stages[key], retained, plan))
        && (forall n :: 0 <= n < |plan.stages| && plan.stages[n].key !in d.stages ==> SD.Dispose(NO_STAGE, plan.stages[n]).done))
  {
    hide StageAdmitted;
    hide SD.Dispose;
    hide SD.SweepOps;
    hide SD.Swept;
    assert SD.Swept(NO_STAGE) == NO_STAGE by { SweptNothing(); }
    forall n | 0 <= n < |plan.stages| ensures FindStage(plan.stages, plan.stages[n].key) == Some(plan.stages[n]) {
      FindStageAt(plan.stages, n);
    }
    forall key | FindStage(plan.stages, key).Some?
      ensures exists n :: 0 <= n < |plan.stages| && plan.stages[n] == FindStage(plan.stages, key).value && plan.stages[n].key == key
    {
      FoundStage(plan.stages, key);
    }
  }

  lemma {:induction false} SweptNothing()
    ensures SD.Swept(NO_STAGE) == NO_STAGE
  {}

  lemma {:induction false} FoundAction(ds: seq<VR.Disposition>, key: nat)
    ensures FindAction(ds, key).Some? ==> exists n :: 0 <= n < |ds| && ds[n] == VR.Disposition(key, FindAction(ds, key).value)
    decreases |ds|
  {
    if ds != [] && ds[0].key != key {
      FoundAction(ds[1..], key);
      if FindAction(ds, key).Some? {
        var n :| 0 <= n < |ds[1..]| && ds[1..][n] == VR.Disposition(key, FindAction(ds[1..], key).value);
        assert ds[n + 1] == ds[1..][n];
      }
    }
  }

  lemma {:induction false} VolumesReady(d: Disk, retained: Inventory, plan: Plan)
    requires ValidPlan(retained, plan) && SortedPlan(plan)
    ensures
      ((forall key :: key in d.volumes ==> VolumeAdmitted(key, VR.Reaped(d.volumes[key]), retained.volumes, plan.volumes)) &&
       VolumesDone(d, plan)) <==>
      ((forall key :: key in d.volumes ==> VolumeReady(key, d.volumes[key], retained, plan)) &&
       (forall n :: 0 <= n < |plan.volumes| && plan.volumes[n].key !in d.volumes ==> plan.volumes[n].action.Cleanup?))
  {
    forall key ensures FindVolume(retained.volumes, key).Some? <==> FindAction(plan.volumes, key).Some?
      ensures FindVolume(retained.volumes, key).Some? ==> FindVolume(retained.volumes, key).value.key == key
    {
      PlanAt(retained, plan, key);
    }
    forall n | 0 <= n < |plan.volumes| ensures FindAction(plan.volumes, plan.volumes[n].key) == Some(plan.volumes[n].action) {
      FindActionAt(plan.volumes, n);
    }
    forall key | FindAction(plan.volumes, key).Some?
      ensures exists n :: 0 <= n < |plan.volumes| && plan.volumes[n] == VR.Disposition(key, FindAction(plan.volumes, key).value)
    {
      FoundAction(plan.volumes, key);
    }
    hide VR.Inventory;
    hide VR.Apply;
    hide VR.Reaped;
    hide FindVolume;
    hide FindAction;
    forall key | key in d.volumes
      ensures VolumeReady(key, d.volumes[key], retained, plan) <==>
        (VolumeAdmitted(key, VR.Reaped(d.volumes[key]), retained.volumes, plan.volumes) &&
         (FindAction(plan.volumes, key).Some? ==> VolumeDone(d, VR.Disposition(key, FindAction(plan.volumes, key).value))))
    {}
  }

  /** A stage after a crash anywhere in its part of the pass is ready again, and exactly its rest is left. */
  lemma {:induction false} StageStaysReady(key: nat, base: SD.Stage, s: SD.Stage, retained: Inventory, plan: Plan, n: nat)
    requires ValidPlan(retained, plan) && StageReady(key, base, retained, plan)
    requires StageAtPoint(base, s, FindStage(plan.stages, key), n)
    ensures StageReady(key, s, retained, plan)
    ensures StageOps(s, FindStage(plan.stages, key)) == StageOps(base, FindStage(plan.stages, key))[n..]
  {
    PlanAt(retained, plan, key);
    match FindStage(plan.stages, key)
    case Some(d) => StageReopens(key, base, retained.entries, d, n);
    case None =>
      assert EntryOf(key, SD.Swept(base)).None?;
      assert base.files != map[] ==> SD.Swept(base) == base;
      SD.SweepRuns(base);
      SD.SweepContinues(base, n);
      SD.SweepRuns(s);
  }

  lemma {:induction false} VolumeStaysReady(key: nat, base: VR.Volume, v: VR.Volume, retained: Inventory, plan: Plan, j: nat, r: nat)
    requires ValidPlan(retained, plan) && VolumeReady(key, base, retained, plan)
    requires VolumeAtPoints(base, v, Cleaned(plan, key), j, r)
    ensures VolumeReady(key, v, retained, plan) <==> !(Cleaned(plan, key) && VolumeStuck(v))
    ensures ComponentStays(VC.Journal, base.journal, v.journal, Cleaned(plan, key), j)
    ensures ComponentStays(VC.Receiver, base.receiver, v.receiver, Cleaned(plan, key), r)
  {
    PlanAt(retained, plan, key);
    match FindAction(plan.volumes, key) {
      case Some(action) =>
        var row := FindVolume(retained.volumes, key).value;
        VolumeReopens(base, v, row, action, j, r);
        if action.Cleanup? {
          CleanupDone(base, row);
          VC.PassContinues(VC.Journal, base.journal, j);
          VC.PassContinues(VC.Receiver, base.receiver, r);
        } else {
          ReapIdempotent(base.journal, j);
          ReapIdempotent(base.receiver, r);
        }
      case None =>
        ReapIdempotent(base.journal, j);
        ReapIdempotent(base.receiver, r);
        assert VR.Reaped(v) == VR.Reaped(base);
    }
  }

  /** A component has the rest of its operations left, or none when it is stuck. */
  predicate ComponentStays(store: VC.Store, base: VC.Component, c: VC.Component, cleanup: bool, count: nat) {
    count <= |ComponentOps(store, base, cleanup)| &&
    ComponentOps(store, c, cleanup) ==
      if cleanup && VC.Stuck(c) then [] else ComponentOps(store, base, cleanup)[count..]
  }

  /**
   After any crash, the next startup finishes the plan if and only if no component under cleanup stopped in
   a crash window.
   */
  lemma {:induction false} FinishesIffNotStuck(base: Disk, d: Disk, retained: Inventory, plan: Plan)
    requires Applicable(base, retained, plan) && AtPoints(base, d, plan)
    ensures Pass(d, retained, plan).done <==> !StuckDisk(d, plan)
  {
    hide Pass;
    hide StageReady;
    hide VolumeReady;
    hide VolumeStuck;
    hide StageAtPoint;
    hide VolumeAtPoints;
    hide ValidPlan;
    PassReady(base, retained, plan);
    PassReady(d, retained, plan);
    forall key | key in d.stages ensures StageReady(key, d.stages[key], retained, plan) {
      var n: nat :| StageAtPoint(base.stages[key], d.stages[key], FindStage(plan.stages, key), n);
      StageStaysReady(key, base.stages[key], d.stages[key], retained, plan, n);
    }
    forall key | key in d.volumes
      ensures VolumeReady(key, d.volumes[key], retained, plan) <==> !(Cleaned(plan, key) && VolumeStuck(d.volumes[key]))
    {
      var j: nat, r: nat :| VolumeAtPoints(base.volumes[key], d.volumes[key], Cleaned(plan, key), j, r);
      VolumeStaysReady(key, base.volumes[key], d.volumes[key], retained, plan, j, r);
    }
  }

  lemma {:induction false} StageMoves(base: SD.Stage, s: SD.Stage, d: Option<SD.Disposition>, n: nat, part: seq<SD.Op>)
    requires StageAtPoint(base, s, d, n)
    requires part <= StageOps(base, d)[n..]
    ensures StageAtPoint(base, SD.Run(s, part), d, n + |part|)
  {
    hide StageOps;
    hide SD.Run;
    var ops := StageOps(base, d);
    assert ops[..n + |part|] == ops[..n] + part;
    SD.RunAppend(base, ops[..n], part);
  }

  lemma {:induction false} ComponentMoves(store: VC.Store, base: VC.Component, c: VC.Component, cleanup: bool, n: nat, part: seq<VC.Op>)
    requires AtPoint(store, base, c, cleanup, n)
    requires part <= ComponentOps(store, base, cleanup)[n..]
    ensures AtPoint(store, base, VC.Run(c, part), cleanup, n + |part|)
  {
    hide ComponentOps;
    hide VC.Run;
    var ops := ComponentOps(store, base, cleanup);
    assert ops[..n + |part|] == ops[..n] + part;
    VC.RunAppend(base, ops[..n], part);
  }

  lemma {:induction false} StageCrashes(base: Disk, d: Disk, retained: Inventory, plan: Plan, key: nat, n: nat, count: nat)
    requires ValidPlan(retained, plan) && SortedPlan(plan) && key in base.stages && key in d.stages
    requires StageReady(key, base.stages[key], retained, plan)
    requires StageAtPoint(base.stages[key], d.stages[key], FindStage(plan.stages, key), n)
    requires count <= |Pass(d, retained, plan).ops|
    ensures exists m :: StageAtPoint(base.stages[key], Run(d, Pass(d, retained, plan).ops[..count]).stages[key],
                                     FindStage(plan.stages, key), m)
  {
    hide Pass;
    hide StageReady;
    hide VolumeReady;
    hide StageOps;
    hide ComponentOps;
    hide VC.Stuck;
    var ops := Pass(d, retained, plan).ops;
    StageStaysReady(key, base.stages[key], d.stages[key], retained, plan, n);
    StageRuns(d, ops[..count], key);
    StagePartOfPrefix(ops, count, key);
    PassStagePart(d, retained, plan, key);
    StageMoves(base.stages[key], d.stages[key], FindStage(plan.stages, key), n, StagePart(ops[..count], key));
  }

  lemma {:induction false} VolumeCrashes(base: Disk, d: Disk, retained: Inventory, plan: Plan, key: nat, j: nat, r: nat, count: nat)
    requires ValidPlan(retained, plan) && SortedPlan(plan) && key in base.volumes && key in d.volumes
    requires VolumeReady(key, base.volumes[key], retained, plan)
    requires VolumeAtPoints(base.volumes[key], d.volumes[key], Cleaned(plan, key), j, r)
    requires count <= |Pass(d, retained, plan).ops|
    ensures exists m, n :: VolumeAtPoints(base.volumes[key], Run(d, Pass(d, retained, plan).ops[..count]).volumes[key],
                                          Cleaned(plan, key), m, n)
    ensures Cleaned(plan, key) && VolumeStuck(d.volumes[key]) ==>
            VolumeStuck(Run(d, Pass(d, retained, plan).ops[..count]).volumes[key])
  {
    hide Pass;
    hide StageReady;
    hide VolumeReady;
    hide StageOps;
    hide ComponentOps;
    hide VC.Stuck;
    hide ValidPlan;
    hide SortedPlan;
    hide AtPoint;
    hide FindAction;
    hide FindVolume;
    hide ComponentStays;
    hide VolumePart;
    VolumeStaysReady(key, base.volumes[key], d.volumes[key], retained, plan, j, r);
    VolumePartMoves(base, d, retained, plan, key, VC.Journal, j, count);
    VolumePartMoves(base, d, retained, plan, key, VC.Receiver, r, count);
    var ops := Pass(d, retained, plan).ops[..count];
    assert VolumeAtPoints(base.volumes[key], Run(d, ops).volumes[key], Cleaned(plan, key),
                          j + |VolumePart(ops, key, VC.Journal)|, r + |VolumePart(ops, key, VC.Receiver)|);
  }

  /** A further crash leaves every unit at a point of the same pass, and a stuck component where it is. */
  lemma {:induction false} CrashStaysAtPoints(base: Disk, d: Disk, retained: Inventory, plan: Plan, count: nat)
    requires Applicable(base, retained, plan) && AtPoints(base, d, plan)
    requires count <= |Pass(d, retained, plan).ops|
    ensures AtPoints(base, Run(d, Pass(d, retained, plan).ops[..count]), plan)
    ensures StuckDisk(d, plan) ==> StuckDisk(Run(d, Pass(d, retained, plan).ops[..count]), plan)
  {
    hide Pass;
    hide StageReady;
    hide VolumeReady;
    hide VolumeStuck;
    hide StageAtPoint;
    hide VolumeAtPoints;
    ValidPlanSorted(retained, plan);
    PassReady(base, retained, plan);
    var after := Run(d, Pass(d, retained, plan).ops[..count]);
    forall key | key in base.stages
      ensures exists n :: StageAtPoint(base.stages[key], after.stages[key], FindStage(plan.stages, key), n)
    {
      var n: nat :| StageAtPoint(base.stages[key], d.stages[key], FindStage(plan.stages, key), n);
      StageCrashes(base, d, retained, plan, key, n, count);
    }
    forall key | key in base.volumes
      ensures exists j, r :: VolumeAtPoints(base.volumes[key], after.volumes[key], Cleaned(plan, key), j, r)
      ensures Cleaned(plan, key) && VolumeStuck(d.volumes[key]) ==> VolumeStuck(after.volumes[key])
    {
      var j: nat, r: nat :| VolumeAtPoints(base.volumes[key], d.volumes[key], Cleaned(plan, key), j, r);
      VolumeCrashes(base, d, retained, plan, key, j, r, count);
    }
  }

  lemma {:induction false} VolumePartMoves(base: Disk, d: Disk, retained: Inventory, plan: Plan, key: nat, store: VC.Store, n: nat, count: nat)
    requires SortedPlan(plan) && key in base.volumes && key in d.volumes
    requires count <= |Pass(d, retained, plan).ops|
    requires AtPoint(store, Component(base.volumes[key], store), Component(d.volumes[key], store), Cleaned(plan, key), n)
    requires ComponentStays(store, Component(base.volumes[key], store), Component(d.volumes[key], store), Cleaned(plan, key), n)
    ensures var part := VolumePart(Pass(d, retained, plan).ops[..count], key, store);
      var after := Run(d, Pass(d, retained, plan).ops[..count]);
      && Frame(after.volumes[key]) == Frame(d.volumes[key])
      && AtPoint(store, Component(base.volumes[key], store), Component(after.volumes[key], store), Cleaned(plan, key), n + |part|)
      && (Cleaned(plan, key) && VC.Stuck(Component(d.volumes[key], store)) ==>
            Component(after.volumes[key], store) == Component(d.volumes[key], store))
  {
    hide Pass;
    hide ComponentOps;
    hide VC.Stuck;
    hide AtPoint;
    var ops := Pass(d, retained, plan).ops;
    VolumeRuns(d, ops[..count], key, store);
    VolumePartOfPrefix(ops, count, key, store);
    PassVolumePart(d, retained, plan, key, store);
    ComponentMoves(store, Component(base.volumes[key], store), Component(d.volumes[key], store), Cleaned(plan, key), n,
                   VolumePart(ops[..count], key, store));
  }

  /** A startup that finishes after crashes leaves the disk that one uninterrupted startup leaves. */
  lemma {:induction false} FinishesTheSame(base: Disk, d: Disk, retained: Inventory, plan: Plan)
    requires Applicable(base, retained, plan) && AtPoints(base, d, plan) && Pass(d, retained, plan).done
    ensures Finished(d, retained, plan) == Finished(base, retained, plan)
  {
    hide Pass;
    hide StageReady;
    hide VolumeReady;
    hide StageAtPoint;
    hide ValidPlan;
    hide StageOps;
    hide ComponentOps;
    hide VC.Stuck;
    ValidPlanSorted(retained, plan);
    FinishesIffNotStuck(base, d, retained, plan);
    PassReady(base, retained, plan);
    var last := Finished(d, retained, plan);
    var whole := Finished(base, retained, plan);
    forall key | key in base.stages ensures last.stages[key] == whole.stages[key] {
      var n: nat :| StageAtPoint(base.stages[key], d.stages[key], FindStage(plan.stages, key), n);
      StageFinishes(base, d, retained, plan, key, n);
    }
    forall key | key in base.volumes ensures last.volumes[key] == whole.volumes[key] {
      var j: nat, r: nat :| VolumeAtPoints(base.volumes[key], d.volumes[key], Cleaned(plan, key), j, r);
      VolumeStaysReady(key, base.volumes[key], d.volumes[key], retained, plan, j, r);
      ComponentFinishes(base, d, retained, plan, key, VC.Journal, j);
      ComponentFinishes(base, d, retained, plan, key, VC.Receiver, r);
      assert Component(last.volumes[key], VC.Journal) == last.volumes[key].journal;
      assert Component(last.volumes[key], VC.Receiver) == last.volumes[key].receiver;
    }
  }

  lemma {:induction false} StageFinishes(base: Disk, d: Disk, retained: Inventory, plan: Plan, key: nat, n: nat)
    requires ValidPlan(retained, plan) && SortedPlan(plan) && key in base.stages && key in d.stages
    requires Pass(base, retained, plan).done && Pass(d, retained, plan).done
    requires StageReady(key, base.stages[key], retained, plan)
    requires StageAtPoint(base.stages[key], d.stages[key], FindStage(plan.stages, key), n)
    ensures Finished(d, retained, plan).stages[key] == Finished(base, retained, plan).stages[key]
  {
    hide Pass;
    hide StageReady;
    hide StageOps;
    hide SD.Run;
    hide ValidPlan;
    hide FindStage;
    hide StageAdmitted;
    var found := FindStage(plan.stages, key);
    StageStaysReady(key, base.stages[key], d.stages[key], retained, plan, n);
    StageRuns(d, Pass(d, retained, plan).ops, key);
    StageRuns(base, Pass(base, retained, plan).ops, key);
    PassStagePart(d, retained, plan, key);
    PassStagePart(base, retained, plan, key);
    var ops := StageOps(base.stages[key], found);
    assert ops[..n] + ops[n..] == ops;
    SD.RunAppend(base.stages[key], ops[..n], ops[n..]);
  }

  lemma {:induction false} ComponentFinishes(base: Disk, d: Disk, retained: Inventory, plan: Plan, key: nat, store: VC.Store, n: nat)
    requires SortedPlan(plan) && key in base.volumes && key in d.volumes
    requires Pass(base, retained, plan).done && Pass(d, retained, plan).done
    requires Frame(d.volumes[key]) == Frame(base.volumes[key])
    requires AtPoint(store, Component(base.volumes[key], store), Component(d.volumes[key], store), Cleaned(plan, key), n)
    requires ComponentStays(store, Component(base.volumes[key], store), Component(d.volumes[key], store), Cleaned(plan, key), n)
    requires !(Cleaned(plan, key) && VC.Stuck(Component(d.volumes[key], store)))
    ensures Component(Finished(d, retained, plan).volumes[key], store) == Component(Finished(base, retained, plan).volumes[key], store)
    ensures Frame(Finished(d, retained, plan).volumes[key]) == Frame(Finished(base, retained, plan).volumes[key])
  {
    hide Pass;
    hide StageReady;
    hide VolumeReady;
    hide StageOps;
    hide ComponentOps;
    hide VC.Stuck;
    VolumeRuns(d, Pass(d, retained, plan).ops, key, store);
    VolumeRuns(base, Pass(base, retained, plan).ops, key, store);
    PassVolumePart(d, retained, plan, key, store);
    PassVolumePart(base, retained, plan, key, store);
    var c := Component(base.volumes[key], store);
    var ops := ComponentOps(store, c, Cleaned(plan, key));
    assert ops[..n] + ops[n..] == ops;
    VC.RunAppend(c, ops[..n], ops[n..]);
  }

  lemma {:induction false} BaseAtPoints(base: Disk, plan: Plan)
    ensures AtPoints(base, base, plan)
  {
    forall key | key in base.stages
      ensures exists n :: StageAtPoint(base.stages[key], base.stages[key], FindStage(plan.stages, key), n)
    {
      assert StageOps(base.stages[key], FindStage(plan.stages, key))[..0] == [];
      assert StageAtPoint(base.stages[key], base.stages[key], FindStage(plan.stages, key), 0);
    }
    forall key | key in base.volumes
      ensures exists j, r :: VolumeAtPoints(base.volumes[key], base.volumes[key], Cleaned(plan, key), j, r)
    {
      var v := base.volumes[key];
      assert ComponentOps(VC.Journal, v.journal, Cleaned(plan, key))[..0] == [];
      assert ComponentOps(VC.Receiver, v.receiver, Cleaned(plan, key))[..0] == [];
      assert VolumeAtPoints(v, v, Cleaned(plan, key), 0, 0);
    }
  }

  lemma {:induction false} CrashesStayAtPoints(base: Disk, d: Disk, retained: Inventory, plan: Plan, cuts: seq<nat>)
    requires Applicable(base, retained, plan) && AtPoints(base, d, plan)
    ensures AtPoints(base, Crashes(d, retained, plan, cuts), plan)
    ensures StuckDisk(d, plan) ==> StuckDisk(Crashes(d, retained, plan, cuts), plan)
    decreases |cuts|
  {
    if cuts != [] {
      var ops := Pass(d, retained, plan).ops;
      var count := if cuts[0] < |ops| then cuts[0] else |ops|;
      assert ops[..|ops|] == ops;
      CrashStaysAtPoints(base, d, retained, plan, count);
      CrashesStayAtPoints(base, Run(d, ops[..count]), retained, plan, cuts[1..]);
    }
  }

  /**
   The recovery theorem, over every sequence of crashes. Outside the crash windows reopening accepts the
   disk and the replay leaves the uninterrupted result; inside them no later startup ever finishes.
   */
  lemma {:induction false} RecoveryFromCrashes(base: Disk, retained: Inventory, plan: Plan, cuts: seq<nat>)
    requires Applicable(base, retained, plan)
    ensures var d := Crashes(base, retained, plan, cuts);
      && (Pass(d, retained, plan).done <==> !StuckDisk(d, plan))
      && (Pass(d, retained, plan).done ==> Finished(d, retained, plan) == Finished(base, retained, plan))
      && (StuckDisk(d, plan) ==> forall more :: !Pass(Crashes(d, retained, plan, more), retained, plan).done)
  {
    BaseAtPoints(base, plan);
    CrashesStayAtPoints(base, base, retained, plan, cuts);
    var d := Crashes(base, retained, plan, cuts);
    FinishesIffNotStuck(base, d, retained, plan);
    if Pass(d, retained, plan).done {
      FinishesTheSame(base, d, retained, plan);
    }
    if StuckDisk(d, plan) {
      forall more ensures !Pass(Crashes(d, retained, plan, more), retained, plan).done {
        CrashesStayAtPoints(base, d, retained, plan, more);
        FinishesIffNotStuck(base, Crashes(d, retained, plan, more), retained, plan);
      }
    }
  }

  /** The last durable operation on a component is the unlinking of its log, or the renaming for a discard. */
  predicate EndsInWindow(done: seq<VC.Op>, whole: seq<VC.Op>) {
    done != [] && (done[|done| - 1] == VC.UnlinkLog || (done[|done| - 1] == VC.Rename && VC.CreateMarker(true) in whole))
  }

  lemma {:induction false} ComponentStuckIffWindow(base: Disk, retained: Inventory, plan: Plan, count: nat, key: nat, store: VC.Store)
    requires SortedPlan(plan) && Pass(base, retained, plan).done && count <= |Pass(base, retained, plan).ops|
    requires key in base.volumes && Cleaned(plan, key) && VolumeReady(key, base.volumes[key], retained, plan)
    ensures var ops := Pass(base, retained, plan).ops;
      VC.Stuck(Component(Run(base, ops[..count]).volumes[key], store)) <==>
      EndsInWindow(VolumePart(ops[..count], key, store), VolumePart(ops, key, store))
  {
    hide Pass;
    hide VC.Pass;
    hide VC.Stuck;
    hide VR.Pass;
    var ops := Pass(base, retained, plan).ops;
    var done := VolumePart(ops[..count], key, store);
    PassVolumePart(base, retained, plan, key, store);
    VolumePartOfPrefix(ops, count, key, store);
    VolumeRuns(base, ops[..count], key, store);
    CleanupDone(base.volumes[key], FindVolume(retained.volumes, key).value);
    var c := Component(base.volumes[key], store);
    VC.PassContinues(store, c, |done|);
    assert VC.Pass(store, c).ops[..|done|] == done;
  }

  predicate WindowAt(base: Disk, plan: Plan, ops: seq<Effect>, count: nat, key: nat, store: VC.Store)
    requires count <= |ops|
  {
    key in base.volumes && Cleaned(plan, key) && EndsInWindow(VolumePart(ops[..count], key, store), VolumePart(ops, key, store))
  }

  lemma {:induction false} WindowIsStuck(base: Disk, retained: Inventory, plan: Plan, count: nat, key: nat)
    requires Applicable(base, retained, plan) && count <= |Pass(base, retained, plan).ops|
    requires key in base.volumes && Cleaned(plan, key)
    ensures var ops := Pass(base, retained, plan).ops;
      VolumeStuck(Run(base, ops[..count]).volumes[key]) <==>
      WindowAt(base, plan, ops, count, key, VC.Journal) || WindowAt(base, plan, ops, count, key, VC.Receiver)
  {
    hide Pass;
    hide VC.Stuck;
    hide VolumeReady;
    hide EndsInWindow;
    ValidPlanSorted(retained, plan);
    PassReady(base, retained, plan);
    ComponentStuckIffWindow(base, retained, plan, count, key, VC.Journal);
    ComponentStuckIffWindow(base, retained, plan, count, key, VC.Receiver);
  }

  /** The windows, named by what was durable last on some component of a volume under cleanup. */
  lemma {:induction false} StuckIffWindow(base: Disk, retained: Inventory, plan: Plan, count: nat)
    requires Applicable(base, retained, plan) && count <= |Pass(base, retained, plan).ops|
    ensures StuckDisk(Run(base, Pass(base, retained, plan).ops[..count]), plan) <==>
            exists key, store :: WindowAt(base, plan, Pass(base, retained, plan).ops, count, key, store)
  {
    hide Pass;
    hide VolumeStuck;
    hide EndsInWindow;
    var ops := Pass(base, retained, plan).ops;
    var d := Run(base, ops[..count]);
    assert d.volumes.Keys == base.volumes.Keys;
    forall key | key in base.volumes && Cleaned(plan, key)
      ensures VolumeStuck(d.volumes[key]) <==>
              WindowAt(base, plan, ops, count, key, VC.Journal) || WindowAt(base, plan, ops, count, key, VC.Receiver)
    {
      WindowIsStuck(base, retained, plan, count, key);
    }
    forall key, store | WindowAt(base, plan, ops, count, key, store)
      ensures key in d.volumes && Cleaned(plan, key) && VolumeStuck(d.volumes[key])
    {
      match store
      case Journal =>
      case Receiver =>
    }
  }
}
