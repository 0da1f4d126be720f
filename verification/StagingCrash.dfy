/**
 Crashes of the whole disk while one recorded plan is applied: which crashes recovery survives, that the
 survivors end where an uninterrupted startup ends, and what no crash can remove.
 */
module StagingCrash {
  import opened Outcomes
  import opened StagingRecovery
  import opened StagingParts
  import opened StagingUnits
  import SD = StageDiscard
  import VC = VolumeCleanup
  import VR = VolumeRecovery

  function FindStage(ds: seq<SD.Disposition>, key: nat): Option<SD.Disposition> {
    if ds == [] then None
    else if ds[0].key == key then Some(ds[0]) else FindStage(ds[1..], key)
  }

  predicate Cleaned(plan: Plan, key: nat) { FindAction(plan.volumes, key) == Some(VR.Cleanup) }

  /** Some component of a volume under cleanup stopped in a crash window. */
  predicate StuckDisk(d: Disk, plan: Plan) {
    exists key :: key in d.volumes && Cleaned(plan, key) && VolumeStuck(d.volumes[key])
  }

  /** A plan that fits its inventory and that an uninterrupted startup would finish from this disk. */
  predicate Applicable(d: Disk, retained: Inventory, plan: Plan) {
    ValidPlan(retained, plan) && Pass(d, retained, plan).done
  }

  predicate StageAtPoint(base: SD.Stage, s: SD.Stage, d: Option<SD.Disposition>, count: nat) {
    count <= |StageOps(base, d)| && s == SD.Run(base, StageOps(base, d)[..count])
  }

  /** Every unit of the disk stands somewhere in its own part of the pass from `base`. */
  ghost predicate AtPoints(base: Disk, d: Disk, plan: Plan) {
    && d.stages.Keys == base.stages.Keys
    && d.volumes.Keys == base.volumes.Keys
    && (forall key :: key in base.stages ==>
          exists n :: StageAtPoint(base.stages[key], d.stages[key], FindStage(plan.stages, key), n))
    && (forall key :: key in base.volumes ==>
          exists j, r :: VolumeAtPoints(base.volumes[key], d.volumes[key], Cleaned(plan, key), j, r))
  }

  lemma {:induction false} FindStageAt(ds: seq<SD.Disposition>, n: nat)
    requires n < |ds| && forall i, j :: 0 <= i < j < |ds| ==> ds[i].key < ds[j].key
    ensures FindStage(ds, ds[n].key) == Some(ds[n])
    decreases |ds|
  {
    if n > 0 {
      FindStageAt(ds[1..], n - 1);
      assert ds[1..][n - 1] == ds[n];
      assert ds[0].key < ds[n].key;
    }
  }

  lemma {:induction false} FoundStage(ds: seq<SD.Disposition>, key: nat)
    ensures FindStage(ds, key).Some? ==> exists n :: 0 <= n < |ds| && ds[n] == FindStage(ds, key).value && ds[n].key == key
    decreases |ds|
  {
    if ds != [] && ds[0].key != key {
      FoundStage(ds[1..], key);
      if FindStage(ds, key).Some? {
        var n :| 0 <= n < |ds[1..]| && ds[1..][n] == FindStage(ds[1..], key).value && ds[1..][n].key == key;
        assert ds[n + 1] == ds[1..][n];
      }
    }
  }

  lemma {:induction false} FindActionAt(ds: seq<VR.Disposition>, n: nat)
    requires n < |ds| && forall i, j :: 0 <= i < j < |ds| ==> ds[i].key < ds[j].key
    ensures FindAction(ds, ds[n].key) == Some(ds[n].action)
    decreases |ds|
  {
    if n > 0 {
      FindActionAt(ds[1..], n - 1);
      assert ds[1..][n - 1] == ds[n];
      assert ds[0].key < ds[n].key;
    }
  }

  lemma {:induction false} FoundEntry(entries: seq<SD.Entry>, ds: seq<SD.Disposition>, key: nat)
    requires |entries| == |ds| && forall n :: 0 <= n < |ds| ==> ds[n].key == entries[n].key
    ensures FindEntry(entries, key).Some? <==> FindStage(ds, key).Some?
    decreases |ds|
  {
    if ds != [] {
      assert ds[0].key == entries[0].key;
      FoundEntry(entries[1..], ds[1..], key);
    }
  }

  lemma {:induction false} FoundVolume(rows: seq<VR.Recovered>, ds: seq<VR.Disposition>, key: nat)
    requires |rows| == |ds| && forall n :: 0 <= n < |ds| ==> ds[n].key == rows[n].key
    ensures FindVolume(rows, key).Some? <==> FindAction(ds, key).Some?
    ensures FindVolume(rows, key).Some? ==> FindVolume(rows, key).value.key == key
    decreases |ds|
  {
    if ds != [] {
      assert ds[0].key == rows[0].key;
      FoundVolume(rows[1..], ds[1..], key);
    }
  }

  /** What the stage part of a plan does to one stage. */
  lemma {:induction false} ApplyStagesPart(stages: map<nat, SD.Stage>, ds: seq<SD.Disposition>, key: nat)
    requires forall i, j :: 0 <= i < j < |ds| ==> ds[i].key < ds[j].key
    ensures var apply := ApplyStages(stages, ds);
      match FindStage(ds, key)
      case None => StagePart(apply.ops, key) == []
      case Some(d) =>
        var dispose := SD.Dispose(StageAt(stages, key), d);
        && StagePart(apply.ops, key) <= dispose.ops
        && (apply.done ==> StagePart(apply.ops, key) == dispose.ops && dispose.done)
    decreases |ds|
  {
    if ds != [] {
      var first := SD.Dispose(StageAt(stages, ds[0].key), ds[0]);
      OnStageStagePart(ds[0].key, first.ops, key);
      if first.done {
        assert forall i, j :: 0 <= i < j < |ds[1..]| ==> ds[1..][i].key < ds[1..][j].key;
        ApplyStagesPart(stages, ds[1..], key);
        StagePartAppend(OnStage(ds[0].key, first.ops), ApplyStages(stages, ds[1..]).ops, key);
        if ds[0].key == key {
          FoundStage(ds[1..], key);
          assert FindStage(ds[1..], key).None?;
        }
      } else {
        FoundStage(ds, key);
      }
    }
  }

  lemma {:induction false} ApplyStagesVolumePart(stages: map<nat, SD.Stage>, ds: seq<SD.Disposition>, key: nat, store: VC.Store)
    ensures VolumePart(ApplyStages(stages, ds).ops, key, store) == []
    decreases |ds|
  {
    if ds != [] {
      var first := SD.Dispose(StageAt(stages, ds[0].key), ds[0]);
      OnStageVolumePart(ds[0].key, first.ops, key, store);
      if first.done {
        ApplyStagesVolumePart(stages, ds[1..], key, store);
        VolumePartAppend(OnStage(ds[0].key, first.ops), ApplyStages(stages, ds[1..]).ops, key, store);
      }
    }
  }

  lemma {:induction false} ApplyStagesDone(stages: map<nat, SD.Stage>, ds: seq<SD.Disposition>)
    ensures ApplyStages(stages, ds).done <==>
            forall n :: 0 <= n < |ds| ==> SD.Dispose(StageAt(stages, ds[n].key), ds[n]).done
    decreases |ds|
  {
    if ds != [] {
      ApplyStagesDone(stages, ds[1..]);
      assert forall n :: 0 <= n < |ds[1..]| ==> ds[1..][n] == ds[n + 1];
      if ApplyStages(stages, ds).done {
        forall n | 0 <= n < |ds| ensures SD.Dispose(StageAt(stages, ds[n].key), ds[n]).done {
          if n > 0 { assert ds[n] == ds[1..][n - 1]; }
        }
      }
    }
  }

  /** What the volume part of a plan does to one component. */
  lemma {:induction false} ApplyVolumesPart(volumes: map<nat, VR.Volume>, ds: seq<VR.Disposition>, key: nat, store: VC.Store)
    requires key in volumes && forall i, j :: 0 <= i < j < |ds| ==> ds[i].key < ds[j].key
    ensures var apply := ApplyVolumes(volumes, ds);
      var ops := VC.Cleanup(store, Component(volumes[key], store)).ops;
      if FindAction(ds, key) != Some(VR.Cleanup) then VolumePart(apply.ops, key, store) == []
      else
        && VolumePart(apply.ops, key, store) <= ops
        && (apply.done ==> VolumePart(apply.ops, key, store) == ops)
    decreases |ds|
  {
    if ds != [] {
      var first := ApplyVolume(volumes, ds[0]);
      OnVolumeVolumePart(ds[0].key, first.ops, key, store);
      if ds[0].key == key {
        ApplyStore(volumes[key], ds[0].key, ds[0].action, store);
        assert forall n :: 0 < n < |ds| ==> ds[n].key != key;
        NoAction(ds[1..], key);
      }
      if first.done {
        assert forall i, j :: 0 <= i < j < |ds[1..]| ==> ds[1..][i].key < ds[1..][j].key;
        ApplyVolumesPart(volumes, ds[1..], key, store);
        VolumePartAppend(OnVolume(ds[0].key, first.ops), ApplyVolumes(volumes, ds[1..]).ops, key, store);
      }
    }
  }

  lemma {:induction false} NoAction(ds: seq<VR.Disposition>, key: nat)
    requires forall n :: 0 <= n < |ds| ==> ds[n].key != key
    ensures FindAction(ds, key) == None
    decreases |ds|
  {
    if ds != [] {
      NoAction(ds[1..], key);
    }
  }

  lemma {:induction false} ApplyStore(v: VR.Volume, key: nat, action: VR.Action, store: VC.Store)
    ensures var apply := VR.Apply(VR.Inventory(key, v), v, action);
      var ops := VC.Cleanup(store, Component(v, store)).ops;
      if !action.Cleanup? then apply.ops == []
      else OfStore(apply.ops, store) <= ops && (apply.done ==> OfStore(apply.ops, store) == ops)
  {
    if action.Cleanup? {
      var journal := VC.Cleanup(VC.Journal, v.journal);
      var receiver := VC.Cleanup(VC.Receiver, v.receiver);
      OfStoreTagged(VC.Journal, journal.ops, store);
      OfStoreTagged(VC.Receiver, receiver.ops, store);
      OfStoreAppend(VR.Tagged(VC.Journal, journal.ops), VR.Tagged(VC.Receiver, receiver.ops), store);
      if VR.Inventory(key, v).Absent? {
        assert VC.Cleanup(VC.Journal, v.journal).ops == [] && VC.Cleanup(VC.Receiver, v.receiver).ops == [];
        match store
        case Journal =>
        case Receiver =>
      }
    }
  }

  lemma {:induction false} ApplyVolumesStagePart(volumes: map<nat, VR.Volume>, ds: seq<VR.Disposition>, key: nat)
    ensures StagePart(ApplyVolumes(volumes, ds).ops, key) == []
    decreases |ds|
  {
    if ds != [] {
      var first := ApplyVolume(volumes, ds[0]);
      OnVolumeStagePart(ds[0].key, first.ops, key);
      if first.done {
        ApplyVolumesStagePart(volumes, ds[1..], key);
        StagePartAppend(OnVolume(ds[0].key, first.ops), ApplyVolumes(volumes, ds[1..]).ops, key);
      }
    }
  }

  lemma {:induction false} ApplyVolumesDone(volumes: map<nat, VR.Volume>, ds: seq<VR.Disposition>)
    ensures ApplyVolumes(volumes, ds).done <==> forall n :: 0 <= n < |ds| ==> ApplyVolume(volumes, ds[n]).done
    decreases |ds|
  {
    if ds != [] {
      ApplyVolumesDone(volumes, ds[1..]);
      assert forall n :: 0 <= n < |ds[1..]| ==> ds[1..][n] == ds[n + 1];
      if ApplyVolumes(volumes, ds).done {
        forall n | 0 <= n < |ds| ensures ApplyVolume(volumes, ds[n]).done {
          if n > 0 { assert ds[n] == ds[1..][n - 1]; }
        }
      }
    }
  }

  predicate SortedPlan(plan: Plan) {
    && (forall i, j :: 0 <= i < j < |plan.stages| ==> plan.stages[i].key < plan.stages[j].key)
    && (forall i, j :: 0 <= i < j < |plan.volumes| ==> plan.volumes[i].key < plan.volumes[j].key)
  }

  lemma {:induction false} ValidPlanSorted(retained: Inventory, plan: Plan)
    requires ValidPlan(retained, plan)
    ensures SortedPlan(plan)
  {
    forall i, j | 0 <= i < j < |plan.stages| ensures plan.stages[i].key < plan.stages[j].key {
      assert StageDispositionMatches(plan.stages[i], retained.entries[i]);
      assert StageDispositionMatches(plan.stages[j], retained.entries[j]);
    }
    forall i, j | 0 <= i < j < |plan.volumes| ensures plan.volumes[i].key < plan.volumes[j].key {
      assert VolumeDispositionMatches(plan.volumes[i], retained.volumes[i]);
      assert VolumeDispositionMatches(plan.volumes[j], retained.volumes[j]);
    }
  }

  /** The part of a pass that falls on one stage. */
  lemma {:induction false} PassStagePart(d: Disk, retained: Inventory, plan: Plan, key: nat)
    requires SortedPlan(plan) && key in d.stages
    ensures var pass := Pass(d, retained, plan);
      && StagePart(pass.ops, key) <= StageOps(d.stages[key], FindStage(plan.stages, key))
      && (pass.done ==> StagePart(pass.ops, key) == StageOps(d.stages[key], FindStage(plan.stages, key)))
  {
    var open := Open(d);
    var scanned := Run(d, open.ops);
    OpenStagePart(d, key);
    OpenDone(d);
    if !SD.Ordered(d.stages[key]) {
      assert SD.SweepOps(d.stages[key]) == [];
    }
    if open.done && Admitted(scanned, retained, plan) {
      var stages := ApplyStages(scanned.stages, plan.stages);
      ApplyStagesPart(scanned.stages, plan.stages, key);
      if stages.done {
        var volumes := ApplyVolumes(scanned.volumes, plan.volumes);
        ApplyVolumesStagePart(scanned.volumes, plan.volumes, key);
        StagePartAppend(stages.ops, volumes.ops, key);
        StagePartAppend(open.ops, stages.ops + volumes.ops, key);
      } else {
        StagePartAppend(open.ops, stages.ops, key);
      }
    }
  }

  lemma {:induction false} ApplyPart(d: Disk, plan: Plan, key: nat, store: VC.Store)
    requires SortedPlan(plan) && key in d.volumes
    ensures var apply := Apply(d, plan);
      var ops := if Cleaned(plan, key) then VC.Cleanup(store, Component(d.volumes[key], store)).ops else [];
      && VolumePart(apply.ops, key, store) <= ops
      && (apply.done ==> VolumePart(apply.ops, key, store) == ops)
  {
    hide VC.Cleanup;
    var stages := ApplyStages(d.stages, plan.stages);
    ApplyStagesVolumePart(d.stages, plan.stages, key, store);
    if stages.done {
      ApplyVolumesPart(d.volumes, plan.volumes, key, store);
      VolumePartAppend(stages.ops, ApplyVolumes(d.volumes, plan.volumes).ops, key, store);
    }
  }

  /** The part of a pass that falls on one Volume component. */
  lemma {:induction false} PassVolumePart(d: Disk, retained: Inventory, plan: Plan, key: nat, store: VC.Store)
    requires SortedPlan(plan) && key in d.volumes
    ensures var pass := Pass(d, retained, plan);
      var ops := ComponentOps(store, Component(d.volumes[key], store), Cleaned(plan, key));
      && VolumePart(pass.ops, key, store) <= ops
      && (pass.done ==> VolumePart(pass.ops, key, store) == ops)
  {
    hide VC.Cleanup;
    hide VC.Reaped;
    hide VC.ReapOps;
    hide Open;
    hide Admitted;
    hide Apply;
    var open := Open(d);
    var scanned := Run(d, open.ops);
    OpenVolumePart(d, key, store);
    if open.done && Admitted(scanned, retained, plan) {
      OpenVolume(d, key);
      ApplyPart(scanned, plan, key, store);
      VolumePartAppend(open.ops, Apply(scanned, plan).ops, key, store);
    }
  }

  /** The stage and volume dispositions of a plan succeed on what opening leaves. */
  predicate StagesDone(d: Disk, plan: Plan) {
    forall n :: 0 <= n < |plan.stages| ==> SD.Dispose(SD.Swept(StageAt(d.stages, plan.stages[n].key)), plan.stages[n]).done
  }

  predicate VolumeDone(d: Disk, p: VR.Disposition) {
    if p.key in d.volumes then
      VR.Apply(VR.Inventory(p.key, VR.Reaped(d.volumes[p.key])), VR.Reaped(d.volumes[p.key]), p.action).done
    else p.action.Cleanup?
  }

  predicate VolumesDone(d: Disk, plan: Plan) {
    forall n :: 0 <= n < |plan.volumes| ==> VolumeDone(d, plan.volumes[n])
  }

  predicate AllAdmitted(d: Disk, retained: Inventory, plan: Plan) {
    && (forall key :: key in d.stages ==>
          SD.Ordered(d.stages[key]) && StageAdmitted(key, SD.Swept(d.stages[key]), retained.entries))
    && (forall key :: key in d.volumes ==>
          VolumeAdmitted(key, VR.Reaped(d.volumes[key]), retained.volumes, plan.volumes))
  }

  lemma {:induction false} OpenScanned(d: Disk)
    requires Open(d).done
    ensures var scanned := Run(d, Open(d).ops);
      && (forall key :: key in d.stages ==> scanned.stages[key] == SD.Swept(d.stages[key]))
      && (forall key :: key in d.volumes ==> scanned.volumes[key] == VR.Reaped(d.volumes[key]))
  {
    hide *;
    forall key | key in d.stages ensures Run(d, Open(d).ops).stages[key] == SD.Swept(d.stages[key]) { OpenStagePart(d, key); }
    forall key | key in d.volumes ensures Run(d, Open(d).ops).volumes[key] == VR.Reaped(d.volumes[key]) { OpenVolume(d, key); }
  }

  lemma {:induction false} ScannedStagesDone(d: Disk, plan: Plan)
    requires Open(d).done
    ensures ApplyStages(Run(d, Open(d).ops).stages, plan.stages).done <==> StagesDone(d, plan)
  {
    hide SD.Dispose;
    hide Open;
    var scanned := Run(d, Open(d).ops);
    OpenScanned(d);
    ApplyStagesDone(scanned.stages, plan.stages);
    assert SD.Swept(NO_STAGE) == NO_STAGE;
    forall n | 0 <= n < |plan.stages|
      ensures StageAt(scanned.stages, plan.stages[n].key) == SD.Swept(StageAt(d.stages, plan.stages[n].key)) {}
  }

  lemma {:induction false} ScannedVolumesDone(d: Disk, plan: Plan)
    requires Open(d).done
    ensures ApplyVolumes(Run(d, Open(d).ops).volumes, plan.volumes).done <==> VolumesDone(d, plan)
  {
    hide VR.Apply;
    hide VR.Inventory;
    hide VR.Reaped;
    hide Open;
    var scanned := Run(d, Open(d).ops);
    OpenScanned(d);
    ApplyVolumesDone(scanned.volumes, plan.volumes);
    forall n | 0 <= n < |plan.volumes|
      ensures ApplyVolume(scanned.volumes, plan.volumes[n]).done <==> VolumeDone(d, plan.volumes[n]) {}
  }

  /** A succeeding pass, taken apart: every unit is admitted and every disposition succeeds. */
  lemma {:induction false} PassDone(d: Disk, retained: Inventory, plan: Plan)
    ensures Pass(d, retained, plan).done <==> AllAdmitted(d, retained, plan) && StagesDone(d, plan) && VolumesDone(d, plan)
  {
    hide StageAdmitted;
    hide VolumeAdmitted;
    hide StagesDone;
    hide VolumesDone;
    hide Open;
    hide SD.Swept;
    hide VR.Reaped;
    OpenDone(d);
    if Open(d).done {
      OpenScanned(d);
      ScannedStagesDone(d, plan);
      ScannedVolumesDone(d, plan);
      assert Admitted(Run(d, Open(d).ops), retained, plan) <==> AllAdmitted(d, retained, plan);
    }
  }
}
