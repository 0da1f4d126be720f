/**
 The startup coordinator of backup staging: it opens the private storage, compares it with the retained
 inventory, applies a Controller plan and, once its receipt is durable, hands over to the runtime.
 */
module StagingAgent {
  import opened Outcomes
  import opened StagingRecovery
  import opened StagingJournal
  import opened StagingStorage
  import opened StagingSession
  import SD = StageDiscard
  import VC = VolumeCleanup
  import VR = VolumeRecovery

  predicate Remembered(physical: map<nat, Files>, d: Disk) {
    forall key :: key in physical ==> key in d.stages && physical[key] != map[]
  }

  predicate Readable(volumes: map<nat, VR.Volume>) {
    forall key :: key in volumes ==> VR.Inventory(key, volumes[key]).Found?
  }

  function StagesSeen(d: Disk): map<nat, Files> {
    map key | key in d.stages && d.stages[key].files != map[] :: d.stages[key].files
  }

  function VolumesSeen(d: Disk): map<nat, VR.Volume> {
    map key | key in d.volumes && VR.Inventory(key, d.volumes[key]).Found? :: d.volumes[key]
  }

  lemma {:induction false} OpeningSees(d: Disk)
    requires Inventoried(d)
    ensures Opened(map[], StagesSeen(d), VolumesSeen(d), d) && Remembered(StagesSeen(d), d) && Readable(VolumesSeen(d))
  {
    hide VR.Inventory;
  }

  /** The stages from a place in the list on are as they were, and so are the volumes. */
  ghost predicate Unswept(start: Disk, d: Disk, keys: seq<nat>, i: nat) {
    && (forall key :: key in keys ==> key in start.stages)
    && d.volumes == start.volumes && d.stages.Keys == start.stages.Keys
    && forall j :: i <= j < |keys| ==> d.stages[keys[j]] == start.stages[keys[j]]
  }

  lemma {:induction false} SweptNext(start: Disk, d: Disk, keys: seq<nat>, i: nat)
    requires i < |keys| && Unswept(start, d, keys, i)
    ensures var s, open := d.stages[keys[i]], OpenStages(start.stages, keys[i..]);
      if !SD.Ordered(s) then open == Attempt([], false)
      else
        var rest := OpenStages(start.stages, keys[i + 1..]);
        open == Attempt(OnStage(keys[i], SD.SweepOps(s)) + rest.ops, rest.done)
  {
    assert keys[i..][0] == keys[i] && keys[i..][1..] == keys[i + 1..];
    hide OnStage, SD.SweepOps, SD.Ordered;
  }

  lemma {:induction false} StillUnswept(start: Disk, before: Disk, after: Disk, keys: seq<nat>, i: nat)
    requires i < |keys| && (forall m, n :: 0 <= m < n < |keys| ==> keys[m] < keys[n]) && Unswept(start, before, keys, i)
    requires after.stages.Keys == before.stages.Keys && after.volumes == before.volumes
    requires forall other :: other != keys[i] && other in before.stages ==> after.stages[other] == before.stages[other]
    ensures Unswept(start, after, keys, i + 1)
  {}

  lemma {:induction false} NoneSwept(stages: map<nat, SD.Stage>, keys: seq<nat>)
    requires keys == []
    ensures OpenStages(stages, keys) == Attempt([], true)
  {}

  /** The volumes from a place in the list on are as they were. */
  ghost predicate Unreaped(start: Disk, d: Disk, keys: seq<nat>, i: nat) {
    && (forall key :: key in keys ==> key in start.volumes)
    && d.volumes.Keys == start.volumes.Keys
    && forall j :: i <= j < |keys| ==> d.volumes[keys[j]] == start.volumes[keys[j]]
  }

  lemma {:induction false} ReapedNext(start: Disk, before: Disk, after: Disk, keys: seq<nat>, i: nat)
    requires i < |keys| && (forall m, n :: 0 <= m < n < |keys| ==> keys[m] < keys[n]) && Unreaped(start, before, keys, i)
    requires after.volumes.Keys == before.volumes.Keys
    requires forall other :: other != keys[i] && other in before.volumes ==> after.volumes[other] == before.volumes[other]
    ensures Unreaped(start, after, keys, i + 1)
    ensures ReapVolumes(start.volumes, keys[i..]) ==
            OnVolume(keys[i], VR.ReapOps(before.volumes[keys[i]])) + ReapVolumes(start.volumes, keys[i + 1..])
  {
    assert keys[i..][0] == keys[i] && keys[i..][1..] == keys[i + 1..];
    hide OnVolume, VR.ReapOps;
  }

  lemma {:induction false} NoneLeft(volumes: map<nat, VR.Volume>, keys: seq<nat>)
    requires keys == []
    ensures ReapVolumes(volumes, keys) == []
  {}

  lemma {:induction false} StagesNext(p: Plan, i: nat, claims: map<nat, Plan>, physical: map<nat, Files>, d: Disk)
    requires i < |p.stages|
    ensures var key := p.stages[i].key;
      var first := DisposeIn(p, p.stages[i], claims, FilesAt(physical, key), StageAt(d.stages, key));
      var effects := OnStage(key, first.ops);
      ApplyStagesIn(p, p.stages[i..], claims, physical, d) ==
        if !first.ok then Progress(false, effects, first.claims)
        else
          var rest := ApplyStagesIn(p, p.stages[i + 1..], first.claims, physical, Run(d, effects));
          Progress(rest.ok, effects + rest.effects, rest.claims)
  {
    assert p.stages[i..][0] == p.stages[i] && p.stages[i..][1..] == p.stages[i + 1..];
    hide DisposeIn, OnStage, Run;
  }

  lemma {:induction false} NoStages(p: Plan, ds: seq<SD.Disposition>, claims: map<nat, Plan>, physical: map<nat, Files>, d: Disk)
    requires ds == []
    ensures ApplyStagesIn(p, ds, claims, physical, d) == Progress(true, [], claims)
  {}

  class BackupStaging {
    const storage: Storage
    const journal: Journal
    var inventory: Inventory
    var physical: map<nat, Files>
    var volumes: map<nat, VR.Volume>
    var claims: map<nat, Plan>
    var plan: Option<Plan>
    var ready: bool
    var runtime: bool
    ghost var runtimes: nat

    ghost predicate Valid()
      reads this, storage, journal
    {
      && storage.Valid() && journal.Valid()
      && Remembered(physical, storage.disk)
      && Readable(volumes)
      && (runtime ==> ready)
      && runtimes == if runtime then 1 else 0
    }

    /** No disposition has been applied, and what opening remembers is what is on the disk. */
    ghost predicate Fresh()
      reads this, storage
    {
      Opened(claims, physical, volumes, storage.disk)
    }

    constructor (storage: Storage, journal: Journal, inventory: Inventory)
      requires storage.Valid() && journal.Valid() && Inventoried(storage.disk)
      ensures this.storage == storage && this.journal == journal && this.inventory == inventory
      ensures Valid() && Fresh() && !ready && !runtime && plan.None?
    {
      hide Readable;
      hide Remembered;
      hide Opened;
      hide StagesSeen;
      hide VolumesSeen;
      hide ValidRecord;
      hide Run;
      this.storage, this.journal, this.inventory := storage, journal, inventory;
      this.physical, this.volumes := StagesSeen(storage.disk), VolumesSeen(storage.disk);
      OpeningSees(storage.disk);
      this.claims, this.plan, this.ready, this.runtime, this.runtimes := map[], None, false, false, 0;
    }

    /** Every remembered file must be one the decision expects. */
    method Expects(files: Files, expected: seq<SD.RecoveredFile>) returns (all: bool)
      ensures all == SD.AllExpected(files, expected)
    {
      hide SD.Names;
      SD.NamesListed(files);
      var names := SD.Names(files);
      var i := 0;
      while i < |names|
        invariant 0 <= i <= |names|
        invariant forall n :: 0 <= n < i ==> SD.FileOf(names[n], files[names[n]]) in expected
      {
        if SD.FileOf(names[i], files[names[i]]) !in expected {
          assert names[i] in files;
          return false;
        }
        i := i + 1;
      }
      all := true;
    }

    /** Removes the execution marker of a terminal cleanup; a marker already gone is accepted. */
    method RetireMarker(d: SD.Disposition)
      requires Valid()
      modifies storage
      ensures Valid() && storage.base == old(storage.base)
      ensures storage.trace == old(storage.trace) + OnStage(d.key, SD.MarkerOps(StageAt(old(storage.disk).stages, d.key), d))
    {
      hide Readable;
      hide Run;
      assert OnStage(d.key, []) == [];
      if SD.RetiresMarker(d) {
        storage.RemoveMarker(d.key);
      }
    }

    /** Files, namespace and reservation first, the execution marker last. */
    method DiscardStage(p: Plan, d: SD.Disposition)
      requires Valid() && d.action.DiscardRecovered?
      requires d.key in physical && d.key in claims ==> claims[d.key] == p
      modifies this`claims, storage
      ensures Valid() && storage.base == old(storage.base)
      ensures var outcome := DisposeIn(p, d, old(claims), FilesAt(physical, d.key), StageAt(old(storage.disk).stages, d.key));
        claims == outcome.claims && storage.trace == old(storage.trace) + OnStage(d.key, outcome.ops)
    {
      hide DisposeIn;
      hide SD.RemovalOps;
      hide SD.Names;
      hide SD.MarkerOps;
      hide Readable;
      hide ValidRecord;
      hide Run;
      assert OnStage(d.key, []) == [] && storage.trace + [] == storage.trace;
      hide OnStage;
      var removed := d.key in physical && d.key !in claims;
      DiscardOutcome(p, d, claims, physical, StageAt(storage.disk.stages, d.key));
      DiscardTrace(storage.base, storage.trace, d, if removed then SD.Names(physical[d.key]) else [], removed);
      if removed {
        storage.DiscardContents(d.key, SD.Names(physical[d.key]));
      }
      if d.key in physical {
        claims := claims[d.key := p];
      }
      RetireMarker(d);
    }

    method ResumeStage(p: Plan, d: SD.Disposition) returns (ok: bool)
      requires Valid() && d.action.ResumePrepared?
      requires d.key in physical && d.key in claims ==> claims[d.key] == p
      modifies this`claims, storage
      ensures Valid() && storage.base == old(storage.base)
      ensures var outcome := DisposeIn(p, d, old(claims), FilesAt(physical, d.key), StageAt(old(storage.disk).stages, d.key));
        ok == outcome.ok && claims == outcome.claims && storage.trace == old(storage.trace) + OnStage(d.key, outcome.ops)
    {
      assert OnStage(d.key, []) == [] && storage.trace + [] == storage.trace;
      hide Run;
      hide OnStage;
      hide SD.Names;
      hide SD.DerivedOps;
      hide Readable;
      if d.key !in physical {
        return false;
      }
      var files := physical[d.key];
      ok := Expects(files, d.action.expected);
      if !ok || (|SD.Names(files)| != |d.action.expected| && !(d.action.restartEncryption && SD.OnlySource(files))) {
        return false;
      }
      claims := claims[d.key := p];
      if d.action.restartEncryption {
        storage.DiscardDerived(d.key);
      }
    }

    /** One stage disposition. A stage already claimed by another plan is refused. */
    method ApplyStage(p: Plan, d: SD.Disposition) returns (ok: bool)
      requires Valid()
      modifies this`claims, storage
      ensures Valid() && storage.base == old(storage.base)
      ensures var outcome := DisposeIn(p, d, old(claims), FilesAt(physical, d.key), StageAt(old(storage.disk).stages, d.key));
        ok == outcome.ok && claims == outcome.claims && storage.trace == old(storage.trace) + OnStage(d.key, outcome.ops)
    {
      assert OnStage(d.key, []) == [] && storage.trace + [] == storage.trace;
      hide Run;
      hide OnStage;
      hide Readable;
      var known := d.key in physical;
      if known && d.key in claims && claims[d.key] != p {
        return false;
      }
      match d.action
      case DiscardRecovered =>
        DiscardStage(p, d);
        ok := true;
      case RecoveryRequired(expected) =>
        ok := known || (d.guard.Some? && expected == []);
        if known {
          claims := claims[d.key := p];
        }
      case ResumePrepared(_, _, _) =>
        ok := ResumeStage(p, d);
    }

    method ApplyStages(p: Plan) returns (ok: bool)
      requires Valid()
      modifies this`claims, storage
      ensures Valid() && storage.base == old(storage.base)
      ensures var whole := ApplyStagesIn(p, p.stages, old(claims), physical, old(storage.disk));
        ok == whole.ok && claims == whole.claims && storage.trace == old(storage.trace) + whole.effects
    {
      hide DisposeIn, Readable, Run, OnStage, StageAt, FilesAt, ValidRecord, ApplyStagesIn;
      ghost var whole := ApplyStagesIn(p, p.stages, claims, physical, storage.disk);
      ghost var done: seq<Effect> := [];
      var i := 0;
      while i < |p.stages|
        invariant 0 <= i <= |p.stages|
        invariant Valid() && storage.base == old(storage.base)
        invariant storage.trace == old(storage.trace) + done
        invariant var rest := ApplyStagesIn(p, p.stages[i..], claims, physical, storage.disk);
          whole == Progress(rest.ok, done + rest.effects, rest.claims)
      {
        ghost var before, held, trace := storage.disk, claims, storage.trace;
        var key := p.stages[i].key;
        StagesNext(p, i, claims, physical, storage.disk);
        ok := ApplyStage(p, p.stages[i]);
        ghost var effects := OnStage(key, DisposeIn(p, p.stages[i], held, FilesAt(physical, key), StageAt(before.stages, key)).ops);
        RunAppend(storage.base, trace, effects);
        done := done + effects;
        if !ok {
          return;
        }
        i := i + 1;
      }
      NoStages(p, p.stages[i..], claims, physical, storage.disk);
      ok := true;
    }

    method ApplyVolume(d: VR.Disposition) returns (ok: bool)
      requires Valid()
      modifies this`volumes, storage
      ensures Valid() && storage.base == old(storage.base)
      ensures var first := VolumeIn(d, old(volumes));
        ok == first.done && storage.trace == old(storage.trace) + OnVolume(d.key, first.ops)
      ensures volumes == if ok && d.action.Cleanup? then old(volumes) - {d.key} else old(volumes)
    {
      assert OnVolume(d.key, []) == [] && storage.trace + [] == storage.trace;
      hide VR.Inventory;
      hide VR.CleanupOps;
      hide OnVolume;
      hide Run;
      match d.action
      case Resume => ok := d.key in volumes && Usable(VR.Inventory(d.key, volumes[d.key]));
      case Hold => ok := d.key in volumes;
      case Cleanup =>
        if d.key !in volumes {
          assert volumes - {d.key} == volumes;
          return true;
        }
        ok := storage.CleanupVolume(d.key, volumes[d.key]);
        if ok {
          volumes := volumes - {d.key};
        }
    }

    method ApplyVolumes(p: Plan) returns (ok: bool)
      requires Valid()
      modifies this`volumes, storage
      ensures Valid() && storage.base == old(storage.base)
      ensures var whole := ApplyVolumesIn(p.volumes, old(volumes));
        ok == whole.ok && volumes == whole.volumes && storage.trace == old(storage.trace) + whole.effects
    {
      hide Readable;
      hide VolumeIn;
      hide OnVolume;
      hide Run;
      ghost var whole := ApplyVolumesIn(p.volumes, volumes);
      ghost var done: seq<Effect> := [];
      var i := 0;
      while i < |p.volumes|
        invariant 0 <= i <= |p.volumes|
        invariant Valid() && storage.base == old(storage.base)
        invariant storage.trace == old(storage.trace) + done
        invariant var rest := ApplyVolumesIn(p.volumes[i..], volumes);
          whole == VolumeProgress(rest.ok, done + rest.effects, rest.volumes)
      {
        ghost var effects := OnVolume(p.volumes[i].key, VolumeIn(p.volumes[i], volumes).ops);
        ok := ApplyVolume(p.volumes[i]);
        done := done + effects;
        if !ok {
          return;
        }
        i := i + 1;
      }
      ok := true;
    }
  
    /**
     Records the plan, and only then applies it: the claims and effects are those of the session, which the
     first time are those of the startup pass. `inspected` is the database guards' verdict.
     */
    method ApplyPlan(process: nat, p: Plan, inspected: bool) returns (ack: Option<Ack>)
      requires Valid()
      modifies this`claims, this`volumes, this`plan, storage, journal
      ensures Valid() && storage.base == old(storage.base)
      ensures var record := Recorded(old(journal.Now()), process, inventory, p);
        if old(ready) || record.None? then
          ack.None? && storage.trace == old(storage.trace) && journal.Now() == old(journal.Now())
        else
          && journal.record.Some? && journal.record.value.plan == p && journal.record.value.inventory == inventory
          && var whole := ApplyIn(p, old(claims), physical, old(volumes), old(storage.disk));
          && (inspected ==> storage.trace == old(storage.trace) + whole.effects &&
                            claims == whole.claims && volumes == whole.volumes)
          && (!inspected ==> storage.trace == old(storage.trace))
          && (ack.Some? <==> inspected && whole.ok && record.value.phase != ReceiptAccepted)
          && (ack.Some? ==> ack.value == AckOf(inventory, p) && journal.record.value.phase == Applied && plan == Some(p))
          && (old(Fresh()) && inspected ==> whole.effects == Apply(old(storage.disk), p).ops &&
                                            whole.ok == Apply(old(storage.disk), p).done)
    {
      hide Run;
      hide Apply;
      hide ApplyStagesIn;
      hide ApplyVolumesIn;
      hide Opened;
      hide Readable;
      hide ValidPlan;
      ack := None;
      if ready {
        return;
      }
      ghost var d := storage.disk;
      var ok := journal.RecordPlan(process, inventory, p);
      if !ok || !inspected {
        return;
      }
      PlanSorted(inventory, p);
      if Opened(claims, physical, volumes, d) {
        FirstPlan(p, claims, physical, volumes, d);
      }
      ok := ApplyStages(p);
      if !ok {
        return;
      }
      ok := ApplyVolumes(p);
      if !ok {
        return;
      }
      ok := journal.MarkApplied(AckOf(inventory, p));
      if !ok {
        return;
      }
      plan := Some(p);
      ack := Some(AckOf(inventory, p));
    }
  
    /**
     Accepts the receipt durably, and only then hands over to the runtime, once. `crash` stops inside the
     journal; `created` is the runtime's own verdict on its arguments.
     */
    method AcceptReceipt(receipt: Receipt, crash: bool, created: bool) returns (ok: bool)
      requires Valid()
      modifies this`ready, this`runtime, this`runtimes, journal
      ensures Valid() && old(runtimes) <= runtimes
      ensures runtimes > old(runtimes) ==> journal.Now() == State(None, Some(receipt)) && !old(ready)
      ensures ok ==> journal.record.None? && Accepts(old(journal.Now()), receipt) && runtime
      ensures !Accepts(old(journal.Now()), receipt) ==> !ok && journal.Now() == old(journal.Now())
      ensures !Accepts(old(journal.Now()), receipt) || (old(ready) && !old(runtime)) ==> !ok && runtime == old(runtime)
      ensures !old(ready) ==> (ready <==> AllClaimed() && Accepts(old(journal.Now()), receipt) && !(crash && old(journal.record).Some?))
      ensures !old(ready) ==> (runtime <==> ready && created)
    {
      hide ValidRecord;
      ok := journal.AcceptReceipt(receipt, crash);
      if !ok {
        return;
      }
      if ready {
        return runtime;
      }
      if !AllClaimed() {
        return false;
      }
      ready := true;
      if !created {
        return false;
      }
      runtime, runtimes := true, runtimes + 1;
    }

    /** Recovery is complete when some plan has claimed every recovered stage. */
    predicate AllClaimed()
      reads this
    {
      forall key :: key in physical ==> key in claims
    }

    static method ReapVolume(storage: Storage, key: nat)
      requires storage.Valid() && key in storage.disk.volumes
      modifies storage
      ensures storage.Valid() && storage.base == old(storage.base)
      ensures storage.trace == old(storage.trace) + OnVolume(key, VR.ReapOps(old(storage.disk).volumes[key]))
    {
      hide Run;
      var v := storage.disk.volumes[key];
      storage.Reap(key, VC.Journal, v.journal);
      storage.Reap(key, VC.Receiver, v.receiver);
      OnVolumeAppend(key, VR.Tagged(VC.Journal, VC.ReapOps(v.journal)), VR.Tagged(VC.Receiver, VC.ReapOps(v.receiver)));
    }

    static method SweepStages(storage: Storage, keys: seq<nat>) returns (ok: bool)
      requires storage.Valid() && (forall key :: key in keys ==> key in storage.disk.stages)
      requires forall i, j :: 0 <= i < j < |keys| ==> keys[i] < keys[j]
      modifies storage
      ensures storage.Valid() && storage.base == old(storage.base)
      ensures var whole := OpenStages(old(storage.disk).stages, keys);
        ok == whole.done && storage.trace == old(storage.trace) + whole.ops
      ensures storage.disk.volumes == old(storage.disk).volumes
    {
      hide Run, OnStage, SD.SweepOps, SD.Run, SD.Ordered, Perform, OpenStages;
      ghost var start, done: seq<Effect> := storage.disk, [];
      var i := 0;
      while i < |keys|
        invariant 0 <= i <= |keys|
        invariant storage.Valid() && storage.base == old(storage.base)
        invariant storage.trace == old(storage.trace) + done
        invariant Unswept(start, storage.disk, keys, i)
        invariant var rest := OpenStages(start.stages, keys[i..]);
          OpenStages(start.stages, keys) == Attempt(done + rest.ops, rest.done)
      {
        SweptNext(start, storage.disk, keys, i);
        if !SD.Ordered(storage.disk.stages[keys[i]]) {
          return false;
        }
        ghost var before, ops := storage.disk, SD.SweepOps(storage.disk.stages[keys[i]]);
        StageFrame(storage.base, storage.trace, keys[i], ops);
        storage.Sweep(keys[i]);
        StillUnswept(start, before, storage.disk, keys, i);
        done := done + OnStage(keys[i], ops);
        i := i + 1;
      }
      NoneSwept(start.stages, keys[i..]);
      ok := true;
    }

    static method Reaps(storage: Storage, keys: seq<nat>)
      requires storage.Valid() && (forall key :: key in keys ==> key in storage.disk.volumes)
      requires forall i, j :: 0 <= i < j < |keys| ==> keys[i] < keys[j]
      modifies storage
      ensures storage.Valid() && storage.base == old(storage.base)
      ensures storage.trace == old(storage.trace) + ReapVolumes(old(storage.disk).volumes, keys)
    {
      hide Run, OnVolume, VR.ReapOps, VR.Run, Perform, ReapVolumes;
      ghost var start, done: seq<Effect> := storage.disk, [];
      var i := 0;
      while i < |keys|
        invariant 0 <= i <= |keys|
        invariant storage.Valid() && storage.base == old(storage.base)
        invariant storage.trace == old(storage.trace) + done
        invariant Unreaped(start, storage.disk, keys, i)
        invariant ReapVolumes(start.volumes, keys) == done + ReapVolumes(start.volumes, keys[i..])
      {
        ghost var before, ops := storage.disk, VR.ReapOps(storage.disk.volumes[keys[i]]);
        VolumeFrame(storage.base, storage.trace, keys[i], ops);
        ReapVolume(storage, keys[i]);
        ReapedNext(start, before, storage.disk, keys, i);
        done := done + OnVolume(keys[i], ops);
        i := i + 1;
      }
      NoneLeft(start.volumes, keys[i..]);
    }

    /** Brings the storage into the state that the inventory reads. */
    static method OpenStorage(storage: Storage) returns (ok: bool)
      requires storage.Valid()
      modifies storage
      ensures storage.Valid() && storage.base == old(storage.base)
      ensures ok == Open(old(storage.disk)).done && storage.trace == old(storage.trace) + Open(old(storage.disk)).ops
    {
      hide Run;
      hide OpenStages;
      hide ReapVolumes;
      hide Sorted;
      SortedMembers(storage.disk.stages.Keys);
      SortedMembers(storage.disk.volumes.Keys);
      ok := SweepStages(storage, Sorted(storage.disk.stages.Keys));
      if ok {
        Reaps(storage, Sorted(storage.disk.volumes.Keys));
      }
    }

    /** The record that a new session works under; an accepted one is completed first. */
    static function Retained(record: Option<Record>): Option<Record> {
      if record.Some? && record.value.phase == ReceiptAccepted then None else record
    }

    /** What a new session can work with: the retained plan's remains, or any valid inventory. */
    static predicate Acceptable(d: Disk, retained: Option<Record>) {
      match retained
      case None => Inventoried(d)
      case Some(record) => Admitted(d, record.inventory, record.plan)
    }

    static method OpenBackupStaging(storage: Storage, journal: Journal) returns (r: BackupStaging?)
      requires storage.Valid() && journal.Valid()
      modifies storage, journal
      ensures storage.Valid() && journal.Valid() && storage.base == old(storage.base)
      ensures journal.record == Retained(old(journal.record))
      ensures storage.trace == old(storage.trace) + Open(old(storage.disk)).ops
      ensures r != null <==> Open(old(storage.disk)).done && Acceptable(storage.disk, journal.record)
      ensures r != null ==> fresh(r) && r.storage == storage && r.journal == journal && r.Valid() && r.Fresh() && !r.ready &&
                            r.inventory == if journal.record.Some? then journal.record.value.inventory else InventoryOf(storage.disk)
    {
      hide Run;
      hide Open;
      hide Inventoried;
      hide InventoryOf;
      hide Opened;
      hide ValidPlan;
      if journal.record.Some? && journal.record.value.phase == ReceiptAccepted {
        var accepted := journal.AcceptReceipt(journal.record.value.receipt.value, false);
      }
      var ok := OpenStorage(storage);
      if !ok {
        return null;
      }
      if journal.record.None? {
        if !Inventoried(storage.disk) {
          return null;
        }
        r := new BackupStaging(storage, journal, InventoryOf(storage.disk));
      } else {
        var record := journal.record.value;
        RecordInventory(record);
        if !Admitted(storage.disk, record.inventory, record.plan) {
          return null;
        }
        AdmittedInventoried(storage.disk, record.inventory, record.plan);
        r := new BackupStaging(storage, journal, record.inventory);
      }
    }

    /**
     One startup under a retained record whose plan is delivered again: what it does to the storage is
     exactly one pass of the recovery theorems, and it acknowledges exactly when the pass succeeds.
     */
    static method Startup(storage: Storage, journal: Journal, process: nat) returns (r: BackupStaging?, ack: Option<Ack>)
      requires storage.Valid() && journal.Valid() && process != 0
      requires journal.record.Some? && journal.record.value.phase != ReceiptAccepted
      modifies storage, journal
      ensures storage.Valid() && journal.Valid() && storage.base == old(storage.base)
      ensures var pass := Pass(old(storage.disk), old(journal.record).value.inventory, old(journal.record).value.plan);
        && storage.trace == old(storage.trace) + pass.ops
        && (ack.Some? <==> pass.done)
        && (ack.Some? ==> r != null && r.Valid() && ack.value == AckOf(old(journal.record).value.inventory, old(journal.record).value.plan))
    {
      hide Run;
      hide Open;
      hide Apply;
      hide ApplyIn;
      hide Opened;
      hide ValidPlan;
      hide Admitted;
      ack := None;
      ghost var before, trace, start := storage.disk, storage.trace, storage.base;
      var record := journal.record.value;
      r := OpenBackupStaging(storage, journal);
      RunAppend(start, trace, Open(before).ops);
      if r != null {
        ack := r.ApplyPlan(process, record.plan, true);
      }
    }
  }

  lemma {:induction false} RecordInventory(r: Record)
    requires ValidRecord(r)
    ensures ValidInventory(r.inventory)
  {}

  lemma {:induction false} PlanSorted(inventory: Inventory, p: Plan)
    requires ValidPlan(inventory, p)
    ensures SortedKeys(p.stages) && SortedRows(p.volumes)
  {
    forall i, j | 0 <= i < j < |p.stages| ensures p.stages[i].key < p.stages[j].key {
      assert StageDispositionMatches(p.stages[i], inventory.entries[i]);
      assert StageDispositionMatches(p.stages[j], inventory.entries[j]);
    }
    forall i, j | 0 <= i < j < |p.volumes| ensures p.volumes[i].key < p.volumes[j].key {
      assert VolumeDispositionMatches(p.volumes[i], inventory.volumes[i]);
      assert VolumeDispositionMatches(p.volumes[j], inventory.volumes[j]);
    }
  }

  lemma {:induction false} DiscardOutcome(p: Plan, d: SD.Disposition, claims: map<nat, Plan>, physical: map<nat, Files>, stage: SD.Stage)
    requires d.action.DiscardRecovered? && (d.key in physical ==> physical[d.key] != map[])
    requires d.key in physical && d.key in claims ==> claims[d.key] == p
    ensures var removed := d.key in physical && d.key !in claims;
      DisposeIn(p, d, claims, FilesAt(physical, d.key), stage) ==
      Outcome(true, (if removed then SD.RemovalOps(SD.Names(FilesAt(physical, d.key))) else []) + SD.MarkerOps(stage, d),
              if d.key in physical then claims[d.key := p] else claims)
  {}

  /** Removing files leaves the marker to be retired after them. */
  lemma {:induction false} DiscardTrace(base: Disk, start: seq<Effect>, d: SD.Disposition, names: seq<SD.Name>, removed: bool)
    ensures var removal := if removed then SD.RemovalOps(names) else [];
      var before := StageAt(Run(base, start).stages, d.key);
      var after := StageAt(Run(base, start + OnStage(d.key, removal)).stages, d.key);
      start + OnStage(d.key, removal) + OnStage(d.key, SD.MarkerOps(after, d)) ==
      start + OnStage(d.key, removal + SD.MarkerOps(before, d))
  {
    hide Run;
    hide SD.Run;
    hide OnStage;
    hide SD.RemovalOps;
    var removal := if removed then SD.RemovalOps(names) else [];
    var stage := StageAt(Run(base, start).stages, d.key);
    SD.RemovalOnly(names);
    StageFrame(base, start, d.key, removal);
    SD.NoMarkerKeepsMarker(stage, removal);
    OnStageAppend(d.key, removal, SD.MarkerOps(stage, d));
  }
}
