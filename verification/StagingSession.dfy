/**
 One startup session of backup staging: the inventory it reports, and how it applies a plan, for the first
 time and again, when every recovered stage can be claimed by one plan only.
 */
module StagingSession {
  import opened Outcomes
  import opened StagingRecovery
  import opened StagingStorage
  import SD = StageDiscard
  import VC = VolumeCleanup
  import VR = VolumeRecovery

  /** What opening finds under each key, in key order. */
  function EntriesOf(stages: map<nat, SD.Stage>, keys: seq<nat>): seq<SD.Entry>
    requires forall key :: key in keys ==> key in stages
  {
    if keys == [] then []
    else
      var rest := EntriesOf(stages, keys[1..]);
      match EntryOf(keys[0], stages[keys[0]])
      case None => rest
      case Some(entry) => [entry] + rest
  }

  function RowsOf(volumes: map<nat, VR.Volume>, keys: seq<nat>): seq<VR.Recovered>
    requires forall key :: key in keys ==> key in volumes
  {
    if keys == [] then []
    else
      var rest := RowsOf(volumes, keys[1..]);
      var scan := VR.Inventory(keys[0], volumes[keys[0]]);
      if scan.Found? then [scan.row] + rest else rest
  }

  function InventoryOf(d: Disk): Inventory {
    SortedMembers(d.stages.Keys);
    SortedMembers(d.volumes.Keys);
    Inventory(EntriesOf(d.stages, Sorted(d.stages.Keys)), RowsOf(d.volumes, Sorted(d.volumes.Keys)))
  }

  /** An inventory is reported only when every volume is readable and every bound holds. */
  predicate Inventoried(d: Disk) {
    && (forall key :: key in d.volumes ==> !VR.Inventory(key, d.volumes[key]).Rejected?)
    && ValidInventory(InventoryOf(d))
  }

  lemma {:induction false} EntryFound(stages: map<nat, SD.Stage>, keys: seq<nat>, key: nat)
    requires (forall k :: k in keys ==> k in stages) && forall i, j :: 0 <= i < j < |keys| ==> keys[i] < keys[j]
    ensures FindEntry(EntriesOf(stages, keys), key) == if key in keys then EntryOf(key, stages[key]) else None
    decreases |keys|
  {
    if keys != [] {
      EntryFound(stages, keys[1..], key);
      assert keys == [keys[0]] + keys[1..];
    }
  }

  lemma {:induction false} RowFound(volumes: map<nat, VR.Volume>, keys: seq<nat>, key: nat)
    requires (forall k :: k in keys ==> k in volumes) && forall i, j :: 0 <= i < j < |keys| ==> keys[i] < keys[j]
    ensures FindVolume(RowsOf(volumes, keys), key) ==
            if key in keys && VR.Inventory(key, volumes[key]).Found? then Some(VR.Inventory(key, volumes[key]).row) else None
    decreases |keys|
  {
    if keys != [] {
      RowFound(volumes, keys[1..], key);
      assert keys == [keys[0]] + keys[1..];
    }
  }

  lemma {:induction false} EntriesValid(stages: map<nat, SD.Stage>, keys: seq<nat>, key: nat)
    requires forall k :: k in keys ==> k in stages
    requires key in keys && EntryOf(key, stages[key]).Some?
    ensures EntryOf(key, stages[key]).value in EntriesOf(stages, keys)
    decreases |keys|
  {
    if keys[0] != key {
      EntriesValid(stages, keys[1..], key);
    }
  }

  lemma {:induction false} FreshStage(d: Disk, key: nat)
    requires key in d.stages && forall n :: 0 <= n < |InventoryOf(d).entries| ==> ValidEntry(InventoryOf(d).entries[n])
    ensures StageAdmitted(key, d.stages[key], InventoryOf(d).entries)
  {
    hide EntryOf;
    hide ValidEntry;
    hide EntriesOf;
    hide RowsOf;
    SortedMembers(d.stages.Keys);
    EntryFound(d.stages, Sorted(d.stages.Keys), key);
    if EntryOf(key, d.stages[key]).Some? {
      EntriesValid(d.stages, Sorted(d.stages.Keys), key);
    }
  }

  lemma {:induction false} FreshVolume(d: Disk, key: nat, plan: Plan)
    requires key in d.volumes && !VR.Inventory(key, d.volumes[key]).Rejected?
    ensures VolumeAdmitted(key, d.volumes[key], InventoryOf(d).volumes, plan.volumes)
  {
    hide VR.Inventory;
    hide RowsOf;
    hide EntriesOf;
    SortedMembers(d.volumes.Keys);
    RowFound(d.volumes, Sorted(d.volumes.Keys), key);
  }

  /** A disk is admitted again, whatever the plan, under the inventory just taken from it. */
  lemma {:induction false} FreshInventoryAdmits(d: Disk, plan: Plan)
    requires Inventoried(d)
    ensures Admitted(d, InventoryOf(d), plan)
  {
    hide VR.Inventory;
    hide InventoryOf;
    hide StageAdmitted;
    hide VolumeAdmitted;
    forall key | key in d.stages ensures StageAdmitted(key, d.stages[key], InventoryOf(d).entries) {
      FreshStage(d, key);
    }
    forall key | key in d.volumes ensures VolumeAdmitted(key, d.volumes[key], InventoryOf(d).volumes, plan.volumes) {
      FreshVolume(d, key, plan);
    }
  }

  /** The distinct keys of the reported entries. */
  lemma {:induction false} EntriesSorted(stages: map<nat, SD.Stage>, keys: seq<nat>)
    requires (forall k :: k in keys ==> k in stages) && forall i, j :: 0 <= i < j < |keys| ==> keys[i] < keys[j]
    ensures forall e :: e in EntriesOf(stages, keys) ==> e.key in keys && EntryOf(e.key, stages[e.key]) == Some(e)
    ensures forall m, n :: 0 <= m < n < |EntriesOf(stages, keys)| ==>
              EntriesOf(stages, keys)[m].key < EntriesOf(stages, keys)[n].key
    decreases |keys|
  {
    if keys != [] {
      EntriesSorted(stages, keys[1..]);
      var rest := EntriesOf(stages, keys[1..]);
      assert forall n :: 0 <= n < |rest| ==> rest[n] in rest;
    }
  }

  lemma {:induction false} RowsSorted(volumes: map<nat, VR.Volume>, keys: seq<nat>)
    requires (forall k :: k in keys ==> k in volumes) && forall i, j :: 0 <= i < j < |keys| ==> keys[i] < keys[j]
    ensures forall r :: r in RowsOf(volumes, keys) ==> r.key in keys && VR.Inventory(r.key, volumes[r.key]) == VR.Found(r)
    ensures forall m, n :: 0 <= m < n < |RowsOf(volumes, keys)| ==> RowsOf(volumes, keys)[m].key < RowsOf(volumes, keys)[n].key
    decreases |keys|
  {
    hide VR.Inventory;
    if keys != [] {
      RowsSorted(volumes, keys[1..]);
      RowKey(keys[0], volumes[keys[0]]);
      var rest := RowsOf(volumes, keys[1..]);
      assert forall n :: 0 <= n < |rest| ==> rest[n] in rest;
    }
  }

  lemma {:induction false} RowKey(key: nat, v: VR.Volume)
    ensures VR.Inventory(key, v).Found? ==> VR.Inventory(key, v).row.key == key
  {}

  lemma {:induction false} FoundKeys(entries: seq<SD.Entry>, key: nat)
    ensures FindEntry(entries, key).Some? ==> exists n :: 0 <= n < |entries| && entries[n].key == key
    decreases |entries|
  {
    if entries != [] && entries[0].key != key {
      FoundKeys(entries[1..], key);
      if FindEntry(entries, key).Some? {
        var n :| 0 <= n < |entries[1..]| && entries[1..][n].key == key;
        assert entries[n + 1].key == key;
      }
    }
  }

  lemma {:induction false} FoundRows(rows: seq<VR.Recovered>, key: nat)
    ensures FindVolume(rows, key).Some? ==> exists n :: 0 <= n < |rows| && rows[n].key == key
    decreases |rows|
  {
    if rows != [] && rows[0].key != key {
      FoundRows(rows[1..], key);
      if FindVolume(rows, key).Some? {
        var n :| 0 <= n < |rows[1..]| && rows[1..][n].key == key;
        assert rows[n + 1].key == key;
      }
    }
  }

  /** Strictly increasing keys drawn from another increasing list are no more than that list. */
  lemma {:induction false} Fewer(a: seq<nat>, b: seq<nat>)
    requires forall i, j :: 0 <= i < j < |a| ==> a[i] < a[j]
    requires forall x :: x in a ==> x in b
    ensures |a| <= |b|
    decreases |a|
  {
    if a != [] {
      var x := a[0];
      assert x in a;
      var k :| 0 <= k < |b| && b[k] == x;
      var rest := b[..k] + b[k + 1..];
      forall y | y in a[1..] ensures y in rest {
        assert y in a && y != x;
        var m :| 0 <= m < |b| && b[m] == y;
        assert m < k ==> rest[m] == y;
        assert m > k ==> rest[m - 1] == y;
      }
      Fewer(a[1..], rest);
    }
  }

  /** No more stages are reported than were recorded, and each is well formed. */
  lemma {:induction false} AdmittedEntries(d: Disk, retained: Inventory)
    requires forall key :: key in d.stages ==> StageAdmitted(key, d.stages[key], retained.entries)
    ensures var es := InventoryOf(d).entries;
      && |es| <= |retained.entries|
      && (forall n :: 0 <= n < |es| ==> ValidEntry(es[n]))
      && (forall m, n :: 0 <= m < n < |es| ==> es[m].key < es[n].key)
  {
    hide EntryOf;
    hide ValidEntry;
    hide RowsOf;
    SortedMembers(d.stages.Keys);
    EntriesSorted(d.stages, Sorted(d.stages.Keys));
    var es := InventoryOf(d).entries;
    var keys := seq(|es|, n requires 0 <= n < |es| => es[n].key);
    var known := seq(|retained.entries|, n requires 0 <= n < |retained.entries| => retained.entries[n].key);
    forall x | x in keys ensures x in known {
      var m :| 0 <= m < |es| && es[m].key == x;
      assert es[m] in es && StageAdmitted(x, d.stages[x], retained.entries);
      FoundKeys(retained.entries, x);
      var n :| 0 <= n < |retained.entries| && retained.entries[n].key == x;
      assert known[n] == x;
    }
    Fewer(keys, known);
    forall n | 0 <= n < |es| ensures ValidEntry(es[n]) {
      assert es[n] in es && StageAdmitted(es[n].key, d.stages[es[n].key], retained.entries);
    }
  }

  lemma {:induction false} AdmittedRows(d: Disk, retained: Inventory, plan: Plan)
    requires forall key :: key in d.volumes ==> VolumeAdmitted(key, d.volumes[key], retained.volumes, plan.volumes)
    ensures var rs := InventoryOf(d).volumes;
      && |rs| <= |retained.volumes|
      && (forall n :: 0 <= n < |rs| ==> VR.ValidRow(rs[n]) && (rs[n].journal.Some? || rs[n].receiver.Some?))
      && (forall m, n :: 0 <= m < n < |rs| ==> rs[m].key < rs[n].key)
  {
    hide VR.Inventory;
    hide VR.ValidRow;
    hide EntriesOf;
    SortedMembers(d.volumes.Keys);
    RowsSorted(d.volumes, Sorted(d.volumes.Keys));
    var rs := InventoryOf(d).volumes;
    var keys := seq(|rs|, n requires 0 <= n < |rs| => rs[n].key);
    var known := seq(|retained.volumes|, n requires 0 <= n < |retained.volumes| => retained.volumes[n].key);
    forall x | x in keys ensures x in known {
      var m :| 0 <= m < |rs| && rs[m].key == x;
      assert rs[m] in rs && VolumeAdmitted(x, d.volumes[x], retained.volumes, plan.volumes);
      FoundRows(retained.volumes, x);
      var n :| 0 <= n < |retained.volumes| && retained.volumes[n].key == x;
      assert known[n] == x;
    }
    Fewer(keys, known);
    forall n | 0 <= n < |rs| ensures VR.ValidRow(rs[n]) && (rs[n].journal.Some? || rs[n].receiver.Some?) {
      assert rs[n] in rs;
      RowValid(rs[n].key, d.volumes[rs[n].key]);
    }
  }

  /** What a retained inventory admits is itself a valid inventory: nothing is reported beyond the bounds. */
  lemma {:induction false} AdmittedInventoried(d: Disk, retained: Inventory, plan: Plan)
    requires ValidInventory(retained) && Admitted(d, retained, plan)
    ensures Inventoried(d)
  {
    hide VR.Inventory;
    hide ValidEntry;
    hide VR.ValidRow;
    hide InventoryOf;
    AdmittedEntries(d, retained);
    AdmittedRows(d, retained, plan);
    forall key | key in d.volumes ensures !VR.Inventory(key, d.volumes[key]).Rejected? {
      assert VolumeAdmitted(key, d.volumes[key], retained.volumes, plan.volumes);
    }
  }

  lemma {:induction false} RowValid(key: nat, v: VR.Volume)
    ensures VR.Inventory(key, v).Found? ==>
      VR.ValidRow(VR.Inventory(key, v).row) && (VR.Inventory(key, v).row.journal.Some? || VR.Inventory(key, v).row.receiver.Some?)
  {}

  type Files = map<SD.Name, SD.Content>

  /** What one session does with a stage disposition: whether it succeeds, its operations, and the claims after it. */
  datatype Outcome = Outcome(ok: bool, ops: seq<SD.Op>, claims: map<nat, Plan>)

  /** The file checks of a resume decision. */
  predicate Resumable(files: Files, d: SD.Disposition)
    requires d.action.ResumePrepared?
  {
    && SD.AllExpected(files, d.action.expected)
    && (|SD.Names(files)| == |d.action.expected| || (d.action.restartEncryption && SD.OnlySource(files)))
  }

  /**
   One disposition within a session. `files` is what opening remembered, `stage` what is on the disk now,
   and a claim is the plan that resolved a stage: only the same plan may come back to it.
   */
  function DisposeIn(p: Plan, d: SD.Disposition, claims: map<nat, Plan>, files: Files, stage: SD.Stage): Outcome {
    var known := files != map[];
    var claimed := d.key in claims;
    if known && claimed && claims[d.key] != p then Outcome(false, [], claims)
    else match d.action
      case DiscardRecovered =>
        Outcome(true, (if known && !claimed then SD.RemovalOps(SD.Names(files)) else []) + SD.MarkerOps(stage, d),
                if known then claims[d.key := p] else claims)
      case RecoveryRequired(expected) =>
        if known then Outcome(true, [], claims[d.key := p])
        else Outcome(d.guard.Some? && expected == [], [], claims)
      case ResumePrepared(_, restart, _) =>
        if known && Resumable(files, d) then
          Outcome(true, if restart then SD.DerivedOps(stage.files) else [], claims[d.key := p])
        else Outcome(false, [], claims)
  }

  /** The first application in a session is the disposition of the startup pass. */
  lemma {:induction false} FirstApplication(p: Plan, d: SD.Disposition, claims: map<nat, Plan>, stage: SD.Stage)
    requires d.key !in claims
    ensures var first, pass := DisposeIn(p, d, claims, stage.files, stage), SD.Dispose(stage, d);
      first.ok == pass.done && first.ops == pass.ops
  {}

  /** This plan has been here before and left nothing to do. */
  predicate Settled(p: Plan, d: SD.Disposition, claims: map<nat, Plan>, files: Files, stage: SD.Stage) {
    DisposeIn(p, d, claims, files, stage) == Outcome(true, [], claims)
  }

  /** Whatever a disposition did, delivering it again in the same session does nothing and succeeds. */
  lemma {:induction false} RedeliverySettles(p: Plan, d: SD.Disposition, claims: map<nat, Plan>, files: Files, stage: SD.Stage)
    requires DisposeIn(p, d, claims, files, stage).ok
    ensures var first := DisposeIn(p, d, claims, files, stage);
      Settled(p, d, first.claims, files, SD.Run(stage, first.ops))
  {
    hide SD.Names;
    hide Resumable;
    var first := DisposeIn(p, d, claims, files, stage);
    assert first.claims == (if files != map[] then claims[d.key := p] else claims);
    match d.action
    case DiscardRecovered =>
      var removal := if files != map[] && d.key !in claims then SD.RemovalOps(SD.Names(files)) else [];
      SD.RemovalOnly(SD.Names(files));
      SD.NoMarkerKeepsMarker(stage, removal);
      SD.RunAppend(stage, removal, SD.MarkerOps(stage, d));
      var emptied := SD.Run(stage, removal);
      assert SD.Run(emptied, [SD.RemoveMarker]) == SD.Run(SD.Step(emptied, SD.RemoveMarker), []);
      assert SD.MarkerOps(SD.Run(stage, first.ops), d) == [];
    case RecoveryRequired(_) =>
    case ResumePrepared(_, restart, _) =>
      if restart { SD.DerivedGone(stage); }
  }

  datatype Progress = Progress(ok: bool, effects: seq<Effect>, claims: map<nat, Plan>)

  function FilesAt(physical: map<nat, Files>, key: nat): Files { if key in physical then physical[key] else map[] }

  function ApplyStagesIn(p: Plan, ds: seq<SD.Disposition>, claims: map<nat, Plan>, physical: map<nat, Files>, d: Disk): Progress
    decreases |ds|
  {
    if ds == [] then Progress(true, [], claims)
    else
      var key := ds[0].key;
      var first := DisposeIn(p, ds[0], claims, FilesAt(physical, key), StageAt(d.stages, key));
      var effects := OnStage(key, first.ops);
      if !first.ok then Progress(false, effects, first.claims)
      else
        var rest := ApplyStagesIn(p, ds[1..], first.claims, physical, Run(d, effects));
        Progress(rest.ok, effects + rest.effects, rest.claims)
  }

  datatype VolumeProgress = VolumeProgress(ok: bool, effects: seq<Effect>, volumes: map<nat, VR.Volume>)

  predicate Usable(scan: VR.Scan) {
    && scan.Found?
    && (scan.row.journal.Some? ==> !scan.row.journal.value.row.partial && !scan.row.journal.value.row.retiring)
    && (scan.row.receiver.Some? ==> !scan.row.receiver.value.row.retiring)
  }

  function VolumeIn(d: VR.Disposition, volumes: map<nat, VR.Volume>): Attempt<VR.Op> {
    match d.action
    case Resume => Attempt([], d.key in volumes && Usable(VR.Inventory(d.key, volumes[d.key])))
    case Hold => Attempt([], d.key in volumes)
    case Cleanup => if d.key in volumes then VR.CleanupOps(volumes[d.key]) else Attempt([], true)
  }

  function ApplyVolumesIn(ds: seq<VR.Disposition>, volumes: map<nat, VR.Volume>): VolumeProgress
    decreases |ds|
  {
    if ds == [] then VolumeProgress(true, [], volumes)
    else
      var first := VolumeIn(ds[0], volumes);
      var effects := OnVolume(ds[0].key, first.ops);
      if !first.done then VolumeProgress(false, effects, volumes)
      else
        var rest := ApplyVolumesIn(ds[1..], if ds[0].action.Cleanup? then volumes - {ds[0].key} else volumes);
        VolumeProgress(rest.ok, effects + rest.effects, rest.volumes)
  }

  predicate SortedKeys(ds: seq<SD.Disposition>) { forall i, j :: 0 <= i < j < |ds| ==> ds[i].key < ds[j].key }
  predicate SortedRows(ds: seq<VR.Disposition>) { forall i, j :: 0 <= i < j < |ds| ==> ds[i].key < ds[j].key }

  /** The first application of a plan in a session is the stage part of the startup pass. */
  lemma {:induction false} FirstStages(p: Plan, ds: seq<SD.Disposition>, claims: map<nat, Plan>, physical: map<nat, Files>,
                                       d: Disk, start: map<nat, SD.Stage>)
    requires SortedKeys(ds)
    requires forall n :: 0 <= n < |ds| ==> ds[n].key !in claims && StageAt(d.stages, ds[n].key) == StageAt(start, ds[n].key)
    requires forall n :: 0 <= n < |ds| ==> FilesAt(physical, ds[n].key) == StageAt(start, ds[n].key).files
    ensures var now, pass := ApplyStagesIn(p, ds, claims, physical, d), ApplyStages(start, ds);
      now.ok == pass.done && now.effects == pass.ops
    decreases |ds|
  {
    hide DisposeIn;
    hide SD.Dispose;
    if ds != [] {
      var key := ds[0].key;
      FirstApplication(p, ds[0], claims, StageAt(start, key));
      var first := DisposeIn(p, ds[0], claims, FilesAt(physical, key), StageAt(d.stages, key));
      ClaimsOne(p, ds[0], claims, FilesAt(physical, key), StageAt(d.stages, key));
      OnStageFrame(d, key, first.ops);
      forall n | 0 <= n < |ds[1..]| ensures ds[1..][n].key != key {
        assert ds[1..][n] == ds[n + 1];
      }
      FirstStages(p, ds[1..], first.claims, physical, Run(d, OnStage(key, first.ops)), start);
    }
  }

  lemma {:induction false} ClaimsOne(p: Plan, d: SD.Disposition, claims: map<nat, Plan>, files: Files, stage: SD.Stage)
    ensures var first := DisposeIn(p, d, claims, files, stage);
      first.claims == claims || first.claims == claims[d.key := p]
  {}

  /** A plan leaves every stage and claim under other keys alone. */
  lemma {:induction false} StagesFrame(p: Plan, ds: seq<SD.Disposition>, claims: map<nat, Plan>, physical: map<nat, Files>,
                                       d: Disk, key: nat)
    requires forall n :: 0 <= n < |ds| ==> ds[n].key != key
    ensures var now := ApplyStagesIn(p, ds, claims, physical, d);
      && StageAt(Run(d, now.effects).stages, key) == StageAt(d.stages, key)
      && (key in now.claims <==> key in claims)
      && (key in claims ==> now.claims[key] == claims[key])
    decreases |ds|
  {
    hide DisposeIn;
    if ds != [] {
      var on := ds[0].key;
      var first := DisposeIn(p, ds[0], claims, FilesAt(physical, on), StageAt(d.stages, on));
      ClaimsOne(p, ds[0], claims, FilesAt(physical, on), StageAt(d.stages, on));
      OnStageFrame(d, on, first.ops);
      if first.ok {
        var next := Run(d, OnStage(on, first.ops));
        assert forall n :: 0 <= n < |ds[1..]| ==> ds[1..][n] == ds[n + 1];
        StagesFrame(p, ds[1..], first.claims, physical, next, key);
        RunAppend(d, OnStage(on, first.ops), ApplyStagesIn(p, ds[1..], first.claims, physical, next).effects);
      }
    }
  }

  lemma {:induction false} SettledFrame(p: Plan, d: SD.Disposition, claims: map<nat, Plan>, later: map<nat, Plan>, files: Files, stage: SD.Stage)
    requires Settled(p, d, claims, files, stage)
    requires (d.key in later <==> d.key in claims) && (d.key in claims ==> later[d.key] == claims[d.key])
    ensures Settled(p, d, later, files, stage)
  {
    assert d.key in claims && files != map[] ==> claims[d.key] == p;
    assert d.key in claims[d.key := p];
    assert files != map[] ==> d.key in claims;
    if d.key in claims { assert later[d.key := claims[d.key]] == later; }
  }

  lemma {:induction false} NothingRuns(ops: seq<SD.Op>)
    ensures SD.Run(NO_STAGE, ops) == NO_STAGE
    decreases |ops|
  {
    if ops != [] {
      NothingRuns(ops[1..]);
    }
  }

  /** Delivering an applied plan again in the same session touches nothing. */
  lemma {:induction false} RedeliveredStages(p: Plan, ds: seq<SD.Disposition>, claims: map<nat, Plan>,
                                             physical: map<nat, Files>, d: Disk)
    requires SortedKeys(ds) && ApplyStagesIn(p, ds, claims, physical, d).ok
    ensures var now := ApplyStagesIn(p, ds, claims, physical, d);
      forall n :: 0 <= n < |ds| ==>
        Settled(p, ds[n], now.claims, FilesAt(physical, ds[n].key), StageAt(Run(d, now.effects).stages, ds[n].key))
    decreases |ds|
  {
    hide DisposeIn;
    hide Settled;
    if ds != [] {
      var key := ds[0].key;
      var files, stage := FilesAt(physical, key), StageAt(d.stages, key);
      var first := DisposeIn(p, ds[0], claims, files, stage);
      var next := Run(d, OnStage(key, first.ops));
      OnStageFrame(d, key, first.ops);
      RedeliverySettles(p, ds[0], claims, files, stage);
      NothingRuns(first.ops);
      forall n | 0 <= n < |ds[1..]| ensures ds[1..][n].key != key && ds[1..][n] == ds[n + 1] {}
      RedeliveredStages(p, ds[1..], first.claims, physical, next);
      StagesFrame(p, ds[1..], first.claims, physical, next, key);
      var rest := ApplyStagesIn(p, ds[1..], first.claims, physical, next);
      RunAppend(d, OnStage(key, first.ops), rest.effects);
      SettledFrame(p, ds[0], first.claims, rest.claims, files, SD.Run(stage, first.ops));
    }
  }

  lemma {:induction false} SettledNothing(p: Plan, ds: seq<SD.Disposition>, claims: map<nat, Plan>,
                                          physical: map<nat, Files>, d: Disk)
    requires forall n :: 0 <= n < |ds| ==>
      Settled(p, ds[n], claims, FilesAt(physical, ds[n].key), StageAt(d.stages, ds[n].key))
    ensures ApplyStagesIn(p, ds, claims, physical, d) == Progress(true, [], claims)
    decreases |ds|
  {
    if ds != [] {
      assert OnStage(ds[0].key, []) == [] && Run(d, []) == d;
      assert forall n :: 0 <= n < |ds[1..]| ==> ds[1..][n] == ds[n + 1];
      SettledNothing(p, ds[1..], claims, physical, d);
    }
  }

  /** What opening remembers of the volumes is what is on the disk. */
  predicate VolumeSeen(key: nat, d: Disk, volumes: map<nat, VR.Volume>) {
    if key in d.volumes then
      var scan := VR.Inventory(key, d.volumes[key]);
      && !scan.Rejected?
      && (key in volumes <==> scan.Found?)
      && (key in volumes ==> volumes[key] == d.volumes[key])
    else key !in volumes
  }

  /** The first application of a plan in a session is the volume part of the startup pass. */
  lemma {:induction false} FirstVolumes(ds: seq<VR.Disposition>, volumes: map<nat, VR.Volume>, d: Disk)
    requires SortedRows(ds) && forall n :: 0 <= n < |ds| ==> VolumeSeen(ds[n].key, d, volumes)
    ensures var now, pass := ApplyVolumesIn(ds, volumes), ApplyVolumes(d.volumes, ds);
      now.ok == pass.done && now.effects == pass.ops
    decreases |ds|
  {
    hide VR.Inventory;
    hide VR.CleanupOps;
    if ds != [] {
      assert VolumeIn(ds[0], volumes) == ApplyVolume(d.volumes, ds[0]);
      var later := if ds[0].action.Cleanup? then volumes - {ds[0].key} else volumes;
      forall n | 0 <= n < |ds[1..]| ensures VolumeSeen(ds[1..][n].key, d, later) {
        assert ds[1..][n] == ds[n + 1] && ds[0].key < ds[n + 1].key;
        assert VolumeSeen(ds[n + 1].key, d, volumes);
      }
      FirstVolumes(ds[1..], later, d);
    }
  }

  lemma {:induction false} VolumesFrame(ds: seq<VR.Disposition>, volumes: map<nat, VR.Volume>, key: nat)
    requires forall n :: 0 <= n < |ds| ==> ds[n].key != key
    ensures var now := ApplyVolumesIn(ds, volumes).volumes;
      (key in now <==> key in volumes) && (key in volumes ==> now[key] == volumes[key])
    decreases |ds|
  {
    if ds != [] {
      assert forall n :: 0 <= n < |ds[1..]| ==> ds[1..][n] == ds[n + 1];
      VolumesFrame(ds[1..], if ds[0].action.Cleanup? then volumes - {ds[0].key} else volumes, key);
    }
  }

  lemma {:induction false} RedeliveredVolumes(ds: seq<VR.Disposition>, volumes: map<nat, VR.Volume>)
    requires SortedRows(ds) && ApplyVolumesIn(ds, volumes).ok
    ensures var now := ApplyVolumesIn(ds, volumes).volumes;
      forall n :: 0 <= n < |ds| ==> VolumeIn(ds[n], now) == Attempt([], true) && (ds[n].action.Cleanup? ==> ds[n].key !in now)
    decreases |ds|
  {
    if ds != [] {
      var later := if ds[0].action.Cleanup? then volumes - {ds[0].key} else volumes;
      forall n | 0 <= n < |ds[1..]| ensures ds[1..][n].key != ds[0].key && ds[1..][n] == ds[n + 1] {}
      RedeliveredVolumes(ds[1..], later);
      VolumesFrame(ds[1..], later, ds[0].key);
    }
  }

  lemma {:induction false} SettledVolumes(ds: seq<VR.Disposition>, volumes: map<nat, VR.Volume>)
    requires forall n :: 0 <= n < |ds| ==>
      VolumeIn(ds[n], volumes) == Attempt([], true) && (ds[n].action.Cleanup? ==> ds[n].key !in volumes)
    ensures ApplyVolumesIn(ds, volumes) == VolumeProgress(true, [], volumes)
    decreases |ds|
  {
    if ds != [] {
      assert OnVolume(ds[0].key, []) == [];
      assert ds[0].action.Cleanup? ==> volumes - {ds[0].key} == volumes;
      assert forall n :: 0 <= n < |ds[1..]| ==> ds[1..][n] == ds[n + 1];
      SettledVolumes(ds[1..], volumes);
    }
  }

  /** A whole plan in one session. */
  datatype PlanProgress = PlanProgress(ok: bool, effects: seq<Effect>, claims: map<nat, Plan>, volumes: map<nat, VR.Volume>)

  function ApplyIn(p: Plan, claims: map<nat, Plan>, physical: map<nat, Files>, volumes: map<nat, VR.Volume>, d: Disk): PlanProgress {
    var stages := ApplyStagesIn(p, p.stages, claims, physical, d);
    if !stages.ok then PlanProgress(false, stages.effects, stages.claims, volumes)
    else
      var rest := ApplyVolumesIn(p.volumes, volumes);
      PlanProgress(rest.ok, stages.effects + rest.effects, stages.claims, rest.volumes)
  }

  /** Nothing is claimed yet, and what opening remembers is what is on the disk. */
  ghost predicate Opened(claims: map<nat, Plan>, physical: map<nat, Files>, volumes: map<nat, VR.Volume>, d: Disk) {
    && claims == map[]
    && (forall key :: FilesAt(physical, key) == StageAt(d.stages, key).files)
    && (forall key :: VolumeSeen(key, d, volumes))
  }

  /** The first application of a plan in a session is the startup pass after opening. */
  lemma {:induction false} FirstPlan(p: Plan, claims: map<nat, Plan>, physical: map<nat, Files>, volumes: map<nat, VR.Volume>, d: Disk)
    requires SortedKeys(p.stages) && SortedRows(p.volumes) && Opened(claims, physical, volumes, d)
    ensures var now, pass := ApplyIn(p, claims, physical, volumes, d), Apply(d, p);
      now.ok == pass.done && now.effects == pass.ops
  {
    hide VolumeSeen;
    FirstStages(p, p.stages, claims, physical, d, d.stages);
    forall n | 0 <= n < |p.volumes| ensures VolumeSeen(p.volumes[n].key, d, volumes) {}
    FirstVolumes(p.volumes, volumes, d);
    var now := ApplyStagesIn(p, p.stages, claims, physical, d);
    if now.ok { StagesLeaveVolumes(p, p.stages, claims, physical, d); }
  }

  lemma {:induction false} StagesLeaveVolumes(p: Plan, ds: seq<SD.Disposition>, claims: map<nat, Plan>,
                                              physical: map<nat, Files>, d: Disk)
    ensures Run(d, ApplyStagesIn(p, ds, claims, physical, d).effects).volumes == d.volumes
    decreases |ds|
  {
    hide DisposeIn;
    if ds != [] {
      var on := ds[0].key;
      var first := DisposeIn(p, ds[0], claims, FilesAt(physical, on), StageAt(d.stages, on));
      OnStageFrame(d, on, first.ops);
      if first.ok {
        var next := Run(d, OnStage(on, first.ops));
        StagesLeaveVolumes(p, ds[1..], first.claims, physical, next);
        RunAppend(d, OnStage(on, first.ops), ApplyStagesIn(p, ds[1..], first.claims, physical, next).effects);
      }
    }
  }

  lemma {:induction false} VolumesLeaveStages(ds: seq<VR.Disposition>, volumes: map<nat, VR.Volume>, d: Disk)
    ensures Run(d, ApplyVolumesIn(ds, volumes).effects).stages == d.stages
    decreases |ds|
  {
    hide VolumeIn;
    if ds != [] {
      var first := VolumeIn(ds[0], volumes);
      OnVolumeFrame(d, ds[0].key, first.ops);
      if first.done {
        var later := if ds[0].action.Cleanup? then volumes - {ds[0].key} else volumes;
        var next := Run(d, OnVolume(ds[0].key, first.ops));
        VolumesLeaveStages(ds[1..], later, next);
        RunAppend(d, OnVolume(ds[0].key, first.ops), ApplyVolumesIn(ds[1..], later).effects);
      }
    }
  }

  /** Delivering an applied plan again in the same session succeeds without touching the disk. */
  lemma {:induction false} RedeliveredPlan(p: Plan, claims: map<nat, Plan>, physical: map<nat, Files>, volumes: map<nat, VR.Volume>, d: Disk)
    requires SortedKeys(p.stages) && SortedRows(p.volumes) && ApplyIn(p, claims, physical, volumes, d).ok
    ensures var now := ApplyIn(p, claims, physical, volumes, d);
      ApplyIn(p, now.claims, physical, now.volumes, Run(d, now.effects)) == PlanProgress(true, [], now.claims, now.volumes)
  {
    hide Settled;
    hide VolumeIn;
    var stages, rest := ApplyStagesIn(p, p.stages, claims, physical, d), ApplyVolumesIn(p.volumes, volumes);
    var now := ApplyIn(p, claims, physical, volumes, d);
    RedeliveredStages(p, p.stages, claims, physical, d);
    RedeliveredVolumes(p.volumes, volumes);
    RunAppend(d, stages.effects, rest.effects);
    VolumesLeaveStages(p.volumes, volumes, Run(d, stages.effects));
    SettledNothing(p, p.stages, now.claims, physical, Run(d, now.effects));
    SettledVolumes(p.volumes, now.volumes);
  }
}
