/**
 Startup recovery of backup staging: the whole private disk, the retained inventory, the Controller plan,
 and the durable operations of one startup pass, from opening the staging root to the end of the plan.
 */
module StagingRecovery {
  import opened Outcomes
  import SD = StageDiscard
  import VC = VolumeCleanup
  import VR = VolumeRecovery

  datatype Disk = Disk(stages: map<nat, SD.Stage>, volumes: map<nat, VR.Volume>)

  datatype Effect =
    | StageEffect(key: nat, stageOp: SD.Op)
    | VolumeEffect(key: nat, store: VC.Store, volumeOp: VC.Op)

  /** The inventory, sorted by recovery key. */
  datatype Inventory = Inventory(entries: seq<SD.Entry>, volumes: seq<VR.Recovered>)

  /** Digests of inventories and plans are taken as the values themselves. */
  datatype Plan = Plan(inventory: Inventory, supersedes: Option<Plan>,
                       stages: seq<SD.Disposition>, volumes: seq<VR.Disposition>)

  function Perform(d: Disk, e: Effect): (r: Disk)
    ensures r.stages.Keys == d.stages.Keys && r.volumes.Keys == d.volumes.Keys
  {
    match e
    case StageEffect(key, op) =>
      if key in d.stages then d.(stages := d.stages[key := SD.Step(d.stages[key], op)]) else d
    case VolumeEffect(key, store, op) =>
      if key in d.volumes then d.(volumes := d.volumes[key := VR.Step(d.volumes[key], VR.Op(store, op))]) else d
  }

  function Run(d: Disk, es: seq<Effect>): (r: Disk)
    ensures r.stages.Keys == d.stages.Keys && r.volumes.Keys == d.volumes.Keys
    decreases |es|
  {
    if es == [] then d else Run(Perform(d, es[0]), es[1..])
  }

  function OnStage(key: nat, ops: seq<SD.Op>): seq<Effect> {
    if ops == [] then [] else [StageEffect(key, ops[0])] + OnStage(key, ops[1..])
  }

  function OnVolume(key: nat, ops: seq<VR.Op>): seq<Effect> {
    if ops == [] then [] else [VolumeEffect(key, ops[0].store, ops[0].op)] + OnVolume(key, ops[1..])
  }

  predicate IsMin(x: nat, s: set<nat>) { x in s && forall y :: y in s ==> x <= y }

  lemma {:induction false} MinExists(s: set<nat>)
    requires s != {}
    ensures exists x :: IsMin(x, s)
  {
    var y :| y in s;
    if s == {y} {
      assert IsMin(y, s);
    } else {
      var rest := s - {y};
      MinExists(rest);
      var x :| IsMin(x, rest);
      assert forall z :: z in s ==> z == y || z in rest;
      assert IsMin(if y < x then y else x, s);
    }
  }

  function Min(s: set<nat>): (x: nat)
    requires s != {}
    ensures IsMin(x, s)
  {
    MinExists(s);
    var x :| IsMin(x, s);
    x
  }

  /** Directory listings are sorted. */
  function Sorted(s: set<nat>): seq<nat> {
    if s == {} then [] else [Min(s)] + Sorted(s - {Min(s)})
  }

  /** Opening the staging root: namespaces without files go, a namespace without reservation stops it. */
  function OpenStages(stages: map<nat, SD.Stage>, keys: seq<nat>): Attempt<Effect>
    requires forall key :: key in keys ==> key in stages
  {
    if keys == [] then Attempt([], true)
    else if !SD.Ordered(stages[keys[0]]) then Attempt([], false)
    else
      var rest := OpenStages(stages, keys[1..]);
      Attempt(OnStage(keys[0], SD.SweepOps(stages[keys[0]])) + rest.ops, rest.done)
  }

  function ReapVolumes(volumes: map<nat, VR.Volume>, keys: seq<nat>): seq<Effect>
    requires forall key :: key in keys ==> key in volumes
  {
    if keys == [] then []
    else OnVolume(keys[0], VR.ReapOps(volumes[keys[0]])) + ReapVolumes(volumes, keys[1..])
  }

  function Open(d: Disk): Attempt<Effect> {
    SortedMembers(d.stages.Keys);
    SortedMembers(d.volumes.Keys);
    var stages := OpenStages(d.stages, Sorted(d.stages.Keys));
    if !stages.done then stages
    else Attempt(stages.ops + ReapVolumes(d.volumes, Sorted(d.volumes.Keys)), true)
  }

  lemma {:induction false} SortedMembers(s: set<nat>)
    ensures forall x :: x in Sorted(s) <==> x in s
    ensures forall i, j :: 0 <= i < j < |Sorted(s)| ==> Sorted(s)[i] < Sorted(s)[j]
    decreases s
  {
    if s != {} {
      var rest := s - {Min(s)};
      SortedMembers(rest);
      var all := Sorted(s);
      assert all == [Min(s)] + Sorted(rest);
      forall i, j | 0 <= i < j < |all| ensures all[i] < all[j] {
        assert all[j] == Sorted(rest)[j - 1] && all[j] in Sorted(rest);
        if i > 0 { assert all[i] == Sorted(rest)[i - 1]; }
      }
    }
  }

  /** One or two files, by increasing role. */
  predicate ValidFiles(files: seq<SD.RecoveredFile>) {
    |files| == 1 || (|files| == 2 && files[0].role == SD.SourcePlaintext && files[1].role == SD.StoredObject)
  }

  predicate ValidEntry(e: SD.Entry) { ValidFiles(e.files) || (e.database && e.files == []) }

  function EntryOf(key: nat, s: SD.Stage): Option<SD.Entry> {
    if s.files == map[] && !s.marker then None else Some(SD.Entry(key, SD.WireFiles(s.files), s.marker))
  }

  function FindEntry(entries: seq<SD.Entry>, key: nat): Option<SD.Entry> {
    if entries == [] then None
    else if entries[0].key == key then Some(entries[0]) else FindEntry(entries[1..], key)
  }

  function FindVolume(rows: seq<VR.Recovered>, key: nat): Option<VR.Recovered> {
    if rows == [] then None
    else if rows[0].key == key then Some(rows[0]) else FindVolume(rows[1..], key)
  }

  function FindAction(ds: seq<VR.Disposition>, key: nat): Option<VR.Action> {
    if ds == [] then None
    else if ds[0].key == key then Some(ds[0].action) else FindAction(ds[1..], key)
  }

  /** A recorded stage may have lost files or its marker, and nothing else. */
  predicate EntryRemains(actual: SD.Entry, expected: SD.Entry) {
    && (actual.database ==> expected.database)
    && forall file :: file in actual.files ==> file in expected.files
  }

  predicate StageAdmitted(key: nat, s: SD.Stage, entries: seq<SD.Entry>) {
    var actual := EntryOf(key, s);
    actual.Some? ==>
      && ValidEntry(actual.value)
      && FindEntry(entries, key).Some?
      && EntryRemains(actual.value, FindEntry(entries, key).value)
  }

  predicate VolumeAdmitted(key: nat, v: VR.Volume, rows: seq<VR.Recovered>, ds: seq<VR.Disposition>) {
    var scan := VR.Inventory(key, v);
    !scan.Absent? ==>
      && FindVolume(rows, key).Some?
      && VR.Admitted(scan, FindVolume(rows, key).value, FindAction(ds, key).GetOr(VR.Hold))
  }

  /** Reopening compares what is on disk with the retained inventory under the recorded plan. */
  predicate Admitted(d: Disk, retained: Inventory, plan: Plan) {
    && (forall key :: key in d.stages ==> StageAdmitted(key, d.stages[key], retained.entries))
    && (forall key :: key in d.volumes ==> VolumeAdmitted(key, d.volumes[key], retained.volumes, plan.volumes))
  }

  const NO_STAGE := SD.Stage(map[], false, false, false)

  function StageAt(stages: map<nat, SD.Stage>, key: nat): SD.Stage {
    if key in stages then stages[key] else NO_STAGE
  }

  /** The stage dispositions in plan order, each applied to what opening recovery found under its key. */
  function ApplyStages(stages: map<nat, SD.Stage>, ds: seq<SD.Disposition>): Attempt<Effect> {
    if ds == [] then Attempt([], true)
    else
      var first := SD.Dispose(StageAt(stages, ds[0].key), ds[0]);
      if !first.done then Attempt(OnStage(ds[0].key, first.ops), false)
      else
        var rest := ApplyStages(stages, ds[1..]);
        Attempt(OnStage(ds[0].key, first.ops) + rest.ops, rest.done)
  }

  function ApplyVolume(volumes: map<nat, VR.Volume>, d: VR.Disposition): Attempt<VR.Op> {
    if d.key in volumes then VR.Apply(VR.Inventory(d.key, volumes[d.key]), volumes[d.key], d.action)
    else Attempt([], d.action.Cleanup?)
  }

  function ApplyVolumes(volumes: map<nat, VR.Volume>, ds: seq<VR.Disposition>): Attempt<Effect> {
    if ds == [] then Attempt([], true)
    else
      var first := ApplyVolume(volumes, ds[0]);
      if !first.done then Attempt(OnVolume(ds[0].key, first.ops), false)
      else
        var rest := ApplyVolumes(volumes, ds[1..]);
        Attempt(OnVolume(ds[0].key, first.ops) + rest.ops, rest.done)
  }

  /** Applies a recorded plan to an opened disk. */
  function Apply(d: Disk, plan: Plan): Attempt<Effect> {
    var stages := ApplyStages(d.stages, plan.stages);
    if !stages.done then stages
    else
      var volumes := ApplyVolumes(d.volumes, plan.volumes);
      Attempt(stages.ops + volumes.ops, volumes.done)
  }

  /** One startup under a recorded plan: open, compare, apply. */
  function Pass(d: Disk, retained: Inventory, plan: Plan): Attempt<Effect> {
    var open := Open(d);
    var scanned := Run(d, open.ops);
    if !open.done || !Admitted(scanned, retained, plan) then Attempt(open.ops, false)
    else
      var apply := Apply(scanned, plan);
      Attempt(open.ops + apply.ops, apply.done)
  }

  predicate ValidStageDisposition(d: SD.Disposition) {
    && (d.guard.Some? && d.guard.value.terminalCleanup ==> d.action.DiscardRecovered?)
    && match d.action
       case DiscardRecovered => true
       case RecoveryRequired(expected) =>
         ValidFiles(expected) || (d.guard.Some? && !d.guard.value.recoveryApply && expected == [])
       case ResumePrepared(expected, restart, growth) =>
         ValidFiles(expected) && (restart ==> |expected| == 2 && growth.Bounded?) &&
         (growth.Bounded? ==> 0 < growth.bytes < 0x8000_0000_0000_0000)
  }

  /** The evidence a stage disposition must repeat exactly from the inventory. */
  predicate StageDispositionMatches(d: SD.Disposition, e: SD.Entry) {
    && d.key == e.key
    && (e.database ==> d.guard.Some?)
    && (d.action.ResumePrepared? || d.action.RecoveryRequired? ==> d.action.expected == e.files)
  }

  predicate VolumeDispositionMatches(d: VR.Disposition, r: VR.Recovered) {
    && d.key == r.key
    && !(d.action.Resume? &&
         ((r.journal.Some? && (r.journal.value.row.partial || r.journal.value.row.retiring)) ||
          (r.receiver.Some? && r.receiver.value.row.retiring)))
  }

  const MAXIMUM_RECOVERED := 32

  predicate ValidInventory(i: Inventory) {
    && |i.entries| + |i.volumes| <= MAXIMUM_RECOVERED
    && (forall n :: 0 <= n < |i.entries| ==> ValidEntry(i.entries[n]))
    && (forall m, n :: 0 <= m < n < |i.entries| ==> i.entries[m].key < i.entries[n].key)
    && (forall n :: 0 <= n < |i.volumes| ==> VR.ValidRow(i.volumes[n]) &&
                                             (i.volumes[n].journal.Some? || i.volumes[n].receiver.Some?))
    && (forall m, n :: 0 <= m < n < |i.volumes| ==> i.volumes[m].key < i.volumes[n].key)
  }

  /** Every inventoried stage and volume exactly once, in order, with its exact evidence. */
  predicate ValidPlan(inventory: Inventory, plan: Plan) {
    && ValidInventory(inventory)
    && plan.inventory == inventory
    && |plan.stages| == |inventory.entries|
    && |plan.volumes| == |inventory.volumes|
    && (forall n :: 0 <= n < |plan.stages| ==>
          ValidStageDisposition(plan.stages[n]) && StageDispositionMatches(plan.stages[n], inventory.entries[n]))
    && (forall n :: 0 <= n < |plan.volumes| ==> VolumeDispositionMatches(plan.volumes[n], inventory.volumes[n]))
  }
}
