/**
 The part of a run of disk effects that falls on one stage or one Volume component. Effects on different
 units are independent, so a crash of the whole disk is a crash of each unit at some point of its own part.
 */
module StagingParts {
  import opened Outcomes
  import opened StagingRecovery
  import SD = StageDiscard
  import VC = VolumeCleanup
  import VR = VolumeRecovery

  function StagePart(es: seq<Effect>, key: nat): seq<SD.Op> {
    if es == [] then []
    else if es[0].StageEffect? && es[0].key == key then [es[0].stageOp] + StagePart(es[1..], key)
    else StagePart(es[1..], key)
  }

  function VolumePart(es: seq<Effect>, key: nat, store: VC.Store): seq<VC.Op> {
    if es == [] then []
    else if es[0].VolumeEffect? && es[0].key == key && es[0].store == store then
      [es[0].volumeOp] + VolumePart(es[1..], key, store)
    else VolumePart(es[1..], key, store)
  }

  function Component(v: VR.Volume, store: VC.Store): VC.Component {
    if store.Journal? then v.journal else v.receiver
  }

  /** The parts of a volume that no recovery effect touches. */
  function Frame(v: VR.Volume): (VR.Identity, VR.JournalSeal, VR.ReceiverSeal) {
    (v.identity, v.journalSeal, v.receiverSeal)
  }

  lemma {:induction false} StageRuns(d: Disk, es: seq<Effect>, key: nat)
    requires key in d.stages
    ensures Run(d, es).stages[key] == SD.Run(d.stages[key], StagePart(es, key))
    decreases |es|
  {
    if es != [] {
      StageRuns(Perform(d, es[0]), es[1..], key);
      if es[0].StageEffect? && es[0].key == key {
        assert StagePart(es, key)[1..] == StagePart(es[1..], key);
      }
    }
  }

  lemma {:induction false} VolumeRuns(d: Disk, es: seq<Effect>, key: nat, store: VC.Store)
    requires key in d.volumes
    ensures Frame(Run(d, es).volumes[key]) == Frame(d.volumes[key])
    ensures Component(Run(d, es).volumes[key], store) ==
            VC.Run(Component(d.volumes[key], store), VolumePart(es, key, store))
    decreases |es|
  {
    if es != [] {
      VolumeRuns(Perform(d, es[0]), es[1..], key, store);
      if es[0].VolumeEffect? && es[0].key == key && es[0].store == store {
        assert VolumePart(es, key, store)[1..] == VolumePart(es[1..], key, store);
      }
    }
  }

  lemma {:induction false} StagePartAppend(a: seq<Effect>, b: seq<Effect>, key: nat)
    ensures StagePart(a + b, key) == StagePart(a, key) + StagePart(b, key)
    decreases |a|
  {
    if a == [] {
      assert a + b == b;
    } else {
      assert (a + b)[1..] == a[1..] + b;
      StagePartAppend(a[1..], b, key);
    }
  }

  lemma {:induction false} VolumePartAppend(a: seq<Effect>, b: seq<Effect>, key: nat, store: VC.Store)
    ensures VolumePart(a + b, key, store) == VolumePart(a, key, store) + VolumePart(b, key, store)
    decreases |a|
  {
    if a == [] {
      assert a + b == b;
    } else {
      assert (a + b)[1..] == a[1..] + b;
      VolumePartAppend(a[1..], b, key, store);
    }
  }

  /** The parts of a prefix are prefixes of the parts. */
  lemma {:induction false} StagePartOfPrefix(es: seq<Effect>, count: nat, key: nat)
    requires count <= |es|
    ensures StagePart(es[..count], key) <= StagePart(es, key)
  {
    assert es == es[..count] + es[count..];
    StagePartAppend(es[..count], es[count..], key);
  }

  lemma {:induction false} VolumePartOfPrefix(es: seq<Effect>, count: nat, key: nat, store: VC.Store)
    requires count <= |es|
    ensures VolumePart(es[..count], key, store) <= VolumePart(es, key, store)
  {
    assert es == es[..count] + es[count..];
    VolumePartAppend(es[..count], es[count..], key, store);
  }

  lemma {:induction false} OnStageStagePart(on: nat, ops: seq<SD.Op>, key: nat)
    ensures StagePart(OnStage(on, ops), key) == if key == on then ops else []
    decreases |ops|
  {
    if ops != [] {
      OnStageStagePart(on, ops[1..], key);
      assert OnStage(on, ops)[1..] == OnStage(on, ops[1..]);
    }
  }

  lemma {:induction false} OnStageVolumePart(on: nat, ops: seq<SD.Op>, key: nat, store: VC.Store)
    ensures VolumePart(OnStage(on, ops), key, store) == []
    decreases |ops|
  {
    if ops != [] {
      OnStageVolumePart(on, ops[1..], key, store);
      assert OnStage(on, ops)[1..] == OnStage(on, ops[1..]);
    }
  }

  function OfStore(ops: seq<VR.Op>, store: VC.Store): seq<VC.Op> {
    if ops == [] then []
    else if ops[0].store == store then [ops[0].op] + OfStore(ops[1..], store)
    else OfStore(ops[1..], store)
  }

  lemma {:induction false} OnVolumeStagePart(on: nat, ops: seq<VR.Op>, key: nat)
    ensures StagePart(OnVolume(on, ops), key) == []
    decreases |ops|
  {
    if ops != [] {
      OnVolumeStagePart(on, ops[1..], key);
      assert OnVolume(on, ops)[1..] == OnVolume(on, ops[1..]);
    }
  }

  lemma {:induction false} OnVolumeVolumePart(on: nat, ops: seq<VR.Op>, key: nat, store: VC.Store)
    ensures VolumePart(OnVolume(on, ops), key, store) == if key == on then OfStore(ops, store) else []
    decreases |ops|
  {
    if ops != [] {
      OnVolumeVolumePart(on, ops[1..], key, store);
      assert OnVolume(on, ops)[1..] == OnVolume(on, ops[1..]);
    }
  }

  lemma {:induction false} OfStoreTagged(tag: VC.Store, ops: seq<VC.Op>, store: VC.Store)
    ensures OfStore(VR.Tagged(tag, ops), store) == if store == tag then ops else []
    decreases |ops|
  {
    if ops != [] {
      OfStoreTagged(tag, ops[1..], store);
      assert VR.Tagged(tag, ops)[1..] == VR.Tagged(tag, ops[1..]);
    }
  }

  lemma {:induction false} OfStoreAppend(a: seq<VR.Op>, b: seq<VR.Op>, store: VC.Store)
    ensures OfStore(a + b, store) == OfStore(a, store) + OfStore(b, store)
    decreases |a|
  {
    if a == [] {
      assert a + b == b;
    } else {
      assert (a + b)[1..] == a[1..] + b;
      OfStoreAppend(a[1..], b, store);
    }
  }

  /** Each listed stage is swept once. */
  lemma {:induction false} OpenStagesPart(stages: map<nat, SD.Stage>, keys: seq<nat>, key: nat)
    requires forall k :: k in keys ==> k in stages
    requires forall i, j :: 0 <= i < j < |keys| ==> keys[i] != keys[j]
    ensures var open := OpenStages(stages, keys);
      && (key !in keys ==> StagePart(open.ops, key) == [])
      && (key in keys ==> StagePart(open.ops, key) <= SD.SweepOps(stages[key]))
      && (open.done && key in keys ==> StagePart(open.ops, key) == SD.SweepOps(stages[key]))
    decreases |keys|
  {
    if keys != [] && SD.Ordered(stages[keys[0]]) {
      var rest := OpenStages(stages, keys[1..]);
      OpenStagesPart(stages, keys[1..], key);
      OnStageStagePart(keys[0], SD.SweepOps(stages[keys[0]]), key);
      StagePartAppend(OnStage(keys[0], SD.SweepOps(stages[keys[0]])), rest.ops, key);
      assert keys == [keys[0]] + keys[1..];
      assert keys[0] !in keys[1..];
    }
  }

  lemma {:induction false} OpenStagesVolumePart(stages: map<nat, SD.Stage>, keys: seq<nat>, key: nat, store: VC.Store)
    requires forall k :: k in keys ==> k in stages
    ensures VolumePart(OpenStages(stages, keys).ops, key, store) == []
    decreases |keys|
  {
    if keys != [] && SD.Ordered(stages[keys[0]]) {
      OpenStagesVolumePart(stages, keys[1..], key, store);
      OnStageVolumePart(keys[0], SD.SweepOps(stages[keys[0]]), key, store);
      VolumePartAppend(OnStage(keys[0], SD.SweepOps(stages[keys[0]])), OpenStages(stages, keys[1..]).ops, key, store);
    }
  }

  lemma {:induction false} OpenStagesDone(stages: map<nat, SD.Stage>, keys: seq<nat>)
    requires forall k :: k in keys ==> k in stages
    ensures OpenStages(stages, keys).done <==> forall k :: k in keys ==> SD.Ordered(stages[k])
    decreases |keys|
  {
    if keys != [] {
      assert keys == [keys[0]] + keys[1..];
      OpenStagesDone(stages, keys[1..]);
    }
  }

  /** Each listed volume is reaped once. */
  lemma {:induction false} ReapVolumesParts(volumes: map<nat, VR.Volume>, keys: seq<nat>, key: nat, store: VC.Store)
    requires forall k :: k in keys ==> k in volumes
    requires forall i, j :: 0 <= i < j < |keys| ==> keys[i] != keys[j]
    ensures var ops := ReapVolumes(volumes, keys);
      && StagePart(ops, key) == []
      && VolumePart(ops, key, store) == if key in keys then VC.ReapOps(Component(volumes[key], store)) else []
    decreases |keys|
  {
    if keys != [] {
      var v := volumes[keys[0]];
      var first := OnVolume(keys[0], VR.ReapOps(v));
      var rest := ReapVolumes(volumes, keys[1..]);
      ReapVolumesParts(volumes, keys[1..], key, store);
      OnVolumeStagePart(keys[0], VR.ReapOps(v), key);
      OnVolumeVolumePart(keys[0], VR.ReapOps(v), key, store);
      StagePartAppend(first, rest, key);
      VolumePartAppend(first, rest, key, store);
      ReapStore(v, store);
      assert keys == [keys[0]] + keys[1..];
      assert keys[0] !in keys[1..];
    }
  }

  lemma {:induction false} ReapStore(v: VR.Volume, store: VC.Store)
    ensures OfStore(VR.ReapOps(v), store) == VC.ReapOps(Component(v, store))
  {
    OfStoreAppend(VR.Tagged(VC.Journal, VC.ReapOps(v.journal)), VR.Tagged(VC.Receiver, VC.ReapOps(v.receiver)), store);
    OfStoreTagged(VC.Journal, VC.ReapOps(v.journal), store);
    OfStoreTagged(VC.Receiver, VC.ReapOps(v.receiver), store);
  }

  lemma {:induction false} OpenDone(d: Disk)
    ensures Open(d).done <==> forall key :: key in d.stages ==> SD.Ordered(d.stages[key])
  {
    SortedMembers(d.stages.Keys);
    OpenStagesDone(d.stages, Sorted(d.stages.Keys));
  }

  /** What opening does to one stage. */
  lemma {:induction false} OpenStagePart(d: Disk, key: nat)
    requires key in d.stages
    ensures StagePart(Open(d).ops, key) <= SD.SweepOps(d.stages[key])
    ensures Open(d).done ==> StagePart(Open(d).ops, key) == SD.SweepOps(d.stages[key])
    ensures Open(d).done ==> Run(d, Open(d).ops).stages[key] == SD.Swept(d.stages[key])
  {
    SortedMembers(d.stages.Keys);
    SortedMembers(d.volumes.Keys);
    var stages := OpenStages(d.stages, Sorted(d.stages.Keys));
    OpenStagesPart(d.stages, Sorted(d.stages.Keys), key);
    if stages.done {
      ReapVolumesParts(d.volumes, Sorted(d.volumes.Keys), key, VC.Journal);
      StagePartAppend(stages.ops, ReapVolumes(d.volumes, Sorted(d.volumes.Keys)), key);
      StageRuns(d, Open(d).ops, key);
    }
  }

  /** What opening does to one Volume component. */
  lemma {:induction false} OpenVolumePart(d: Disk, key: nat, store: VC.Store)
    requires key in d.volumes
    ensures VolumePart(Open(d).ops, key, store) <= VC.ReapOps(Component(d.volumes[key], store))
    ensures Open(d).done ==> VolumePart(Open(d).ops, key, store) == VC.ReapOps(Component(d.volumes[key], store))
  {
    SortedMembers(d.stages.Keys);
    SortedMembers(d.volumes.Keys);
    var stages := OpenStages(d.stages, Sorted(d.stages.Keys));
    OpenStagesVolumePart(d.stages, Sorted(d.stages.Keys), key, store);
    if stages.done {
      ReapVolumesParts(d.volumes, Sorted(d.volumes.Keys), key, store);
      VolumePartAppend(stages.ops, ReapVolumes(d.volumes, Sorted(d.volumes.Keys)), key, store);
    }
  }

  lemma {:induction false} OpenVolume(d: Disk, key: nat)
    requires key in d.volumes && Open(d).done
    ensures Run(d, Open(d).ops).volumes[key] == VR.Reaped(d.volumes[key])
  {
    OpenVolumePart(d, key, VC.Journal);
    OpenVolumePart(d, key, VC.Receiver);
    VolumeRuns(d, Open(d).ops, key, VC.Journal);
    VolumeRuns(d, Open(d).ops, key, VC.Receiver);
  }
}
