/**
 The private storage that startup recovery works on, one durable operation at a time. The ghost trace
 lists every operation performed, so each method says exactly what a crash can cut short.
 */
module StagingStorage {
  import opened Outcomes
  import opened StagingRecovery
  import SD = StageDiscard
  import VC = VolumeCleanup
  import VR = VolumeRecovery

  lemma {:induction false} RunAppend(d: Disk, a: seq<Effect>, b: seq<Effect>)
    ensures Run(d, a + b) == Run(Run(d, a), b)
    decreases |a|
  {
    if a == [] {
      assert a + b == b;
    } else {
      assert (a + b)[1..] == a[1..] + b;
      RunAppend(Perform(d, a[0]), a[1..], b);
    }
  }

  lemma {:induction false} OnStageAppend(key: nat, a: seq<SD.Op>, b: seq<SD.Op>)
    ensures OnStage(key, a + b) == OnStage(key, a) + OnStage(key, b)
    decreases |a|
  {
    if a == [] {
      assert a + b == b;
    } else {
      assert (a + b)[1..] == a[1..] + b;
      OnStageAppend(key, a[1..], b);
    }
  }

  lemma {:induction false} OnVolumeAppend(key: nat, a: seq<VR.Op>, b: seq<VR.Op>)
    ensures OnVolume(key, a + b) == OnVolume(key, a) + OnVolume(key, b)
    decreases |a|
  {
    if a == [] {
      assert a + b == b;
    } else {
      assert (a + b)[1..] == a[1..] + b;
      OnVolumeAppend(key, a[1..], b);
    }
  }

  /** The effects of component operations, in order. */
  function OnComponent(key: nat, store: VC.Store, ops: seq<VC.Op>): seq<Effect> { OnVolume(key, VR.Tagged(store, ops)) }

  lemma {:induction false} OnComponentOne(key: nat, store: VC.Store, ops: seq<VC.Op>, op: VC.Op)
    ensures OnComponent(key, store, ops + [op]) == OnComponent(key, store, ops) + [VolumeEffect(key, store, op)]
  {
    assert VR.Tagged(store, ops + [op]) == VR.Tagged(store, ops) + [VR.Op(store, op)];
    OnVolumeAppend(key, VR.Tagged(store, ops), [VR.Op(store, op)]);
    assert OnVolume(key, [VR.Op(store, op)]) == [VolumeEffect(key, store, op)] + OnVolume(key, []);
  }

  lemma {:induction false} OnStageOne(key: nat, ops: seq<SD.Op>, op: SD.Op)
    ensures OnStage(key, ops + [op]) == OnStage(key, ops) + [StageEffect(key, op)]
  {
    OnStageAppend(key, ops, [op]);
    assert OnStage(key, [op]) == [StageEffect(key, op)] + OnStage(key, []);
  }

  /** Effects under one key leave every other unit alone. */
  lemma {:induction false} OnStageFrame(d: Disk, key: nat, ops: seq<SD.Op>)
    ensures var after := Run(d, OnStage(key, ops));
      && after.volumes == d.volumes
      && (forall other :: other != key && other in d.stages ==> after.stages[other] == d.stages[other])
      && (key in d.stages ==> after.stages[key] == SD.Run(d.stages[key], ops))
    decreases |ops|
  {
    if ops != [] {
      OnStageFrame(Perform(d, StageEffect(key, ops[0])), key, ops[1..]);
      assert OnStage(key, ops)[1..] == OnStage(key, ops[1..]);
    }
  }

  lemma {:induction false} OnVolumeFrame(d: Disk, key: nat, ops: seq<VR.Op>)
    ensures var after := Run(d, OnVolume(key, ops));
      after.stages == d.stages && forall other :: other != key && other in d.volumes ==> after.volumes[other] == d.volumes[other]
    decreases |ops|
  {
    if ops != [] {
      OnVolumeFrame(Perform(d, VolumeEffect(key, ops[0].store, ops[0].op)), key, ops[1..]);
      assert OnVolume(key, ops)[1..] == OnVolume(key, ops[1..]);
    }
  }

  function MarkOps(c: VC.Component, complete: bool): seq<VC.Op> {
    if c.log.Some? || (!complete && c.authority && c.marker.None?) then
      (if c.marker.None? then [VC.CreateMarker(!complete)] else []) +
      (if c.marker.None? || !c.marker.value.whole then [VC.FillMarker] else [])
    else []
  }

  function UnlinkOps(c: VC.Component, marked: bool): seq<VC.Op> {
    (if c.log.Some? then [VC.UnlinkLog] else []) + (if c.authority then [VC.UnlinkAuthority] else []) +
    (if marked then [VC.UnlinkMarker] else []) + [VC.RemoveDirectory]
  }

  /** The two halves of a retirement are the retirement. */
  lemma {:induction false} MarkThenUnlink(key: nat, store: VC.Store, c: VC.Component, complete: bool)
    ensures var marked := c.marker.Some? || c.log.Some? || (!complete && c.authority);
      OnComponent(key, store, VC.RetireOps(c, complete)) ==
      OnComponent(key, store, MarkOps(c, complete)) + OnComponent(key, store, UnlinkOps(c, marked))
  {
    var marked := c.marker.Some? || c.log.Some? || (!complete && c.authority);
    var a, b := MarkOps(c, complete), UnlinkOps(c, marked);
    assert VC.RetireOps(c, complete) == a + b;
    assert VR.Tagged(store, a + b) == VR.Tagged(store, a) + VR.Tagged(store, b);
    OnVolumeAppend(key, VR.Tagged(store, a), VR.Tagged(store, b));
  }

  /** What a list of stage effects after `trace` does to each unit. */
  lemma {:induction false} StageFrame(base: Disk, trace: seq<Effect>, key: nat, ops: seq<SD.Op>)
    ensures var before, after := Run(base, trace), Run(base, trace + OnStage(key, ops));
      && after.volumes == before.volumes
      && (forall other :: other != key && other in before.stages ==> after.stages[other] == before.stages[other])
      && (key in before.stages ==> after.stages[key] == SD.Run(before.stages[key], ops))
  {
    RunAppend(base, trace, OnStage(key, ops));
    OnStageFrame(Run(base, trace), key, ops);
  }

  lemma {:induction false} VolumeFrame(base: Disk, trace: seq<Effect>, key: nat, ops: seq<VR.Op>)
    ensures var before, after := Run(base, trace), Run(base, trace + OnVolume(key, ops));
      && after.stages == before.stages
      && (forall other :: other != key && other in before.volumes ==> after.volumes[other] == before.volumes[other])
  {
    RunAppend(base, trace, OnVolume(key, ops));
    OnVolumeFrame(Run(base, trace), key, ops);
  }

  class Storage {
    var disk: Disk
    ghost var base: Disk
    ghost var trace: seq<Effect>

    ghost predicate Valid()
      reads this
    {
      disk == Run(base, trace)
    }

    constructor (found: Disk)
      ensures Valid() && disk == found && trace == []
    {
      disk, base, trace := found, found, [];
    }

    /** One synced operation. */
    method Do(e: Effect)
      requires Valid()
      modifies this
      ensures Valid() && base == old(base) && trace == old(trace) + [e]
    {
      RunAppend(base, trace, [e]);
      assert Run(disk, [e]) == Run(Perform(disk, e), []);
      disk := Perform(disk, e);
      trace := trace + [e];
    }

    /** The next operation on one stage, after those already done since `start`. */
    method DoStage(key: nat, op: SD.Op, ghost start: seq<Effect>, ghost done: seq<SD.Op>) returns (ghost next: seq<SD.Op>)
      requires Valid() && trace == start + OnStage(key, done)
      modifies this
      ensures Valid() && base == old(base)
      ensures next == done + [op] && trace == start + OnStage(key, next)
    {
      Do(StageEffect(key, op));
      OnStageOne(key, done, op);
      next := done + [op];
    }

    /** The next operation on one component, after those already done since `start`. */
    method DoComponent(key: nat, store: VC.Store, op: VC.Op, ghost start: seq<Effect>, ghost done: seq<VC.Op>)
      returns (ghost next: seq<VC.Op>)
      requires Valid() && trace == start + OnComponent(key, store, done)
      modifies this
      ensures Valid() && base == old(base)
      ensures next == done + [op] && trace == start + OnComponent(key, store, next)
    {
      Do(VolumeEffect(key, store, op));
      OnComponentOne(key, store, done, op);
      next := done + [op];
    }

    /** Removes a namespace without files, and its reservation last. */
    method Sweep(key: nat)
      requires Valid() && key in disk.stages
      modifies this
      ensures Valid() && base == old(base)
      ensures trace == old(trace) + OnStage(key, SD.SweepOps(old(disk.stages[key])))
    {
      var stage := disk.stages[key];
      ghost var start, done := trace, [];
      if stage.files == map[] {
        if stage.point {
          done := DoStage(key, SD.RemovePoint, start, done);
        }
        if stage.reservation {
          done := DoStage(key, SD.RemoveReservation, start, done);
        }
      }
      assert done == SD.SweepOps(stage);
    }

    /** Files in listing order, then the namespace, then the reservation. */
    method DiscardContents(key: nat, names: seq<SD.Name>)
      requires Valid()
      modifies this
      ensures Valid() && base == old(base)
      ensures trace == old(trace) + OnStage(key, SD.RemovalOps(names))
    {
      ghost var start: seq<Effect>, done: seq<SD.Op> := trace, [];
      var i := 0;
      while i < |names|
        invariant 0 <= i <= |names|
        invariant Valid() && base == old(base)
        invariant trace == start + OnStage(key, done)
        invariant done + SD.RemovalOps(names[i..]) == SD.RemovalOps(names)
      {
        done := DoStage(key, SD.RemoveFile(names[i]), start, done);
        i := i + 1;
      }
      assert names[i..] == [];
      done := DoStage(key, SD.RemovePoint, start, done);
      done := DoStage(key, SD.RemoveReservation, start, done);
      assert done == SD.RemovalOps(names);
    }

    method RemoveMarker(key: nat)
      requires Valid()
      modifies this
      ensures Valid() && base == old(base)
      ensures trace == old(trace) + OnStage(key, if StageAt(old(disk.stages), key).marker then [SD.RemoveMarker] else [])
    {
      if StageAt(disk.stages, key).marker {
        ghost var done := DoStage(key, SD.RemoveMarker, trace, []);
        assert done == [SD.RemoveMarker];
      }
    }

    /** Drops the derived object of a resumed stage; a file already gone is skipped. */
    method DiscardDerived(key: nat)
      requires Valid() && key in disk.stages
      modifies this
      ensures Valid() && base == old(base)
      ensures trace == old(trace) + OnStage(key, SD.DerivedOps(old(disk.stages[key].files)))
    {
      var files := disk.stages[key].files;
      ghost var start, done := trace, [];
      if SD.StoredPartial in files {
        done := DoStage(key, SD.RemoveFile(SD.StoredPartial), start, done);
      }
      if SD.StoredFinal in files {
        done := DoStage(key, SD.RemoveFile(SD.StoredFinal), start, done);
      }
      assert done == SD.DerivedOps(files);
    }

    method Reap(key: nat, store: VC.Store, c: VC.Component)
      requires Valid()
      modifies this
      ensures Valid() && base == old(base)
      ensures trace == old(trace) + OnComponent(key, store, VC.ReapOps(c))
    {
      assert OnComponent(key, store, []) == [];
      if c.place.Retiring? && !c.authority && c.log.None? && c.marker.None? {
        ghost var done := DoComponent(key, store, VC.RemoveDirectory, trace, []);
        assert done == VC.ReapOps(c);
      }
    }

    /** Log, authority, marker, directory. */
    method Unlink(key: nat, store: VC.Store, c: VC.Component, marked: bool)
      requires Valid()
      modifies this
      ensures Valid() && base == old(base)
      ensures trace == old(trace) + OnComponent(key, store, UnlinkOps(c, marked))
    {
      ghost var start, done := trace, [];
      assert OnComponent(key, store, done) == [];
      if c.log.Some? {
        done := DoComponent(key, store, VC.UnlinkLog, start, done);
      }
      if c.authority {
        done := DoComponent(key, store, VC.UnlinkAuthority, start, done);
      }
      if marked {
        done := DoComponent(key, store, VC.UnlinkMarker, start, done);
      }
      done := DoComponent(key, store, VC.RemoveDirectory, start, done);
      assert done == UnlinkOps(c, marked);
    }

    /** Makes the marker durable before anything goes; a marker already whole is left. */
    method Mark(key: nat, store: VC.Store, c: VC.Component, complete: bool)
      requires Valid()
      modifies this
      ensures Valid() && base == old(base)
      ensures trace == old(trace) + OnComponent(key, store, MarkOps(c, complete))
    {
      ghost var start, done := trace, [];
      assert OnComponent(key, store, done) == [];
      if c.log.Some? || (!complete && c.authority && c.marker.None?) {
        if c.marker.None? {
          done := DoComponent(key, store, VC.CreateMarker(!complete), start, done);
        }
        if c.marker.None? || !c.marker.value.whole {
          done := DoComponent(key, store, VC.FillMarker, start, done);
        }
      }
      assert done == MarkOps(c, complete);
    }

    /** Finishes a retiring directory. */
    method Retire(key: nat, store: VC.Store, c: VC.Component, complete: bool) returns (ok: bool)
      requires Valid()
      modifies this
      ensures Valid() && base == old(base)
      ensures ok == VC.Retire(store, c, complete).done
      ensures trace == old(trace) + OnComponent(key, store, VC.Retire(store, c, complete).ops)
    {
      assert OnComponent(key, store, []) == [];
      hide VC.RetireOps;
      hide Run;
      hide OnComponent;
      if c.marker.Some? && c.marker.value.discard == complete {
        return false;
      }
      if c.log.Some? {
        if !c.authority || !(if complete then VC.Cleanable(c.log.value) else VC.Discardable(store, c.log.value)) {
          return false;
        }
      } else if c.marker.Some? && !c.marker.value.whole {
        return false;
      } else if c.marker.None? && c.authority && complete {
        return false;
      }
      Mark(key, store, c, complete);
      var marked := c.marker.Some? || c.log.Some? || (!complete && c.authority);
      Unlink(key, store, c, marked);
      MarkThenUnlink(key, store, c, complete);
      ok := true;
    }

    /** The recovery branch for one component that its inventory row selects. */
    method CleanupComponent(key: nat, store: VC.Store, c: VC.Component) returns (ok: bool)
      requires Valid() && !VC.Inventory(store, c).Rejected?
      modifies this
      ensures Valid() && base == old(base)
      ensures ok == VC.Cleanup(store, c).done
      ensures trace == old(trace) + OnComponent(key, store, VC.Cleanup(store, c).ops)
    {
      hide Run;
      hide VC.RetireOps;
      if VC.Inventory(store, c).Absent? {
        return true;
      }
      var row := VC.Inventory(store, c).row;
      if row.retiring {
        ok := Retire(key, store, c, !row.discarding);
        return;
      }
      var complete := row.terminal && (store.Journal? || !row.partial);
      if !(if complete then VC.Cleanable(c.log.value) else VC.Discardable(store, c.log.value)) {
        return false;
      }
      Do(VolumeEffect(key, store, VC.Rename));
      ghost var rest := VC.Retire(store, VC.Step(c, VC.Rename), complete).ops;
      ok := Retire(key, store, VC.Step(c, VC.Rename), complete);
      assert VR.Tagged(store, [VC.Rename] + rest) == [VR.Op(store, VC.Rename)] + VR.Tagged(store, rest);
      OnVolumeAppend(key, [VR.Op(store, VC.Rename)], VR.Tagged(store, rest));
      assert OnVolume(key, [VR.Op(store, VC.Rename)]) == [VolumeEffect(key, store, VC.Rename)] + OnVolume(key, []);
    }

    /** Both components of a recovered volume, the journal first. */
    method CleanupVolume(key: nat, v: VR.Volume) returns (ok: bool)
      requires Valid() && VR.Inventory(key, v).Found?
      modifies this
      ensures Valid() && base == old(base)
      ensures ok == VR.CleanupOps(v).done
      ensures trace == old(trace) + OnVolume(key, VR.CleanupOps(v).ops)
    {
      hide Run;
      hide VC.Cleanup;
      hide VC.Inventory;
      hide OnVolume;
      ok := CleanupComponent(key, VC.Journal, v.journal);
      if !ok {
        return;
      }
      ok := CleanupComponent(key, VC.Receiver, v.receiver);
      OnVolumeAppend(key, VR.Tagged(VC.Journal, VC.Cleanup(VC.Journal, v.journal).ops),
                     VR.Tagged(VC.Receiver, VC.Cleanup(VC.Receiver, v.receiver).ops));
    }
  }
}
