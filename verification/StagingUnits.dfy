/** Crash and reopening of one stage and of one Volume, before they are put together into a disk. */
module StagingUnits {
  import opened Outcomes
  import opened StagingRecovery
  import opened StagingParts
  import SD = StageDiscard
  import VC = VolumeCleanup
  import VR = VolumeRecovery

  /** The operations of a pass on one stage, planned or not. */
  function StageOps(s: SD.Stage, d: Option<SD.Disposition>): seq<SD.Op> {
    match d
    case None => SD.SweepOps(s)
    case Some(d) => SD.Pass(s, d).ops
  }

  /** The operations of a pass on one Volume component. */
  function ComponentOps(store: VC.Store, c: VC.Component, cleanup: bool): seq<VC.Op> {
    if cleanup then VC.Pass(store, c).ops else VC.ReapOps(c)
  }

  lemma {:induction false} ValidWireFiles(files: map<SD.Name, SD.Content>)
    requires ValidFiles(SD.WireFiles(files)) || SD.WireFiles(files) == []
    ensures SD.OnePerRole(files)
  {
    var source := SD.FilesOf(files, SD.SourcePartial, SD.SourceFinal);
    var stored := SD.FilesOf(files, SD.StoredPartial, SD.StoredFinal);
    assert SD.WireFiles(files) == source + stored;
    assert |source| + |stored| <= 2;
    assert forall i :: 0 <= i < |source| ==> source[i].role == SD.SourcePlaintext;
    assert forall i :: 0 <= i < |stored| ==> stored[i].role == SD.StoredObject;
  }

  lemma {:induction false} WireFilesShrink(files: map<SD.Name, SD.Content>, fewer: map<SD.Name, SD.Content>)
    requires forall name :: name in fewer ==> name in files && fewer[name] == files[name]
    requires SD.OnePerRole(files)
    ensures forall file :: file in SD.WireFiles(fewer) ==> file in SD.WireFiles(files)
    ensures fewer != map[] ==> ValidFiles(SD.WireFiles(fewer))
    ensures fewer == map[] ==> SD.WireFiles(fewer) == []
  {
    if fewer != map[] {
      SD.NamesListed(fewer);
      var name :| name in fewer;
      assert name in SD.Names(fewer);
    }
  }

  /** A stage that lost only files or its marker is still admitted. */
  lemma {:induction false} AdmittedShrinks(key: nat, s: SD.Stage, fewer: SD.Stage, entries: seq<SD.Entry>)
    requires StageAdmitted(key, s, entries)
    requires forall name :: name in fewer.files ==> name in s.files && fewer.files[name] == s.files[name]
    requires fewer.marker ==> s.marker
    ensures StageAdmitted(key, fewer, entries)
  {
    if EntryOf(key, fewer).Some? {
      if fewer.files != map[] {
        var name :| name in fewer.files;
        assert name in s.files;
      }
      assert EntryOf(key, s).Some?;
      if s.files == map[] {
        assert SD.WireFiles(s.files) == [];
      }
      ValidWireFiles(s.files);
      WireFilesShrink(s.files, fewer.files);
    }
  }

  /** A planned stage after a crash anywhere in its pass: admitted again, and exactly the rest is left. */
  lemma {:induction false} StageReopens(key: nat, s: SD.Stage, entries: seq<SD.Entry>, d: SD.Disposition, count: nat)
    requires SD.Pass(s, d).done && SD.ValidDecision(d) && count <= |SD.Pass(s, d).ops|
    requires StageAdmitted(key, SD.Swept(s), entries)
    ensures var after := SD.Run(s, SD.Pass(s, d).ops[..count]);
      && SD.Ordered(after)
      && StageAdmitted(key, SD.Swept(after), entries)
      && SD.Pass(after, d) == Attempt(SD.Pass(s, d).ops[count..], true)
  {
    var after := SD.Run(s, SD.Pass(s, d).ops[..count]);
    if s.files != map[] {
      assert SD.Swept(s) == s;
    } else {
      SD.SweepRuns(s);
      assert SD.WireFiles(s.files) == [];
    }
    StageFilesValid(key, s, entries);
    SD.PassContinues(s, d, count);
    SD.RunShrinks(s, SD.Pass(s, d).ops[..count]);
    SD.RunShrinks(after, SD.SweepOps(after));
    AdmittedShrinks(key, SD.Swept(s), SD.Swept(after), entries);
  }

  lemma {:induction false} StageFilesValid(key: nat, s: SD.Stage, entries: seq<SD.Entry>)
    requires StageAdmitted(key, SD.Swept(s), entries)
    ensures SD.OnePerRole(s.files)
  {
    if s.files != map[] {
      assert SD.Swept(s) == s;
      ValidWireFiles(s.files);
    }
  }

  /** The component after `count` operations of the pass that started from it. */
  predicate AtPoint(store: VC.Store, base: VC.Component, c: VC.Component, cleanup: bool, count: nat) {
    && count <= |ComponentOps(store, base, cleanup)|
    && c == VC.Run(base, ComponentOps(store, base, cleanup)[..count])
  }

  /** One volume after its components crashed at their own points. */
  predicate VolumeAtPoints(base: VR.Volume, v: VR.Volume, cleanup: bool, j: nat, r: nat) {
    && Frame(v) == Frame(base)
    && AtPoint(VC.Journal, base.journal, v.journal, cleanup, j)
    && AtPoint(VC.Receiver, base.receiver, v.receiver, cleanup, r)
  }

  predicate VolumeStuck(v: VR.Volume) { VC.Stuck(v.journal) || VC.Stuck(v.receiver) }

  lemma {:induction false} ReapIdempotent(c: VC.Component, count: nat)
    requires count <= |VC.ReapOps(c)|
    ensures var after := VC.Run(c, VC.ReapOps(c)[..count]);
      VC.Reaped(after) == VC.Reaped(c) && VC.ReapOps(after) == VC.ReapOps(c)[count..]
  {
    if count == 0 {
      assert VC.ReapOps(c)[..0] == [];
    } else {
      assert VC.ReapOps(c)[..count] == [VC.RemoveDirectory];
    }
  }

  /** A pass over a volume under cleanup succeeds only if it succeeds on both components. */
  lemma {:induction false} CleanupDone(v: VR.Volume, retained: VR.Recovered)
    ensures VR.Pass(v, retained, VR.Cleanup).done ==>
      VC.Pass(VC.Journal, v.journal).done && VC.Pass(VC.Receiver, v.receiver).done
  {
    var reaped := VR.Reaped(v);
    var scan := VR.Inventory(retained.key, reaped);
    assert VC.Cleanup(VC.Journal, reaped.journal).done || !VC.Inventory(VC.Journal, reaped.journal).Absent?;
  }

  /**
   Reopening and replaying one volume after a crash: it succeeds exactly when neither component stopped in
   a window. The retained row stays the reference, because the subset relation is not transitive.
   */
  lemma {:induction false} VolumeReopens(base: VR.Volume, v: VR.Volume, retained: VR.Recovered, action: VR.Action, j: nat, r: nat)
    requires VR.Pass(base, retained, action).done
    requires VolumeAtPoints(base, v, action.Cleanup?, j, r)
    ensures VR.Pass(v, retained, action).done <==> !(action.Cleanup? && VolumeStuck(v))
  {
    if action.Cleanup? {
      CleanupDone(base, retained);
      VC.PassContinues(VC.Journal, base.journal, j);
      VC.PassContinues(VC.Receiver, base.receiver, r);
      if VolumeStuck(v) {
        CleanupDone(v, retained);
      } else {
        VC.InventoryAfterCrash(VC.Journal, base.journal, j);
        VC.InventoryAfterCrash(VC.Receiver, base.receiver, r);
        CleanupReopens(base, v, retained);
      }
    } else {
      ReapIdempotent(base.journal, j);
      ReapIdempotent(base.receiver, r);
      assert VR.Reaped(v) == VR.Reaped(base);
    }
  }

  lemma {:induction false} CleanupReopens(base: VR.Volume, v: VR.Volume, retained: VR.Recovered)
    requires VR.Pass(base, retained, VR.Cleanup).done
    requires Frame(v) == Frame(base)
    requires VC.Pass(VC.Journal, v.journal).done && VC.Pass(VC.Receiver, v.receiver).done
    requires var before := VC.Inventory(VC.Journal, VC.Reaped(base.journal));
      var after := VC.Inventory(VC.Journal, VC.Reaped(v.journal));
      !before.Rejected? && (after == before || after.Absent? || (before.Found? && after.Found? && after.row.retiring))
    requires var before := VC.Inventory(VC.Receiver, VC.Reaped(base.receiver));
      var after := VC.Inventory(VC.Receiver, VC.Reaped(v.receiver));
      !before.Rejected? && (after == before || after.Absent? || (before.Found? && after.Found? && after.row.retiring))
    ensures VR.Pass(v, retained, VR.Cleanup).done
  {
    var scan := VR.Inventory(retained.key, VR.Reaped(v));
    var before := VR.Inventory(retained.key, VR.Reaped(base));
    if scan.Absent? {
    } else {
      assert before.Found?;
      assert VR.CleanupSubset(before.row, retained);
      assert scan.Found?;
      assert VR.CleanupSubset(scan.row, before.row);
      assert VR.CleanupSubset(scan.row, retained);
    }
  }
}
