/**
 Recovery while the Controller changes its mind: between two crashes the Agent may record a plan that supersedes the
 recorded one. Startups open under the recorded plan and apply the new one. Which plans the journal lets follow one
 another is `StagingJournal.PlansDescend`; nothing here needs it.
 */
module StagingSupersession {
  import opened Outcomes
  import opened StagingRecovery
  import opened StagingParts
  import opened StagingUnits
  import opened StagingCrash
  import opened StagingTheorems
  import opened StagingSafety
  import SD = StageDiscard
  import VC = VolumeCleanup
  import VR = VolumeRecovery

  /** The startup gets as far as recording a plan. */
  predicate Opens(d: Disk, retained: Inventory, plan: Plan) {
    Open(d).done && Admitted(Run(d, Open(d).ops), retained, plan)
  }

  /** One startup: opened and compared under the recorded plan, then `next` is recorded and applied. */
  function Session(d: Disk, retained: Inventory, recorded: Plan, next: Plan): Attempt<Effect> {
    if !Opens(d, retained, recorded) then Attempt(Open(d).ops, false)
    else
      var apply := Apply(Run(d, Open(d).ops), next);
      Attempt(Open(d).ops + apply.ops, apply.done)
  }

  datatype State = State(disk: Disk, plan: Plan)

  /** A startup that is given a plan and ends, at the latest, after a number of durable operations. */
  datatype Life = Life(plan: Plan, cut: nat)

  function Cut(ops: seq<Effect>, cut: nat): seq<Effect> { if cut < |ops| then ops[..cut] else ops }

  /** The plan is recorded once opening is complete and the disk was admitted. */
  function Live(s: State, retained: Inventory, life: Life): State {
    State(Run(s.disk, Cut(Session(s.disk, retained, s.plan, life.plan).ops, life.cut)),
          if Opens(s.disk, retained, s.plan) && life.cut >= |Open(s.disk).ops| then life.plan else s.plan)
  }

  function Lives(s: State, retained: Inventory, lives: seq<Life>): State
    decreases |lives|
  {
    if lives == [] then s else Lives(Live(s, retained, lives[0]), retained, lives[1..])
  }

  /** A startup that keeps the recorded plan is a pass. */
  lemma {:induction false} SamePlanIsPass(d: Disk, retained: Inventory, plan: Plan)
    ensures Session(d, retained, plan, plan) == Pass(d, retained, plan)
  {
    hide Open, Admitted, Apply;
  }

  /** A disposition that removes nothing. */
  predicate Keeps(d: SD.Disposition) { d.action.RecoveryRequired? || (d.action.ResumePrepared? && !d.action.restartEncryption) }

  /** The second plan takes back no removal that the first one may have begun. */
  predicate WidensStage(p: Plan, q: Plan, key: nat) {
    FindStage(q.stages, key) == FindStage(p.stages, key) ||
    (FindStage(p.stages, key).Some? && Keeps(FindStage(p.stages, key).value))
  }

  ghost predicate Widens(p: Plan, q: Plan) {
    (forall key: nat :: WidensStage(p, q, key)) && (forall key: nat :: Cleaned(p, key) ==> Cleaned(q, key))
  }

  lemma {:induction false} KeepingSweeps(s: SD.Stage, d: SD.Disposition)
    requires Keeps(d)
    ensures SD.Pass(s, d).ops == if SD.Ordered(s) then SD.SweepOps(s) else []
    ensures !SD.Ordered(s) ==> SD.SweepOps(s) == []
  {}

  lemma {:induction false} SweepsFirst(s: SD.Stage, d: Option<SD.Disposition>)
    ensures SD.Ordered(s) ==> SD.SweepOps(s) <= StageOps(s, d)
  {}

  lemma {:induction false} StageWidens(base: SD.Stage, s: SD.Stage, p: Plan, q: Plan, key: nat, n: nat)
    requires WidensStage(p, q, key) && StageAtPoint(base, s, FindStage(p.stages, key), n)
    ensures StageAtPoint(base, s, FindStage(q.stages, key), n)
  {
    var old_, new_ := FindStage(p.stages, key), FindStage(q.stages, key);
    if new_ != old_ {
      KeepingSweeps(base, old_.value);
      SweepsFirst(base, new_);
      hide SD.Pass, SD.SweepOps;
      assert StageOps(base, old_) <= StageOps(base, new_);
      assert StageOps(base, old_)[..n] == StageOps(base, new_)[..n];
    }
  }

  lemma {:induction false} ComponentWidens(store: VC.Store, base: VC.Component, c: VC.Component, cleaned: bool, cleans: bool, n: nat)
    requires (cleaned ==> cleans) && AtPoint(store, base, c, cleaned, n)
    ensures AtPoint(store, base, c, cleans, n)
  {
    hide VC.Cleanup, VC.ReapOps, VC.Run;
    if cleaned != cleans {
      assert VC.Pass(store, base).ops[..n] == VC.ReapOps(base)[..n];
    }
  }

  /** Where the old plan left the disk, the new plan might have left it too. */
  lemma {:induction false} PointsWiden(base: Disk, d: Disk, p: Plan, q: Plan)
    requires AtPoints(base, d, p) && Widens(p, q)
    ensures AtPoints(base, d, q)
  {
    hide StageAtPoint, VolumeAtPoints, WidensStage, Cleaned;
    forall key | key in base.stages
      ensures exists n :: StageAtPoint(base.stages[key], d.stages[key], FindStage(q.stages, key), n)
    {
      var n: nat :| StageAtPoint(base.stages[key], d.stages[key], FindStage(p.stages, key), n);
      StageWidens(base.stages[key], d.stages[key], p, q, key, n);
    }
    forall key | key in base.volumes
      ensures exists j, r :: VolumeAtPoints(base.volumes[key], d.volumes[key], Cleaned(q, key), j, r)
    {
      var j: nat, r: nat :| VolumeAtPoints(base.volumes[key], d.volumes[key], Cleaned(p, key), j, r);
      VolumeWidens(base.volumes[key], d.volumes[key], Cleaned(p, key), Cleaned(q, key), j, r);
    }
  }

  lemma {:induction false} VolumeWidens(base: VR.Volume, v: VR.Volume, cleaned: bool, cleans: bool, j: nat, r: nat)
    requires (cleaned ==> cleans) && VolumeAtPoints(base, v, cleaned, j, r)
    ensures VolumeAtPoints(base, v, cleans, j, r)
  {
    hide AtPoint;
    ComponentWidens(VC.Journal, base.journal, v.journal, cleaned, cleans, j);
    ComponentWidens(VC.Receiver, base.receiver, v.receiver, cleaned, cleans, r);
  }

  /** What the old plan admits, the new one admits. */
  lemma {:induction false} AdmittedWidens(d: Disk, retained: Inventory, p: Plan, q: Plan)
    requires Admitted(d, retained, p) && Widens(p, q)
    ensures Admitted(d, retained, q)
  {
    hide VR.Inventory, VR.CleanupSubset, StageAdmitted, WidensStage;
    forall key | key in d.volumes ensures VolumeAdmitted(key, d.volumes[key], retained.volumes, q.volumes) {
      assert VolumeAdmitted(key, d.volumes[key], retained.volumes, p.volumes);
      assert Cleaned(p, key) ==> Cleaned(q, key);
    }
  }

  /** A startup under a widening plan does what a pass of that plan does. */
  lemma {:induction false} WideningIsPass(d: Disk, retained: Inventory, p: Plan, q: Plan)
    requires Opens(d, retained, p) && Widens(p, q)
    ensures Session(d, retained, p, q) == Pass(d, retained, q)
  {
    hide Open, Admitted, Apply, Widens;
    AdmittedWidens(Run(d, Open(d).ops), retained, p, q);
  }

  lemma {:induction false} UnopenedIsPass(d: Disk, retained: Inventory, p: Plan, q: Plan)
    requires !Opens(d, retained, p)
    ensures Session(d, retained, p, q) == Pass(d, retained, p)
  {
    hide Open, Admitted, Apply;
  }

  /** Every pass begins with opening. */
  lemma {:induction false} OpensFirst(d: Disk, retained: Inventory, plan: Plan)
    ensures Open(d).ops <= Pass(d, retained, plan).ops
  {
    hide Open, Admitted, Apply;
  }

  /** Every plan would finish from the first disk, and none takes back a removal of the one it replaces. */
  ghost predicate Widening(base: Disk, retained: Inventory, s: State, lives: seq<Life>)
    decreases |lives|
  {
    lives == [] ||
    (Applicable(base, retained, lives[0].plan) && Widens(s.plan, lives[0].plan) &&
     Widening(base, retained, Live(s, retained, lives[0]), lives[1..]))
  }

  lemma {:induction false} LifeStaysAtPoints(base: Disk, s: State, retained: Inventory, life: Life)
    requires Applicable(base, retained, s.plan) && AtPoints(base, s.disk, s.plan)
    requires Applicable(base, retained, life.plan) && Widens(s.plan, life.plan)
    ensures var t := Live(s, retained, life); Applicable(base, retained, t.plan) && AtPoints(base, t.disk, t.plan)
  {
    hide Applicable, AtPoints, Widens, Open, Opens, Session, Pass;
    var ops := Session(s.disk, retained, s.plan, life.plan).ops;
    var count := if life.cut < |ops| then life.cut else |ops|;
    assert Cut(ops, life.cut) == ops[..count];
    OpensFirst(s.disk, retained, s.plan);
    OpensFirst(s.disk, retained, life.plan);
    if Opens(s.disk, retained, s.plan) {
      WideningIsPass(s.disk, retained, s.plan, life.plan);
      if life.cut >= |Open(s.disk).ops| {
        PointsWiden(base, s.disk, s.plan, life.plan);
        CrashStaysAtPoints(base, s.disk, retained, life.plan, count);
      } else {
        assert ops[..count] == Pass(s.disk, retained, s.plan).ops[..count];
        CrashStaysAtPoints(base, s.disk, retained, s.plan, count);
      }
    } else {
      UnopenedIsPass(s.disk, retained, s.plan, life.plan);
      CrashStaysAtPoints(base, s.disk, retained, s.plan, count);
    }
  }

  lemma {:induction false} LivesStayAtPoints(base: Disk, s: State, retained: Inventory, lives: seq<Life>)
    requires Applicable(base, retained, s.plan) && AtPoints(base, s.disk, s.plan) && Widening(base, retained, s, lives)
    ensures var t := Lives(s, retained, lives); Applicable(base, retained, t.plan) && AtPoints(base, t.disk, t.plan)
    decreases |lives|
  {
    hide Applicable, AtPoints, Widens, Live;
    if lives != [] {
      LifeStaysAtPoints(base, s, retained, lives[0]);
      LivesStayAtPoints(base, Live(s, retained, lives[0]), retained, lives[1..]);
    }
  }

  /**
   Recovery across plan changes: after any crashes, and any new plans that take back no removal, the startup under
   the last recorded plan finishes exactly outside the crash windows, and leaves the disk that one uninterrupted
   startup under that plan would have left at the very beginning.
   */
  lemma {:induction false} RecoveryAcrossPlans(base: Disk, retained: Inventory, plan: Plan, lives: seq<Life>)
    requires Applicable(base, retained, plan) && Widening(base, retained, State(base, plan), lives)
    ensures var s := Lives(State(base, plan), retained, lives);
      && (Pass(s.disk, retained, s.plan).done <==> !StuckDisk(s.disk, s.plan))
      && (Pass(s.disk, retained, s.plan).done ==> Finished(s.disk, retained, s.plan) == Finished(base, retained, s.plan))
  {
    hide *;
    BaseAtPoints(base, plan);
    LivesStayAtPoints(base, State(base, plan), retained, lives);
    var s := Lives(State(base, plan), retained, lives);
    FinishesIffNotStuck(base, s.disk, retained, s.plan);
    if Pass(s.disk, retained, s.plan).done { FinishesTheSame(base, s.disk, retained, s.plan); }
  }

  /** Opening, unit by unit. */
  lemma {:induction false} OpensAll(d: Disk, retained: Inventory, plan: Plan)
    ensures Opens(d, retained, plan) <==> AllAdmitted(d, retained, plan)
  {
    hide StageAdmitted, VolumeAdmitted, Open, SD.Swept, VR.Reaped;
    OpenDone(d);
    if Open(d).done { OpenScanned(d); }
  }

  lemma {:induction false} SweptAgain(s: SD.Stage, part: seq<SD.Op>)
    requires part <= SD.SweepOps(s)
    ensures SD.Swept(SD.Run(s, part)) == SD.Swept(s) && (SD.Ordered(SD.Run(s, part)) <==> SD.Ordered(s))
  {
    var ops := SD.SweepOps(s);
    SD.SweepContinues(s, |part|);
    assert part == ops[..|part|] && ops == part + ops[|part|..];
    SD.RunAppend(s, part, ops[|part|..]);
    assert s.files != map[] ==> part == [];
  }

  lemma {:induction false} ReapedAgain(c: VC.Component, part: seq<VC.Op>)
    requires part <= VC.ReapOps(c)
    ensures VC.Reaped(VC.Run(c, part)) == VC.Reaped(c)
  {
    assert part == VC.ReapOps(c)[..|part|];
    ReapIdempotent(c, |part|);
  }

  /** An opening that stops anywhere changes nothing of what the next one finds. */
  lemma {:induction false} OpeningStopped(d: Disk, retained: Inventory, plan: Plan, count: nat)
    requires count <= |Open(d).ops|
    ensures AllAdmitted(Run(d, Open(d).ops[..count]), retained, plan) <==> AllAdmitted(d, retained, plan)
  {
    hide Open, StageAdmitted, VolumeAdmitted, SD.Swept, SD.Ordered, SD.SweepOps, VC.Reaped, VC.ReapOps;
    var ops := Open(d).ops;
    var after := Run(d, ops[..count]);
    forall key | key in d.stages
      ensures SD.Swept(after.stages[key]) == SD.Swept(d.stages[key]) && (SD.Ordered(after.stages[key]) <==> SD.Ordered(d.stages[key]))
    {
      OpenStagePart(d, key);
      StagePartOfPrefix(ops, count, key);
      StageRuns(d, ops[..count], key);
      SweptAgain(d.stages[key], StagePart(ops[..count], key));
    }
    forall key | key in d.volumes ensures VR.Reaped(after.volumes[key]) == VR.Reaped(d.volumes[key]) {
      ReapedComponent(d, ops, count, key, VC.Journal);
      ReapedComponent(d, ops, count, key, VC.Receiver);
      ReapedVolume(d.volumes[key], after.volumes[key]);
    }
  }

  lemma {:induction false} ReapedComponent(d: Disk, ops: seq<Effect>, count: nat, key: nat, store: VC.Store)
    requires key in d.volumes && ops == Open(d).ops && count <= |ops|
    ensures var after := Run(d, ops[..count]).volumes[key];
      Frame(after) == Frame(d.volumes[key]) && VC.Reaped(Component(after, store)) == VC.Reaped(Component(d.volumes[key], store))
  {
    hide Open, VC.Reaped, VC.ReapOps;
    OpenVolumePart(d, key, store);
    VolumePartOfPrefix(ops, count, key, store);
    VolumeRuns(d, ops[..count], key, store);
    ReapedAgain(Component(d.volumes[key], store), VolumePart(ops[..count], key, store));
  }

  lemma {:induction false} ReapedVolume(v: VR.Volume, w: VR.Volume)
    requires Frame(w) == Frame(v)
    requires VC.Reaped(Component(w, VC.Journal)) == VC.Reaped(Component(v, VC.Journal))
    requires VC.Reaped(Component(w, VC.Receiver)) == VC.Reaped(Component(v, VC.Receiver))
    ensures VR.Reaped(w) == VR.Reaped(v)
  {
    hide VC.Reaped;
  }

  /** A disk that is refused when it is opened is refused for ever, whatever plans the Controller would send. */
  lemma {:induction false} RefusedForever(s: State, retained: Inventory, lives: seq<Life>)
    requires !Opens(s.disk, retained, s.plan)
    ensures var t := Lives(s, retained, lives); t.plan == s.plan && !Opens(t.disk, retained, t.plan)
    decreases |lives|
  {
    hide Opens, Open, AllAdmitted;
    if lives != [] {
      var ops := Open(s.disk).ops;
      var count := if lives[0].cut < |ops| then lives[0].cut else |ops|;
      assert Cut(ops, lives[0].cut) == ops[..count];
      var t := Live(s, retained, lives[0]);
      assert t == State(Run(s.disk, ops[..count]), s.plan);
      OpeningStopped(s.disk, retained, s.plan, count);
      OpensAll(s.disk, retained, s.plan);
      OpensAll(t.disk, retained, s.plan);
      RefusedForever(t, retained, lives[1..]);
    }
  }

  /** A cleanup in progress has nothing but its directory left exactly when one operation is left. */
  lemma {:induction false} EmptyIffLast(store: VC.Store, c: VC.Component, complete: bool)
    requires VC.InProgress(store, c, complete)
    ensures VC.Empty(c) <==> |VC.RetireOps(c, complete)| == 1
    ensures VC.RetireOps(c, complete) != []
  {
    VC.RetireAdvances(store, c, complete);
    if VC.RetireOps(c, complete)[0] != VC.RemoveDirectory {
      VC.RetireAdvances(store, VC.Step(c, VC.RetireOps(c, complete)[0]), complete);
    }
  }

  /** What the inventory reads of an active or absent component after some operations of its cleanup. */
  lemma {:induction false} CleanupLeaves(store: VC.Store, c: VC.Component, n: nat)
    requires VC.Pass(store, c).done && !c.place.Retiring? && n <= |VC.Pass(store, c).ops|
    ensures var ops := VC.Pass(store, c).ops;
      var scan := VC.Inventory(store, VC.Reaped(VC.Run(c, ops[..n])));
      && |ops| != 1
      && (n == 0 ==> VC.Run(c, ops[..n]) == c)
      && (n > 0 && n + 1 >= |ops| ==> scan.Absent?)
      && (n > 0 && n + 1 < |ops| ==> scan.Rejected? || (scan.Found? && scan.row.retiring))
  {
    hide VC.RetireOps, VC.Retire, VC.Pass, VC.Reaped, VC.Inventory;
    var ops := VC.Pass(store, c).ops;
    VC.PassShape(store, c);
    if n == 0 {
      assert ops[..0] == [];
    }
    if ops != [] {
      var next := VC.Step(c, VC.Rename);
      var complete :| VC.InProgress(store, next, complete) && ops == [VC.Rename] + VC.RetireOps(next, complete);
      var rest := VC.RetireOps(next, complete);
      EmptyIffLast(store, next, complete);
      if n > 0 {
        assert ops[..n][1..] == rest[..n - 1];
        assert VC.Run(c, ops[..n]) == VC.Run(next, rest[..n - 1]);
        LeavesRetiring(store, next, complete, n - 1);
      }
    }
  }

  lemma {:induction false} LeavesRetiring(store: VC.Store, c: VC.Component, complete: bool, n: nat)
    requires VC.InProgress(store, c, complete) && n <= |VC.RetireOps(c, complete)|
    ensures var ops := VC.RetireOps(c, complete);
      var scan := VC.Inventory(store, VC.Reaped(VC.Run(c, ops[..n])));
      && (n + 1 >= |ops| ==> scan.Absent?)
      && (n + 1 < |ops| ==> scan.Rejected? || (scan.Found? && scan.row.retiring))
  {
    var ops := VC.RetireOps(c, complete);
    var after := VC.Run(c, ops[..n]);
    VC.RetireContinues(store, c, complete, n);
    if n < |ops| {
      EmptyIffLast(store, after, complete);
      RetiringScan(store, after);
    }
    hide VC.RetireOps, VC.InProgress, VC.Run;
    assert n == |ops| ==> VC.Reaped(VC.GONE) == VC.GONE by { GoneReaped(); }
  }

  lemma {:induction false} GoneReaped()
    ensures VC.Reaped(VC.GONE) == VC.GONE
  {}

  lemma {:induction false} RetiringScan(store: VC.Store, c: VC.Component)
    requires c.place.Retiring?
    ensures var scan := VC.Inventory(store, VC.Reaped(c));
      if VC.Empty(c) then scan.Absent? else scan.Rejected? || (scan.Found? && scan.row.retiring)
  {
    if VC.Empty(c) {
      assert VC.Run(c, [VC.RemoveDirectory]) == VC.Run(VC.Step(c, VC.RemoveDirectory), []);
    }
  }

  /** Begun on a component, and not down to its last operation on every component. */
  predicate Midway(j: nat, journalOps: nat, r: nat, receiverOps: nat) {
    (j > 0 || r > 0) && (j + 1 < journalOps || r + 1 < receiverOps)
  }

  /** A volume whose cleanup is taken back is refused exactly when the cleanup was midway. */
  lemma {:induction false} MidwayIsRefused(base: VR.Volume, v: VR.Volume, row: VR.Recovered, action: VR.Action, j: nat, r: nat)
    requires VR.Pass(base, row, VR.Cleanup).done && VR.Inventory(row.key, base) == VR.Found(row)
    requires !base.journal.place.Retiring? && !base.receiver.place.Retiring?
    requires VolumeAtPoints(base, v, true, j, r) && !action.Cleanup?
    ensures VR.Admitted(VR.Inventory(row.key, VR.Reaped(v)), row, action) <==>
            !Midway(j, |VC.Pass(VC.Journal, base.journal).ops|, r, |VC.Pass(VC.Receiver, base.receiver).ops|)
  {
    CleanupDone(base, row);
    CleanupLeaves(VC.Journal, base.journal, j);
    CleanupLeaves(VC.Receiver, base.receiver, r);
    NothingToClean(VC.Journal, base.journal);
    NothingToClean(VC.Receiver, base.receiver);
    hide VC.Pass, VC.Inventory, VC.Run, VC.Reaped;
    if j == 0 && r == 0 { assert v == base; }
  }

  lemma {:induction false} NothingToClean(store: VC.Store, c: VC.Component)
    requires VC.Pass(store, c).done && !c.place.Retiring?
    ensures VC.Reaped(c) == c && !VC.Inventory(store, c).Rejected?
    ensures VC.Inventory(store, c).Absent? <==> VC.Pass(store, c).ops == []
    ensures VC.Inventory(store, c).Found? ==> !VC.Inventory(store, c).row.retiring
  {
    VC.PassShape(store, c);
  }

  /** The cleanup of a volume was begun by the durable operations and was not over. */
  predicate MidwayAt(ops: seq<Effect>, count: nat, key: nat)
    requires count <= |ops|
  {
    Midway(|VolumePart(ops[..count], key, VC.Journal)|, |VolumePart(ops, key, VC.Journal)|,
           |VolumePart(ops[..count], key, VC.Receiver)|, |VolumePart(ops, key, VC.Receiver)|)
  }

  /** The inventory's row of a volume that no cleanup has touched yet. */
  predicate Untouched(base: Disk, retained: Inventory, key: nat) {
    && key in base.volumes && FindVolume(retained.volumes, key).Some?
    && VR.Inventory(key, base.volumes[key]) == VR.Found(FindVolume(retained.volumes, key).value)
    && !base.volumes[key].journal.place.Retiring? && !base.volumes[key].receiver.place.Retiring?
  }

  lemma {:induction false} VolumeCut(base: Disk, retained: Inventory, p: Plan, count: nat, key: nat)
    requires SortedPlan(p) && Pass(base, retained, p).done && count <= |Pass(base, retained, p).ops|
    requires key in base.volumes && Cleaned(p, key)
    ensures var ops := Pass(base, retained, p).ops;
      && VolumePart(ops, key, VC.Journal) == VC.Pass(VC.Journal, base.volumes[key].journal).ops
      && VolumePart(ops, key, VC.Receiver) == VC.Pass(VC.Receiver, base.volumes[key].receiver).ops
      && VolumeAtPoints(base.volumes[key], Run(base, ops[..count]).volumes[key], true,
                        |VolumePart(ops[..count], key, VC.Journal)|, |VolumePart(ops[..count], key, VC.Receiver)|)
  {
    hide Pass, VC.Pass, VC.Run, Cleaned;
    var ops := Pass(base, retained, p).ops;
    ComponentCut(base, retained, p, count, key, VC.Journal);
    ComponentCut(base, retained, p, count, key, VC.Receiver);
  }

  lemma {:induction false} ComponentCut(base: Disk, retained: Inventory, p: Plan, count: nat, key: nat, store: VC.Store)
    requires SortedPlan(p) && Pass(base, retained, p).done && count <= |Pass(base, retained, p).ops|
    requires key in base.volumes && Cleaned(p, key)
    ensures var ops := Pass(base, retained, p).ops;
      var c := Component(base.volumes[key], store);
      && VolumePart(ops, key, store) == VC.Pass(store, c).ops
      && |VolumePart(ops[..count], key, store)| <= |VC.Pass(store, c).ops|
      && Frame(Run(base, ops[..count]).volumes[key]) == Frame(base.volumes[key])
      && AtPoint(store, c, Component(Run(base, ops[..count]).volumes[key], store), true, |VolumePart(ops[..count], key, store)|)
  {
    hide Pass, VC.Pass, VC.Run, Cleaned;
    var ops := Pass(base, retained, p).ops;
    PassVolumePart(base, retained, p, key, store);
    VolumePartOfPrefix(ops, count, key, store);
    VolumeRuns(base, ops[..count], key, store);
    var c := Component(base.volumes[key], store);
    var part := VolumePart(ops[..count], key, store);
    assert ComponentOps(store, c, true) == VC.Pass(store, c).ops;
    assert part == VC.Pass(store, c).ops[..|part|];
  }

  /** Under a plan that holds or resumes a volume again, the next opening refuses it exactly when its cleanup was midway. */
  lemma {:induction false} TakingBackExactly(base: Disk, retained: Inventory, p: Plan, q: Plan, count: nat, key: nat)
    requires Applicable(base, retained, p) && count <= |Pass(base, retained, p).ops|
    requires Untouched(base, retained, key) && Cleaned(p, key) && !Cleaned(q, key)
    ensures var ops := Pass(base, retained, p).ops;
      VolumeAdmitted(key, VR.Reaped(Run(base, ops[..count]).volumes[key]), retained.volumes, q.volumes) <==>
      !MidwayAt(ops, count, key)
  {
    var row := FindVolume(retained.volumes, key).value;
    var after := Run(base, Pass(base, retained, p).ops[..count]).volumes[key];
    PlanAt(retained, p, key);
    ValidPlanSorted(retained, p);
    PassReady(base, retained, p);
    assert VolumeReady(key, base.volumes[key], retained, p);
    assert VR.Pass(base.volumes[key], row, VR.Cleanup).done;
    VolumeCut(base, retained, p, count, key);
    var action := FindAction(q.volumes, key).GetOr(VR.Hold);
    hide Pass, VC.Pass, VR.Inventory, VR.Pass, VR.Reaped, VolumeReady, ValidPlan;
    MidwayIsRefused(base.volumes[key], after, row, action, |VolumePart(Pass(base, retained, p).ops[..count], key, VC.Journal)|,
                    |VolumePart(Pass(base, retained, p).ops[..count], key, VC.Receiver)|);
  }

  lemma {:induction false} SessionKeepsHeld(d: Disk, retained: Inventory, p: Plan, q: Plan, key: nat, store: VC.Store)
    requires SortedPlan(q) && key in d.volumes && !Cleaned(q, key)
    ensures VolumePart(Session(d, retained, p, q).ops, key, store) <= VC.ReapOps(Component(d.volumes[key], store))
  {
    hide Open, Opens, Apply, VC.ReapOps, Cleaned;
    OpenVolumePart(d, key, store);
    if Opens(d, retained, p) {
      var scanned := Run(d, Open(d).ops);
      ApplyPart(scanned, q, key, store);
      VolumePartAppend(Open(d).ops, Apply(scanned, q).ops, key, store);
    }
  }

  lemma {:induction false} HeldReaped(d: Disk, ops: seq<Effect>, part: seq<Effect>, key: nat, store: VC.Store)
    requires key in d.volumes && part <= ops && VolumePart(ops, key, store) <= VC.ReapOps(Component(d.volumes[key], store))
    ensures var after := Run(d, part).volumes[key];
      Frame(after) == Frame(d.volumes[key]) && VC.Reaped(Component(after, store)) == VC.Reaped(Component(d.volumes[key], store))
  {
    hide VC.Reaped, VC.ReapOps;
    assert part == ops[..|part|];
    VolumePartOfPrefix(ops, |part|, key, store);
    VolumeRuns(d, part, key, store);
    ReapedAgain(Component(d.volumes[key], store), VolumePart(part, key, store));
  }

  /** A startup under a plan that does not clean the volume leaves it as the next opening finds it. */
  lemma {:induction false} HeldVolumeStays(d: Disk, retained: Inventory, p: Plan, life: Life, key: nat)
    requires SortedPlan(life.plan) && key in d.volumes && !Cleaned(life.plan, key)
    ensures VR.Reaped(Live(State(d, p), retained, life).disk.volumes[key]) == VR.Reaped(d.volumes[key])
  {
    hide Session, Opens, Open, VC.ReapOps, VC.Reaped, VR.Reaped, SortedPlan, Cleaned;
    var ops := Session(d, retained, p, life.plan).ops;
    var part := Cut(ops, life.cut);
    SessionKeepsHeld(d, retained, p, life.plan, key, VC.Journal);
    SessionKeepsHeld(d, retained, p, life.plan, key, VC.Receiver);
    HeldReaped(d, ops, part, key, VC.Journal);
    HeldReaped(d, ops, part, key, VC.Receiver);
    ReapedVolume(d.volumes[key], Run(d, part).volumes[key]);
  }

  lemma {:induction false} PassOpens(d: Disk, retained: Inventory, plan: Plan)
    requires Pass(d, retained, plan).done
    ensures Opens(d, retained, plan)
  {
    hide Open, Admitted, Apply;
  }

  lemma {:induction false} CrashedOpens(base: Disk, retained: Inventory, p: Plan, count: nat)
    requires Applicable(base, retained, p) && count <= |Pass(base, retained, p).ops|
    requires !StuckDisk(Run(base, Pass(base, retained, p).ops[..count]), p)
    ensures Opens(Run(base, Pass(base, retained, p).ops[..count]), retained, p)
  {
    hide *;
    BaseAtPoints(base, p);
    CrashStaysAtPoints(base, base, retained, p, count);
    var d := Run(base, Pass(base, retained, p).ops[..count]);
    FinishesIffNotStuck(base, d, retained, p);
    PassOpens(d, retained, p);
  }

  /**
   Superseding can be fatal: after a crash midway through a volume's cleanup, outside the windows, the next startup
   still opens and records a plan that holds or resumes the volume; from then on no startup ever opens again.
   */
  lemma {:induction false} TakingBackIsFatal(base: Disk, retained: Inventory, p: Plan, q: Plan, count: nat, key: nat, cut: nat, lives: seq<Life>)
    requires Applicable(base, retained, p) && ValidPlan(retained, q) && count <= |Pass(base, retained, p).ops|
    requires Untouched(base, retained, key) && Cleaned(p, key) && !Cleaned(q, key)
    requires MidwayAt(Pass(base, retained, p).ops, count, key)
    requires var d := Run(base, Pass(base, retained, p).ops[..count]);
      !StuckDisk(d, p) && cut >= |Open(d).ops|
    ensures var d := Run(base, Pass(base, retained, p).ops[..count]);
      var s := Live(State(d, p), retained, Life(q, cut));
      && Opens(d, retained, p) && s.plan == q
      && !Opens(Lives(s, retained, lives).disk, retained, Lives(s, retained, lives).plan)
  {
    var ops := Pass(base, retained, p).ops;
    var d := Run(base, ops[..count]);
    var s := Live(State(d, p), retained, Life(q, cut));
    ValidPlanSorted(retained, q);
    CrashedOpens(base, retained, p, count);
    hide *;
    LiveRecords(State(d, p), retained, Life(q, cut));
    VolumesStay(base, ops[..count], key);
    VolumesStay(d, Cut(Session(d, retained, p, q).ops, cut), key);
    TakingBackExactly(base, retained, p, q, count, key);
    HeldVolumeStays(d, retained, p, Life(q, cut), key);
    RefusedByVolume(s.disk, retained, q, key);
    RefusedForever(s, retained, lives);
  }

  lemma {:induction false} VolumesStay(d: Disk, ops: seq<Effect>, key: nat)
    requires key in d.volumes
    ensures key in Run(d, ops).volumes
  {}

  lemma {:induction false} LiveRecords(s: State, retained: Inventory, life: Life)
    requires Opens(s.disk, retained, s.plan) && life.cut >= |Open(s.disk).ops|
    ensures Live(s, retained, life) == State(Run(s.disk, Cut(Session(s.disk, retained, s.plan, life.plan).ops, life.cut)), life.plan)
  {
    hide Opens, Open, Session;
  }

  lemma {:induction false} RefusedByVolume(d: Disk, retained: Inventory, plan: Plan, key: nat)
    requires key in d.volumes && !VolumeAdmitted(key, VR.Reaped(d.volumes[key]), retained.volumes, plan.volumes)
    ensures !Opens(d, retained, plan)
  {
    hide Opens, StageAdmitted, VolumeAdmitted;
    OpensAll(d, retained, plan);
  }

  /** The plan of the lone volume, superseded by one that holds it. */
  const HELD_PLAN := Plan(LoneInventory(COMPLETED), Some(LonePlan(COMPLETED)), [], [VR.Disposition(0, VR.Hold)])

  lemma {:induction false} LoneUntouched()
    ensures Untouched(LoneDisk(COMPLETED), LoneInventory(COMPLETED), 0)
    ensures ValidPlan(LoneInventory(COMPLETED), HELD_PLAN)
    ensures Cleaned(LonePlan(COMPLETED), 0) && !Cleaned(HELD_PLAN, 0)
  {
    LoneScan(COMPLETED);
    assert FindVolume([LoneRow(COMPLETED)], 0) == Some(LoneRow(COMPLETED));
    hide VR.Inventory;
  }

  /** The cleanup of the lone volume, crashed after its directory is renamed: midway and outside the windows. */
  lemma {:induction false} LoneMidway() returns (count: nat)
    ensures var d, i, p := LoneDisk(COMPLETED), LoneInventory(COMPLETED), LonePlan(COMPLETED);
      && Applicable(d, i, p) && count <= |Pass(d, i, p).ops| && MidwayAt(Pass(d, i, p).ops, count, 0)
      && !StuckDisk(Run(d, Pass(d, i, p).ops[..count]), p)
  {
    hide Pass, VC.Cleanup, VC.Pass, VolumePart, StuckDisk;
    var d, i, p := LoneDisk(COMPLETED), LoneInventory(COMPLETED), LonePlan(COMPLETED);
    var ops := Pass(d, i, p).ops;
    LonePass(COMPLETED);
    LoneCleanup(COMPLETED);
    LoneApplicable(COMPLETED);
    LoneUntouched();
    var whole := VolumePart(ops, 0, VC.Journal);
    PrefixReaches(ops, 0, VC.Journal, 1);
    count :| count <= |ops| && VolumePart(ops[..count], 0, VC.Journal) == whole[..1];
    assert VolumePart(ops[..count], 0, VC.Journal) == [VC.Rename];
    NothingReceived(count);
    StuckIffWindow(d, i, p, count);
    assert VC.CreateMarker(true) !in whole;
    forall key, store ensures !WindowAt(d, p, ops, count, key, store) {
      if key == 0 { match store case Journal => case Receiver => }
    }
  }

  lemma {:induction false} NothingReceived(count: nat)
    requires count <= |Pass(LoneDisk(COMPLETED), LoneInventory(COMPLETED), LonePlan(COMPLETED)).ops|
    ensures VolumePart(Pass(LoneDisk(COMPLETED), LoneInventory(COMPLETED), LonePlan(COMPLETED)).ops[..count], 0, VC.Receiver) == []
  {
    hide Pass, VolumePart;
    var d, i, p := LoneDisk(COMPLETED), LoneInventory(COMPLETED), LonePlan(COMPLETED);
    LoneApplicable(COMPLETED);
    ValidPlanSorted(i, p);
    PassVolumePart(d, i, p, 0, VC.Receiver);
    GoneReaped();
    VolumePartOfPrefix(Pass(d, i, p).ops, count, 0, VC.Receiver);
  }

  /** It does happen: one crash and one superseding plan after which no startup opens any more. */
  lemma {:induction false} SupersedingCanBeFatal() returns (count: nat, cut: nat)
    ensures var i, p := LoneInventory(COMPLETED), LonePlan(COMPLETED);
      var s := Lives(State(LoneDisk(COMPLETED), p), i, [Life(p, count), Life(HELD_PLAN, cut)]);
      && Pass(LoneDisk(COMPLETED), i, p).done && s.plan == HELD_PLAN
      && forall lives :: !Opens(Lives(s, i, lives).disk, i, Lives(s, i, lives).plan)
  {
    var d, i, p := LoneDisk(COMPLETED), LoneInventory(COMPLETED), LonePlan(COMPLETED);
    LoneUntouched();
    count := LoneMidway();
    ApplicableFinishes(d, i, p);
    hide *;
    var ops := Pass(d, i, p).ops;
    var after := Run(d, ops[..count]);
    cut := |Open(after).ops|;
    var last := Live(State(after, p), i, Life(HELD_PLAN, cut));
    PassOpens(d, i, p);
    FirstLife(d, i, p, count);
    TwoLives(State(d, p), i, Life(p, count), Life(HELD_PLAN, cut));
    forall lives ensures !Opens(Lives(last, i, lives).disk, i, Lives(last, i, lives).plan) {
      TakingBackIsFatal(d, i, p, HELD_PLAN, count, 0, cut, lives);
    }
    TakingBackIsFatal(d, i, p, HELD_PLAN, count, 0, cut, []);
  }

  lemma {:induction false} FirstLife(d: Disk, retained: Inventory, p: Plan, count: nat)
    requires count <= |Pass(d, retained, p).ops|
    ensures Live(State(d, p), retained, Life(p, count)) == State(Run(d, Pass(d, retained, p).ops[..count]), p)
  {
    hide Opens, Open, Session, Pass;
    SamePlanIsPass(d, retained, p);
    assert count == |Pass(d, retained, p).ops| ==> Pass(d, retained, p).ops[..count] == Pass(d, retained, p).ops;
  }

  lemma {:induction false} TwoLives(s: State, retained: Inventory, first: Life, second: Life)
    ensures Lives(s, retained, [first, second]) == Live(Live(s, retained, first), retained, second)
  {
    hide Live;
    assert [first, second][1..] == [second] && [second][1..] == [];
    assert Lives(Live(s, retained, first), retained, [second]) == Lives(Live(Live(s, retained, first), retained, second), retained, []);
  }
}
