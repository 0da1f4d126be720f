/**
 The private directory of one Volume restore component (the mutation journal or the manifest receiver)
 and the durable operations that retire it.

 A directory holds a sealed authority leaf, a log leaf and at most one retirement marker. Cleanup and
 discard rename the directory to its retiring name, write the marker, and then unlink log, authority and
 marker before removing the directory. Each operation is synced, so a crash leaves the directory as some
 prefix of the operation list left it.
 */
module VolumeCleanup {
  import opened Outcomes

  datatype Store = Journal | Receiver

  type Digest = nat

  /** The state parsed from a log leaf. `terminal` is root deletion (journal) or completeness (receiver). */
  datatype Log = Log(sequence: nat, chain: Digest, credited: bool, pending: bool, terminal: bool, partial: bool)

  datatype Place = Gone | Active | Retiring

  /** `discard` tells discard.bin from retire.bin; `whole` is false while only a prefix was written. */
  datatype Marker = Marker(discard: bool, whole: bool)

  datatype Component = Component(place: Place, authority: bool, log: Option<Log>, marker: Option<Marker>)

  const GONE := Component(Gone, false, None, None)

  datatype Op =
    | Rename
    | CreateMarker(discard: bool)
    | FillMarker
    | UnlinkLog
    | UnlinkAuthority
    | UnlinkMarker
    | RemoveDirectory

  function Step(c: Component, op: Op): Component {
    match op
    case Rename => c.(place := Retiring)
    case CreateMarker(discard) => c.(marker := Some(Marker(discard, false)))
    case FillMarker => if c.marker.Some? then c.(marker := Some(c.marker.value.(whole := true))) else c
    case UnlinkLog => c.(log := None)
    case UnlinkAuthority => c.(authority := false)
    case UnlinkMarker => c.(marker := None)
    case RemoveDirectory => GONE
  }

  function Run(c: Component, ops: seq<Op>): Component
    decreases |ops|
  {
    if ops == [] then c else Run(Step(c, ops[0]), ops[1..])
  }

  /** One inventory row. The receiver reports no chain and no pending intent. */
  datatype Row = Row(retiring: bool, discarding: bool, sequence: nat, chain: Digest,
                     pending: bool, terminal: bool, partial: bool)

  datatype Scan = Absent | Found(row: Row) | Rejected

  /** A retiring directory without leaves is removed before the inventory is read. */
  function ReapOps(c: Component): seq<Op> {
    if c.place.Retiring? && !c.authority && c.log.None? && c.marker.None? then [RemoveDirectory] else []
  }

  function Reaped(c: Component): Component { Run(c, ReapOps(c)) }

  /** Reads one directory. A row without its sealed binding is refused by the startup inventory. */
  function Inventory(store: Store, c: Component): Scan {
    if c.place.Gone? then Absent
    else if c.marker.Some? && !c.place.Retiring? then Rejected
    else if !c.authority then
      if c.log.Some? || c.marker.None? || !c.marker.value.whole then Rejected
      else Found(Row(true, c.marker.value.discard, 0, 0, false, !c.marker.value.discard, false))
    else if c.log.None? then Rejected
    else if store.Receiver? && !c.log.value.credited then Rejected
    else
      var log := c.log.value;
      Found(Row(c.place.Retiring?, c.marker.Some? && c.marker.value.discard, log.sequence,
                if store.Journal? then log.chain else 0, store.Journal? && log.pending, log.terminal,
                log.partial || (c.marker.Some? && !c.marker.value.whole)))
  }

  predicate Cleanable(log: Log) { log.terminal && !log.pending && !log.partial }

  predicate Discardable(store: Store, log: Log) {
    if store.Journal? then log.sequence == 0 && !log.pending && !log.terminal else !log.terminal
  }

  /** The leaves of a retiring directory go in this order: marker written, log, authority, marker, directory. */
  function RetireOps(c: Component, complete: bool): seq<Op> {
    var writes := c.log.Some? || (!complete && c.authority && c.marker.None?);
    var removal := if c.marker.Some? || writes then [UnlinkMarker] + [RemoveDirectory] else [RemoveDirectory];
    var unbinding := if c.authority then [UnlinkAuthority] + removal else removal;
    var unlogging := if c.log.Some? then [UnlinkLog] + unbinding else unbinding;
    var filling := if writes && (c.marker.None? || !c.marker.value.whole) then [FillMarker] + unlogging else unlogging;
    if writes && c.marker.None? then [CreateMarker(!complete)] + filling else filling
  }

  /** Finishes a retiring directory, as a completed cleanup or as a discard. */
  function Retire(store: Store, c: Component, complete: bool): Attempt<Op> {
    if c.marker.Some? && c.marker.value.discard == complete then Attempt([], false)
    else if c.log.Some? && !c.authority then Attempt([], false)
    else if c.log.Some? && !(if complete then Cleanable(c.log.value) else Discardable(store, c.log.value)) then
      Attempt([], false)
    else if c.marker.Some? && c.log.None? && !c.marker.value.whole then Attempt([], false)
    else if c.marker.None? && c.log.None? && c.authority && complete then Attempt([], false)
    else Attempt(RetireOps(c, complete), true)
  }

  /** The branch that recovery cleanup takes for one component, decided by its inventory row. */
  function Cleanup(store: Store, c: Component): Attempt<Op> {
    match Inventory(store, c)
    case Absent => Attempt([], true)
    case Rejected => Attempt([], false)
    case Found(row) =>
      if row.retiring then Retire(store, c, !row.discarding)
      else if row.terminal && (store.Journal? || !row.partial) then
        if Cleanable(c.log.value) then
          var rest := Retire(store, Step(c, Rename), true);
          Attempt([Rename] + rest.ops, rest.done)
        else Attempt([], false)
      else if Discardable(store, c.log.value) then
        var rest := Retire(store, Step(c, Rename), false);
        Attempt([Rename] + rest.ops, rest.done)
      else Attempt([], false)
  }

  /** Everything one startup pass does to a component under a cleanup disposition. */
  function Pass(store: Store, c: Component): Attempt<Op> {
    var cleanup := Cleanup(store, Reaped(c));
    Attempt(ReapOps(c) + cleanup.ops, cleanup.done)
  }

  /** The log is unlinked but the authority is not: the next inventory refuses the directory as unbound. */
  predicate LostLog(c: Component) {
    c.place.Retiring? && c.authority && c.log.None?
  }

  /**
   The directory was renamed for a discard whose marker does not exist yet: the next inventory cannot tell
   it from a completed cleanup, and the completed cleanup refuses its log.
   */
  predicate LostIntent(c: Component) {
    c.place.Retiring? && c.log.Some? && c.marker.None? && !Cleanable(c.log.value)
  }

  predicate Stuck(c: Component) { LostLog(c) || LostIntent(c) }

  /**
   The crash windows, named by the last durable operation: the log was unlinked, or the directory was
   renamed and the discard marker is still to be created.
   */
  predicate Window(ops: seq<Op>, count: nat)
    requires count <= |ops|
  {
    count > 0 && (ops[count - 1] == UnlinkLog || (ops[count - 1] == Rename && CreateMarker(true) in ops))
  }

  lemma {:induction false} RunAppend(c: Component, a: seq<Op>, b: seq<Op>)
    ensures Run(c, a + b) == Run(Run(c, a), b)
    decreases |a|
  {
    if a == [] {
      assert a + b == b;
    } else {
      assert (a + b)[1..] == a[1..] + b;
      RunAppend(Step(c, a[0]), a[1..], b);
    }
  }

  predicate Empty(c: Component) { !c.authority && c.log.None? && c.marker.None? }

  /** Receivers are inventoried only once their first credit is logged. */
  predicate Credited(store: Store, c: Component) { store.Receiver? && c.log.Some? ==> c.log.value.credited }

  /** A retirement in progress: an authority without its log already has its whole marker. */
  predicate InProgress(store: Store, c: Component, complete: bool) {
    && c.place.Retiring? && Retire(store, c, complete).done && Credited(store, c)
    && (c.authority && c.log.None? ==> c.marker.Some?)
  }

  /** One operation of a retirement leaves exactly the rest of it to do. */
  lemma {:induction false} RetireAdvances(store: Store, c: Component, complete: bool)
    requires InProgress(store, c, complete)
    ensures var ops := RetireOps(c, complete);
      && ops != [] && ops[0] != Rename
      && (ops[0].CreateMarker? ==> ops[0].discard == !complete)
      && (Stuck(Step(c, ops[0])) <==> ops[0] == UnlinkLog)
      && if ops[0] == RemoveDirectory then ops == [RemoveDirectory] && Empty(c)
         else InProgress(store, Step(c, ops[0]), complete) && RetireOps(Step(c, ops[0]), complete) == ops[1..]
  {}

  /** What the next startup makes of a retirement in progress. */
  lemma {:induction false} RetireDispatch(store: Store, c: Component, complete: bool)
    requires InProgress(store, c, complete)
    ensures Pass(store, c) == if Stuck(c) then Attempt([], false) else Attempt(RetireOps(c, complete), true)
    ensures LostIntent(c) ==> !complete
  {
    if Empty(c) {
      assert Run(c, [RemoveDirectory]) == Run(Step(c, RemoveDirectory), []);
    } else {
      assert Reaped(c) == c;
      assert Pass(store, c).ops == Cleanup(store, c).ops;
    }
  }

  /** A crash during a retirement, at any of its operations. */
  lemma {:induction false} RetireContinues(store: Store, c: Component, complete: bool, count: nat)
    requires InProgress(store, c, complete) && count <= |RetireOps(c, complete)|
    ensures var ops := RetireOps(c, complete);
      var after := Run(c, ops[..count]);
      && (count < |ops| ==> InProgress(store, after, complete) && RetireOps(after, complete) == ops[count..])
      && (count == |ops| ==> after == GONE)
      && (count > 0 ==> (Stuck(after) <==> ops[count - 1] == UnlinkLog))
    decreases count
  {
    hide RetireOps;
    hide Retire;
    var ops := RetireOps(c, complete);
    if count == 0 {
      assert ops[0..] == ops;
      RetireAdvances(store, c, complete);
    } else {
      RetireAdvances(store, c, complete);
      var next := Step(c, ops[0]);
      assert ops[..count][1..] == ops[1..][..count - 1];
      if ops[0] != RemoveDirectory {
        RetireContinues(store, next, complete, count - 1);
        assert ops[1..][count - 1..] == ops[count..];
        assert count > 1 ==> ops[1..][count - 2] == ops[count - 1];
      }
    }
  }

  /** A succeeding pass finds nothing, continues a retirement, or renames the directory and starts one. */
  lemma {:induction false} PassShape(store: Store, c: Component)
    requires Pass(store, c).done
    ensures Pass(store, c).ops == []
         || (exists complete :: InProgress(store, c, complete) && Pass(store, c).ops == RetireOps(c, complete) &&
                                !Stuck(c))
         || (exists complete :: c.place.Active? && InProgress(store, Step(c, Rename), complete) &&
                                Pass(store, c).ops == [Rename] + RetireOps(Step(c, Rename), complete) &&
                                (LostIntent(Step(c, Rename)) <==> !complete) &&
                                !LostLog(Step(c, Rename)) &&
                                (CreateMarker(true) in RetireOps(Step(c, Rename), complete) <==> !complete))
  {
    if c.place.Retiring? {
      if Empty(c) {
        assert InProgress(store, c, true);
        RetireDispatch(store, c, true);
      } else {
        assert Reaped(c) == c;
        var complete := !Inventory(store, c).row.discarding;
        assert InProgress(store, c, complete);
        RetireDispatch(store, c, complete);
      }
    } else if c.place.Active? {
      assert Reaped(c) == c;
      var complete := Inventory(store, c).row.terminal;
      assert InProgress(store, Step(c, Rename), complete);
      assert Pass(store, c).ops == [Rename] + RetireOps(Step(c, Rename), complete);
      assert RetireOps(Step(c, Rename), complete)[0] == CreateMarker(!complete);
    }
  }

  /** The next pass after a crash during a retirement: its remaining operations, or nothing from a stuck state. */
  lemma {:induction false} RetirementResumes(store: Store, c: Component, complete: bool, count: nat)
    requires InProgress(store, c, complete) && count <= |RetireOps(c, complete)|
    ensures var ops := RetireOps(c, complete);
      var after := Run(c, ops[..count]);
      && (Stuck(after) <==> if count == 0 then Stuck(c) else ops[count - 1] == UnlinkLog)
      && !after.place.Active?
      && Pass(store, after) == if Stuck(after) then Attempt([], false) else Attempt(ops[count..], true)
  {
    var ops := RetireOps(c, complete);
    RetireContinues(store, c, complete, count);
    assert count == 0 ==> ops[..count] == [];
    if count < |ops| {
      RetireDispatch(store, Run(c, ops[..count]), complete);
    }
  }

  /** A retirement renames nothing. */
  lemma {:induction false} RetireNeverRenames(store: Store, c: Component, complete: bool)
    requires InProgress(store, c, complete)
    ensures Rename !in RetireOps(c, complete)
    decreases |RetireOps(c, complete)|
  {
    RetireAdvances(store, c, complete);
    var ops := RetireOps(c, complete);
    if ops[0] != RemoveDirectory {
      RetireNeverRenames(store, Step(c, ops[0]), complete);
      assert ops == [ops[0]] + ops[1..];
    }
  }

  /** `PassContinues` where the pass renames an active directory first. */
  lemma {:induction false} ActiveContinues(store: Store, c: Component, rest: seq<Op>, complete: bool, count: nat)
    requires var next := Step(c, Rename);
      && c.place.Active?
      && InProgress(store, next, complete)
      && rest == RetireOps(next, complete)
      && (LostIntent(next) <==> !complete) && !LostLog(next)
      && (CreateMarker(true) in rest <==> !complete)
    requires 0 < count <= |rest| + 1
    ensures var ops := [Rename] + rest;
      var after := Run(c, ops[..count]);
      && (Stuck(after) <==> Window(ops, count))
      && !after.place.Active?
      && Pass(store, after) == if Window(ops, count) then Attempt([], false) else Attempt(ops[count..], true)
  {
    hide RetireOps;
    hide Retire;
    hide Pass;
    hide Cleanable;
    var ops := [Rename] + rest;
    var next := Step(c, Rename);
    assert ops[..count][1..] == rest[..count - 1];
    assert ops[count..] == rest[count - 1..];
    assert CreateMarker(true) in ops <==> CreateMarker(true) in rest;
    var after := Run(next, rest[..count - 1]);
    assert Run(c, ops[..count]) == after;
    RetireNeverRenames(store, next, complete);
    RetirementResumes(store, next, complete, count - 1);
    if count > 1 {
      assert ops[count - 1] == rest[count - 2];
      assert rest[count - 2] in rest;
    }
  }

  /**
   A crash after any number of operations of a pass that would succeed: outside the two windows the next
   pass performs exactly the operations that were left, and inside them it performs none and fails.
   */
  lemma {:induction false} PassContinues(store: Store, c: Component, count: nat)
    requires Pass(store, c).done && count <= |Pass(store, c).ops|
    ensures var after := Run(c, Pass(store, c).ops[..count]);
      && (Stuck(after) <==> Window(Pass(store, c).ops, count))
      && (count > 0 ==> !after.place.Active?)
      && Pass(store, after) ==
         if Window(Pass(store, c).ops, count) then Attempt([], false) else Attempt(Pass(store, c).ops[count..], true)
  {
    var ops := Pass(store, c).ops;
    PassShape(store, c);
    if count == 0 {
      assert ops[..0] == [] && ops[0..] == ops;
    } else if c.place.Active? {
      var complete :| InProgress(store, Step(c, Rename), complete) &&
                      ops == [Rename] + RetireOps(Step(c, Rename), complete) &&
                      (LostIntent(Step(c, Rename)) <==> !complete) && !LostLog(Step(c, Rename)) &&
                      (CreateMarker(true) in RetireOps(Step(c, Rename), complete) <==> !complete);
      ActiveContinues(store, c, RetireOps(Step(c, Rename), complete), complete, count);
    } else {
      var complete :| InProgress(store, c, complete) && ops == RetireOps(c, complete) && !Stuck(c);
      RetireNeverRenames(store, c, complete);
      assert ops[count - 1] in ops;
      RetirementResumes(store, c, complete, count);
    }
  }

  lemma {:induction false} DoneRow(store: Store, c: Component)
    requires Pass(store, c).done
    ensures var scan := Inventory(store, Reaped(c));
      && !scan.Rejected?
      && (scan.Absent? <==> Reaped(c).place.Gone?)
      && (scan.Found? ==> (scan.row.retiring <==> Reaped(c).place.Retiring?))
  {}

  lemma {:induction false} ReapedCases(store: Store, c: Component)
    ensures Reaped(c) == c || (Reaped(c) == GONE && Pass(store, c).ops == [RemoveDirectory])
  {}

  /** What the inventory sees after a crash outside the windows: the same row, a retiring row, or nothing. */
  lemma {:induction false} InventoryAfterCrash(store: Store, c: Component, count: nat)
    requires Pass(store, c).done && count <= |Pass(store, c).ops| && !Window(Pass(store, c).ops, count)
    ensures var before := Inventory(store, Reaped(c));
      var after := Inventory(store, Reaped(Run(c, Pass(store, c).ops[..count])));
      !before.Rejected? && (after == before || after.Absent? || (before.Found? && after.Found? && after.row.retiring))
  {
    hide Pass;
    hide Inventory;
    hide Reaped;
    PassContinues(store, c, count);
    DoneRow(store, c);
    ReapedCases(store, c);
    var after := Run(c, Pass(store, c).ops[..count]);
    if count == 0 {
      assert Pass(store, c).ops[..0] == [];
    } else {
      DoneRow(store, after);
      ReapedCases(store, after);
      if Reaped(c) == GONE && Pass(store, c).ops == [RemoveDirectory] {
        assert Pass(store, c).ops[..count] == [RemoveDirectory];
        assert after == Run(GONE, []);
      } else {
        GonePass(store, c);
      }
    }
  }

  lemma {:induction false} GonePass(store: Store, c: Component)
    ensures c.place.Gone? ==> Pass(store, c).ops == []
  {}
}
