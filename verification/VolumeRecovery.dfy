/**
 One recovered Volume restore: its two private directories, the inventory row that reports them, and the
 rules by which a startup plan admits and cleans them.
 */
module VolumeRecovery {
  import opened Outcomes
  import VC = VolumeCleanup

  type Digest = nat

  /** The sealed assignment of one restore generation. */
  datatype Identity = Identity(attempt: Digest, sourceOrdinal: nat, point: Digest, generation: Digest, authority: Digest)

  datatype JournalSeal = JournalSeal(oldManifest: Digest, oldTree: Digest, newManifest: Digest, newTree: Digest,
                                     oldEntries: nat, newEntries: nat)

  datatype ReceiverSeal = ReceiverSeal(contentManifest: Digest, fullTree: Digest, source: Digest, entries: nat)

  datatype Volume = Volume(identity: Identity, journalSeal: JournalSeal, receiverSeal: ReceiverSeal,
                           journal: VC.Component, receiver: VC.Component)

  datatype JournalRow = JournalRow(seal: JournalSeal, row: VC.Row)
  datatype ReceiverRow = ReceiverRow(seal: ReceiverSeal, row: VC.Row)

  /** The row on the wire; an absent component has every field of its half empty. */
  datatype Recovered = Recovered(key: nat, identity: Identity, journal: Option<JournalRow>, receiver: Option<ReceiverRow>)

  datatype Scan = Absent | Found(row: Recovered) | Rejected

  datatype Action = Resume | Hold | Cleanup

  datatype Disposition = Disposition(key: nat, action: Action)

  datatype Op = Op(store: VC.Store, op: VC.Op)

  function Step(v: Volume, o: Op): Volume {
    match o.store
    case Journal => v.(journal := VC.Step(v.journal, o.op))
    case Receiver => v.(receiver := VC.Step(v.receiver, o.op))
  }

  function Run(v: Volume, ops: seq<Op>): Volume
    decreases |ops|
  {
    if ops == [] then v else Run(Step(v, ops[0]), ops[1..])
  }

  function Tagged(store: VC.Store, ops: seq<VC.Op>): (r: seq<Op>)
    ensures |r| == |ops| && forall i :: 0 <= i < |ops| ==> r[i] == Op(store, ops[i])
  {
    seq(|ops|, i requires 0 <= i < |ops| => Op(store, ops[i]))
  }

  function ReapOps(v: Volume): seq<Op> {
    Tagged(VC.Journal, VC.ReapOps(v.journal)) + Tagged(VC.Receiver, VC.ReapOps(v.receiver))
  }

  function Reaped(v: Volume): Volume {
    v.(journal := VC.Reaped(v.journal), receiver := VC.Reaped(v.receiver))
  }

  /** The two seals of one generation describe the same new tree. */
  predicate SealsAgree(v: Volume) {
    && v.journalSeal.newManifest == v.receiverSeal.contentManifest
    && v.journalSeal.newTree == v.receiverSeal.fullTree
    && v.journalSeal.newEntries == v.receiverSeal.entries
  }

  /** The wire checks on a row that depend on the directory state. */
  predicate ValidRow(r: Recovered) {
    && (r.journal.Some? ==>
          && !(r.journal.value.row.terminal && r.journal.value.row.sequence == 0 && !r.journal.value.row.retiring)
          && (r.journal.value.row.discarding ==> r.journal.value.row.retiring))
    && (r.receiver.Some? ==>
          && (r.receiver.value.row.terminal ==> r.receiver.value.row.sequence != 0 || r.receiver.value.row.retiring)
          && (r.receiver.value.row.discarding ==> r.receiver.value.row.retiring))
  }

  /** Reads both directories after empty retired ones are removed. */
  function Inventory(key: nat, v: Volume): Scan {
    var journal := VC.Inventory(VC.Journal, v.journal);
    var receiver := VC.Inventory(VC.Receiver, v.receiver);
    if journal.Rejected? || receiver.Rejected? then Rejected
    else if journal.Absent? && receiver.Absent? then Absent
    else if journal.Found? && receiver.Found? && !SealsAgree(v) then Rejected
    else
      var row := Recovered(key, v.identity,
        if journal.Found? then Some(JournalRow(v.journalSeal, journal.row)) else None,
        if receiver.Found? then Some(ReceiverRow(v.receiverSeal, receiver.row)) else None);
      if ValidRow(row) then Found(row) else Rejected
  }

  /**
   What a recorded cleanup may leave: each component is gone, or active with its exact evidence, or
   retiring under its sealed identity.
   */
  predicate CleanupSubset(actual: Recovered, retained: Recovered) {
    && actual.key == retained.key
    && actual.identity.attempt == retained.identity.attempt
    && actual.identity.generation == retained.identity.generation
    && actual.identity.authority == retained.identity.authority
    && (actual.journal.Some? ==> retained.journal.Some?)
    && (actual.receiver.Some? ==> retained.receiver.Some?)
    && (actual.journal.Some? ==>
          var a, r := actual.journal.value, retained.journal.value;
          && a.seal == r.seal
          && (!a.row.retiring ==>
                && a.row.sequence == r.row.sequence && a.row.chain == r.row.chain && a.row.pending == r.row.pending
                && a.row.terminal == r.row.terminal && a.row.partial == r.row.partial))
    && (actual.receiver.Some? ==>
          var a, r := actual.receiver.value, retained.receiver.value;
          && a.seal == r.seal
          && (!a.row.retiring ==>
                && a.row.sequence == r.row.sequence && a.row.terminal == r.row.terminal && a.row.partial == r.row.partial))
  }

  /** Reopening under a recorded plan: nothing left, the retained row unchanged, or a cleanup in progress. */
  predicate Admitted(scan: Scan, retained: Recovered, action: Action) {
    match scan
    case Absent => true
    case Rejected => false
    case Found(row) => row == retained || (action.Cleanup? && CleanupSubset(row, retained))
  }

  function CleanupOps(v: Volume): Attempt<Op> {
    var journal := VC.Cleanup(VC.Journal, v.journal);
    if !journal.done then Attempt(Tagged(VC.Journal, journal.ops), false)
    else
      var receiver := VC.Cleanup(VC.Receiver, v.receiver);
      Attempt(Tagged(VC.Journal, journal.ops) + Tagged(VC.Receiver, receiver.ops), receiver.done)
  }

  /** Applies one disposition to a volume as the inventory found it. */
  function Apply(scan: Scan, v: Volume, action: Action): Attempt<Op> {
    match action
    case Resume =>
      Attempt([], scan.Found? &&
                  (scan.row.journal.Some? ==> !scan.row.journal.value.row.partial && !scan.row.journal.value.row.retiring) &&
                  (scan.row.receiver.Some? ==> !scan.row.receiver.value.row.retiring))
    case Hold => Attempt([], scan.Found?)
    case Cleanup => if scan.Found? then CleanupOps(v) else Attempt([], scan.Absent?)
  }

  /** Everything one startup pass does to a volume, admission included. */
  function Pass(v: Volume, retained: Recovered, action: Action): Attempt<Op> {
    var reaped := Reaped(v);
    var scan := Inventory(retained.key, reaped);
    if !Admitted(scan, retained, action) then Attempt(ReapOps(v), false)
    else
      var apply := Apply(scan, reaped, action);
      Attempt(ReapOps(v) + apply.ops, apply.done)
  }
}
