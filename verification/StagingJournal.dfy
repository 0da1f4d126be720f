/**
 The Agent's recovery journal: one durable record that carries a Controller plan from recording through
 application to the accepted receipt. Every write replaces the record atomically; a restart forgets only
 which receipt was accepted last.
 */
module StagingJournal {
  import opened Outcomes
  import opened StagingRecovery

  datatype Phase = PlanRecorded | Applied | ReceiptAccepted

  /** What application acknowledges; digests are the values themselves. */
  datatype Ack = Ack(inventory: Inventory, plan: Plan, count: nat)

  datatype Receipt = Receipt(process: nat, ack: Ack)

  datatype Record = Record(process: nat, inventory: Inventory, plan: Plan, phase: Phase, ack: Option<Ack>,
                           receipt: Option<Receipt>)

  datatype State = State(record: Option<Record>, accepted: Option<Receipt>)

  const EMPTY := State(None, None)

  function AckOf(inventory: Inventory, plan: Plan): Ack {
    Ack(inventory, plan, |plan.stages| + |plan.volumes|)
  }

  /** The record that a plan leaves, or none when the journal refuses it. Process 0 is no process. */
  function Recorded(s: State, process: nat, inventory: Inventory, plan: Plan): Option<Record> {
    var proposed := Record(process, inventory, plan, PlanRecorded, None, None);
    if process == 0 || !ValidPlan(inventory, plan) then None
    else match s.record
      case None => Some(proposed)
      case Some(current) =>
        if current.inventory != inventory then None
        else if current.plan != plan then
          if current.phase != ReceiptAccepted && plan.supersedes == Some(current.plan) then Some(proposed) else None
        else if current.process != process then
          if current.phase == ReceiptAccepted then None else Some(current.(process := process))
        else Some(current)
  }

  function Marked(s: State, ack: Ack): Option<Record> {
    match s.record
    case None => None
    case Some(current) =>
      if ack != AckOf(current.inventory, current.plan) then None
      else if current.phase == Applied && current.ack == Some(ack) then Some(current)
      else if current.phase != PlanRecorded then None
      else Some(current.(phase := Applied, ack := Some(ack)))
  }

  predicate ReceiptMatches(receipt: Receipt, r: Record) {
    && r.ack == Some(AckOf(r.inventory, r.plan))
    && receipt.process == r.process
    && receipt.ack == r.ack.value
  }

  /** The record as acceptance writes it before it removes it; none when refused or already gone. */
  function Accepting(s: State, receipt: Receipt): Option<Record> {
    match s.record
    case None => None
    case Some(current) =>
      if current.phase == PlanRecorded || !ReceiptMatches(receipt, current) ||
         (current.receipt.Some? && current.receipt.value != receipt) then None
      else Some(current.(phase := ReceiptAccepted, receipt := Some(receipt)))
  }

  predicate Accepts(s: State, receipt: Receipt) {
    if s.record.None? then s.accepted == Some(receipt) else Accepting(s, receipt).Some?
  }

  predicate ValidRecord(r: Record) {
    && r.process != 0
    && ValidPlan(r.inventory, r.plan)
    && (r.phase == PlanRecorded ==> r.ack.None? && r.receipt.None?)
    && (r.phase == Applied ==> r.receipt.None? && r.ack == Some(AckOf(r.inventory, r.plan)))
    && (r.phase == ReceiptAccepted ==> r.receipt.Some? && ReceiptMatches(r.receipt.value, r))
  }

  /** The file behind the journal. */
  class Journal {
    var record: Option<Record>
    var accepted: Option<Receipt>

    ghost predicate Valid()
      reads this
    {
      record.Some? ==> ValidRecord(record.value)
    }

    ghost function Now(): State
      reads this
    {
      State(record, accepted)
    }

    constructor (found: Option<Record>)
      requires found.Some? ==> ValidRecord(found.value)
      ensures Valid() && Now() == State(found, None)
    {
      record, accepted := found, None;
    }

    method RecordPlan(process: nat, inventory: Inventory, plan: Plan) returns (ok: bool)
      requires Valid()
      modifies this
      ensures Valid() && accepted == old(accepted)
      ensures ok == Recorded(old(Now()), process, inventory, plan).Some?
      ensures record == if ok then Recorded(old(Now()), process, inventory, plan) else old(record)
    {
      if process == 0 || !ValidPlan(inventory, plan) {
        return false;
      }
      if record.Some? {
        var current := record.value;
        if current.inventory != inventory {
          return false;
        }
        if current.plan != plan {
          if current.phase == ReceiptAccepted || plan.supersedes != Some(current.plan) {
            return false;
          }
        } else if current.process != process {
          if current.phase == ReceiptAccepted {
            return false;
          }
          record := Some(current.(process := process));
          return true;
        } else {
          return true;
        }
      }
      record := Some(Record(process, inventory, plan, PlanRecorded, None, None));
      ok := true;
    }

    method MarkApplied(ack: Ack) returns (ok: bool)
      requires Valid()
      modifies this
      ensures Valid() && accepted == old(accepted)
      ensures ok == Marked(old(Now()), ack).Some?
      ensures record == if ok then Marked(old(Now()), ack) else old(record)
    {
      if record.None? || ack != AckOf(record.value.inventory, record.value.plan) {
        return false;
      }
      var current := record.value;
      if current.phase == Applied && current.ack == Some(ack) {
        return true;
      }
      if current.phase != PlanRecorded {
        return false;
      }
      record := Some(current.(phase := Applied, ack := Some(ack)));
      ok := true;
    }

    /** `crash` stops after the acceptance is durable and before the record is removed. */
    method AcceptReceipt(receipt: Receipt, crash: bool) returns (ok: bool)
      requires Valid()
      modifies this
      ensures Valid()
      ensures old(record).None? ==> ok == Accepts(old(Now()), receipt) && Now() == old(Now())
      ensures old(record).Some? && Accepting(old(Now()), receipt).None? ==> !ok && Now() == old(Now())
      ensures old(record).Some? && Accepting(old(Now()), receipt).Some? ==>
                if crash then !ok && record == Accepting(old(Now()), receipt)
                else ok && Now() == State(None, Some(receipt))
    {
      if record.None? {
        return accepted == Some(receipt);
      }
      var current := record.value;
      if current.phase == PlanRecorded || !ReceiptMatches(receipt, current) ||
         (current.receipt.Some? && current.receipt.value != receipt) {
        return false;
      }
      record := Some(current.(phase := ReceiptAccepted, receipt := Some(receipt)));
      if crash {
        return false;
      }
      accepted := Some(receipt);
      record := None;
      ok := true;
    }
  }

  /** Everything that happens to the journal over the Agent's life. */
  datatype Call =
    | RecordPlan(process: nat, inventory: Inventory, plan: Plan)
    | MarkApplied(ack: Ack)
    | AcceptReceipt(receipt: Receipt, crash: bool)
    | Restart

  function After(s: State, call: Call): State {
    match call
    case RecordPlan(process, inventory, plan) =>
      var r := Recorded(s, process, inventory, plan);
      if r.Some? then s.(record := r) else s
    case MarkApplied(ack) =>
      var r := Marked(s, ack);
      if r.Some? then s.(record := r) else s
    case AcceptReceipt(receipt, crash) =>
      var r := Accepting(s, receipt);
      if r.None? then s else if crash then s.(record := r) else State(None, Some(receipt))
    case Restart => s.(accepted := None)
  }

  function History(calls: seq<Call>): State {
    if calls == [] then EMPTY else After(History(calls[..|calls| - 1]), calls[|calls| - 1])
  }

  /** The acknowledgement of this plan was marked and nothing replaced the plan since. */
  predicate MarkedSince(calls: seq<Call>, r: Record) {
    exists i :: 0 <= i < |calls| && calls[i] == MarkApplied(AckOf(r.inventory, r.plan)) &&
      forall j :: i <= j <= |calls| ==> SamePlan(History(calls[..j]), r)
  }

  predicate SamePlan(s: State, r: Record) {
    s.record.Some? && s.record.value.inventory == r.inventory && s.record.value.plan == r.plan
  }

  lemma {:induction false} MarkedLater(calls: seq<Call>, last: Call, r: Record)
    requires MarkedSince(calls, r) && SamePlan(After(History(calls), last), r)
    ensures MarkedSince(calls + [last], r)
  {
    var all := calls + [last];
    assert all[..|all|] == all && all[..|all| - 1] == calls && calls[..|calls|] == calls;
    var i :| 0 <= i < |calls| && calls[i] == MarkApplied(AckOf(r.inventory, r.plan)) &&
      forall j :: i <= j <= |calls| ==> SamePlan(History(calls[..j]), r);
    forall j | i <= j <= |all| ensures SamePlan(History(all[..j]), r) {
      if j < |all| { assert all[..j] == calls[..j]; }
    }
    assert all[i] == calls[i];
  }

  /**
   Over every history, restarts and interrupted acceptances included: the record is well formed, and one
   that left its first phase was acknowledged for exactly its plan, which nothing has replaced since.
   */
  lemma {:induction false} HistoryMarks(calls: seq<Call>)
    ensures var s := History(calls);
      && (s.record.Some? ==> ValidRecord(s.record.value))
      && (s.record.Some? && s.record.value.phase != PlanRecorded ==> MarkedSince(calls, s.record.value))
    decreases |calls|
  {
    if calls != [] {
      var before, last := calls[..|calls| - 1], calls[|calls| - 1];
      assert calls == before + [last];
      HistoryMarks(before);
      var s := History(calls);
      if s.record.Some? && s.record.value.phase != PlanRecorded {
        var r := s.record.value;
        assert SamePlan(History(before), r);
        if History(before).record.value.phase == PlanRecorded {
          assert last == MarkApplied(AckOf(r.inventory, r.plan));
          assert calls[..|before|] == before && calls[..|calls|] == calls;
          assert calls[|before|] == last;
        } else {
          assert MarkedSince(before, r);
          MarkedLater(before, last, r);
        }
      }
    }
  }

  /** A receipt is accepted only for a plan whose application was acknowledged and not replaced since. */
  lemma {:induction false} ReceiptAfterApplication(calls: seq<Call>, receipt: Receipt)
    requires History(calls).record.Some? && Accepts(History(calls), receipt)
    ensures receipt.ack == AckOf(receipt.ack.inventory, receipt.ack.plan)
    ensures MarkedSince(calls, History(calls).record.value)
    ensures SamePlan(History(calls), History(calls).record.value.(inventory := receipt.ack.inventory, plan := receipt.ack.plan))
  {
    HistoryMarks(calls);
  }

  /** A record changes its plan only to a valid plan that names the one it replaces, and never after acceptance. */
  lemma {:induction false} PlanChange(s: State, call: Call)
    requires s.record.Some? && After(s, call).record.Some? && After(s, call).record.value.plan != s.record.value.plan
    ensures var before, after := s.record.value, After(s, call).record.value;
      && call.RecordPlan? && after.plan.supersedes == Some(before.plan)
      && before.phase != ReceiptAccepted && after.phase == PlanRecorded
      && after.inventory == before.inventory
  {}

  /** The second plan is the first, or replaces a plan that descends from it. */
  predicate Descends(q: Plan, p: Plan)
    decreases q
  {
    q == p || (q.supersedes.Some? && Descends(q.supersedes.value, p))
  }

  function Generation(p: Plan): nat { if p.supersedes.None? then 0 else 1 + Generation(p.supersedes.value) }

  lemma {:induction false} DescendsFrom(r: Plan, q: Plan, p: Plan)
    requires Descends(r, q) && Descends(q, p)
    ensures Descends(r, p)
    decreases r
  {
    if r != q { DescendsFrom(r.supersedes.value, q, p); }
  }

  lemma {:induction false} Descendants(q: Plan, p: Plan)
    requires Descends(q, p)
    ensures Generation(q) >= Generation(p) && (q != p ==> Generation(q) > Generation(p))
    decreases q
  {
    if q != p { Descendants(q.supersedes.value, p); }
  }

  /** A record is there after each number of calls from the first to the last. */
  predicate Recording(calls: seq<Call>, i: nat, j: nat) {
    i <= j <= |calls| && forall k :: i <= k <= j ==> History(calls[..k]).record.Some?
  }

  function RecordAfter(calls: seq<Call>, k: nat): Record
    requires k <= |calls| && History(calls[..k]).record.Some?
  {
    History(calls[..k]).record.value
  }

  lemma {:induction false} NextRecord(calls: seq<Call>, k: nat)
    requires k < |calls|
    ensures History(calls[..k + 1]) == After(History(calls[..k]), calls[k])
  {
    assert calls[..k + 1][..k] == calls[..k];
  }

  /** An accepted record is left alone until it is removed. */
  lemma {:induction false} AcceptedStands(s: State, call: Call)
    requires s.record.Some? && ValidRecord(s.record.value) && s.record.value.phase == ReceiptAccepted
    ensures After(s, call).record.Some? ==> After(s, call).record == s.record
  {}

  /**
   Over every history, as long as the record stays: the inventory is the same, a later plan descends from an
   earlier one through the plans that each names as replaced, and nothing at all changes once a receipt is accepted.
   */
  lemma {:induction false} PlansDescend(calls: seq<Call>, i: nat, j: nat)
    requires Recording(calls, i, j)
    ensures RecordAfter(calls, j).inventory == RecordAfter(calls, i).inventory
    ensures Descends(RecordAfter(calls, j).plan, RecordAfter(calls, i).plan)
    ensures RecordAfter(calls, i).phase == ReceiptAccepted ==> RecordAfter(calls, j) == RecordAfter(calls, i)
    decreases j
  {
    if i < j {
      PlansDescend(calls, i, j - 1);
      NextRecord(calls, j - 1);
      HistoryMarks(calls[..j - 1]);
      var s, call := History(calls[..j - 1]), calls[j - 1];
      if s.record.value.phase == ReceiptAccepted { AcceptedStands(s, call); }
      if After(s, call).record.value.plan != s.record.value.plan {
        PlanChange(s, call);
        DescendsFrom(After(s, call).record.value.plan, s.record.value.plan, RecordAfter(calls, i).plan);
      }
    }
  }

  /** A replaced plan never comes back while the record stays. */
  lemma {:induction false} PlansDoNotReturn(calls: seq<Call>, i: nat, k: nat, j: nat)
    requires Recording(calls, i, j) && i <= k <= j && RecordAfter(calls, i).plan == RecordAfter(calls, j).plan
    ensures RecordAfter(calls, k).plan == RecordAfter(calls, i).plan
  {
    assert Recording(calls, i, k) && Recording(calls, k, j);
    PlansDescend(calls, i, k);
    PlansDescend(calls, k, j);
    Descendants(RecordAfter(calls, k).plan, RecordAfter(calls, i).plan);
    Descendants(RecordAfter(calls, j).plan, RecordAfter(calls, k).plan);
  }
}
