/** What a call of the exchange may return, and what the durable outbox holds when it does. */
module NativeExchangeResults {
  import opened Outcomes
  import opened NativeExchange
  import opened NativeExchangeRuns

  /** A response that a waiter holds in its channel or in its result. */
  predicate Holds(w: Waiter, reply: Reply) {
    w.slot == Some(Success(reply)) || w.pc == Leaving(Success(reply)) || w.pc == Returned(Success(reply))
  }

  /** A reply that the outbox already held. */
  predicate HoldsRetained(w: Waiter, reply: Reply) {
    w.pc == Settling(reply) || w.pc == Leaving(Retained(reply)) || w.pc == Returned(Retained(reply))
  }

  /** The report passed the outbox and may be on its way. */
  predicate Dispatched(pc: Pc) { pc.Prepared? || pc.Withdrawing? || pc.Waiting? }

  predicate Recorded(journal: map<nat, Option<Delivery>>, r: Request) {
    var attempt := r.identity.attempt;
    attempt in journal && journal[attempt].Some? && journal[attempt].value.request == r
  }

  predicate Acknowledged(journal: map<nat, Option<Delivery>>, r: Request, reply: Reply) {
    Recorded(journal, r) && journal[r.identity.attempt].value.reply == Some(reply)
  }

  /** Each channel is written at most once, only while its entry is pending, and is empty in the end. */
  predicate ChannelOk(s: State, id: nat)
    requires id in s.waiters
  {
    var w := s.waiters[id];
    && w.writes <= 1
    && (w.slot.Some? ==> w.writes == 1)
    && (id in s.pending.Values ==> w.writes == 0)
    && (w.pc.Returned? ==> w.abandoned && w.slot.None?)
  }

  ghost predicate ResultOk(s: State, id: nat)
    requires id in s.waiters
  {
    var w := s.waiters[id];
    && (forall reply :: Holds(w, reply) ==>
          reply.identity == w.request.identity && reply.kind == w.request.kind && reply.execution == w.request.execution)
    && (w.request.terminal ==>
          && (Dispatched(w.pc) || InFlight(s, id) ==> Recorded(s.journal, w.request))
          && (forall reply :: Holds(w, reply) || HoldsRetained(w, reply) ==> Acknowledged(s.journal, w.request, reply)))
    && (!w.request.terminal ==> !w.pc.Registered? && forall reply :: !HoldsRetained(w, reply))
    && (w.slot.Some? ==> !w.slot.value.Retained?)
  }

  ghost predicate Orderly(s: State) {
    && Known(s)
    && (forall id :: InFlight(s, id) ==> id in s.waiters)
    && (forall id :: id in s.waiters ==> ChannelOk(s, id) && ResultOk(s, id))
  }

  /** The outbox never forgets a report or a reply. */
  ghost predicate Grows(before: map<nat, Option<Delivery>>, after: map<nat, Option<Delivery>>) {
    && before.Keys == after.Keys
    && forall a :: a in before && before[a].Some? ==>
         && after[a].Some? && after[a].value.request == before[a].value.request
         && (before[a].value.reply.Some? ==> after[a].value.reply == before[a].value.reply)
  }

  lemma {:induction false} OutboxGrows(journal: map<nat, Option<Delivery>>, r: Request, written: Write)
    ensures var outbox := PrepareDelivery(journal, r, written);
      !outbox.Held? ==> Grows(journal, outbox.journal)
  {}

  lemma {:induction false} AcknowledgementGrows(journal: map<nat, Option<Delivery>>, r: Request, reply: Reply, matched: bool, written: Write)
    ensures var after := Acknowledge(journal, r, reply, matched, written);
      Grows(journal, after.journal)
  {}

  lemma {:induction false} JournalGrows(s: State, e: Event)
    ensures Grows(s.journal, Step(s, e).journal)
  {
    hide PrepareDelivery;
    hide Acknowledge;
    if e.Prepare? && e.id in s.waiters {
      OutboxGrows(s.journal, s.waiters[e.id].request, e.written);
    } else if e.Answer? {
      var arrived := s.(wire := s.wire - {e.reply.answers});
      if Matches(arrived, e.reply) {
        var r := s.waiters[s.pending[Key(e.reply.identity.attempt, e.reply.kind)]].request;
        AcknowledgementGrows(s.journal, r, e.reply, e.matched, e.written);
      }
    }
  }

  /** A waiter that at most hands on what it holds. */
  ghost predicate Moves(w: Waiter, v: Waiter) {
    && v.request == w.request && v.writes == w.writes
    && (v.slot == w.slot || v.slot.None?)
    && (forall reply :: Holds(v, reply) ==> Holds(w, reply))
    && (forall reply :: HoldsRetained(v, reply) ==> HoldsRetained(w, reply))
    && (Dispatched(v.pc) ==> Dispatched(w.pc))
    && (v.pc.Registered? ==> w.pc.Registered?)
    && (v.pc.Returned? ==> v.abandoned && v.slot.None?)
  }

  lemma {:induction false} MovesOk(s: State, t: State, id: nat)
    requires id in s.waiters && id in t.waiters && Moves(s.waiters[id], t.waiters[id])
    requires ChannelOk(s, id) && ResultOk(s, id) && Grows(s.journal, t.journal)
    requires id in t.pending.Values ==> id in s.pending.Values
    requires InFlight(t, id) ==> InFlight(s, id) || Dispatched(s.waiters[id].pc)
    ensures ChannelOk(t, id) && ResultOk(t, id)
  {}

  /** A waiter that an event does not touch. */
  lemma {:induction false} Untouched(s: State, t: State, id: nat)
    requires id in s.waiters && id in t.waiters && s.waiters[id] == t.waiters[id]
    requires ChannelOk(s, id) && ResultOk(s, id) && Grows(s.journal, t.journal)
    requires (id in t.pending.Values ==> id in s.pending.Values) && (InFlight(t, id) ==> InFlight(s, id))
    ensures ChannelOk(t, id) && ResultOk(t, id)
  {
    hide Grows;
    MovesOk(s, t, id);
  }

  /** The waiter that the event is about. */
  function About(s: State, e: Event): Option<nat> {
    match e
    case Answer(reply, _, _) =>
      var key := Key(reply.identity.attempt, reply.kind);
      if key in s.pending then Some(s.pending[key]) else None
    case Refuse(key, _, _) => if key in s.pending then Some(s.pending[key]) else None
    case Bind(_) => None
    case Transmit => None
    case Close => None
    case _ => Some(e.id)
  }

  lemma {:induction false} OthersKept(s: State, e: Event, id: nat)
    requires id in s.waiters && About(s, e) != Some(id) && !e.Close?
    ensures id in Step(s, e).waiters && Step(s, e).waiters[id] == s.waiters[id]
  {}

  lemma {:induction false} OthersPending(s: State, e: Event, id: nat)
    requires id in s.waiters && About(s, e) != Some(id)
    ensures id in Step(s, e).pending.Values ==> id in s.pending.Values
  {
    var t := Step(s, e);
    if id in t.pending.Values {
      var key :| key in t.pending && t.pending[key] == id;
      assert key in s.pending;
    }
  }

  lemma {:induction false} OthersInFlight(s: State, e: Event, id: nat)
    requires id in s.waiters && About(s, e) != Some(id)
    ensures InFlight(Step(s, e), id) ==> InFlight(s, id)
  {
    if e.Transmit? && s.outgoing != [] {
      assert s.outgoing == [s.outgoing[0]] + Step(s, e).outgoing;
    }
  }

  lemma {:induction false} OthersOk(s: State, e: Event, id: nat)
    requires id in s.waiters && About(s, e) != Some(id) && !e.Close? && ChannelOk(s, id) && ResultOk(s, id)
    ensures var t := Step(s, e); id in t.waiters && ChannelOk(t, id) && ResultOk(t, id)
  {
    hide *;
    OthersKept(s, e, id);
    OthersPending(s, e, id);
    OthersInFlight(s, e, id);
    JournalGrows(s, e);
    Untouched(s, Step(s, e), id);
  }

  lemma {:induction false} CloseOk(s: State, id: nat)
    requires id in s.waiters && ChannelOk(s, id) && ResultOk(s, id)
    ensures var t := CloseStep(s); id in t.waiters && ChannelOk(t, id) && ResultOk(t, id)
  {
    var t := CloseStep(s);
    assert forall reply :: Holds(t.waiters[id], reply) ==> Holds(s.waiters[id], reply);
    assert forall reply :: HoldsRetained(t.waiters[id], reply) ==> HoldsRetained(s.waiters[id], reply);
    assert InFlight(t, id) ==> InFlight(s, id);
  }

  lemma {:induction false} BeginOk(s: State, id: nat, r: Request)
    requires Orderly(s) && id in BeginStep(s, id, r).waiters
    ensures ChannelOk(BeginStep(s, id, r), id) && ResultOk(BeginStep(s, id, r), id)
  {
    var t := BeginStep(s, id, r);
    if t != s {
      assert forall reply :: !Holds(t.waiters[id], reply) && !HoldsRetained(t.waiters[id], reply);
      assert !InFlight(s, id);
    }
  }

  lemma {:induction false} PrepareOk(s: State, id: nat, written: Write)
    requires Orderly(s) && id in s.waiters
    ensures var t := PrepareStep(s, id, written); ChannelOk(t, id) && ResultOk(t, id)
  {
    hide Orderly;
    assert ChannelOk(s, id) && ResultOk(s, id) by { OrderlyAt(s, id); }
    JournalGrows(s, Prepare(id, written));
    if PrepareStep(s, id, written) != s {
      PreparedOk(s, id, written);
    }
  }

  lemma {:induction false} OrderlyAt(s: State, id: nat)
    requires Orderly(s) && id in s.waiters
    ensures ChannelOk(s, id) && ResultOk(s, id)
  {}

  lemma {:induction false} PreparedOk(s: State, id: nat, written: Write)
    requires Is(s, id, Registered) && ChannelOk(s, id) && ResultOk(s, id) && Grows(s.journal, PrepareStep(s, id, written).journal)
    ensures var t := PrepareStep(s, id, written); ChannelOk(t, id) && ResultOk(t, id)
  {
    hide Grows;
    hide KeyOf;
    var t := PrepareStep(s, id, written);
    var w := s.waiters[id];
    var r := w.request;
    match PrepareDelivery(s.journal, r, written)
    case Failed(journal) =>
      RegisteredMoves(w);
      assert t.waiters[id] == w.(pc := Leaving(Failure(Unprepared)));
      MovesOk(s, t, id);
    case Kept(journal) =>
      PassedOk(s, t, id, Prepared);
    case Held(reply) =>
      PassedOk(s, t, id, Settling(reply));
  }

  lemma {:induction false} RegisteredMoves(w: Waiter)
    requires w.pc.Registered?
    ensures Moves(w, w.(pc := Leaving(Failure(Unprepared))))
  {}

  /** A report that the outbox took, or whose reply it already held. */
  lemma {:induction false} PassedOk(s: State, t: State, id: nat, pc: Pc)
    requires Is(s, id, Registered) && ChannelOk(s, id) && ResultOk(s, id)
    requires t == At(s, id, pc).(journal := t.journal)
    requires Recorded(t.journal, s.waiters[id].request)
    requires pc.Prepared? || (pc.Settling? && Acknowledged(t.journal, s.waiters[id].request, pc.reply))
    requires Grows(s.journal, t.journal)
    ensures ChannelOk(t, id) && ResultOk(t, id)
  {
    var w, v := s.waiters[id], t.waiters[id];
    assert forall reply :: Holds(v, reply) ==> Holds(w, reply);
  }

  lemma {:induction false} AtMoves(w: Waiter, pc: Pc)
    requires match pc
      case Leaving(Retained(reply)) => w.pc == Settling(reply)
      case Leaving(Failure(_)) => true
      case Waiting => w.pc.Prepared?
      case Withdrawing => w.pc.Prepared?
      case _ => false
    ensures Moves(w, w.(pc := pc))
  {}

  /** The call's own later steps only hand on what it holds. */
  lemma {:induction false} OwnMoves(s: State, e: Event)
    requires e.Settle? || e.Expire? || e.Withdraw? || e.Leave? || e.Receive? || e.Finish? || e.Send?
    requires e.id in s.waiters && ChannelOk(s, e.id) && ResultOk(s, e.id)
    ensures e.id in Step(s, e).waiters && Step(s, e).waiters.Keys == s.waiters.Keys
    ensures var w, v := s.waiters[e.id], Step(s, e).waiters[e.id];
      Moves(w, v) || v == w
  {
    var w := s.waiters[e.id];
    if Step(s, e) != s {
      match e
      case Settle(_) => AtMoves(w, Leaving(Retained(w.pc.reply)));
      case Expire(_) => AtMoves(w, if w.pc.Prepared? then Withdrawing else Leaving(Failure(Expired)));
      case Withdraw(_) => AtMoves(w, Leaving(Failure(Expired)));
      case Leave(_) => AtMoves(w, Leaving(Failure(StreamClosed)));
      case Send(_) => AtMoves(w, Waiting);
      case Receive(_) => ReceiveMoves(w);
      case Finish(_) => FinishMoves(w);
    }
  }

  lemma {:induction false} ReceiveMoves(w: Waiter)
    requires w.pc.Waiting? && w.slot.Some? && !w.slot.value.Retained?
    ensures Moves(w, w.(slot := None, pc := Leaving(w.slot.value)))
  {}

  lemma {:induction false} FinishMoves(w: Waiter)
    requires w.pc.Leaving?
    ensures Moves(w, w.(abandoned := true, slot := None, pc := Returned(w.pc.result)))
  {}

  lemma {:induction false} OwnPending(s: State, e: Event)
    requires e.Settle? || e.Expire? || e.Withdraw? || e.Leave? || e.Receive? || e.Finish? || e.Send?
    ensures forall id :: id in Step(s, e).pending.Values ==> id in s.pending.Values
    ensures InFlight(Step(s, e), e.id) ==> InFlight(s, e.id) || Is(s, e.id, Prepared)
  {
    var t := Step(s, e);
    forall id | id in t.pending.Values ensures id in s.pending.Values {
      var key :| key in t.pending && t.pending[key] == id;
      assert key in s.pending;
    }
  }

  lemma {:induction false} OwnOk(s: State, e: Event)
    requires e.Settle? || e.Expire? || e.Withdraw? || e.Leave? || e.Receive? || e.Finish? || e.Send?
    requires e.id in s.waiters && ChannelOk(s, e.id) && ResultOk(s, e.id)
    ensures var t := Step(s, e); e.id in t.waiters && ChannelOk(t, e.id) && ResultOk(t, e.id)
  {
    hide Step;
    hide Moves;
    hide ChannelOk;
    hide ResultOk;
    hide Grows;
    OwnMoves(s, e);
    OwnPending(s, e);
    JournalGrows(s, e);
    if Step(s, e).waiters[e.id] == s.waiters[e.id] && !Moves(s.waiters[e.id], s.waiters[e.id]) {
      SameMoves(s, e.id);
    }
    MovesOk(s, Step(s, e), e.id);
  }

  lemma {:induction false} SameMoves(s: State, id: nat)
    requires id in s.waiters && ChannelOk(s, id)
    ensures Moves(s.waiters[id], s.waiters[id])
  {}

  lemma {:induction false} AcceptGrows(s: State, reply: Reply, matched: bool, written: Write)
    ensures Grows(s.journal, AcceptStep(s, reply, matched, written).journal)
  {
    hide Acknowledge;
    if Matches(s, reply) {
      AcknowledgementGrows(s.journal, s.waiters[s.pending[Key(reply.identity.attempt, reply.kind)]].request, reply, matched, written);
    }
  }

  lemma {:induction false} AcceptWakes(s: State, reply: Reply, matched: bool, written: Write)
    requires Orderly(s) && Matches(s, reply) && Grows(s.journal, AcceptStep(s, reply, matched, written).journal)
    requires AcceptStep(s, reply, matched, written) != s.(journal := AcceptStep(s, reply, matched, written).journal)
    ensures var id := s.pending[Key(reply.identity.attempt, reply.kind)];
      var t := AcceptStep(s, reply, matched, written);
      ChannelOk(t, id) && ResultOk(t, id)
  {
    var key := Key(reply.identity.attempt, reply.kind);
    var id := s.pending[key];
    var t := AcceptStep(s, reply, matched, written);
    OrderlyAt(s, id);
    assert id in s.pending.Values;
    OncePending(s, key);
    hide Orderly;
    var w, v := s.waiters[id], t.waiters[id];
    forall other | Holds(v, other) ensures other == reply || Holds(w, other) {}
    forall other | HoldsRetained(v, other) ensures HoldsRetained(w, other) {}
  }

  /** A response or a refusal that reaches a waiter. */
  lemma {:induction false} AcceptOk(s: State, reply: Reply, matched: bool, written: Write)
    requires Orderly(s) && Matches(s, reply)
    ensures var id := s.pending[Key(reply.identity.attempt, reply.kind)];
      var t := AcceptStep(s, reply, matched, written);
      id in t.waiters && ChannelOk(t, id) && ResultOk(t, id)
  {
    var key := Key(reply.identity.attempt, reply.kind);
    var id := s.pending[key];
    var t := AcceptStep(s, reply, matched, written);
    OrderlyAt(s, id);
    AcceptGrows(s, reply, matched, written);
    hide AcceptStep, Grows, ChannelOk, ResultOk, Orderly;
    if t == s.(journal := t.journal) { Untouched(s, t, id); } else { AcceptWakes(s, reply, matched, written); }
  }

  lemma {:induction false} OncePending(s: State, key: Key)
    requires Known(s) && key in s.pending
    ensures s.pending[key] !in (s.pending - {key}).Values
  {}

  lemma {:induction false} RejectOk(s: State, key: Key, matched: bool)
    requires Orderly(s) && key in s.pending
    ensures var id := s.pending[key];
      var t := RejectStep(s, key, matched);
      id in t.waiters && ChannelOk(t, id) && ResultOk(t, id)
  {
    var id := s.pending[key];
    var t := RejectStep(s, key, matched);
    OrderlyAt(s, id);
    if t != s {
      assert id in s.pending.Values;
      OncePending(s, key);
      var w, v := s.waiters[id], t.waiters[id];
      forall other | Holds(v, other) ensures Holds(w, other) {}
      forall other | HoldsRetained(v, other) ensures HoldsRetained(w, other) {}
    }
  }

  lemma {:induction false} AboutOk(s: State, e: Event)
    requires Orderly(s) && About(s, e).Some? && About(s, e).value in Step(s, e).waiters
    ensures ChannelOk(Step(s, e), About(s, e).value) && ResultOk(Step(s, e), About(s, e).value)
  {
    hide Orderly;
    hide ChannelOk;
    hide ResultOk;
    hide AcceptStep;
    hide RejectStep;
    var id := About(s, e).value;
    if id in s.waiters { OrderlyAt(s, id); }
    match e
    case Begin(_, request) => BeginOk(s, id, request);
    case Prepare(_, written) => PrepareOk(s, id, written);
    case Answer(reply, matched, written) =>
      var arrived := s.(wire := s.wire - {reply.answers});
      ArrivedOrderly(s, reply.answers);
      OrderlyAt(arrived, id) by { KnownPending(s, Key(reply.identity.attempt, reply.kind)); }
      if Matches(arrived, reply) { AcceptOk(arrived, reply, matched, written); } else { AcceptNothing(arrived, reply, matched, written); }
    case Refuse(key, matched, answers) =>
      ArrivedOrderly(s, answers);
      RejectOk(s.(wire := s.wire - {answers}), key, matched);
    case _ => OwnKnown(s, e); OwnOk(s, e);
  }

  lemma {:induction false} AcceptNothing(s: State, reply: Reply, matched: bool, written: Write)
    requires !Matches(s, reply)
    ensures AcceptStep(s, reply, matched, written) == s
  {}

  lemma {:induction false} KnownPending(s: State, key: Key)
    requires Orderly(s) && key in s.pending
    ensures s.pending[key] in s.waiters
  {}

  lemma {:induction false} OwnKnown(s: State, e: Event)
    requires e.Settle? || e.Expire? || e.Withdraw? || e.Leave? || e.Receive? || e.Finish? || e.Send?
    ensures Step(s, e).waiters.Keys == s.waiters.Keys
  {}

  lemma {:induction false} ArrivedOrderly(s: State, answers: nat)
    requires Orderly(s)
    ensures Orderly(s.(wire := s.wire - {answers}))
  {
    var t := s.(wire := s.wire - {answers});
    forall id | id in t.waiters ensures ChannelOk(t, id) && ResultOk(t, id) {
      assert ChannelOk(s, id) && ResultOk(s, id);
      assert InFlight(t, id) ==> InFlight(s, id);
    }
  }

  lemma {:induction false} KnownKeeps(s: State, e: Event)
    requires Known(s)
    ensures Known(Step(s, e))
  {
    if e.Begin? {
      BeginKnown(s, e.id, e.request);
    } else {
      TableShrinks(s, e);
      RequestsKept(s, e);
      hide Step;
    }
  }

  lemma {:induction false} RequestsKept(s: State, e: Event)
    ensures forall id :: id in s.waiters ==> id in Step(s, e).waiters && Step(s, e).waiters[id].request == s.waiters[id].request
  {}

  lemma {:induction false} TableShrinks(s: State, e: Event)
    requires !e.Begin?
    ensures |Step(s, e).pending| <= |s.pending| && (s.closed ==> Step(s, e).closed)
    ensures forall key :: key in Step(s, e).pending ==> key in s.pending && Step(s, e).pending[key] == s.pending[key]
    ensures Step(s, e).closed && !s.closed ==> Step(s, e).pending == map[]
  {
    assert Step(s, e).pending.Keys <= s.pending.Keys;
    Smaller(Step(s, e).pending, s.pending);
  }

  lemma {:induction false} FlightFrom(s: State, e: Event, id: nat)
    requires InFlight(Step(s, e), id)
    ensures InFlight(s, id) || (e.Send? && e.id == id && id in s.waiters)
  {
    if e.Transmit? && s.outgoing != [] {
      assert s.outgoing == [s.outgoing[0]] + Step(s, e).outgoing;
    }
  }

  lemma {:induction false} FlightKnown(s: State, e: Event)
    requires forall id :: InFlight(s, id) ==> id in s.waiters
    ensures forall id :: InFlight(Step(s, e), id) ==> id in Step(s, e).waiters
  {
    RequestsKept(s, e);
    hide Step;
    forall id: nat | InFlight(Step(s, e), id) ensures id in Step(s, e).waiters { FlightFrom(s, e, id); }
  }

  lemma {:induction false} StepKeepsOrder(s: State, e: Event)
    requires Orderly(s)
    ensures Orderly(Step(s, e))
  {
    hide Step;
    hide Known;
    hide InFlight;
    hide ChannelOk;
    hide ResultOk;
    var t := Step(s, e);
    KnownKeeps(s, e);
    FlightKnown(s, e);
    forall id | id in t.waiters ensures ChannelOk(t, id) && ResultOk(t, id) {
      if About(s, e) == Some(id) {
        AboutOk(s, e);
      } else {
        NewcomersAreAbout(s, e, id);
        if e.Close? { CloseIs(s); CloseOk(s, id); } else { OthersOk(s, e, id); }
      }
    }
  }

  lemma {:induction false} CloseIs(s: State)
    ensures Step(s, Close) == CloseStep(s)
  {}

  lemma {:induction false} NewcomersAreAbout(s: State, e: Event, id: nat)
    requires id in Step(s, e).waiters && About(s, e) != Some(id)
    ensures id in s.waiters
  {}
}
