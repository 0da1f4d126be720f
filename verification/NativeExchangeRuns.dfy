/** What every run of the exchange keeps, over every interleaving of calls, expiry, responses, refusals and close. */
module NativeExchangeRuns {
  import opened Outcomes
  import opened NativeExchange

  predicate InFlight(s: State, id: nat) { id in s.outgoing || id in s.wire }

  /** A call that has not sent its message yet and may still do so or withdraw. */
  predicate Unsent(pc: Pc) { pc.Registered? || pc.Settling? || pc.Prepared? || pc.Withdrawing? }

  predicate Live(s: State, id: nat) { id in s.waiters && (InFlight(s, id) || Unsent(s.waiters[id].pc)) }

  predicate Distinct(ids: seq<nat>) { forall i, j :: 0 <= i < j < |ids| ==> ids[i] != ids[j] }

  predicate Known(s: State) {
    && |s.pending| <= CAPACITY
    && (s.closed ==> s.pending == map[])
    && forall key :: key in s.pending ==> s.pending[key] in s.waiters && KeyOf(s.waiters[s.pending[key]].request) == key
  }

  ghost predicate Sent(s: State) {
    && Distinct(s.outgoing)
    && (forall id :: id in s.outgoing ==> id !in s.wire)
    && forall id :: InFlight(s, id) ==> id in s.waiters && !Unsent(s.waiters[id].pc)
  }

  /** In flight implies pending, until the stream closes; and no key is ever in flight twice. */
  ghost predicate Pairing(s: State) {
    && Known(s) && Sent(s)
    && (forall id :: Live(s, id) && !s.closed ==>
          KeyOf(s.waiters[id].request) in s.pending && s.pending[KeyOf(s.waiters[id].request)] == id)
    && (forall a, b :: Live(s, a) && Live(s, b) && KeyOf(s.waiters[a].request) == KeyOf(s.waiters[b].request) ==> a == b)
  }

  /** The call of `id` changed its own progress and channel only, and not back to unsent. */
  ghost predicate OwnStep(s: State, t: State, id: nat) {
    && t == s.(waiters := t.waiters, journal := t.journal)
    && t.waiters.Keys == s.waiters.Keys
    && (forall other :: other in s.waiters && other != id ==> t.waiters[other] == s.waiters[other])
    && (id in s.waiters ==> t.waiters[id].request == s.waiters[id].request &&
                            (Unsent(t.waiters[id].pc) ==> Unsent(s.waiters[id].pc)))
  }

  lemma {:induction false} OwnStepKeeps(s: State, t: State, id: nat)
    requires Pairing(s) && OwnStep(s, t, id)
    ensures Pairing(t)
  {
    forall other | Live(t, other) ensures Live(s, other) && t.waiters[other].request == s.waiters[other].request {}
  }

  /** A call or a response takes its own entry out of the table once its message is no longer live. */
  lemma {:induction false} RemovalKeeps(s: State, t: State, id: nat)
    requires Pairing(s) && id in s.waiters && !Live(s, id)
    requires var key := KeyOf(s.waiters[id].request);
      key in s.pending && s.pending[key] == id && t == s.(pending := s.pending - {key})
    ensures Pairing(t)
  {
    var key := KeyOf(s.waiters[id].request);
    assert t.pending.Keys <= s.pending.Keys;
    Smaller(t.pending, s.pending);
    forall other | Live(t, other) ensures Live(s, other) && (!s.closed ==> KeyOf(s.waiters[other].request) != key) {}
  }

  lemma {:induction false} Smaller(a: map<Key, nat>, b: map<Key, nat>)
    requires a.Keys <= b.Keys
    ensures |a| <= |b|
  {
    Subset(a.Keys, b.Keys);
  }

  lemma {:induction false} Subset(a: set<Key>, b: set<Key>)
    requires a <= b
    ensures |a| <= |b|
  {
    if a != {} {
      var x :| x in a;
      Subset(a - {x}, b - {x});
    }
  }

  lemma {:induction false} BindKeeps(s: State, executor: nat)
    requires Pairing(s)
    ensures Pairing(BindStep(s, executor))
  {
    forall other | Live(BindStep(s, executor), other) ensures Live(s, other) {}
  }

  lemma {:induction false} AtOwn(s: State, id: nat, pc: Pc)
    requires id in s.waiters && (Unsent(pc) ==> Unsent(s.waiters[id].pc))
    ensures OwnStep(s, At(s, id, pc), id)
  {}

  lemma {:induction false} PrepareOwn(s: State, id: nat, written: Write)
    ensures OwnStep(s, PrepareStep(s, id, written), id)
  {}

  lemma {:induction false} ReceiveOwn(s: State, id: nat)
    ensures OwnStep(s, ReceiveStep(s, id), id) && OwnStep(s, FinishStep(s, id), id)
  {}

  lemma {:induction false} ExpireOwn(s: State, id: nat)
    ensures OwnStep(s, ExpireStep(s, id), id) && OwnStep(s, LeaveStep(s, id), id)
  {}

  lemma {:induction false} CallKeeps(s: State, e: Event)
    requires Pairing(s)
    requires e.Prepare? || e.Expire? || e.Leave? || e.Receive? || e.Finish?
    ensures Pairing(Step(s, e))
  {
    hide Pairing;
    hide OwnStep;
    hide PrepareStep;
    hide ReceiveStep;
    hide FinishStep;
    hide ExpireStep;
    hide LeaveStep;
    match e
    case Prepare(id, written) => PrepareOwn(s, id, written); OwnStepKeeps(s, Step(s, e), id);
    case Expire(id) => ExpireOwn(s, id); OwnStepKeeps(s, Step(s, e), id);
    case Leave(id) => ExpireOwn(s, id); OwnStepKeeps(s, Step(s, e), id);
    case Receive(id) => ReceiveOwn(s, id); OwnStepKeeps(s, Step(s, e), id);
    case Finish(id) => ReceiveOwn(s, id); OwnStepKeeps(s, Step(s, e), id);
  }

  /** What a live call's key maps to. */
  lemma {:induction false} LivePending(s: State, id: nat)
    requires Pairing(s) && Live(s, id)
    ensures var key := KeyOf(s.waiters[id].request);
      if s.closed then s.pending == map[] else key in s.pending && s.pending[key] == id
  {}

  lemma {:induction false} GivingUpKeeps(s: State, id: nat, result: Result)
    requires Pairing(s) && id in s.waiters && Unsent(s.waiters[id].pc)
    ensures var left := At(s, id, Leaving(result));
      var removed := left.(pending := s.pending - {KeyOf(s.waiters[id].request)});
      Pairing(removed) && (s.closed ==> removed == left) &&
      (!s.closed ==> KeyOf(s.waiters[id].request) in s.pending && s.pending[KeyOf(s.waiters[id].request)] == id)
  {
    hide OwnStep;
    LivePending(s, id);
    NotInFlight(s, id);
    var left := At(s, id, Leaving(result));
    AtOwn(s, id, Leaving(result));
    OwnStepKeeps(s, left, id);
    hide Pairing;
    if s.closed {
      assert s.pending - {KeyOf(s.waiters[id].request)} == s.pending;
    } else {
      RemovalKeeps(left, left.(pending := s.pending - {KeyOf(s.waiters[id].request)}), id);
    }
  }

  lemma {:induction false} NotInFlight(s: State, id: nat)
    requires Pairing(s) && id in s.waiters && Unsent(s.waiters[id].pc)
    ensures !InFlight(s, id)
  {}

  lemma {:induction false} SettleKeeps(s: State, id: nat)
    requires Pairing(s)
    ensures Pairing(SettleStep(s, id))
  {
    hide Pairing;
    if SettleStep(s, id) != s {
      GivingUpKeeps(s, id, Retained(s.waiters[id].pc.reply));
    }
  }

  lemma {:induction false} WithdrawKeeps(s: State, id: nat)
    requires Pairing(s)
    ensures Pairing(WithdrawStep(s, id))
  {
    hide Pairing;
    if Is(s, id, Withdrawing) {
      GivingUpKeeps(s, id, Failure(Expired));
      ClosedEmpty(s);
    }
  }

  lemma {:induction false} ClosedEmpty(s: State)
    requires Pairing(s)
    ensures s.closed ==> s.pending == map[]
  {}

  lemma {:induction false} BeginKnown(s: State, id: nat, r: Request)
    requires Known(s)
    ensures Known(BeginStep(s, id, r))
  {
    var t := BeginStep(s, id, r);
    if t != s {
      assert t.pending.Keys == s.pending.Keys + {KeyOf(r)};
    }
  }

  lemma {:induction false} BeginSent(s: State, id: nat, r: Request)
    requires Sent(s)
    ensures Sent(BeginStep(s, id, r))
  {}

  lemma {:induction false} BeginLive(s: State, id: nat, r: Request, other: nat)
    requires Sent(s) && Live(BeginStep(s, id, r), other) && !Live(s, other)
    ensures other == id && id !in s.waiters && Admits(s, r)
  {}

  lemma {:induction false} BeginOthers(s: State, id: nat, r: Request, other: nat)
    requires Pairing(s) && Admits(s, r) && Live(s, other)
    ensures other in BeginStep(s, id, r).waiters && BeginStep(s, id, r).waiters[other] == s.waiters[other]
    ensures KeyOf(s.waiters[other].request) != KeyOf(r) && BeginStep(s, id, r).closed == s.closed
    ensures KeyOf(s.waiters[other].request) in s.pending && s.pending[KeyOf(s.waiters[other].request)] == other
    ensures var t := BeginStep(s, id, r);
      KeyOf(s.waiters[other].request) in t.pending && t.pending[KeyOf(s.waiters[other].request)] == other
  {}

  lemma {:induction false} BeginKeeps(s: State, id: nat, r: Request)
    requires Pairing(s)
    ensures Pairing(BeginStep(s, id, r))
  {
    var t := BeginStep(s, id, r);
    BeginKnown(s, id, r);
    BeginSent(s, id, r);
    if t != s {
      assert t.waiters[id].request == r && t.pending[KeyOf(r)] == id && KeyOf(r) in t.pending;
      hide BeginStep;
      hide Known;
      hide Sent;
      hide KeyOf;
      hide Live;
      forall other | Live(t, other)
        ensures KeyOf(t.waiters[other].request) in t.pending && t.pending[KeyOf(t.waiters[other].request)] == other
      {
        if Live(s, other) { BeginOthers(s, id, r, other); } else { BeginLive(s, id, r, other); }
      }
    }
  }

  lemma {:induction false} SendKeeps(s: State, id: nat)
    requires Pairing(s)
    ensures Pairing(SendStep(s, id))
  {
    var t := SendStep(s, id);
    forall other | Live(t, other) ensures Live(s, other) {}
  }

  lemma {:induction false} TransmitKeeps(s: State)
    requires Pairing(s)
    ensures Pairing(TransmitStep(s))
  {
    var t := TransmitStep(s);
    if s.outgoing != [] {
      assert s.outgoing == [s.outgoing[0]] + t.outgoing;
      forall other | Live(t, other) ensures Live(s, other) {}
    }
  }

  /** The message that a response or a refusal was sent for, and the entry under its key. */
  lemma {:induction false} Arrival(s: State, answers: nat)
    requires Pairing(s) && answers in s.wire && answers in s.waiters
    ensures var arrived := s.(wire := s.wire - {answers});
      && Pairing(arrived) && !Live(arrived, answers)
      && (!s.closed ==> var key := KeyOf(s.waiters[answers].request); key in s.pending && s.pending[key] == answers)
  {
    var arrived := s.(wire := s.wire - {answers});
    assert Live(s, answers);
    forall other | Live(arrived, other) ensures Live(s, other) {}
  }

  lemma {:induction false} AnyJournal(s: State, journal: map<nat, Option<Delivery>>)
    requires Pairing(s)
    ensures Pairing(s.(journal := journal))
  {
    forall id | Live(s.(journal := journal), id) ensures Live(s, id) {}
  }

  lemma {:induction false} AcceptOwn(s: State, reply: Reply, matched: bool, written: Write)
    ensures var key := Key(reply.identity.attempt, reply.kind);
      var t := AcceptStep(s, reply, matched, written);
      t == s.(journal := t.journal) || (!s.closed && key in s.pending && OwnStep(s.(pending := s.pending - {key}), t, s.pending[key]))
  {}

  lemma {:induction false} RejectOwn(s: State, key: Key, matched: bool)
    ensures var t := RejectStep(s, key, matched);
      t == s || (!s.closed && key in s.pending && OwnStep(s.(pending := s.pending - {key}), t, s.pending[key]))
  {}

  lemma {:induction false} AnswerKeeps(s: State, e: Event)
    requires Pairing(s) && Honest(s, e) && (e.Answer? || e.Refuse?)
    ensures Pairing(Step(s, e))
  {
    hide Pairing;
    hide OwnStep;
    hide AcceptStep;
    hide RejectStep;
    hide Live;
    var id := if e.Answer? then e.reply.answers else e.answers;
    Arrival(s, id);
    var arrived := s.(wire := s.wire - {id});
    if Step(s, e) == arrived.(journal := Step(s, e).journal) {
      AnyJournal(arrived, Step(s, e).journal);
    } else {
      var r := s.waiters[id].request;
      var removed := arrived.(pending := arrived.pending - {KeyOf(r)});
      if e.Answer? {
        AcceptOwn(arrived, e.reply, e.matched, e.written);
      } else {
        RejectOwn(arrived, e.key, e.matched);
      }
      RemovalKeeps(arrived, removed, id);
      OwnStepKeeps(removed, Step(s, e), id);
    }
  }

  lemma {:induction false} CloseKeeps(s: State)
    requires Pairing(s)
    ensures Pairing(CloseStep(s))
  {
    var t := CloseStep(s);
    forall other | Live(t, other) ensures Live(s, other) {}
  }

  lemma {:induction false} StepKeepsPairing(s: State, e: Event)
    requires Pairing(s) && Honest(s, e)
    ensures Pairing(Step(s, e))
  {
    hide *;
    match e
    case Begin(id, request) => StepIs(s, e); BeginKeeps(s, id, request);
    case Send(id) => SendKeeps(s, id); StepIs(s, e);
    case Transmit => TransmitKeeps(s); StepIs(s, e);
    case Bind(executor) => BindKeeps(s, executor); StepIs(s, e);
    case Settle(id) => SettleKeeps(s, id); StepIs(s, e);
    case Withdraw(id) => WithdrawKeeps(s, id); StepIs(s, e);
    case Answer(_, _, _) => AnswerKeeps(s, e);
    case Refuse(_, _, _) => AnswerKeeps(s, e);
    case Close => CloseKeeps(s); StepIs(s, e);
    case _ => CallKeeps(s, e);
  }

  lemma {:induction false} StepIs(s: State, e: Event)
    ensures e.Begin? ==> Step(s, e) == BeginStep(s, e.id, e.request)
    ensures e.Send? ==> Step(s, e) == SendStep(s, e.id)
    ensures e.Transmit? ==> Step(s, e) == TransmitStep(s)
    ensures e.Bind? ==> Step(s, e) == BindStep(s, e.executor)
    ensures e.Settle? ==> Step(s, e) == SettleStep(s, e.id)
    ensures e.Withdraw? ==> Step(s, e) == WithdrawStep(s, e.id)
    ensures e.Close? ==> Step(s, e) == CloseStep(s)
  {}
}
