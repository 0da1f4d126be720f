/** The exchange theorems, over every run from an opened stream. */
module NativeExchangeTheorems {
  import opened Outcomes
  import opened NativeExchange
  import opened NativeExchangeRuns
  import opened NativeExchangeResults

  lemma {:induction false} HonestRunsPair(journal: map<nat, Option<Delivery>>, es: seq<Event>)
    requires HonestRun(Start(journal), es)
    ensures Pairing(Run(Start(journal), es))
    decreases |es|
  {
    hide Step;
    hide Honest;
    if es != [] {
      HonestRunsPair(journal, es[..|es| - 1]);
      StepKeepsPairing(Run(Start(journal), es[..|es| - 1]), es[|es| - 1]);
    }
  }

  lemma {:induction false} RunsKeepOrder(journal: map<nat, Option<Delivery>>, es: seq<Event>)
    ensures Orderly(Run(Start(journal), es))
    decreases |es|
  {
    hide Step;
    if es != [] {
      RunsKeepOrder(journal, es[..|es| - 1]);
      StepKeepsOrder(Run(Start(journal), es[..|es| - 1]), es[|es| - 1]);
    }
  }

  /**
   When the Controller answers each message at most once: two unanswered messages never share a key, and
   until the stream closes the waiter of an unanswered message is the pending entry under its key.
   */
  lemma {:induction false} InFlightImpliesPending(journal: map<nat, Option<Delivery>>, es: seq<Event>, a: nat, b: nat)
    requires HonestRun(Start(journal), es)
    requires var s := Run(Start(journal), es); InFlight(s, a) && InFlight(s, b)
    ensures var s := Run(Start(journal), es);
      && a in s.waiters && b in s.waiters
      && (KeyOf(s.waiters[a].request) == KeyOf(s.waiters[b].request) ==> a == b)
      && (!s.closed ==> KeyOf(s.waiters[a].request) in s.pending && s.pending[KeyOf(s.waiters[a].request)] == a)
  {
    HonestRunsPair(journal, es);
    var s := Run(Start(journal), es);
    assert Live(s, a) && Live(s, b);
  }

  /** Every response that a waiter holds was sent for its own message. */
  ghost predicate OwnAnswers(s: State) {
    forall id, reply :: id in s.waiters && Holds(s.waiters[id], reply) ==> reply.answers == id
  }

  lemma {:induction false} CalledAnswers(s: State, e: Event, reply: Reply)
    requires e.Begin? || e.Prepare?
    requires e.id in Step(s, e).waiters && Holds(Step(s, e).waiters[e.id], reply)
    ensures e.id in s.waiters && Holds(s.waiters[e.id], reply)
  {}

  lemma {:induction false} RefusedAnswers(s: State, e: Event, id: nat, reply: Reply)
    requires e.Refuse? && id in Step(s, e).waiters && Holds(Step(s, e).waiters[id], reply)
    ensures id in s.waiters && Holds(s.waiters[id], reply)
  {}

  lemma {:induction false} AcceptedAnswers(s: State, e: Event, id: nat, reply: Reply)
    requires e.Answer? && id in Step(s, e).waiters && Holds(Step(s, e).waiters[id], reply)
    ensures var key := Key(reply.identity.attempt, reply.kind);
      (id in s.waiters && Holds(s.waiters[id], reply)) ||
      (e.reply == reply && !s.closed && key in s.pending && s.pending[key] == id)
  {}

  lemma {:induction false} ClosedAnswers(s: State, id: nat, reply: Reply)
    requires id in CloseStep(s).waiters && Holds(CloseStep(s).waiters[id], reply)
    ensures id in s.waiters && Holds(s.waiters[id], reply)
  {}

  /** What a waiter holds after an event, it held before, or the event brought it. */
  lemma {:induction false} NewAnswers(s: State, e: Event, id: nat, reply: Reply)
    requires Orderly(s) && id in Step(s, e).waiters && Holds(Step(s, e).waiters[id], reply)
    ensures (id in s.waiters && Holds(s.waiters[id], reply)) ||
            (e.Answer? && e.reply == reply && Key(reply.identity.attempt, reply.kind) in s.pending &&
             s.pending[Key(reply.identity.attempt, reply.kind)] == id && !s.closed)
  {
    hide Orderly;
    hide Holds;
    hide Step;
    if e.Answer? {
      AcceptedAnswers(s, e, id, reply);
    } else if e.Refuse? {
      RefusedAnswers(s, e, id, reply);
    } else if e.Close? {
      CloseIs(s);
      ClosedAnswers(s, id, reply);
    } else if About(s, e) != Some(id) {
      NewcomersAreAbout(s, e, id);
      OthersKept(s, e, id);
    } else if e.Begin? || e.Prepare? {
      CalledAnswers(s, e, reply);
    } else {
      OwnKnown(s, e);
      OrderlyAt(s, id);
      OwnMoves(s, e);
      MovesHeld(s.waiters[id], Step(s, e).waiters[id], reply);
    }
  }

  lemma {:induction false} MovesHeld(w: Waiter, v: Waiter, reply: Reply)
    requires Moves(w, v) || v == w
    ensures Holds(v, reply) ==> Holds(w, reply)
  {}

  lemma {:induction false} StepKeepsAnswers(s: State, e: Event)
    requires Pairing(s) && Orderly(s) && Honest(s, e) && OwnAnswers(s)
    ensures OwnAnswers(Step(s, e))
  {
    hide Step;
    hide Pairing;
    hide Orderly;
    forall id, reply | id in Step(s, e).waiters && Holds(Step(s, e).waiters[id], reply) ensures reply.answers == id {
      NewAnswers(s, e, id, reply);
      if !(id in s.waiters && Holds(s.waiters[id], reply)) {
        Arrival(s, reply.answers);
      }
    }
  }

  lemma {:induction false} RunsKeepAnswers(journal: map<nat, Option<Delivery>>, es: seq<Event>)
    requires HonestRun(Start(journal), es)
    ensures OwnAnswers(Run(Start(journal), es))
    decreases |es|
  {
    hide Step;
    hide Honest;
    hide Pairing;
    hide Orderly;
    if es != [] {
      var before := es[..|es| - 1];
      RunsKeepAnswers(journal, before);
      HonestRunsPair(journal, before);
      RunsKeepOrder(journal, before);
      StepKeepsAnswers(Run(Start(journal), before), es[|es| - 1]);
    }
  }

  /** A call returns only the response that was sent for its own message, with its identity, kind and execution. */
  lemma {:induction false} ResponseReachesItsRequest(journal: map<nat, Option<Delivery>>, es: seq<Event>, id: nat, reply: Reply)
    requires HonestRun(Start(journal), es) && Is(Run(Start(journal), es), id, Returned(Success(reply)))
    ensures reply.answers == id
    ensures var r := Run(Start(journal), es).waiters[id].request;
      reply.identity == r.identity && reply.kind == r.kind && reply.execution == r.execution
  {
    hide Run;
    RunsKeepAnswers(journal, es);
    RunsKeepOrder(journal, es);
    var s := Run(Start(journal), es);
    OrderlyAt(s, id);
    assert Holds(s.waiters[id], reply);
  }

  /** Whatever the Controller does: a terminal call succeeds only with a reply that the outbox holds for its report. */
  lemma {:induction false} TerminalSuccessIsDurable(journal: map<nat, Option<Delivery>>, es: seq<Event>, id: nat, reply: Reply)
    requires var s := Run(Start(journal), es);
      id in s.waiters && s.waiters[id].request.terminal &&
      (s.waiters[id].pc == Returned(Success(reply)) || s.waiters[id].pc == Returned(Retained(reply)))
    ensures var s := Run(Start(journal), es); Acknowledged(s.journal, s.waiters[id].request, reply)
  {
    hide Run;
    RunsKeepOrder(journal, es);
    var s := Run(Start(journal), es);
    OrderlyAt(s, id);
    assert Holds(s.waiters[id], reply) || HoldsRetained(s.waiters[id], reply);
  }

  /** Whatever the Controller does: channels are written once at most, never while full, and are empty in the end. */
  lemma {:induction false} ChannelsNeverBlock(journal: map<nat, Option<Delivery>>, es: seq<Event>, e: Event, id: nat)
    requires var s := Run(Start(journal), es); id in s.waiters
    ensures var s := Run(Start(journal), es);
      var t := Step(s, e);
      && id in t.waiters && t.waiters[id].writes <= 1
      && (t.waiters[id].writes != s.waiters[id].writes ==> s.waiters[id].slot.None? && !s.waiters[id].abandoned)
      && (s.waiters[id].pc.Returned? ==> s.waiters[id].slot.None? && t.waiters[id].slot.None?)
  {
    hide Run;
    RunsKeepOrder(journal, es);
    var s := Run(Start(journal), es);
    var t := Step(s, e);
    StepKeepsOrder(s, e);
    RequestsKept(s, e);
    OrderlyAt(s, id);
    OrderlyAt(t, id);
    hide Orderly;
    WakesOnce(s, e, id);
  }

  lemma {:induction false} WakesOnce(s: State, e: Event, id: nat)
    requires id in s.waiters && ChannelOk(s, id) && id in Step(s, e).waiters
    ensures var w, v := s.waiters[id], Step(s, e).waiters[id];
      && (v.writes != w.writes ==> w.slot.None? && !w.abandoned && v.writes == 1)
      && (w.pc.Returned? ==> v.slot == w.slot)
  {}

  /** Durable reports that may be in flight still lack their reply. */
  ghost predicate AwaitsReply(s: State) {
    forall id :: Live(s, id) && s.waiters[id].request.terminal && !s.waiters[id].pc.Registered? && !s.waiters[id].pc.Settling? ==>
      Awaits(s, s.waiters[id].request)
  }

  predicate Awaits(s: State, r: Request) {
    Recorded(s.journal, r) && s.journal[r.identity.attempt].value.reply.None?
  }

  lemma {:induction false} FlightBefore(s: State, e: Event, id: nat)
    requires InFlight(Step(s, e), id)
    ensures InFlight(s, id) || (e.Send? && e.id == id && Is(s, id, Prepared))
  {
    if e.Transmit? && s.outgoing != [] {
      assert s.outgoing == [s.outgoing[0]] + Step(s, e).outgoing;
    }
  }

  /** Only the call itself moves on. */
  lemma {:induction false} PcElsewhere(s: State, e: Event, id: nat)
    requires id in s.waiters && (e.Bind? || e.Transmit? || e.Close? || e.Answer? || e.Refuse?)
    ensures id in Step(s, e).waiters && Step(s, e).waiters[id].pc == s.waiters[id].pc
  {}

  lemma {:induction false} PcOwn(s: State, e: Event, id: nat)
    requires !e.Bind? && !e.Transmit? && !e.Close? && !e.Answer? && !e.Refuse? && id in s.waiters && id in Step(s, e).waiters
    requires var pc := Step(s, e).waiters[id].pc; pc.Prepared? || pc.Withdrawing?
    ensures var pc := s.waiters[id].pc;
      pc.Prepared? || pc.Withdrawing? || (pc.Registered? && e.Prepare? && e.id == id && Step(s, e).waiters[id].pc.Prepared?)
  {}

  lemma {:induction false} PcBefore(s: State, e: Event, id: nat)
    requires id in s.waiters && id in Step(s, e).waiters
    requires var pc := Step(s, e).waiters[id].pc; pc.Prepared? || pc.Withdrawing?
    ensures var pc := s.waiters[id].pc;
      pc.Prepared? || pc.Withdrawing? || (pc.Registered? && e.Prepare? && e.id == id && Step(s, e).waiters[id].pc.Prepared?)
  {
    hide Step;
    if e.Bind? || e.Transmit? || e.Close? || e.Answer? || e.Refuse? { PcElsewhere(s, e, id); } else { PcOwn(s, e, id); }
  }

  /** A live report that passed the outbox was live and had passed it before, unless this event is its passing. */
  lemma {:induction false} LiveBefore(s: State, e: Event, id: nat)
    requires Sent(s) && id in s.waiters && Live(Step(s, e), id)
    requires var pc := Step(s, e).waiters[id].pc; !pc.Registered? && !pc.Settling?
    ensures Live(s, id) && Step(s, e).waiters[id].request == s.waiters[id].request
    ensures s.waiters[id].pc.Registered? || s.waiters[id].pc.Settling? ==>
              e.Prepare? && e.id == id && s.waiters[id].pc.Registered? && Step(s, e).waiters[id].pc.Prepared?
  {
    var t := Step(s, e);
    hide Step;
    RequestsKept(s, e);
    if InFlight(t, id) { FlightBefore(s, e, id); } else { PcBefore(s, e, id); }
  }

  lemma {:induction false} PreparePasses(s: State, id: nat, other: nat, written: Write)
    requires other in s.waiters && id in s.waiters
    requires if Is(s, other, Registered) then other == id && Is(PrepareStep(s, id, written), id, Prepared)
             else Awaits(s, s.waiters[other].request)
    ensures Awaits(PrepareStep(s, id, written), s.waiters[other].request)
  {}

  lemma {:induction false} AnswerPasses(s: State, reply: Reply, matched: bool, written: Write, other: nat)
    requires Pairing(s) && Honest(s, Answer(reply, matched, written)) && Live(s, other) && other != reply.answers
    requires Awaits(s, s.waiters[other].request)
    ensures Awaits(Step(s, Answer(reply, matched, written)), s.waiters[other].request)
  {
    Arrival(s, reply.answers);
    assert Live(s, reply.answers);
    LiveApart(s, other, reply.answers);
  }

  lemma {:induction false} JournalStays(s: State, e: Event)
    requires !e.Prepare? && !e.Answer?
    ensures Step(s, e).journal == s.journal
  {}

  lemma {:induction false} AnsweredLeaves(s: State, e: Event)
    requires Pairing(s) && Honest(s, e) && e.Answer?
    ensures !Live(Step(s, e), e.reply.answers)
  {
    Arrival(s, e.reply.answers);
  }

  lemma {:induction false} PrepareAbsent(s: State, e: Event)
    requires e.Prepare? && e.id !in s.waiters
    ensures Step(s, e) == s
  {}

  lemma {:induction false} StillAwaits(s: State, e: Event, id: nat)
    requires Pairing(s) && Honest(s, e) && AwaitsReply(s)
    requires Live(Step(s, e), id) && id in s.waiters && s.waiters[id].request.terminal
    requires var pc := Step(s, e).waiters[id].pc; !pc.Registered? && !pc.Settling?
    ensures Awaits(Step(s, e), s.waiters[id].request)
  {
    hide Step;
    hide Live;
    hide Awaits;
    hide Honest;
    LiveBefore(s, e, id);
    hide Pairing;
    if e.Prepare? {
      StepIsPrepare(s, e);
      if e.id in s.waiters { PreparePasses(s, e.id, id, e.written); } else { PrepareAbsent(s, e); }
    } else if e.Answer? {
      AnsweredLeaves(s, e);
      AnswerPasses(s, e.reply, e.matched, e.written, id);
    } else {
      JournalStays(s, e);
      SameJournal(s, Step(s, e), s.waiters[id].request);
    }
  }

  lemma {:induction false} StepIsPrepare(s: State, e: Event)
    ensures e.Prepare? ==> Step(s, e) == PrepareStep(s, e.id, e.written)
  {}

  lemma {:induction false} SameJournal(s: State, t: State, r: Request)
    requires Awaits(s, r) && s.journal == t.journal
    ensures Awaits(t, r)
  {}

  lemma {:induction false} StepKeepsAwaiting(s: State, e: Event)
    requires Pairing(s) && Honest(s, e) && AwaitsReply(s)
    ensures AwaitsReply(Step(s, e))
  {
    var t := Step(s, e);
    hide Step;
    hide Pairing;
    hide Awaits;
    hide Honest;
    forall id | Live(t, id) && t.waiters[id].request.terminal && !t.waiters[id].pc.Registered? && !t.waiters[id].pc.Settling?
      ensures Awaits(t, t.waiters[id].request)
    {
      if id in s.waiters {
        RequestsKept(s, e);
        StillAwaits(s, e, id);
      } else {
        NewcomersUnsent(s, e, id);
      }
    }
  }

  lemma {:induction false} NewcomersUnsent(s: State, e: Event, id: nat)
    requires id in Step(s, e).waiters && id !in s.waiters
    ensures Step(s, e).waiters[id].request.terminal ==> Step(s, e).waiters[id].pc.Registered?
  {}

  lemma {:induction false} RunsKeepAwaiting(journal: map<nat, Option<Delivery>>, es: seq<Event>)
    requires HonestRun(Start(journal), es)
    ensures AwaitsReply(Run(Start(journal), es))
    decreases |es|
  {
    hide Step;
    hide Honest;
    hide Pairing;
    hide AwaitsReply;
    if es != [] {
      var before := es[..|es| - 1];
      RunsKeepAwaiting(journal, before);
      HonestRunsPair(journal, before);
      StepKeepsAwaiting(Run(Start(journal), before), es[|es| - 1]);
    } else {
      NothingAwaits(journal);
    }
  }

  lemma {:induction false} NothingAwaits(journal: map<nat, Option<Delivery>>)
    ensures AwaitsReply(Start(journal))
  {}

  /**
   An answer to a terminal report that is still open is acknowledged durably even when its caller has given
   up; the entry goes, and only a caller that still waits is woken.
   */
  lemma {:induction false} LateAnswerIsAcknowledged(journal: map<nat, Option<Delivery>>, es: seq<Event>, reply: Reply)
    requires HonestRun(Start(journal), es) && Honest(Run(Start(journal), es), Answer(reply, true, Written))
    requires var s := Run(Start(journal), es); !s.closed && s.waiters[reply.answers].request.terminal
    ensures var s := Run(Start(journal), es);
      var t := Step(s, Answer(reply, true, Written));
      var w := s.waiters[reply.answers];
      && Acknowledged(t.journal, w.request, reply)
      && t.pending == s.pending - {KeyOf(w.request)}
      && t.waiters == if w.abandoned then s.waiters
                      else s.waiters[reply.answers := w.(slot := Some(Success(reply)), writes := w.writes + 1)]
  {
    hide Run;
    hide HonestRun;
    HonestRunsPair(journal, es);
    RunsKeepAwaiting(journal, es);
    var s := Run(Start(journal), es);
    Arrival(s, reply.answers);
    SentPassed(s, reply.answers);
  }

  lemma {:induction false} SentPassed(s: State, id: nat)
    requires Pairing(s) && AwaitsReply(s) && id in s.wire && id in s.waiters && s.waiters[id].request.terminal
    ensures Awaits(s, s.waiters[id].request)
  {
    assert Live(s, id);
  }

  /** A refusal wakes its caller with an error and never acknowledges: the report stays in the outbox as it was. */
  lemma {:induction false} RefusalKeepsTheReport(journal: map<nat, Option<Delivery>>, es: seq<Event>, key: Key, answers: nat)
    requires HonestRun(Start(journal), es) && Honest(Run(Start(journal), es), Refuse(key, true, answers))
    requires var s := Run(Start(journal), es); !s.closed && s.waiters[answers].request.terminal
    ensures var s := Run(Start(journal), es);
      var t := Step(s, Refuse(key, true, answers));
      var w := s.waiters[answers];
      && t.journal == s.journal && Awaits(t, w.request)
      && t.pending == s.pending - {key}
      && t.waiters == if w.abandoned then s.waiters
                      else s.waiters[answers := w.(slot := Some(Failure(Refused)), writes := w.writes + 1)]
  {
    hide Run;
    hide HonestRun;
    HonestRunsPair(journal, es);
    RunsKeepAwaiting(journal, es);
    var s := Run(Start(journal), es);
    Arrival(s, answers);
    SentPassed(s, answers);
  }

  lemma {:induction false} LiveApart(s: State, a: nat, b: nat)
    requires Pairing(s) && Live(s, a) && Live(s, b) && a != b
    ensures s.waiters[a].request != s.waiters[b].request
  {}

  /** A call that returned with its message not in flight leaves its entry behind until the stream closes. */
  predicate Stranded(s: State, id: nat) {
    && id in s.waiters && s.waiters[id].pc.Returned? && !InFlight(s, id)
    && KeyOf(s.waiters[id].request) in s.pending && s.pending[KeyOf(s.waiters[id].request)] == id
  }

  lemma {:induction false} StrandedWaits(s: State, e: Event, id: nat)
    requires id in s.waiters && s.waiters[id].pc.Returned?
    ensures id in Step(s, e).waiters && Step(s, e).waiters[id].request == s.waiters[id].request && Step(s, e).waiters[id].pc.Returned?
  {}

  /** An entry leaves the table only by a call, an answer or a refusal under its key, or by the close. */
  lemma {:induction false} EntryStays(s: State, e: Event, key: Key)
    requires key in s.pending && !e.Close?
    requires (e.Settle? || e.Withdraw?) && e.id in s.waiters && Unsent(s.waiters[e.id].pc) ==> KeyOf(s.waiters[e.id].request) != key
    requires e.Answer? ==> Key(e.reply.identity.attempt, e.reply.kind) != key
    requires e.Refuse? ==> e.key != key
    ensures key in Step(s, e).pending && Step(s, e).pending[key] == s.pending[key]
  {}

  lemma {:induction false} StrandedStays(s: State, e: Event, id: nat)
    requires Pairing(s) && Honest(s, e) && Stranded(s, id) && !e.Close?
    ensures Stranded(Step(s, e), id)
  {
    hide Step;
    hide Pairing;
    var key := KeyOf(s.waiters[id].request);
    StrandedWaits(s, e, id);
    if InFlight(Step(s, e), id) { FlightBefore(s, e, id); }
    ClosedEmpty(s);
    if (e.Settle? || e.Withdraw?) && e.id in s.waiters && Unsent(s.waiters[e.id].pc) {
      LivePending(s, e.id);
    } else if e.Answer? {
      Arrival(s, e.reply.answers);
    } else if e.Refuse? {
      Arrival(s, e.answers);
    }
    EntryStays(s, e, key);
  }

  /**
   The converse of "in flight implies pending" fails: a call can return and leave its entry behind. From then on,
   whatever an honest Controller does, no call under the same key is admitted until the stream closes. When that
   happens is `NativeExchangeLeftovers.PendingForNothingExactly`.
   */
  lemma {:induction false} StrandedKeyIsRefused(journal: map<nat, Option<Delivery>>, es: seq<Event>, more: seq<Event>,
                                                id: nat, r: Request)
    requires HonestRun(Start(journal), es + more) && Stranded(Run(Start(journal), es), id)
    requires Close !in more && KeyOf(r) == KeyOf(Run(Start(journal), es).waiters[id].request)
    ensures Stranded(Run(Start(journal), es + more), id)
    ensures !Admits(Run(Start(journal), es + more), r)
    decreases |more|
  {
    hide Step;
    hide Honest;
    hide Pairing;
    if more == [] {
      assert es + more == es;
    } else {
      var before, last := more[..|more| - 1], more[|more| - 1];
      var all := es + more;
      assert all[..|all| - 1] == es + before && all[|all| - 1] == last;
      assert last in more;
      StrandedKeyIsRefused(journal, es, before, id, r);
      HonestRunsPair(journal, es + before);
      StrandedStays(Run(Start(journal), es + before), last, id);
      RequestsKept(Run(Start(journal), es + before), last);
    }
    StrandedRequest(journal, es, more, id);
  }

  lemma {:induction false} StrandedRequest(journal: map<nat, Option<Delivery>>, es: seq<Event>, more: seq<Event>, id: nat)
    requires id in Run(Start(journal), es).waiters
    ensures id in Run(Start(journal), es + more).waiters
    ensures Run(Start(journal), es + more).waiters[id].request == Run(Start(journal), es).waiters[id].request
    decreases |more|
  {
    hide Step;
    if more == [] {
      assert es + more == es;
    } else {
      var all := es + more;
      assert all[..|all| - 1] == es + more[..|more| - 1];
      StrandedRequest(journal, es, more[..|more| - 1], id);
      RequestsKept(Run(Start(journal), all[..|all| - 1]), all[|all| - 1]);
    }
  }

  lemma {:induction false} NothingYet(s: State, es: seq<Event>)
    requires es == []
    ensures HonestRun(s, es) && Run(s, es) == s
  {}

  /** One more event of a run; only the Controller's need be honest. */
  lemma {:induction false} OneMore(s: State, es: seq<Event>, e: Event)
    requires HonestRun(s, es) && (e.Answer? || e.Refuse? ==> Honest(Run(s, es), e))
    ensures HonestRun(s, es + [e]) && Run(s, es + [e]) == Step(Run(s, es), e)
  {
    assert (es + [e])[..|es|] == es;
    hide Step;
  }

  lemma {:induction false} TwoMore(s: State, es: seq<Event>, e: Event, d: Event)
    requires HonestRun(s, es) && !e.Answer? && !e.Refuse? && !d.Answer? && !d.Refuse?
    ensures HonestRun(s, es + [e, d]) && Run(s, es + [e, d]) == Step(Step(Run(s, es), e), d)
  {
    assert es + [e] + [d] == es + [e, d];
    hide *;
    OneMore(s, es, e);
    OneMore(s, es + [e], d);
  }

  /** One cause: a single failed write of the outbox. */
  lemma {:induction false} FailedOutboxStrands(r: Request, written: Write)
    requires r.terminal && r.identity.executor != 0 && !written.Written?
    ensures var es := [Bind(r.identity.executor), Begin(0, r)] + [Prepare(0, written), Finish(0)];
      var journal := map[r.identity.attempt := None];
      HonestRun(Start(journal), es) && Stranded(Run(Start(journal), es), 0) &&
      Run(Start(journal), es).waiters[0].pc == Returned(Failure(Unprepared))
  {
    var s := Start(map[r.identity.attempt := None]);
    var begin: seq<Event> := [Bind(r.identity.executor), Begin(0, r)];
    OutboxFails(s, r, written);
    NothingYet(s, []);
    assert [] + begin == begin;
    hide Step, HonestRun, Run, Stranded, Start;
    TwoMore(s, [], Bind(r.identity.executor), Begin(0, r));
    TwoMore(s, begin, Prepare(0, written), Finish(0));
  }

  lemma {:induction false} OutboxFails(s: State, r: Request, written: Write)
    requires r.terminal && r.identity.executor != 0 && s == Start(map[r.identity.attempt := None]) && !written.Written?
    ensures var t := Step(Step(Step(Step(s, Bind(r.identity.executor)), Begin(0, r)), Prepare(0, written)), Finish(0));
      Stranded(t, 0) && t.waiters[0].pc == Returned(Failure(Unprepared))
  {
    assert Step(Step(s, Bind(r.identity.executor)), Begin(0, r)).waiters == map[0 := Waiter(r, false, None, 0, Registered)];
  }
}
