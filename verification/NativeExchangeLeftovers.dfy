/**
 Which entries of the pending table wait for nothing: exactly those of calls whose report the outbox could not take,
 and those whose message was answered or refused without being taken.
 */
module NativeExchangeLeftovers {
  import opened Outcomes
  import opened NativeExchange
  import opened NativeExchangeRuns
  import opened NativeExchangeResults
  import opened NativeExchangeTheorems

  /** The call left, or is leaving, because the outbox could not take its report. */
  predicate LeftUnprepared(pc: Pc) { pc == Leaving(Failure(Unprepared)) || pc == Returned(Failure(Unprepared)) }

  predicate Pends(s: State, id: nat) {
    id in s.waiters && KeyOf(s.waiters[id].request) in s.pending && s.pending[KeyOf(s.waiters[id].request)] == id
  }

  predicate Answers(e: Event, id: nat) { (e.Answer? && e.reply.answers == id) || (e.Refuse? && e.answers == id) }

  /** Its message is answered or refused, and the entry stays. */
  predicate LeftBy(journal: map<nat, Option<Delivery>>, es: seq<Event>, i: nat, id: nat) {
    i < |es| && Answers(es[i], id) && Pends(Run(Start(journal), es[..i + 1]), id)
  }

  ghost predicate Left(journal: map<nat, Option<Delivery>>, es: seq<Event>, id: nat) { exists i: nat :: LeftBy(journal, es, i, id) }

  lemma {:induction false} StillLeft(journal: map<nat, Option<Delivery>>, es: seq<Event>, id: nat)
    requires es != [] && Left(journal, es[..|es| - 1], id)
    ensures Left(journal, es, id)
  {
    var i: nat :| LeftBy(journal, es[..|es| - 1], i, id);
    assert es[..|es| - 1][..i + 1] == es[..i + 1];
    assert LeftBy(journal, es, i, id);
  }

  /** Entries are added only for new calls. */
  lemma {:induction false} PendedBefore(s: State, e: Event, id: nat)
    requires id in s.waiters && Pends(Step(s, e), id)
    ensures Pends(s, id)
  {
    RequestsKept(s, e);
  }

  lemma {:induction false} NewcomersLive(s: State, e: Event, id: nat)
    requires id !in s.waiters && id in Step(s, e).waiters
    ensures Live(Step(s, e), id)
  {}

  lemma {:induction false} FlightEnds(s: State, e: Event, id: nat)
    requires InFlight(s, id) && !InFlight(Step(s, e), id)
    ensures Answers(e, id) || e.Close?
  {}

  /** How one event may change a call: a result comes from its channel, unless the call makes it itself. */
  predicate Advances(w: Waiter, v: Waiter) {
    && (Unsent(v.pc) ==> Unsent(w.pc))
    && (LeftUnprepared(w.pc) ==> LeftUnprepared(v.pc))
    && (LeftUnprepared(v.pc) ==> LeftUnprepared(w.pc) || w.pc.Registered? || w.slot == Some(Failure(Unprepared)))
    && (v.slot == Some(Failure(Unprepared)) ==> w.slot == v.slot)
  }

  lemma {:induction false} Wakes(s: State, e: Event, id: nat)
    requires id in s.waiters && About(s, e) == Some(id) && (e.Answer? || e.Refuse?)
    ensures id in Step(s, e).waiters && Step(s, e).waiters[id].pc == s.waiters[id].pc
    ensures Advances(s.waiters[id], Step(s, e).waiters[id])
  {}

  lemma {:induction false} OutboxAdvances(s: State, id: nat, written: Write)
    requires id in s.waiters
    ensures var t := Step(s, Prepare(id, written)); id in t.waiters && Advances(s.waiters[id], t.waiters[id])
  {}

  lemma {:induction false} CallAdvances(s: State, e: Event)
    requires !e.Bind? && !e.Transmit? && !e.Close? && !e.Answer? && !e.Refuse? && !e.Prepare? && e.id in s.waiters
    ensures e.id in Step(s, e).waiters && Advances(s.waiters[e.id], Step(s, e).waiters[e.id])
  {
    hide PrepareStep, AcceptStep, RejectStep, CloseStep, TransmitStep;
  }

  lemma {:induction false} CloseAdvances(s: State, id: nat)
    requires id in s.waiters
    ensures id in Step(s, Close).waiters && Step(s, Close).waiters[id].pc == s.waiters[id].pc
    ensures Advances(s.waiters[id], Step(s, Close).waiters[id])
  {}

  lemma {:induction false} StepAdvances(s: State, e: Event, id: nat)
    requires id in s.waiters
    ensures id in Step(s, e).waiters && Advances(s.waiters[id], Step(s, e).waiters[id])
  {
    hide Step;
    if e.Close? {
      CloseAdvances(s, id);
    } else if About(s, e) != Some(id) {
      OthersKept(s, e, id);
    } else if e.Answer? || e.Refuse? {
      Wakes(s, e, id);
    } else if e.Prepare? {
      OutboxAdvances(s, e.id, e.written);
    } else {
      CallAdvances(s, e);
    }
  }

  /** Every way for a call to stop being unsent. */
  lemma {:induction false} CallSends(s: State, e: Event)
    requires !e.Bind? && !e.Transmit? && !e.Close? && !e.Answer? && !e.Refuse? && e.id in s.waiters
    requires Unsent(s.waiters[e.id].pc) && e.id in Step(s, e).waiters && !Unsent(Step(s, e).waiters[e.id].pc)
    ensures LeftUnprepared(Step(s, e).waiters[e.id].pc) || InFlight(Step(s, e), e.id) || !Pends(Step(s, e), e.id) || Step(s, e).closed
  {}

  /** How an entry that waits for something comes to wait for nothing. */
  lemma {:induction false} LivenessLost(s: State, e: Event, id: nat)
    requires Live(s, id) && Pends(Step(s, e), id) && !Step(s, e).closed && !Live(Step(s, e), id)
    ensures LeftUnprepared(Step(s, e).waiters[id].pc) || Answers(e, id)
  {
    CloseCloses(s);
    hide Step, LeftUnprepared, Answers;
    if InFlight(s, id) {
      FlightEnds(s, e, id);
    } else if About(s, e) != Some(id) {
      if !e.Close? { OthersKept(s, e, id); }
    } else if e.Answer? || e.Refuse? {
      Wakes(s, e, id);
    } else {
      CallSends(s, e);
    }
  }

  lemma {:induction false} CloseCloses(s: State)
    ensures Step(s, Close).closed
  {}

  /** What waits for nothing never waits for anything again. */
  lemma {:induction false} NeverLiveAgain(s: State, e: Event, id: nat)
    requires id in s.waiters && !Live(s, id)
    ensures id in Step(s, e).waiters && !Live(Step(s, e), id)
  {
    StepAdvances(s, e, id);
    hide Step, LeftUnprepared;
    if InFlight(Step(s, e), id) { FlightBefore(s, e, id); }
  }

  /** No channel brings the outbox's failure, and a call that left with it has sent nothing. */
  ghost predicate Silent(s: State) {
    forall id :: id in s.waiters ==>
      s.waiters[id].slot != Some(Failure(Unprepared)) && (LeftUnprepared(s.waiters[id].pc) ==> !Live(s, id))
  }

  lemma {:induction false} UnpreparedNow(s: State, e: Event, id: nat)
    requires Sent(s) && Silent(s) && id in s.waiters && !LeftUnprepared(s.waiters[id].pc)
    requires id in Step(s, e).waiters && LeftUnprepared(Step(s, e).waiters[id].pc)
    ensures !Live(Step(s, e), id)
  {
    StepAdvances(s, e, id);
    assert Unsent(s.waiters[id].pc) && s.waiters[id].pc.Registered?;
    hide Step;
    if InFlight(Step(s, e), id) { FlightBefore(s, e, id); }
  }

  lemma {:induction false} NewcomersSilent(s: State, e: Event, id: nat)
    requires id !in s.waiters && id in Step(s, e).waiters
    ensures Step(s, e).waiters[id].slot.None? && !LeftUnprepared(Step(s, e).waiters[id].pc)
  {}

  lemma {:induction false} StepKeepsSilent(s: State, e: Event)
    requires Sent(s) && Silent(s)
    ensures Silent(Step(s, e))
  {
    var t := Step(s, e);
    hide Step, Live;
    forall id | id in t.waiters ensures t.waiters[id].slot != Some(Failure(Unprepared)) && (LeftUnprepared(t.waiters[id].pc) ==> !Live(t, id)) {
      if id !in s.waiters {
        NewcomersSilent(s, e, id);
      } else {
        StepAdvances(s, e, id);
        if LeftUnprepared(t.waiters[id].pc) {
          if LeftUnprepared(s.waiters[id].pc) { NeverLiveAgain(s, e, id); } else { UnpreparedNow(s, e, id); }
        }
      }
    }
  }

  lemma {:induction false} RunsAreSilent(journal: map<nat, Option<Delivery>>, es: seq<Event>)
    requires HonestRun(Start(journal), es)
    ensures Silent(Run(Start(journal), es))
    decreases |es|
  {
    hide Step, Honest, Pairing, Silent, Sent;
    if es != [] {
      var before := es[..|es| - 1];
      RunsAreSilent(journal, before);
      HonestRunsPair(journal, before);
      PairingSends(Run(Start(journal), before));
      StepKeepsSilent(Run(Start(journal), before), es[|es| - 1]);
    } else {
      NothingSilent(journal);
    }
  }

  lemma {:induction false} PairingSends(s: State)
    requires Pairing(s)
    ensures Sent(s)
  {}

  lemma {:induction false} NothingSilent(journal: map<nat, Option<Delivery>>)
    ensures Silent(Start(journal))
  {}

  lemma {:induction false} ClosedBefore(s: State, e: Event)
    requires !Step(s, e).closed
    ensures !s.closed
  {}

  /** An entry that waits for nothing has one of the two causes. */
  lemma {:induction false} CauseFound(journal: map<nat, Option<Delivery>>, es: seq<Event>, id: nat)
    requires HonestRun(Start(journal), es)
    requires var s := Run(Start(journal), es); !s.closed && Pends(s, id) && !Live(s, id)
    ensures LeftUnprepared(Run(Start(journal), es).waiters[id].pc) || Left(journal, es, id)
    decreases |es|
  {
    hide Step, Honest, Pairing, Live, LeftUnprepared, Answers;
    assert es != [];
    var before, e := es[..|es| - 1], es[|es| - 1];
    var s, t := Run(Start(journal), before), Run(Start(journal), es);
    HonestRunsPair(journal, before);
    ClosedBefore(s, e);
    if id !in s.waiters {
      NewcomersLive(s, e, id);
    } else if Live(s, id) {
      LivenessLost(s, e, id);
      assert es[..|es| - 1 + 1] == es;
      assert Answers(e, id) ==> LeftBy(journal, es, |es| - 1, id);
    } else {
      PendedBefore(s, e, id);
      CauseFound(journal, before, id);
      if LeftUnprepared(s.waiters[id].pc) { StepAdvances(s, e, id); } else { StillLeft(journal, es, id); }
    }
  }

  /** An answered message is no longer in flight. */
  lemma {:induction false} AnsweredIsOver(s: State, e: Event, id: nat)
    requires Pairing(s) && Honest(s, e) && Answers(e, id)
    ensures id in Step(s, e).waiters && !Live(Step(s, e), id)
  {
    Arrival(s, id);
    RequestsKept(s, e);
  }

  lemma {:induction false} HonestPrefix(journal: map<nat, Option<Delivery>>, es: seq<Event>, n: nat)
    requires HonestRun(Start(journal), es) && n <= |es|
    ensures HonestRun(Start(journal), es[..n])
    decreases |es|
  {
    hide Honest, Run;
    if n < |es| {
      assert es[..|es| - 1][..n] == es[..n];
      HonestPrefix(journal, es[..|es| - 1], n);
    } else {
      assert es[..n] == es;
    }
  }

  /** What is over at some point of a run stays over. */
  lemma {:induction false} OverStays(journal: map<nat, Option<Delivery>>, es: seq<Event>, n: nat, id: nat)
    requires HonestRun(Start(journal), es) && n <= |es|
    requires id in Run(Start(journal), es[..n]).waiters && !Live(Run(Start(journal), es[..n]), id)
    ensures id in Run(Start(journal), es).waiters && !Live(Run(Start(journal), es), id)
    decreases |es|
  {
    hide Step, Honest, Pairing, Live, Sent;
    if n < |es| {
      var before := es[..|es| - 1];
      assert before[..n] == es[..n];
      OverStays(journal, before, n, id);
      HonestRunsPair(journal, before);
      PairingSends(Run(Start(journal), before));
      NeverLiveAgain(Run(Start(journal), before), es[|es| - 1], id);
    } else {
      assert es[..n] == es;
    }
  }

  lemma {:induction false} LeftIsOver(journal: map<nat, Option<Delivery>>, es: seq<Event>, i: nat, id: nat)
    requires HonestRun(Start(journal), es) && LeftBy(journal, es, i, id)
    ensures id in Run(Start(journal), es).waiters && !Live(Run(Start(journal), es), id)
  {
    hide Step, Pairing, Live, Answers, Run;
    HonestPrefix(journal, es, i);
    HonestPrefix(journal, es, i + 1);
    HonestRunsPair(journal, es[..i]);
    assert es[..i + 1][..i] == es[..i] && es[..i + 1][i] == es[i];
    LastEvent(journal, es[..i + 1]);
    AnsweredIsOver(Run(Start(journal), es[..i]), es[i], id);
    OverStays(journal, es, i + 1, id);
  }

  lemma {:induction false} LastEvent(journal: map<nat, Option<Delivery>>, es: seq<Event>)
    requires HonestRun(Start(journal), es) && es != []
    ensures var before, e := es[..|es| - 1], es[|es| - 1];
      Honest(Run(Start(journal), before), e) && Run(Start(journal), es) == Step(Run(Start(journal), before), e)
  {}

  /**
   When the converse of "in flight implies pending" fails, in every run with an honest Controller and for every
   entry: it waits for nothing exactly when its call left because the outbox could not take its report, or its
   message was answered or refused and the entry stayed.
   */
  lemma {:induction false} PendingForNothingExactly(journal: map<nat, Option<Delivery>>, es: seq<Event>, key: Key)
    requires HonestRun(Start(journal), es)
    requires var s := Run(Start(journal), es); !s.closed && key in s.pending
    ensures var s := Run(Start(journal), es); var id := s.pending[key];
      id in s.waiters && (!Live(s, id) <==> LeftUnprepared(s.waiters[id].pc) || Left(journal, es, id))
  {
    var s := Run(Start(journal), es);
    var id := s.pending[key];
    HonestRunsPair(journal, es);
    assert Pends(s, id);
    hide Pairing, Run, Live;
    RunsAreSilent(journal, es);
    if !Live(s, id) { CauseFound(journal, es, id); }
    if Left(journal, es, id) {
      var i: nat :| LeftBy(journal, es, i, id);
      LeftIsOver(journal, es, i, id);
    }
  }

  /** When every answer and refusal is taken, only a failed outbox leaves an entry behind. */
  lemma {:induction false} TakenAnswersLeaveNothing(journal: map<nat, Option<Delivery>>, es: seq<Event>, key: Key)
    requires HonestRun(Start(journal), es)
    requires var s := Run(Start(journal), es); !s.closed && key in s.pending
    requires forall i: nat, id: nat :: !LeftBy(journal, es, i, id)
    ensures var s := Run(Start(journal), es); var id := s.pending[key];
      id in s.waiters && (!Live(s, id) <==> LeftUnprepared(s.waiters[id].pc))
  {
    PendingForNothingExactly(journal, es, key);
  }

  /** The second cause: the answer to a terminal report cannot be written to the outbox, and its caller gives up. */
  lemma {:induction false} UnwrittenAnswerStrands(r: Request, reply: Reply, refused: bool, written: Write)
    requires r.terminal && r.identity.executor != 0 && !written.Written?
    requires reply.identity == r.identity && reply.kind == r.kind && reply.execution == r.execution && reply.answers == 0
    ensures var last := if refused then Refuse(KeyOf(r), false, 0) else Answer(reply, true, written);
      var es := Reporting(r) + [last] + [Expire(0), Finish(0)];
      var journal := map[r.identity.attempt := None];
      HonestRun(Start(journal), es) && Stranded(Run(Start(journal), es), 0) &&
      Run(Start(journal), es).waiters[0].pc == Returned(Failure(Expired))
  {
    var last := if refused then Refuse(KeyOf(r), false, 0) else Answer(reply, true, written);
    var journal: map<nat, Option<Delivery>> := map[r.identity.attempt := None];
    var s := Start(journal);
    Reports(s, r);
    Unanswered(Run(s, Reporting(r)), r, last, reply, written);
    hide *;
    OneMore(s, Reporting(r), last);
    TwoMore(s, Reporting(r) + [last], Expire(0), Finish(0));
  }

  /** A terminal report up to its place in the stream. */
  function Reporting(r: Request): seq<Event> {
    [Bind(r.identity.executor), Begin(0, r)] + [Prepare(0, Written), Send(0)] + [Transmit]
  }

  lemma {:induction false} Reports(s: State, r: Request)
    requires r.terminal && r.identity.executor != 0 && s == Start(map[r.identity.attempt := None])
    ensures HonestRun(s, Reporting(r)) && Reported(Run(s, Reporting(r)), r)
  {
    var begin: seq<Event> := [Bind(r.identity.executor), Begin(0, r)];
    InFlightReport(s, r);
    NothingYet(s, []);
    assert [] + begin == begin;
    hide Step, HonestRun, Run, Reported, Start;
    TwoMore(s, [], Bind(r.identity.executor), Begin(0, r));
    TwoMore(s, begin, Prepare(0, Written), Send(0));
    OneMore(s, begin + [Prepare(0, Written), Send(0)], Transmit);
  }

  /** The state after a terminal report entered the stream. */
  predicate Reported(s: State, r: Request) {
    && !s.closed && s.outgoing == [] && s.wire == {0} && s.pending == map[KeyOf(r) := 0]
    && s.waiters == map[0 := Waiter(r, false, None, 0, Waiting)]
    && r.identity.attempt in s.journal && s.journal[r.identity.attempt] == Some(Delivery(r, None))
  }

  lemma {:induction false} InFlightReport(s0: State, r: Request)
    requires r.terminal && r.identity.executor != 0 && s0 == Start(map[r.identity.attempt := None])
    ensures Reported(Step(Step(Step(Step(Step(s0, Bind(r.identity.executor)), Begin(0, r)), Prepare(0, Written)), Send(0)), Transmit), r)
  {
    var s3 := Step(Step(Step(s0, Bind(r.identity.executor)), Begin(0, r)), Prepare(0, Written));
    assert s3.waiters == map[0 := Waiter(r, false, None, 0, Prepared)];
    var s4 := Step(s3, Send(0));
    assert s4.outgoing == [0];
  }

  lemma {:induction false} Unanswered(s: State, r: Request, last: Event, reply: Reply, written: Write)
    requires Reported(s, r) && r.terminal && !written.Written?
    requires last == Refuse(KeyOf(r), false, 0) || last == Answer(reply, true, written)
    requires reply.identity == r.identity && reply.kind == r.kind && reply.execution == r.execution && reply.answers == 0
    ensures Honest(s, last)
    ensures var t := Step(Step(Step(s, last), Expire(0)), Finish(0));
      Stranded(t, 0) && t.waiters[0].pc == Returned(Failure(Expired))
  {
    assert Step(s, last) == s.(wire := {}, journal := Step(s, last).journal);
  }
}
