/**
 What cancellations can do over a whole run: the run goes as it would have gone without them, but for the requests
 themselves and the contexts of the attempts that they name.
 */
module ExecutionCancellation {
  import opened Outcomes
  import opened ExecutionResults
  import opened ExecutionSlots
  import opened ExecutionRuns

  /** The same events without the cancellations. */
  function Uncancelled(es: seq<Event>): seq<Event> {
    if es == [] then []
    else if es[|es| - 1].Cancel? then Uncancelled(es[..|es| - 1])
    else Uncancelled(es[..|es| - 1]) + [es[|es| - 1]]
  }

  /** A forward attempt that one of the events cancels. */
  predicate Named(es: seq<Event>, attempt: WorkAttempt) { !attempt.recovery && Cancel(attempt) in es }

  /** The slots are the same but for the requests to cancel a named attempt. */
  predicate SlotsAlike(s: State, t: State, es: seq<Event>) {
    && s.active.Keys == t.active.Keys
    && forall work :: work in s.active ==>
         && t.active[work] == s.active[work].(cancelRequested := t.active[work].cancelRequested)
         && (t.active[work].cancelRequested ==> s.active[work].cancelRequested)
         && (s.active[work].cancelRequested && !t.active[work].cancelRequested ==> Named(es, s.active[work].delivery.attempt))
  }

  /** The context of a slot whose attempt is named. */
  predicate HeldByNamed(s: State, c: nat, es: seq<Event>) {
    exists work :: work in s.active && s.active[work].context == Some(c) && Named(es, s.active[work].delivery.attempt)
  }

  /** The contexts are the same, but that of a named attempt's slot may be cancelled in the first only. */
  predicate ContextsAlike(s: State, t: State, es: seq<Event>) {
    && s.contexts.Keys == t.contexts.Keys
    && forall c :: c in s.contexts ==>
         && (t.contexts[c] ==> s.contexts[c])
         && (s.contexts[c] && !t.contexts[c] ==> HeldByNamed(s, c, es))
  }

  /** The states differ in requested cancellations only. */
  predicate Alike(s: State, t: State, es: seq<Event>) {
    && t == s.(active := t.active, contexts := t.contexts)
    && SlotsAlike(s, t, es) && ContextsAlike(s, t, es)
  }

  lemma {:induction false} NamedLater(s: State, t: State, es: seq<Event>, e: Event)
    requires Alike(s, t, es)
    ensures Alike(s, t, es + [e])
  {
    forall attempt | Named(es, attempt) ensures Named(es + [e], attempt) {}
    forall c: nat | HeldByNamed(s, c, es) ensures HeldByNamed(s, c, es + [e]) {
      var work :| work in s.active && s.active[work].context == Some(c) && Named(es, s.active[work].delivery.attempt);
    }
  }

  lemma {:induction false} HeldStill(s: State, after: State, es: seq<Event>)
    requires forall work :: work in s.active && s.active[work].context.Some? ==>
      work in after.active && after.active[work].context == s.active[work].context && after.active[work].delivery == s.active[work].delivery
    ensures forall c: nat :: HeldByNamed(s, c, es) ==> HeldByNamed(after, c, es)
  {
    forall c: nat | HeldByNamed(s, c, es) ensures HeldByNamed(after, c, es) {
      var work :| work in s.active && s.active[work].context == Some(c) && Named(es, s.active[work].delivery.attempt);
      assert after.active[work].context == Some(c);
    }
  }

  /** Nothing but slots and contexts matters. */
  lemma {:induction false} AlikeElsewhere(s: State, t: State, es: seq<Event>, after: State)
    requires Alike(s, t, es) && after.active == s.active && after.contexts == s.contexts
    ensures Alike(after, after.(active := t.active, contexts := t.contexts), es)
  {
    hide Named;
    HeldStill(s, after, es);
  }

  /** A cancellation for another attempt, or for a recovery, changes nothing; none ever frees a slot. */
  lemma {:induction false} CancellationIsConfined(s: State, attempt: WorkAttempt)
    ensures CancelStep(s, attempt).active.Keys == s.active.Keys && CancelStep(s, attempt).executions == s.executions
    ensures attempt.recovery || attempt.work !in s.active || s.active[attempt.work].delivery.attempt != attempt ==>
              CancelStep(s, attempt) == s
    ensures forall work :: work in s.active && work != attempt.work ==> CancelStep(s, attempt).active[work] == s.active[work]
  {}

  /** A cancellation changes only what its attempt's slot holds. */
  lemma {:induction false} CancelAlike(s: State, t: State, es: seq<Event>, attempt: WorkAttempt)
    requires ContextsOk(s) && Alike(s, t, es) && Cancel(attempt) in es
    ensures Alike(CancelStep(s, attempt), t, es)
  {
    var after := CancelStep(s, attempt);
    CancellationIsConfined(s, attempt);
    if after != s {
      HeldStill(s, after, es);
      if s.active[attempt.work].context.Some? {
        assert after.active[attempt.work].context == s.active[attempt.work].context;
      }
    }
  }

  lemma {:induction false} NewContextAlike(s: State, t: State, es: seq<Event>, c: nat)
    requires Alike(s, t, es)
    ensures Alike(s.(contexts := s.contexts[c := true]), t.(contexts := t.contexts[c := true]), es)
  {
    hide Named;
    HeldStill(s, s.(contexts := s.contexts[c := true]), es);
  }

  function WithContext(s: State, work: nat, c: nat): State
    requires work in s.active
  {
    s.(contexts := s.contexts[c := s.active[work].cancelRequested],
       active := s.active[work := s.active[work].(context := Some(c))])
  }

  lemma {:induction false} SlotsWithContext(s: State, t: State, es: seq<Event>, work: nat, c: nat)
    requires SlotsAlike(s, t, es) && work in s.active
    ensures SlotsAlike(WithContext(s, work, c), WithContext(t, work, c), es)
  {
    hide Named;
  }

  lemma {:induction false} OwnContextHeld(s: State, t: State, es: seq<Event>, work: nat, c: nat)
    requires SlotsAlike(s, t, es) && work in s.active && s.active[work].cancelRequested && !t.active[work].cancelRequested
    ensures HeldByNamed(WithContext(s, work, c), c, es)
  {
    hide Named;
    assert WithContext(s, work, c).active[work].context == Some(c);
  }

  lemma {:induction false} ContextsWithContext(s: State, t: State, es: seq<Event>, work: nat, c: nat)
    requires SlotsAlike(s, t, es) && ContextsAlike(s, t, es) && work in s.active && s.active[work].context.None?
    ensures ContextsAlike(WithContext(s, work, c), WithContext(t, work, c), es)
  {
    var after, left := WithContext(s, work, c), WithContext(t, work, c);
    hide HeldByNamed, Named;
    forall x: nat | x in after.contexts
      ensures (left.contexts[x] ==> after.contexts[x]) && (after.contexts[x] && !left.contexts[x] ==> HeldByNamed(after, x, es))
    {
      if x == c {
        if s.active[work].cancelRequested && !t.active[work].cancelRequested { OwnContextHeld(s, t, es, work, c); }
      } else {
        HeldStill(s, after, es);
      }
    }
  }

  lemma {:induction false} SlotContextAlike(s: State, t: State, es: seq<Event>, work: nat, c: nat)
    requires Alike(s, t, es) && work in s.active && s.active[work].context.None?
    ensures work in t.active && Alike(WithContext(s, work, c), WithContext(t, work, c), es)
  {
    SlotsWithContext(s, t, es, work, c);
    ContextsWithContext(s, t, es, work, c);
    hide SlotsAlike, ContextsAlike;
  }

  lemma {:induction false} ContextAlike(s: State, t: State, es: seq<Event>, lease: nat)
    requires Alike(s, t, es)
    ensures Alike(ContextStep(s, lease), ContextStep(t, lease), es)
  {
    if At(s, lease, Launched) && lease !in s.contexts {
      var attempt := s.executions[lease].delivery.attempt;
      assert attempt.work in t.active <==> attempt.work in s.active;
      NewContextAlike(s, t, es, lease);
      if attempt.work in s.active && s.active[attempt.work].context.None? { SlotContextAlike(s, t, es, attempt.work, lease); }
      MovedAlike(s, t, es, lease);
    }
  }

  /** The three ways for an execution to get its context, in both states. */
  lemma {:induction false} MovedAlike(s: State, t: State, es: seq<Event>, lease: nat)
    requires Alike(s, t, es) && At(s, lease, Launched) && lease !in s.contexts
    requires var work := s.executions[lease].delivery.attempt.work;
      && Alike(s.(contexts := s.contexts[lease := true]), t.(contexts := t.contexts[lease := true]), es)
      && (work in s.active && work in t.active && s.active[work].context.None? ==>
            Alike(WithContext(s, work, lease), WithContext(t, work, lease), es))
    ensures Alike(ContextStep(s, lease), ContextStep(t, lease), es)
  {
    var after := ContextStep(s, lease);
    var work := s.executions[lease].delivery.attempt.work;
    if work !in s.active || s.active[work].delivery.attempt != s.executions[lease].delivery.attempt || s.closed {
      AlikeElsewhere(s.(contexts := s.contexts[lease := true]), t.(contexts := t.contexts[lease := true]), es, after);
    } else if s.active[work].context.None? {
      AlikeElsewhere(WithContext(s, work, lease), WithContext(t, work, lease), es, after);
    } else {
      AlikeElsewhere(s, t, es, after);
    }
    hide ContextsAlike, HeldByNamed, Named;
  }

  lemma {:induction false} NewSlotAlike(s: State, t: State, es: seq<Event>, work: nat, slot: Slot)
    requires Alike(s, t, es) && work !in s.active
    ensures Alike(s.(active := s.active[work := slot]), t.(active := t.active[work := slot]), es)
  {
    hide Named;
    HeldStill(s, s.(active := s.active[work := slot]), es);
  }

  /** States that differ in slots and contexts only. */
  predicate Beside(s: State, t: State) { t == s.(active := t.active, contexts := t.contexts) }

  lemma {:induction false} SubmitBeside(s: State, t: State, e: Event)
    requires Beside(s, t) && e.Submit?
    requires SubmitOutcome(s, e.lease, e.delivery, e.available, e.begun, e.volumes, e.configs) ==
             SubmitOutcome(t, e.lease, e.delivery, e.available, e.begun, e.volumes, e.configs)
    ensures Beside(Step(s, e), Step(t, e))
  {
    hide SubmitOutcome;
  }

  lemma {:induction false} SubmitSlot(s: State, e: Event)
    requires e.Submit?
    ensures Step(s, e).contexts == s.contexts
    ensures Step(s, e).active == if SubmitOutcome(s, e.lease, e.delivery, e.available, e.begun, e.volumes, e.configs) == Accepted then
                                   s.active[e.delivery.attempt.work := Slot(e.delivery, None, false)]
                                 else s.active
  {
    hide SubmitOutcome;
  }

  lemma {:induction false} SubmitAlike(s: State, t: State, es: seq<Event>, e: Event)
    requires Alike(s, t, es) && e.Submit?
    ensures Alike(Step(s, e), Step(t, e), es)
  {
    var work, slot := e.delivery.attempt.work, Slot(e.delivery, None, false);
    SameOutcome(s, t, es, e);
    SubmitBeside(s, t, e);
    SubmitSlot(s, e);
    SubmitSlot(t, e);
    if SubmitOutcome(s, e.lease, e.delivery, e.available, e.begun, e.volumes, e.configs) == Accepted {
      assert work !in s.active;
      hide *;
      NewSlotAlike(s, t, es, work, slot);
      AlikeElsewhere(s.(active := s.active[work := slot]), t.(active := t.active[work := slot]), es, Step(s, e));
      BesideIs(Step(s, e), Step(t, e));
    } else {
      hide *;
      AlikeElsewhere(s, t, es, Step(s, e));
      BesideIs(Step(s, e), Step(t, e));
    }
  }

  lemma {:induction false} BesideIs(s: State, t: State)
    requires Beside(s, t)
    ensures t == s.(active := t.active, contexts := t.contexts)
  {}

  lemma {:induction false} SameOutcome(s: State, t: State, es: seq<Event>, e: Event)
    requires Alike(s, t, es) && e.Submit?
    ensures SubmitOutcome(s, e.lease, e.delivery, e.available, e.begun, e.volumes, e.configs) ==
            SubmitOutcome(t, e.lease, e.delivery, e.available, e.begun, e.volumes, e.configs)
  {
    assert |s.active| == |s.active.Keys| && |t.active| == |t.active.Keys|;
  }

  lemma {:induction false} RetireAlike(s: State, t: State, es: seq<Event>, work: nat)
    requires ContextsOk(s) && Alike(s, t, es)
    ensures Alike(Retire(s, work), Retire(t, work), es)
  {
    var after := Retire(s, work);
    if work in s.active {
      forall c: nat | HeldByNamed(s, c, es) && s.active[work].context != Some(c) ensures HeldByNamed(after, c, es) {
        var other :| other in s.active && s.active[other].context == Some(c) && Named(es, s.active[other].delivery.attempt);
        assert other in after.active && after.active[other].context == Some(c);
      }
    }
  }

  lemma {:induction false} ConsumeAlike(s: State, t: State, es: seq<Event>, commands: nat, decoded: bool, retired: bool)
    requires ContextsOk(s) && Alike(s, t, es)
    ensures Alike(ConsumeStep(s, commands, decoded, retired), ConsumeStep(t, commands, decoded, retired), es)
  {
    hide Frees, Retire;
    if s.outputs != [] {
      var rest, left := s.(outputs := s.outputs[1..]), t.(outputs := t.outputs[1..]);
      AlikeElsewhere(s, t, es, rest);
      assert left == rest.(active := t.active, contexts := t.contexts);
      RetireAlike(rest, left, es, s.outputs[0].attempt.work);
    }
  }

  /** Steps of one execution, and the close, look neither at requests nor at contexts. */
  lemma {:induction false} OtherBeside(s: State, t: State, e: Event)
    requires Beside(s, t) && (e.Finish? || e.Send? || e.Drop? || e.Release? || e.Close?)
    ensures Beside(Step(s, e), Step(t, e))
  {}

  lemma {:induction false} OtherKeeps(s: State, e: Event)
    requires e.Finish? || e.Send? || e.Drop? || e.Release? || e.Close?
    ensures Step(s, e).active == s.active && Step(s, e).contexts == s.contexts
  {}

  lemma {:induction false} OtherAlike(s: State, t: State, es: seq<Event>, e: Event)
    requires Alike(s, t, es) && (e.Finish? || e.Send? || e.Drop? || e.Release? || e.Close?)
    ensures Alike(Step(s, e), Step(t, e), es)
  {
    hide Step, SlotsAlike, ContextsAlike;
    OtherBeside(s, t, e);
    OtherKeeps(s, e);
    OtherKeeps(t, e);
    AlikeElsewhere(s, t, es, Step(s, e));
  }

  lemma {:induction false} StepAlike(s: State, t: State, es: seq<Event>, e: Event)
    requires ContextsOk(s) && Alike(s, t, es) && !e.Cancel?
    ensures Alike(Step(s, e), Step(t, e), es)
  {
    hide Alike, ContextStep, ConsumeStep, SubmitStep, ContextsOk;
    if e.CreateContext? {
      ContextAlike(s, t, es, e.lease);
    } else if e.Consume? {
      ConsumeAlike(s, t, es, e.commands, e.decoded, e.retired);
    } else if e.Submit? {
      SubmitAlike(s, t, es, e);
    } else {
      OtherAlike(s, t, es, e);
    }
  }

  /**
   Cancellations are confined over every run: without any of them, the same other events make the same executions, slots,
   results, leases and transfers. Only a named attempt's request and its own context may differ, and the context
   only as long as the attempt has its slot.
   */
  lemma {:induction false} CancellationsAreConfined(limit: nat, es: seq<Event>)
    ensures Alike(Run(Start(limit), es), Run(Start(limit), Uncancelled(es)), es)
    decreases |es|
  {
    hide Step, Alike, ContextsOk, Sound;
    if es == [] {
      NothingCancelled(limit);
    } else {
      var before, e := es[..|es| - 1], es[|es| - 1];
      assert before + [e] == es;
      CancellationsAreConfined(limit, before);
      RunsAreSound(limit, before);
      SoundContexts(Run(Start(limit), before));
      NamedLater(Run(Start(limit), before), Run(Start(limit), Uncancelled(before)), before, e);
      if e.Cancel? {
        CancelAlike(Run(Start(limit), before), Run(Start(limit), Uncancelled(before)), es, e.attempt);
        CancelIs(Run(Start(limit), before), e);
      } else {
        StepAlike(Run(Start(limit), before), Run(Start(limit), Uncancelled(before)), es, e);
        var rest := Uncancelled(before) + [e];
        assert rest[..|rest| - 1] == Uncancelled(before);
      }
    }
  }

  lemma {:induction false} NothingCancelled(limit: nat)
    ensures Alike(Run(Start(limit), []), Run(Start(limit), Uncancelled([])), [])
  {}

  lemma {:induction false} CancelIs(s: State, e: Event)
    requires e.Cancel?
    ensures Step(s, e) == CancelStep(s, e.attempt)
  {}

  lemma {:induction false} SoundContexts(s: State)
    requires Sound(s)
    ensures ContextsOk(s)
  {}
}
