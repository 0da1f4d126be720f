/** The execution slot theorems, over every run of a worker session. */
module ExecutionTheorems {
  import opened Outcomes
  import opened ExecutionResults
  import opened ExecutionSlots
  import opened ExecutionRuns

  ghost function WorkingSet(s: State): set<nat> { set lease | lease in s.executions && Working(s, lease) }

  function Senders(outputs: seq<Output>): set<nat> { set n | 0 <= n < |outputs| :: outputs[n].sender }

  lemma {:induction false} SendersCount(outputs: seq<Output>)
    requires forall m, n :: 0 <= m < n < |outputs| ==> outputs[m].sender != outputs[n].sender
    ensures |Senders(outputs)| == |outputs|
    decreases |outputs|
  {
    if outputs != [] {
      var before, last := outputs[..|outputs| - 1], outputs[|outputs| - 1];
      SendersCount(before);
      assert Senders(outputs) == Senders(before) + {last.sender} by {
        forall x | x in Senders(outputs) ensures x in Senders(before) + {last.sender} {
          var n :| 0 <= n < |outputs| && outputs[n].sender == x;
          if n < |before| { assert before[n].sender == x; }
        }
        forall x | x in Senders(before) ensures x in Senders(outputs) {
          var n :| 0 <= n < |before| && before[n].sender == x;
          assert outputs[n].sender == x;
        }
        assert outputs[|outputs| - 1].sender in Senders(outputs);
      }
      assert last.sender !in Senders(before);
    }
  }

  /** Distinct occupants own distinct slots. */
  lemma {:induction false} FewerThanSlots(s: State, leases: set<nat>, works: set<nat>)
    requires SlotsOk(s)
    requires forall lease :: lease in leases ==> Occupies(s, lease) && WorkOf(s, lease) in works
    ensures |leases| <= |works|
    decreases leases
  {
    if leases != {} {
      var lease :| lease in leases;
      var work := WorkOf(s, lease);
      FewerThanSlots(s, leases - {lease}, works - {work});
    }
  }

  /** Occupants fit their slots; whoever holds a result finds room in the channel. */
  lemma {:induction false} OccupantsFit(s: State)
    requires SlotsOk(s)
    ensures |WorkingSet(s)| + |s.outputs| <= |s.active| <= s.limit
    ensures forall lease :: lease in s.executions && s.executions[lease].stage.Holding? ==> |s.outputs| < s.limit
  {
    SendersCount(s.outputs);
    var both := WorkingSet(s) + Senders(s.outputs);
    forall lease | lease in both ensures Occupies(s, lease) && WorkOf(s, lease) in s.active.Keys {
      if lease in Senders(s.outputs) {
        var n :| 0 <= n < |s.outputs| && s.outputs[n].sender == lease;
        assert Queued(s, lease);
      }
      assert Owns(s, lease);
    }
    FewerThanSlots(s, both, s.active.Keys);
    assert WorkingSet(s) * Senders(s.outputs) == {};
    forall lease | lease in s.executions && s.executions[lease].stage.Holding? ensures |s.outputs| < s.limit {
      assert lease in WorkingSet(s);
    }
  }

  /**
   Running executions and queued results together never exceed the accepted slots, and these never exceed
   the limit; so whoever holds a result finds room in the channel and its send cannot block.
   */
  lemma {:induction false} CapacityHolds(limit: nat, es: seq<Event>)
    ensures var s := Run(Start(limit), es);
      && |WorkingSet(s)| + |s.outputs| <= |s.active| <= limit
      && (forall lease :: lease in s.executions && s.executions[lease].stage.Holding? ==> |s.outputs| < limit)
  {
    RunsAreSound(limit, es);
    LimitStays(limit, es);
    OccupantsFit(Run(Start(limit), es));
  }

  lemma {:induction false} LimitStays(limit: nat, es: seq<Event>)
    ensures Run(Start(limit), es).limit == limit
    decreases |es|
  {
    hide Step;
    if es != [] {
      LimitStays(limit, es[..|es| - 1]);
      StepLimit(Run(Start(limit), es[..|es| - 1]), es[|es| - 1]);
    }
  }

  lemma {:induction false} StepLimit(s: State, e: Event)
    ensures Step(s, e).limit == s.limit
  {
    hide Frees;
  }

  /** A work item has at most one execution or queued result, and delivering it again changes nothing. */
  lemma {:induction false} RedeliveryChangesNothing(limit: nat, es: seq<Event>, lease: nat, e: Event)
    requires Occupies(Run(Start(limit), es), lease) && !Run(Start(limit), es).closed
    requires e.Submit? && e.delivery == Run(Start(limit), es).executions[lease].delivery
    ensures var s := Run(Start(limit), es);
      && Step(s, e) == s
      && SubmitOutcome(s, e.lease, e.delivery, e.available, e.begun, e.volumes, e.configs) == Redelivered
      && forall other :: Occupies(s, other) && WorkOf(s, other) == e.delivery.attempt.work ==> other == lease
  {
    var s := Run(Start(limit), es);
    RunsAreSound(limit, es);
    assert Owns(s, lease);
  }

  /** Every ownership lease ever begun is closed at most once, and exactly once when its execution has ended or was refused. */
  lemma {:induction false} LeasesCloseOnce(limit: nat, es: seq<Event>, lease: nat)
    requires lease in Run(Start(limit), es).closes
    ensures var s := Run(Start(limit), es);
      s.closes[lease] == if lease in s.executions && (s.executions[lease].stage.Launched? || s.executions[lease].stage.Running?) then 0 else 1
  {
    RunsAreSound(limit, es);
  }

  /** Once every execution is joined nothing is left open: no lease, no transfer. */
  lemma {:induction false} JoinedLeavesNothing(limit: nat, es: seq<Event>)
    requires var s := Run(Start(limit), es); forall lease :: lease in s.executions ==> s.executions[lease].stage.Gone?
    ensures var s := Run(Start(limit), es);
      && s.volumes == {} && s.configs == {}
      && forall lease :: lease in s.closes ==> s.closes[lease] == 1
  {
    RunsAreSound(limit, es);
    var s := Run(Start(limit), es);
    assert forall lease, id, c :: !Holds(s, lease, id, c);
  }

  /**
   A slot is freed exactly when a queued result of its own execution is consumed and that result frees it:
   never by a cancellation, an expiry, a close, a refused result or a failed retirement.
   */
  lemma {:induction false} SlotFreedOnlyByItsResult(limit: nat, es: seq<Event>, e: Event, work: nat)
    requires work in Run(Start(limit), es).active
    ensures var s := Run(Start(limit), es);
      work !in Step(s, e).active <==>
        && e.Consume? && s.outputs != [] && s.outputs[0].attempt == s.active[work].delivery.attempt
        && s.outputs[0].sender in s.executions && s.executions[s.outputs[0].sender].delivery == s.active[work].delivery
        && Frees(s.active[work].delivery.kind, s.outputs[0].attempt, s.outputs[0].result, e.commands, e.decoded, e.retired)
  {
    hide Frees;
    var s := Run(Start(limit), es);
    RunsAreSound(limit, es);
    hide Run;
    WorkKeys(limit, es, work);
    if e.Consume? && s.outputs != [] {
      var first := s.outputs[0].sender;
      assert Queued(s, first);
      assert Owns(s, first);
    }
  }

  /** A slot stands under the work item of its attempt. */
  lemma {:induction false} WorkKeys(limit: nat, es: seq<Event>, work: nat)
    requires work in Run(Start(limit), es).active
    ensures Run(Start(limit), es).active[work].delivery.attempt.work == work
    decreases |es|
  {
    hide Step;
    if es != [] {
      var before := Run(Start(limit), es[..|es| - 1]);
      if work in before.active {
        WorkKeys(limit, es[..|es| - 1], work);
      }
      StepWorkKeys(before, es[|es| - 1], work);
    }
  }

  lemma {:induction false} StepWorkKeys(s: State, e: Event, work: nat)
    requires work in s.active ==> s.active[work].delivery.attempt.work == work
    requires work in Step(s, e).active
    ensures Step(s, e).active[work].delivery.attempt.work == work
  {
    hide Frees;
  }

  /** The cancellation of this execution was requested before its context exists, or its context is cancelled. */
  predicate Requested(s: State, lease: nat) {
    lease in s.executions &&
    match s.executions[lease].stage
    case Launched => s.closed || (Owns(s, lease) && s.active[WorkOf(s, lease)].cancelRequested)
    case Running(context) => Cancelled(s, context)
    case _ => true
  }

  lemma {:induction false} RequestedByConsume(s: State, lease: nat, commands: nat, decoded: bool, retired: bool)
    requires SlotsOk(s) && Requested(s, lease)
    ensures Requested(ConsumeStep(s, commands, decoded, retired), lease)
  {
    hide Frees;
    if s.outputs != [] {
      var first := s.outputs[0].sender;
      assert Queued(s, first);
      assert Owns(s, first);
      if s.executions[lease].stage.Launched? && !s.closed {
        assert Occupies(s, lease) && Occupies(s, first);
        assert lease != first;
      }
    }
  }

  lemma {:induction false} RequestedByContext(s: State, lease: nat, other: nat)
    requires SlotsOk(s) && ContextsOk(s) && Requested(s, lease)
    ensures Requested(ContextStep(s, other), lease)
  {
    if s.executions[lease].stage.Launched? && other in s.executions && s.executions[other].stage.Launched? {
      assert Occupies(s, lease) && Occupies(s, other);
    }
  }

  lemma {:induction false} RequestedBySubmit(s: State, lease: nat, other: nat, d: Delivery, available: int, begun: bool, volumes: bool, configs: bool)
    requires LeasesOk(s) && Requested(s, lease)
    ensures Requested(SubmitStep(s, other, d, available, begun, volumes, configs), lease)
  {}

  lemma {:induction false} RequestedStays(s: State, lease: nat, e: Event)
    requires Sound(s) && Requested(s, lease)
    ensures Requested(Step(s, e), lease)
  {
    hide SlotsOk;
    hide TransfersOk;
    hide LeasesOk;
    hide ContextsOk;
    hide ConsumeStep;
    hide ContextStep;
    hide SubmitStep;
    if e.Consume? {
      RequestedByConsume(s, lease, e.commands, e.decoded, e.retired);
    } else if e.CreateContext? {
      RequestedByContext(s, lease, e.lease);
    } else if e.Submit? {
      RequestedBySubmit(s, lease, e.lease, e.delivery, e.available, e.begun, e.volumes, e.configs);
    }
  }

  lemma {:induction false} RequestedThroughout(limit: nat, es: seq<Event>, more: seq<Event>, lease: nat)
    requires Requested(Run(Start(limit), es), lease)
    ensures Requested(Run(Start(limit), es + more), lease)
    decreases |more|
  {
    hide Step;
    hide Requested;
    if more == [] {
      assert es + more == es;
    } else {
      var all := es + more;
      assert all[..|all| - 1] == es + more[..|more| - 1];
      RequestedThroughout(limit, es, more[..|more| - 1], lease);
      RunsAreSound(limit, all[..|all| - 1]);
      RequestedStays(Run(Start(limit), all[..|all| - 1]), lease, all[|all| - 1]);
    }
  }

  /**
   A cancellation of a slot's own forward attempt takes effect whether it comes before or after the
   execution's context exists: whenever that execution runs afterwards, its context is cancelled.
   */
  lemma {:induction false} MatchingCancelTakesEffect(limit: nat, es: seq<Event>, attempt: WorkAttempt, more: seq<Event>, lease: nat, context: nat)
    requires !attempt.recovery
    requires var s := Run(Start(limit), es); Working(s, lease) && s.executions[lease].delivery.attempt == attempt
    requires At(Run(Start(limit), es + [Cancel(attempt)] + more), lease, Running(context))
    ensures Cancelled(Run(Start(limit), es + [Cancel(attempt)] + more), context)
  {
    var s := Run(Start(limit), es);
    var all := es + [Cancel(attempt)];
    assert all[..|all| - 1] == es;
    RunsAreSound(limit, es);
    ContextIsSlots(limit, es, lease);
    assert Owns(s, lease) by { assert Occupies(s, lease); }
    hide Run;
    assert Run(Start(limit), all) == CancelStep(s, attempt) by { LastStep(limit, es, Cancel(attempt)); }
    assert Requested(CancelStep(s, attempt), lease);
    RequestedThroughout(limit, all, more, lease);
  }

  lemma {:induction false} LastStep(limit: nat, es: seq<Event>, e: Event)
    ensures Run(Start(limit), es + [e]) == Step(Run(Start(limit), es), e)
  {
    var all := es + [e];
    assert all[..|all| - 1] == es;
  }

  /** A running execution has its slot's own context, or one that is cancelled already. */
  predicate OwnContext(s: State, lease: nat) {
    lease in s.executions && s.executions[lease].stage.Running? ==>
      || Cancelled(s, s.executions[lease].stage.context)
      || (Owns(s, lease) && s.active[WorkOf(s, lease)].context == Some(s.executions[lease].stage.context))
  }

  lemma {:induction false} OwnContextByConsume(s: State, lease: nat, commands: nat, decoded: bool, retired: bool)
    requires SlotsOk(s) && OwnContext(s, lease)
    ensures OwnContext(ConsumeStep(s, commands, decoded, retired), lease)
  {
    hide Frees;
    if s.outputs != [] {
      var first := s.outputs[0].sender;
      assert Queued(s, first);
      assert Owns(s, first);
    }
  }

  lemma {:induction false} OwnContextByContext(s: State, lease: nat, other: nat)
    requires SlotsOk(s) && ContextsOk(s) && OwnContext(s, lease)
    ensures OwnContext(ContextStep(s, other), lease)
  {
    if lease in s.executions && other in s.executions && s.executions[other].stage.Launched? {
      assert Occupies(s, other);
      assert Owns(s, other);
      if s.executions[lease].stage.Running? { assert Occupies(s, lease); }
    }
  }

  lemma {:induction false} OwnContextBySubmit(s: State, lease: nat, other: nat, d: Delivery, available: int, begun: bool, volumes: bool, configs: bool)
    requires LeasesOk(s) && OwnContext(s, lease)
    ensures OwnContext(SubmitStep(s, other, d, available, begun, volumes, configs), lease)
  {}

  lemma {:induction false} OwnContextStays(s: State, lease: nat, e: Event)
    requires Sound(s) && OwnContext(s, lease)
    ensures OwnContext(Step(s, e), lease)
  {
    hide SlotsOk;
    hide TransfersOk;
    hide LeasesOk;
    hide ContextsOk;
    hide ConsumeStep;
    hide ContextStep;
    hide SubmitStep;
    if e.Consume? {
      OwnContextByConsume(s, lease, e.commands, e.decoded, e.retired);
    } else if e.CreateContext? {
      OwnContextByContext(s, lease, e.lease);
    } else if e.Submit? {
      OwnContextBySubmit(s, lease, e.lease, e.delivery, e.available, e.begun, e.volumes, e.configs);
    }
  }

  lemma {:induction false} ContextIsSlots(limit: nat, es: seq<Event>, lease: nat)
    ensures OwnContext(Run(Start(limit), es), lease)
    decreases |es|
  {
    hide Step;
    if es != [] {
      ContextIsSlots(limit, es[..|es| - 1], lease);
      RunsAreSound(limit, es[..|es| - 1]);
      hide OwnContext;
      OwnContextStays(Run(Start(limit), es[..|es| - 1]), lease, es[|es| - 1]);
    }
  }
}
