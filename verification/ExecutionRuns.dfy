/** What every run of the execution slots keeps, over every interleaving of submissions, completions, cancellations and close. */
module ExecutionRuns {
  import opened Outcomes
  import opened ExecutionResults
  import opened ExecutionSlots

  predicate Occupies(s: State, lease: nat) { lease in s.executions && (Working(s, lease) || Queued(s, lease)) }

  function WorkOf(s: State, lease: nat): nat
    requires lease in s.executions
  {
    s.executions[lease].delivery.attempt.work
  }

  /** Queued results come from distinct executions that are past the channel. */
  predicate QueueOk(s: State) {
    && |s.outputs| <= s.limit
    && (forall n :: 0 <= n < |s.outputs| ==>
          && s.outputs[n].sender in s.executions
          && (s.executions[s.outputs[n].sender].stage.Past? || s.executions[s.outputs[n].sender].stage.Gone?)
          && s.outputs[n].attempt == s.executions[s.outputs[n].sender].delivery.attempt)
    && (forall m, n :: 0 <= m < n < |s.outputs| ==> s.outputs[m].sender != s.outputs[n].sender)
  }

  predicate HoldingOk(s: State, lease: nat) {
    lease in s.executions && s.executions[lease].stage.Holding? ==>
      s.executions[lease].stage.output.attempt == s.executions[lease].delivery.attempt && s.executions[lease].stage.output.sender == lease
  }

  /** Its slot is the one its delivery was accepted under. */
  predicate Owns(s: State, lease: nat) {
    lease in s.executions && WorkOf(s, lease) in s.active && s.active[WorkOf(s, lease)].delivery == s.executions[lease].delivery
  }

  /** Every occupant owns a slot of its own. */
  ghost predicate SlotsOk(s: State) {
    && QueueOk(s)
    && |s.active| <= s.limit
    && (forall lease :: HoldingOk(s, lease))
    && (forall lease :: Occupies(s, lease) ==> Owns(s, lease))
    && (forall a, b :: Occupies(s, a) && Occupies(s, b) && WorkOf(s, a) == WorkOf(s, b) ==> a == b)
  }

  /** Leases are closed once their operation ended, and a refused submission closes its own. */
  predicate LeasesOk(s: State) {
    && (forall lease :: lease in s.executions ==> lease in s.closes)
    && (forall lease :: lease in s.executions ==>
          s.closes[lease] == if s.executions[lease].stage.Launched? || s.executions[lease].stage.Running? then 0 else 1)
    && (forall lease :: lease in s.closes && lease !in s.executions ==> s.closes[lease] == 1)
  }

  /** A slot's context is cancelled once that was requested; a running execution has its slot's context or a cancelled one. */
  predicate ContextsOk(s: State) {
    && (forall work :: work in s.active && s.active[work].context.Some? ==>
          s.active[work].context.value in s.contexts &&
          (s.active[work].cancelRequested ==> s.contexts[s.active[work].context.value]))
    && (forall lease :: lease in s.executions && s.executions[lease].stage.Running? ==> s.executions[lease].stage.context in s.contexts)
    && (forall c :: c in s.contexts ==> c in s.executions && !s.executions[c].stage.Launched?)
  }

  /** Who holds a registered transfer. */
  predicate Holds(s: State, lease: nat, id: nat, configs: bool) {
    && lease in s.executions && !s.executions[lease].stage.Gone?
    && s.executions[lease].delivery.attempt.id == id
    && (if configs then s.executions[lease].delivery.kind.Backup? else TransfersVolumes(s.executions[lease].delivery.kind))
  }

  ghost predicate TransfersOk(s: State) {
    && (forall id :: id in s.volumes <==> exists lease :: Holds(s, lease, id, false))
    && (forall id :: id in s.configs <==> exists lease :: Holds(s, lease, id, true))
    && (forall a, b, id, configs :: Holds(s, a, id, configs) && Holds(s, b, id, configs) ==> a == b)
  }

  /** An event after which no execution newly occupies capacity. */
  lemma {:induction false} SlotsShrink(s: State, t: State)
    requires SlotsOk(s) && QueueOk(t) && |t.active| <= t.limit
    requires forall lease :: HoldingOk(t, lease)
    requires forall lease :: Occupies(t, lease) ==> Occupies(s, lease) && Owns(t, lease) && WorkOf(t, lease) == WorkOf(s, lease)
    ensures SlotsOk(t)
  {}

  lemma {:induction false} SubmitSlots(s: State, lease: nat, d: Delivery, available: int, begun: bool, volumes: bool, configs: bool)
    requires SlotsOk(s) && LeasesOk(s)
    ensures SlotsOk(SubmitStep(s, lease, d, available, begun, volumes, configs))
  {
    var t := SubmitStep(s, lease, d, available, begun, volumes, configs);
    if SubmitOutcome(s, lease, d, available, begun, volumes, configs).Accepted? {
      assert lease !in s.executions;
      assert t.active.Keys == s.active.Keys + {d.attempt.work};
      assert !Queued(s, lease);
      hide SubmitOutcome;
      hide LeasesOk;
      forall other ensures HoldingOk(t, other) { assert HoldingOk(s, other); }
      forall other | Occupies(t, other) ensures Owns(t, other) && (other != lease ==> Occupies(s, other) && WorkOf(s, other) != d.attempt.work) {
        if other != lease { assert Occupies(s, other); assert Owns(s, other); }
      }
    } else {
      SameSlots(s, t);
    }
  }

  lemma {:induction false} SameSlots(s: State, t: State)
    requires SlotsOk(s) && t.executions == s.executions && t.active == s.active && t.outputs == s.outputs && t.limit == s.limit
    ensures SlotsOk(t)
  {
    forall lease ensures HoldingOk(t, lease) { assert HoldingOk(s, lease); }
    forall lease | Occupies(t, lease) ensures Occupies(s, lease) && Owns(t, lease) { assert Occupies(s, lease); assert Owns(s, lease); }
    SlotsShrink(s, t);
  }

  /** One execution moves on without newly occupying capacity. */
  lemma {:induction false} MoveSlots(s: State, t: State, lease: nat)
    requires SlotsOk(s) && lease in s.executions && lease in t.executions && t.limit == s.limit && t.active.Keys == s.active.Keys
    requires forall work :: work in s.active ==> t.active[work].delivery == s.active[work].delivery
    requires t.executions == s.executions[lease := s.executions[lease].(stage := t.executions[lease].stage)]
    requires t.outputs == s.outputs && HoldingOk(t, lease)
    requires Working(t, lease) ==> Working(s, lease)
    requires s.executions[lease].stage.Past? || s.executions[lease].stage.Gone? ==>
               t.executions[lease].stage.Past? || t.executions[lease].stage.Gone?
    ensures SlotsOk(t)
  {
    assert |t.active| == |t.active.Keys| && |s.active| == |s.active.Keys|;
    forall other ensures HoldingOk(t, other) { assert HoldingOk(s, other); }
    forall other | Occupies(t, other) ensures Occupies(s, other) && Owns(t, other) {
      assert Queued(t, other) ==> Queued(s, other);
      assert Owns(s, other);
    }
    SlotsShrink(s, t);
  }

  lemma {:induction false} ContextSlots(s: State, lease: nat)
    requires SlotsOk(s)
    ensures SlotsOk(ContextStep(s, lease))
  {
    if ContextStep(s, lease) != s {
      assert HoldingOk(s, lease);
      MoveSlots(s, ContextStep(s, lease), lease);
    }
  }

  lemma {:induction false} EndSlots(s: State, e: Event)
    requires SlotsOk(s) && (e.Finish? || e.Drop? || e.Release?)
    ensures SlotsOk(Step(s, e))
  {
    if Step(s, e) != s {
      assert HoldingOk(s, e.lease);
      MoveSlots(s, Step(s, e), e.lease);
    }
  }

  lemma {:induction false} CancelSlots(s: State, attempt: WorkAttempt)
    requires SlotsOk(s)
    ensures SlotsOk(CancelStep(s, attempt))
  {
    var t := CancelStep(s, attempt);
    if t != s {
      assert t.active.Keys == s.active.Keys;
      forall lease ensures HoldingOk(t, lease) { assert HoldingOk(s, lease); }
      forall lease | Occupies(t, lease) ensures Occupies(s, lease) && Owns(t, lease) {
        assert Queued(t, lease) ==> Queued(s, lease);
        assert Owns(s, lease);
      }
      SlotsShrink(s, t);
    }
  }

  lemma {:induction false} SendSlots(s: State, lease: nat)
    requires SlotsOk(s)
    ensures SlotsOk(SendStep(s, lease))
  {
    var t := SendStep(s, lease);
    if t != s {
      assert HoldingOk(s, lease);
      forall n | 0 <= n < |t.outputs| && t.outputs[n].sender == lease ensures n == |s.outputs| {}
      forall other ensures HoldingOk(t, other) { assert HoldingOk(s, other); }
      forall other | Occupies(t, other) ensures Occupies(s, other) && Owns(t, other) {
        if other != lease && Queued(t, other) {
          var n :| 0 <= n < |t.outputs| && t.outputs[n].sender == other;
          assert s.outputs[n].sender == other;
        }
        assert Owns(s, other);
      }
      SlotsShrink(s, t);
    }
  }

  lemma {:induction false} ConsumeShape(s: State, commands: nat, decoded: bool, retired: bool)
    requires SlotsOk(s) && s.outputs != []
    ensures var t := ConsumeStep(s, commands, decoded, retired);
      var first := s.outputs[0].sender;
      && Occupies(s, first) && Owns(s, first)
      && t.outputs == s.outputs[1..] && t.executions == s.executions && t.limit == s.limit
      && (t.active == s.active || t.active == s.active - {WorkOf(s, first)})
  {
    hide Frees;
    var first := s.outputs[0].sender;
    assert Queued(s, first);
    assert Owns(s, first);
  }

  lemma {:induction false} ConsumeSlots(s: State, commands: nat, decoded: bool, retired: bool)
    requires SlotsOk(s)
    ensures SlotsOk(ConsumeStep(s, commands, decoded, retired))
  {
    hide ConsumeStep;
    var t := ConsumeStep(s, commands, decoded, retired);
    if s.outputs == [] {
      NothingToConsume(s, commands, decoded, retired);
    } else {
      var first := s.outputs[0].sender;
      ConsumeShape(s, commands, decoded, retired);
      RemovedFewer(s.active, WorkOf(s, first));
      forall other ensures HoldingOk(t, other) { assert HoldingOk(s, other); }
      forall other | Occupies(t, other) ensures Occupies(s, other) && Owns(t, other) {
        if Queued(t, other) {
          var n :| 0 <= n < |t.outputs| && t.outputs[n].sender == other;
          assert s.outputs[n + 1].sender == other;
        }
        assert Owns(s, other);
        assert other != first;
      }
      SlotsShrink(s, t);
    }
  }

  lemma {:induction false} NothingToConsume(s: State, commands: nat, decoded: bool, retired: bool)
    requires s.outputs == []
    ensures ConsumeStep(s, commands, decoded, retired) == s
  {}

  lemma {:induction false} RemovedFewer(active: map<nat, Slot>, work: nat)
    ensures |active - {work}| <= |active|
  {
    assert (active - {work}).Keys == active.Keys - {work};
  }

  lemma {:induction false} StepKeepsSlots(s: State, e: Event)
    requires SlotsOk(s) && LeasesOk(s)
    ensures SlotsOk(Step(s, e))
  {
    hide SlotsOk;
    hide LeasesOk;
    hide SubmitStep;
    hide ContextStep;
    hide SendStep;
    hide ConsumeStep;
    hide CancelStep;
    match e
    case Submit(lease, d, available, begun, volumes, configs) => SubmitSlots(s, lease, d, available, begun, volumes, configs);
    case CreateContext(lease) => ContextSlots(s, lease);
    case Send(lease) => SendSlots(s, lease);
    case Consume(commands, decoded, retired) => ConsumeSlots(s, commands, decoded, retired);
    case Cancel(attempt) => CancelSlots(s, attempt);
    case Close => SameSlots(s, s.(closed := true));
    case _ => EndSlots(s, e);
  }

  lemma {:induction false} SubmitLeases(s: State, e: Event)
    requires LeasesOk(s) && e.Submit?
    ensures LeasesOk(Step(s, e))
  {}

  lemma {:induction false} MoveLeases(s: State, e: Event)
    requires LeasesOk(s) && (e.CreateContext? || e.Finish? || e.Send? || e.Drop? || e.Release?)
    ensures LeasesOk(Step(s, e))
  {}

  lemma {:induction false} StepKeepsLeases(s: State, e: Event)
    requires LeasesOk(s)
    ensures LeasesOk(Step(s, e))
  {
    if e.Submit? {
      SubmitLeases(s, e);
    } else if e.CreateContext? || e.Finish? || e.Send? || e.Drop? || e.Release? {
      MoveLeases(s, e);
    } else {
      hide Frees;
      assert Step(s, e).executions == s.executions && Step(s, e).closes == s.closes;
    }
  }

  lemma {:induction false} SubmitContexts(s: State, lease: nat, d: Delivery, available: int, begun: bool, volumes: bool, configs: bool)
    requires LeasesOk(s) && ContextsOk(s)
    ensures ContextsOk(SubmitStep(s, lease, d, available, begun, volumes, configs))
  {}

  lemma {:induction false} CreateContexts(s: State, lease: nat)
    requires ContextsOk(s)
    ensures ContextsOk(ContextStep(s, lease))
  {}

  lemma {:induction false} ConsumeContexts(s: State, commands: nat, decoded: bool, retired: bool)
    requires ContextsOk(s)
    ensures ContextsOk(ConsumeStep(s, commands, decoded, retired))
  {
    hide Frees;
  }

  lemma {:induction false} CancelContexts(s: State, attempt: WorkAttempt)
    requires ContextsOk(s)
    ensures ContextsOk(CancelStep(s, attempt))
  {}

  lemma {:induction false} EndContexts(s: State, e: Event)
    requires ContextsOk(s) && (e.Finish? || e.Send? || e.Drop? || e.Release? || e.Close?)
    ensures ContextsOk(Step(s, e))
  {}

  lemma {:induction false} StepKeepsContexts(s: State, e: Event)
    requires LeasesOk(s) && ContextsOk(s)
    ensures ContextsOk(Step(s, e))
  {
    hide LeasesOk;
    hide ContextsOk;
    hide SubmitStep;
    hide ContextStep;
    hide ConsumeStep;
    hide CancelStep;
    match e
    case Submit(lease, d, available, begun, volumes, configs) => SubmitContexts(s, lease, d, available, begun, volumes, configs);
    case CreateContext(lease) => CreateContexts(s, lease);
    case Consume(commands, decoded, retired) => ConsumeContexts(s, commands, decoded, retired);
    case Cancel(attempt) => CancelContexts(s, attempt);
    case _ => EndContexts(s, e);
  }

  /** A submission adds one holder when it is accepted, and none otherwise. */
  lemma {:induction false} SubmitHolders(s: State, lease: nat, d: Delivery, available: int, begun: bool, volumes: bool, configs: bool, other: nat, id: nat, c: bool)
    requires LeasesOk(s)
    ensures var t := SubmitStep(s, lease, d, available, begun, volumes, configs);
      var accepted := SubmitOutcome(s, lease, d, available, begun, volumes, configs).Accepted?;
      Holds(t, other, id, c) <==>
        Holds(s, other, id, c) || (accepted && other == lease && id == d.attempt.id && if c then d.kind.Backup? else TransfersVolumes(d.kind))
  {}

  lemma {:induction false} SubmitTransfers(s: State, lease: nat, d: Delivery, available: int, begun: bool, volumes: bool, configs: bool)
    requires TransfersOk(s) && LeasesOk(s)
    ensures TransfersOk(SubmitStep(s, lease, d, available, begun, volumes, configs))
  {
    hide Holds;
    var t := SubmitStep(s, lease, d, available, begun, volumes, configs);
    var accepted := SubmitOutcome(s, lease, d, available, begun, volumes, configs).Accepted?;
    forall other, id, c
      ensures Holds(t, other, id, c) <==>
        Holds(s, other, id, c) || (accepted && other == lease && id == d.attempt.id && if c then d.kind.Backup? else TransfersVolumes(d.kind))
    {
      SubmitHolders(s, lease, d, available, begun, volumes, configs, other, id, c);
    }
    if accepted {
      assert Holds(t, lease, d.attempt.id, false) <==> TransfersVolumes(d.kind) || Holds(s, lease, d.attempt.id, false);
      assert Holds(t, lease, d.attempt.id, true) <==> d.kind.Backup? || Holds(s, lease, d.attempt.id, true);
    }
    forall id ensures id in t.volumes <==> exists other :: Holds(t, other, id, false) {
      if id in s.volumes { var other :| Holds(s, other, id, false); assert Holds(t, other, id, false); }
    }
    forall id ensures id in t.configs <==> exists other :: Holds(t, other, id, true) {
      if id in s.configs { var other :| Holds(s, other, id, true); assert Holds(t, other, id, true); }
    }
  }

  lemma {:induction false} SameTransfers(s: State, t: State)
    requires TransfersOk(s) && t.volumes == s.volumes && t.configs == s.configs
    requires forall lease, id, c :: Holds(t, lease, id, c) <==> Holds(s, lease, id, c)
    ensures TransfersOk(t)
  {}

  lemma {:induction false} SameRegistered(s: State, e: Event)
    requires !e.Submit? && !e.Release?
    ensures Step(s, e).volumes == s.volumes && Step(s, e).configs == s.configs
  {
    hide Frees;
  }

  lemma {:induction false} SameExecution(s: State, e: Event, lease: nat)
    requires !e.Submit? && !e.Release?
    ensures var t := Step(s, e);
      && (lease in t.executions <==> lease in s.executions)
      && (lease in s.executions ==> t.executions[lease].delivery == s.executions[lease].delivery &&
                                    (t.executions[lease].stage.Gone? <==> s.executions[lease].stage.Gone?))
  {
    hide Frees;
  }

  lemma {:induction false} OtherTransfers(s: State, e: Event)
    requires TransfersOk(s) && !e.Submit? && !e.Release?
    ensures TransfersOk(Step(s, e))
  {
    hide Step;
    hide TransfersOk;
    var t := Step(s, e);
    SameRegistered(s, e);
    forall lease, id, c ensures Holds(t, lease, id, c) <==> Holds(s, lease, id, c) { SameExecution(s, e, lease); }
    SameTransfers(s, t);
  }

  lemma {:induction false} ReleaseTransfers(s: State, lease: nat)
    requires TransfersOk(s)
    ensures TransfersOk(ReleaseStep(s, lease))
  {
    var t := ReleaseStep(s, lease);
    if t != s {
      var d := s.executions[lease].delivery;
      forall other, id, c ensures Holds(t, other, id, c) <==> Holds(s, other, id, c) && other != lease {}
      assert Holds(s, lease, d.attempt.id, false) <==> TransfersVolumes(d.kind);
      assert Holds(s, lease, d.attempt.id, true) <==> d.kind.Backup?;
    }
  }

  lemma {:induction false} StepKeepsTransfers(s: State, e: Event)
    requires TransfersOk(s) && LeasesOk(s)
    ensures TransfersOk(Step(s, e))
  {
    hide TransfersOk;
    hide SubmitStep;
    hide ReleaseStep;
    if e.Submit? {
      SubmitTransfers(s, e.lease, e.delivery, e.available, e.begun, e.volumes, e.configs);
    } else if e.Release? {
      ReleaseTransfers(s, e.lease);
    } else {
      OtherTransfers(s, e);
    }
  }

  ghost predicate Sound(s: State) { SlotsOk(s) && LeasesOk(s) && ContextsOk(s) && TransfersOk(s) }

  lemma {:induction false} RunsAreSound(limit: nat, es: seq<Event>)
    ensures Sound(Run(Start(limit), es))
    decreases |es|
  {
    hide Step;
    if es != [] {
      var before := Run(Start(limit), es[..|es| - 1]);
      RunsAreSound(limit, es[..|es| - 1]);
      hide SlotsOk;
      hide LeasesOk;
      hide ContextsOk;
      hide TransfersOk;
      StepKeepsSlots(before, es[|es| - 1]);
      StepKeepsLeases(before, es[|es| - 1]);
      StepKeepsContexts(before, es[|es| - 1]);
      StepKeepsTransfers(before, es[|es| - 1]);
    }
  }
}
