/**
 The Agent's execution slots: bounded local capacity, one goroutine for each accepted work item, one
 buffered channel of results, cancellation, and a close that cancels and joins everything.
 */
module ExecutionSlots {
  import opened Outcomes
  import opened ExecutionResults

  datatype Delivery = Delivery(kind: Kind, attempt: WorkAttempt, payload: nat)

  /** `context` names the context that the slot's execution runs under, once it exists. */
  datatype Slot = Slot(delivery: Delivery, context: Option<nat>, cancelRequested: bool)

  datatype Output = Output(attempt: WorkAttempt, result: Result, sender: nat)

  /**
   One goroutine: launched, running under a context, holding its result with its lease closed, past the
   channel, and gone after its deferred releases.
   */
  datatype Stage = Launched | Running(context: nat) | Holding(output: Output) | Past | Gone

  datatype Execution = Execution(delivery: Delivery, stage: Stage)

  /** `closes` counts the closings of each ownership lease ever begun; contexts are true once cancelled. */
  datatype State = State(
    limit: nat,
    closed: bool,
    active: map<nat, Slot>,
    executions: map<nat, Execution>,
    outputs: seq<Output>,
    contexts: map<nat, bool>,
    closes: map<nat, nat>,
    volumes: set<nat>,
    configs: set<nat>)

  datatype Event =
    | Submit(lease: nat, delivery: Delivery, available: int, begun: bool, volumes: bool, configs: bool)
    | CreateContext(lease: nat)
    | Finish(lease: nat, result: Result)
    | Send(lease: nat)
    | Drop(lease: nat)
    | Release(lease: nat)
    | Consume(commands: nat, decoded: bool, retired: bool)
    | Cancel(attempt: WorkAttempt)
    | Close

  function Start(limit: nat): State { State(limit, false, map[], map[], [], map[], map[], {}, {}) }

  /** What a submission came to. */
  datatype Submitted = Accepted | Redelivered | Refused(lease: bool)

  predicate TransfersVolumes(kind: Kind) { kind.Backup? || kind.BackupRecovery? }

  function SubmitOutcome(s: State, lease: nat, d: Delivery, available: int, begun: bool, volumes: bool, configs: bool): Submitted {
    if s.closed then Refused(false)
    else if d.attempt.work in s.active then
      if s.active[d.attempt.work].delivery == d then Redelivered else Refused(false)
    else if available <= 0 || |s.active| >= s.limit || !begun || lease in s.closes then Refused(false)
    else if TransfersVolumes(d.kind) && (!volumes || d.attempt.id in s.volumes) then Refused(true)
    else if d.kind.Backup? && (!configs || d.attempt.id in s.configs) then Refused(true)
    else Accepted
  }

  function SubmitStep(s: State, lease: nat, d: Delivery, available: int, begun: bool, volumes: bool, configs: bool): State {
    match SubmitOutcome(s, lease, d, available, begun, volumes, configs)
    case Redelivered => s
    case Refused(begunLease) => if begunLease then s.(closes := s.closes[lease := 1]) else s
    case Accepted =>
      s.(active := s.active[d.attempt.work := Slot(d, None, false)],
         executions := s.executions[lease := Execution(d, Launched)],
         closes := s.closes[lease := 0],
         volumes := if TransfersVolumes(d.kind) then s.volumes + {d.attempt.id} else s.volumes,
         configs := if d.kind.Backup? then s.configs + {d.attempt.id} else s.configs)
  }

  predicate At(s: State, lease: nat, stage: Stage) { lease in s.executions && s.executions[lease].stage == stage }

  function Move(s: State, lease: nat, stage: Stage): State
    requires lease in s.executions
  {
    s.(executions := s.executions[lease := s.executions[lease].(stage := stage)])
  }

  /** A context for an execution: its slot's, or one already cancelled when the slot is gone or the session closed. */
  function ContextStep(s: State, lease: nat): State {
    if !At(s, lease, Launched) || lease in s.contexts then s
    else
      var attempt := s.executions[lease].delivery.attempt;
      if attempt.work !in s.active || s.active[attempt.work].delivery.attempt != attempt || s.closed then
        Move(s, lease, Running(lease)).(contexts := s.contexts[lease := true])
      else
        var slot := s.active[attempt.work];
        if slot.context.None? then
          Move(s, lease, Running(lease)).(contexts := s.contexts[lease := slot.cancelRequested],
                                          active := s.active[attempt.work := slot.(context := Some(lease))])
        else Move(s, lease, Running(slot.context.value))
  }

  /** The operation ends and its ownership lease is closed, before the result is offered. */
  function FinishStep(s: State, lease: nat, result: Result): State {
    if lease in s.executions && s.executions[lease].stage.Running? && lease in s.closes then
      Move(s, lease, Holding(Output(s.executions[lease].delivery.attempt, result, lease)))
        .(closes := s.closes[lease := s.closes[lease] + 1])
    else s
  }

  function SendStep(s: State, lease: nat): State {
    if lease in s.executions && s.executions[lease].stage.Holding? && |s.outputs| < s.limit then
      Move(s, lease, Past).(outputs := s.outputs + [s.executions[lease].stage.output])
    else s
  }

  /** After the close an unsent result may be dropped. */
  function DropStep(s: State, lease: nat): State {
    if s.closed && lease in s.executions && s.executions[lease].stage.Holding? then Move(s, lease, Past) else s
  }

  /** The deferred releases of a backup's transfers. */
  function ReleaseStep(s: State, lease: nat): State {
    if !At(s, lease, Past) then s
    else
      var d := s.executions[lease].delivery;
      Move(s, lease, Gone).(volumes := if TransfersVolumes(d.kind) then s.volumes - {d.attempt.id} else s.volumes,
                            configs := if d.kind.Backup? then s.configs - {d.attempt.id} else s.configs)
  }

  /** Freeing a slot cancels its context. */
  function Retire(s: State, work: nat): State {
    if work !in s.active then s
    else
      var slot := s.active[work];
      s.(active := s.active - {work},
         contexts := if slot.context.Some? then s.contexts[slot.context.value := true] else s.contexts)
  }

  function ConsumeStep(s: State, commands: nat, decoded: bool, retired: bool): State {
    if s.outputs == [] then s
    else
      var output := s.outputs[0];
      var rest := s.(outputs := s.outputs[1..]);
      var work := output.attempt.work;
      if work !in s.active || s.active[work].delivery.attempt != output.attempt then rest
      else if Frees(s.active[work].delivery.kind, output.attempt, output.result, commands, decoded, retired) then Retire(rest, work)
      else rest
  }

  /** A forward attempt's own slot only; before the context exists the request is remembered. */
  function CancelStep(s: State, attempt: WorkAttempt): State {
    if attempt.recovery || attempt.work !in s.active || s.active[attempt.work].delivery.attempt != attempt then s
    else
      var slot := s.active[attempt.work];
      s.(active := s.active[attempt.work := slot.(cancelRequested := true)],
         contexts := if slot.context.Some? then s.contexts[slot.context.value := true] else s.contexts)
  }

  function Step(s: State, e: Event): State {
    match e
    case Submit(lease, d, available, begun, volumes, configs) => SubmitStep(s, lease, d, available, begun, volumes, configs)
    case CreateContext(lease) => ContextStep(s, lease)
    case Finish(lease, result) => FinishStep(s, lease, result)
    case Send(lease) => SendStep(s, lease)
    case Drop(lease) => DropStep(s, lease)
    case Release(lease) => ReleaseStep(s, lease)
    case Consume(commands, decoded, retired) => ConsumeStep(s, commands, decoded, retired)
    case Cancel(attempt) => CancelStep(s, attempt)
    case Close => s.(closed := true)
  }

  function Run(s: State, es: seq<Event>): State {
    if es == [] then s else Step(Run(s, es[..|es| - 1]), es[|es| - 1])
  }

  /** A context is cancelled by its own cancellation or with the whole session. */
  predicate Cancelled(s: State, context: nat) { s.closed || (context in s.contexts && s.contexts[context]) }

  /** The execution still runs, or holds a result that it has not offered. */
  predicate Working(s: State, lease: nat) {
    lease in s.executions && (s.executions[lease].stage.Launched? || s.executions[lease].stage.Running? || s.executions[lease].stage.Holding?)
  }

  predicate Queued(s: State, lease: nat) { exists n :: 0 <= n < |s.outputs| && s.outputs[n].sender == lease }
}
