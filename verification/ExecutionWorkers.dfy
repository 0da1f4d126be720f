/**
 The worker session as the Agent keeps it: slots, cancellation and the result channel under one lock.
 Each method is one critical section, or one goroutine step, and takes exactly the step of the model.
 */
module ExecutionWorkers {
  import opened Outcomes
  import opened ExecutionResults
  import opened ExecutionSlots
  import opened ExecutionRuns
  import opened ExecutionTheorems

  class Workers {
    const limit: nat
    var closed: bool
    var active: map<nat, Slot>
    var executions: map<nat, Execution>
    var outputs: seq<Output>
    var contexts: map<nat, bool>
    var closes: map<nat, nat>
    var volumes: set<nat>
    var configs: set<nat>

    ghost function Now(): State
      reads this
    {
      State(limit, closed, active, executions, outputs, contexts, closes, volumes, configs)
    }

    constructor (limit: nat)
      ensures Now() == Start(limit)
    {
      this.limit, closed, active, executions, outputs := limit, false, map[], map[], [];
      contexts, closes, volumes, configs := map[], map[], {}, {};
    }

    /**
     Accepts a delivery into a free slot and launches it. `lease` names the ownership lease that `begun`
     says was granted; `volumesFree` and `configsFree` are the exchange's answers to the registrations.
     */
    method Submit(lease: nat, d: Delivery, available: int, begun: bool, volumesFree: bool, configsFree: bool)
      returns (outcome: Submitted)
      modifies this
      ensures Now() == SubmitStep(old(Now()), lease, d, available, begun, volumesFree, configsFree)
      ensures outcome == SubmitOutcome(old(Now()), lease, d, available, begun, volumesFree, configsFree)
    {
      hide Frees;
      if closed {
        return Refused(false);
      }
      var work := d.attempt.work;
      if work in active {
        if active[work].delivery != d {
          return Refused(false);
        }
        return Redelivered;
      }
      if available <= 0 || |active| >= limit {
        return Refused(false);
      }
      if !begun || lease in closes {
        return Refused(false);
      }
      closes := closes[lease := 0];
      if TransfersVolumes(d.kind) {
        if !volumesFree || d.attempt.id in volumes {
          closes := closes[lease := 1];
          return Refused(true);
        }
        volumes := volumes + {d.attempt.id};
      }
      if d.kind.Backup? {
        if !configsFree || d.attempt.id in configs {
          volumes := volumes - {d.attempt.id};
          closes := closes[lease := 1];
          return Refused(true);
        }
        configs := configs + {d.attempt.id};
      }
      active := active[work := Slot(d, None, false)];
      executions := executions[lease := Execution(d, Launched)];
      outcome := Accepted;
    }

    /** The context that an execution runs under. */
    method ExecutionContext(lease: nat)
      modifies this`executions, this`contexts, this`active
      ensures Now() == ContextStep(old(Now()), lease)
    {
      if lease !in executions || executions[lease].stage != Launched || lease in contexts {
        return;
      }
      var attempt := executions[lease].delivery.attempt;
      if attempt.work !in active || active[attempt.work].delivery.attempt != attempt || closed {
        contexts := contexts[lease := true];
        executions := executions[lease := executions[lease].(stage := Running(lease))];
        return;
      }
      var slot := active[attempt.work];
      if slot.context.None? {
        slot := slot.(context := Some(lease));
        contexts := contexts[lease := false];
        if slot.cancelRequested {
          contexts := contexts[lease := true];
        }
        active := active[attempt.work := slot];
      }
      executions := executions[lease := executions[lease].(stage := Running(slot.context.value))];
    }

    /** The end of an execution: the lease is closed before the result is offered. */
    method Finish(lease: nat, result: Result)
      modifies this`executions, this`closes
      ensures Now() == FinishStep(old(Now()), lease, result)
    {
      if lease in executions && executions[lease].stage.Running? && lease in closes {
        closes := closes[lease := closes[lease] + 1];
        var output := Output(executions[lease].delivery.attempt, result, lease);
        executions := executions[lease := executions[lease].(stage := Holding(output))];
      }
    }

    /** Offers the result. In a sound session there is room, so the send cannot block. */
    method Send(lease: nat)
      requires Sound(Now()) && lease in executions && executions[lease].stage.Holding?
      modifies this`executions, this`outputs
      ensures Now() == SendStep(old(Now()), lease)
      ensures |old(outputs)| < |outputs| <= limit
    {
      OccupantsFit(Now());
      outputs := outputs + [executions[lease].stage.output];
      executions := executions[lease := executions[lease].(stage := Past)];
    }

    method CancelAttempt(attempt: WorkAttempt) returns (ok: bool)
      modifies this`active, this`contexts
      ensures Now() == CancelStep(old(Now()), attempt)
      ensures ok == !attempt.recovery
    {
      if attempt.recovery {
        return false;
      }
      ok := true;
      if attempt.work !in active {
        return;
      }
      var slot := active[attempt.work];
      if slot.delivery.attempt != attempt {
        return;
      }
      slot := slot.(cancelRequested := true);
      if slot.context.Some? {
        contexts := contexts[slot.context.value := true];
      }
      active := active[attempt.work := slot];
    }

    method RetireLocalExecution(work: nat)
      modifies this`active, this`contexts
      ensures Now() == Retire(old(Now()), work)
    {
      if work in active && active[work].context.Some? {
        contexts := contexts[active[work].context.value := true];
      }
      assert work !in active ==> active - {work} == active;
      active := active - {work};
    }

    /** Takes the next result and frees its slot if it may. */
    method Consume(commands: nat, decoded: bool, retired: bool) returns (freed: bool)
      requires outputs != []
      modifies this`active, this`contexts, this`outputs
      ensures Now() == ConsumeStep(old(Now()), commands, decoded, retired)
      ensures freed <==> |active| < |old(active)|
    {
      var output := outputs[0];
      outputs := outputs[1..];
      var work := output.attempt.work;
      if work !in active || active[work].delivery.attempt != output.attempt {
        return false;
      }
      freed := Settle(active[work].delivery.kind, output.attempt, output.result, commands, decoded, retired);
      if freed {
        assert (active - {work}).Keys == active.Keys - {work};
        RetireLocalExecution(work);
      }
    }

    /** Free slots, none once closed; never negative in a sound session. */
    method Capacity() returns (free: int)
      requires Sound(Now())
      ensures 0 <= free && (closed ==> free == 0) && (!closed ==> free + |active| == limit)
    {
      free := if closed then 0 else limit - |active|;
    }

    method Close()
      modifies this`closed
      ensures Now() == Step(old(Now()), ExecutionSlots.Close)
    {
      closed := true;
    }
  }
}
