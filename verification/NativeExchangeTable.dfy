/**
 The exchange as the Agent keeps it: a pending table, its waiters and an outgoing queue under one lock.
 Each method is one critical section or channel operation and takes exactly the step of the protocol.
 */
module NativeExchangeTable {
  import opened Outcomes
  import opened NativeExchange
  import opened NativeExchangeRuns
  import opened NativeExchangeResults

  class Exchange {
    var executor: nat
    var closed: bool
    var pending: map<Key, nat>
    var waiters: map<nat, Waiter>
    var outgoing: seq<nat>
    var journal: map<nat, Option<Delivery>>

    /** The protocol state, given the messages that the session has sent and not heard of. */
    ghost function Now(wire: set<nat>): State
      reads this
    {
      State(executor, closed, pending, waiters, outgoing, wire, journal)
    }

    constructor (journal: map<nat, Option<Delivery>>)
      ensures Now({}) == Start(journal)
    {
      executor, closed, pending, waiters, outgoing := 0, false, map[], map[], [];
      this.journal := journal;
    }

    method BindExecutor(executor: nat, ghost wire: set<nat>) returns (ok: bool)
      modifies this
      ensures Now(wire) == BindStep(old(Now(wire)), executor)
      ensures ok <==> executor != 0 && !old(closed) && old(this.executor) == 0
    {
      if executor == 0 || closed || this.executor != 0 {
        return false;
      }
      this.executor := executor;
      ok := true;
    }

    /** Registers a call's waiter, or refuses the call. */
    method Register(id: nat, r: Request, ghost wire: set<nat>) returns (ok: bool)
      requires id !in waiters
      modifies this
      ensures Now(wire) == BeginStep(old(Now(wire)), id, r)
      ensures ok <==> Admits(old(Now(wire)), r)
    {
      if executor == 0 || r.identity.executor != executor {
        return false;
      }
      if closed || |pending| >= CAPACITY || KeyOf(r) in pending {
        return false;
      }
      pending := pending[KeyOf(r) := id];
      waiters := waiters[id := Waiter(r, false, None, 0, if r.terminal then Registered else Prepared)];
      ok := true;
    }

    /** Puts a terminal report into the outbox before it may enter the stream. */
    method PrepareTerminal(id: nat, written: Write, ghost wire: set<nat>)
      modifies this`journal, this`waiters
      ensures Now(wire) == PrepareStep(old(Now(wire)), id, written)
    {
      if id !in waiters || waiters[id].pc != Registered {
        return;
      }
      var w := waiters[id];
      var attempt := w.request.identity.attempt;
      if attempt !in journal {
        waiters := waiters[id := w.(pc := Leaving(Failure(Unprepared)))];
        return;
      }
      if journal[attempt].Some? {
        var prior := journal[attempt].value;
        if prior.request != w.request {
          waiters := waiters[id := w.(pc := Leaving(Failure(Unprepared)))];
        } else if prior.reply.Some? {
          waiters := waiters[id := w.(pc := Settling(prior.reply.value))];
        } else {
          waiters := waiters[id := w.(pc := Prepared)];
        }
        return;
      }
      if !written.Unwritten? {
        journal := journal[attempt := Some(Delivery(w.request, None))];
      }
      if !written.Written? {
        waiters := waiters[id := w.(pc := Leaving(Failure(Unprepared)))];
        return;
      }
      waiters := waiters[id := w.(pc := Prepared)];
    }

    /** A retained reply needs no message: the entry goes and the call leaves with it. */
    method SettleRetained(id: nat, ghost wire: set<nat>)
      modifies this`pending, this`waiters
      ensures Now(wire) == SettleStep(old(Now(wire)), id)
    {
      if id in waiters && waiters[id].pc.Settling? {
        var w := waiters[id];
        pending := pending - {KeyOf(w.request)};
        waiters := waiters[id := w.(pc := Leaving(Retained(w.pc.reply)))];
      }
    }

    method Enqueue(id: nat, ghost wire: set<nat>)
      modifies this`outgoing, this`waiters
      ensures Now(wire) == SendStep(old(Now(wire)), id)
    {
      if id in waiters && waiters[id].pc == Prepared && |outgoing| < CAPACITY {
        outgoing := outgoing + [id];
        waiters := waiters[id := waiters[id].(pc := Waiting)];
      }
    }

    /** An expired call withdraws its entry if it is still its own. */
    method WithdrawExpired(id: nat, ghost wire: set<nat>)
      modifies this`pending, this`waiters
      ensures Now(wire) == WithdrawStep(old(Now(wire)), id)
    {
      if id in waiters && waiters[id].pc == Withdrawing {
        var key := KeyOf(waiters[id].request);
        if key in pending && pending[key] == id {
          pending := pending - {key};
        }
        waiters := waiters[id := waiters[id].(pc := Leaving(Failure(Expired)))];
      }
    }

    /** The deferred cleanup of every call: abandon the waiter and drain its channel. */
    method Abandon(id: nat, ghost wire: set<nat>)
      modifies this`waiters
      ensures Now(wire) == FinishStep(old(Now(wire)), id)
    {
      if id in waiters && waiters[id].pc.Leaving? {
        var w := waiters[id];
        w := w.(abandoned := true);
        if w.slot.Some? {
          w := w.(slot := None);
        }
        waiters := waiters[id := w.(pc := Returned(w.pc.result))];
      }
    }

    /** Hands a waiter its result; the channel holds one, so it must be empty. */
    method Deliver(id: nat, result: Result, ghost wire: set<nat>)
      requires id in waiters && (!waiters[id].abandoned ==> waiters[id].slot.None?)
      modifies this`waiters
      ensures Now(wire) == Wake(old(Now(wire)), id, result)
    {
      var w := waiters[id];
      if !w.abandoned {
        waiters := waiters[id := w.(slot := Some(result), writes := w.writes + 1)];
      }
    }

    method AcknowledgeTerminal(r: Request, reply: Reply, matched: bool, written: Write) returns (ok: bool)
      modifies this`journal
      ensures var after := Acknowledge(old(journal), r, reply, matched, written);
        ok == after.ok && journal == after.journal
    {
      var attempt := r.identity.attempt;
      if !matched || attempt !in journal || journal[attempt].None? || journal[attempt].value.request != r {
        return false;
      }
      if journal[attempt].value.reply.Some? {
        return journal[attempt].value.reply.value == reply;
      }
      if !written.Unwritten? {
        journal := journal[attempt := Some(Delivery(r, Some(reply)))];
      }
      ok := written.Written?;
    }

    /** Matches a response, acknowledges a terminal one durably, and only then wakes its caller. */
    method Accept(reply: Reply, matched: bool, written: Write, ghost wire: set<nat>) returns (ok: bool)
      requires Orderly(Now(wire))
      modifies this`pending, this`waiters, this`journal
      ensures Now(wire) == AcceptStep(old(Now(wire)), reply, matched, written)
      ensures ok ==> old(Matches(Now(wire), reply))
    {
      var key := Key(reply.identity.attempt, reply.kind);
      if closed || key !in pending {
        return false;
      }
      var id := pending[key];
      var w := waiters[id];
      if w.request.identity != reply.identity || w.request.execution != reply.execution {
        return false;
      }
      EmptyChannel(Now(wire), key);
      if w.request.terminal {
        ok := AcknowledgeTerminal(w.request, reply, matched, written);
        if !ok {
          return;
        }
      }
      pending := pending - {key};
      Deliver(id, Success(reply), wire);
      ok := true;
    }

    /** Wakes the caller of a refused terminal report; the outbox is not touched. */
    method RejectReport(key: Key, matched: bool, ghost wire: set<nat>) returns (ok: bool)
      requires Orderly(Now(wire))
      modifies this`pending, this`waiters
      ensures Now(wire) == RejectStep(old(Now(wire)), key, matched)
    {
      if closed || key !in pending || !waiters[pending[key]].request.terminal || !matched {
        return false;
      }
      EmptyChannel(Now(wire), key);
      var id := pending[key];
      pending := pending - {key};
      Deliver(id, Failure(Refused), wire);
      ok := true;
    }

    method AbandonPending()
      requires forall key :: key in pending ==> pending[key] in waiters
      modifies this`pending, this`waiters
      ensures pending == map[] && waiters == Abandoned(old(waiters), old(pending).Values)
    {
      ghost var all, start, gone: set<nat> := pending.Values, waiters, {};
      AbandonNone(waiters);
      while pending != map[]
        invariant gone + pending.Values == all
        invariant waiters == Abandoned(start, gone)
        invariant forall key :: key in pending ==> pending[key] in waiters
        decreases |pending|
      {
        hide Abandoned;
        var key :| key in pending;
        var id := pending[key];
        AbandonOne(start, gone, id);
        TakeOne(pending, key, gone);
        waiters := waiters[id := waiters[id].(abandoned := true)];
        pending := pending - {key};
        gone := gone + {id};
      }
    }

    /** Abandons every pending waiter and drops what was not sent. */
    method Close(ghost wire: set<nat>)
      requires Known(Now(wire))
      modifies this
      ensures Now(wire) == CloseStep(old(Now(wire)))
    {
      if closed {
        return;
      }
      closed := true;
      AbandonPending();
      while outgoing != []
        invariant closed && pending == map[] && waiters == Abandoned(old(waiters), old(pending).Values)
        invariant executor == old(executor) && journal == old(journal)
        decreases |outgoing|
      {
        outgoing := outgoing[1..];
      }
    }
  }

  lemma {:induction false} ValuesSplit(pending: map<Key, nat>, key: Key)
    requires key in pending
    ensures (pending - {key}).Values + {pending[key]} == pending.Values
    ensures |pending - {key}| < |pending|
  {
    var rest := pending - {key};
    forall id | id in pending.Values ensures id in rest.Values + {pending[key]} {
      var k :| k in pending && pending[k] == id;
      if k != key { assert k in rest; }
    }
    assert rest.Keys == pending.Keys - {key};
  }

  lemma {:induction false} TakeOne(pending: map<Key, nat>, key: Key, gone: set<nat>)
    requires key in pending
    ensures gone + {pending[key]} + (pending - {key}).Values == gone + pending.Values
    ensures |pending - {key}| < |pending|
  {
    ValuesSplit(pending, key);
  }

  lemma {:induction false} AbandonNone(waiters: map<nat, Waiter>)
    ensures Abandoned(waiters, {}) == waiters
  {}

  lemma {:induction false} AbandonOne(waiters: map<nat, Waiter>, ids: set<nat>, id: nat)
    requires id in Abandoned(waiters, ids)
    ensures id in waiters
    ensures Abandoned(waiters, ids)[id := Abandoned(waiters, ids)[id].(abandoned := true)] == Abandoned(waiters, ids + {id})
  {}

  /** The channel of a pending waiter is empty. */
  lemma {:induction false} EmptyChannel(s: State, key: Key)
    requires Orderly(s) && key in s.pending
    ensures s.pending[key] in s.waiters && s.waiters[s.pending[key]].slot.None?
  {
    assert s.pending[key] in s.pending.Values;
    OrderlyAt(s, s.pending[key]);
  }
}
