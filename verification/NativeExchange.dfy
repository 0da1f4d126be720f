/**
 The Agent's request/response exchange over one Controller stream. Worker threads register a waiter under
 (attempt, kind), send, and wait in a one-slot channel; the session reads responses and refusals. There are
 no sequence numbers: what pairs a response with its request is that a key with a message in flight is
 always pending. Every event below is one critical section or one channel operation.
 */
module NativeExchange {
  import opened Outcomes

  /** An attempt as one executor generation of this Agent process runs it. */
  datatype Identity = Identity(attempt: nat, executor: nat)

  datatype Key = Key(attempt: nat, kind: nat)

  datatype Request = Request(identity: Identity, kind: nat, execution: nat, terminal: bool, payload: nat)

  /** A Controller response; `answers` names the request message it was sent for, which the Agent cannot see. */
  datatype Reply = Reply(identity: Identity, kind: nat, execution: nat, payload: nat, answers: nat)

  datatype Error = Invalid | Conflict | Unprepared | Expired | StreamClosed | Refused

  /** `Retained` is a terminal reply that the journal already held. */
  datatype Result = Success(reply: Reply) | Retained(reply: Reply) | Failure(error: Error)

  /** Where one call of `request` stands. `Leaving` has its result but has not yet run its deferred cleanup. */
  datatype Pc =
    | Registered
    | Settling(reply: Reply)
    | Prepared
    | Withdrawing
    | Waiting
    | Leaving(result: Result)
    | Returned(result: Result)

  datatype Waiter = Waiter(request: Request, abandoned: bool, slot: Option<Result>, writes: nat, pc: Pc)

  /** The durable outbox entry of one attempt. */
  datatype Delivery = Delivery(request: Request, reply: Option<Reply>)

  datatype State = State(
    executor: nat,
    closed: bool,
    pending: map<Key, nat>,
    waiters: map<nat, Waiter>,
    outgoing: seq<nat>,
    wire: set<nat>,
    journal: map<nat, Option<Delivery>>)

  datatype Event =
    | Bind(executor: nat)
    | Begin(id: nat, request: Request)
    | Prepare(id: nat, written: Write)
    | Settle(id: nat)
    | Send(id: nat)
    | Expire(id: nat)
    | Withdraw(id: nat)
    | Leave(id: nat)
    | Receive(id: nat)
    | Finish(id: nat)
    | Transmit
    | Answer(reply: Reply, matched: bool, written: Write)
    | Refuse(key: Key, matched: bool, answers: nat)
    | Close

  const CAPACITY := 256

  function KeyOf(r: Request): Key { Key(r.identity.attempt, r.kind) }

  function Start(journal: map<nat, Option<Delivery>>): State { State(0, false, map[], map[], [], {}, journal) }

  function At(s: State, id: nat, pc: Pc): State
    requires id in s.waiters
  {
    s.(waiters := s.waiters[id := s.waiters[id].(pc := pc)])
  }

  predicate Is(s: State, id: nat, pc: Pc) { id in s.waiters && s.waiters[id].pc == pc }

  /** The executor registration binds once per stream. */
  function BindStep(s: State, executor: nat): State {
    if executor == 0 || s.closed || s.executor != 0 then s else s.(executor := executor)
  }

  predicate Admits(s: State, r: Request) {
    && s.executor != 0 && r.identity.executor == s.executor
    && !s.closed && |s.pending| < CAPACITY && KeyOf(r) !in s.pending
  }

  function BeginStep(s: State, id: nat, r: Request): State {
    if id in s.waiters || !Admits(s, r) then s
    else s.(pending := s.pending[KeyOf(r) := id],
            waiters := s.waiters[id := Waiter(r, false, None, 0, if r.terminal then Registered else Prepared)])
  }

  /** A write of the outbox is done, or fails before the record is replaced, or only after it was replaced. */
  datatype Write = Written | Unwritten | Unconfirmed

  /** What the outbox answers to a terminal report: it may be sent, a retained reply, or an error. */
  datatype Outbox = Kept(journal: map<nat, Option<Delivery>>) | Held(reply: Reply) | Failed(journal: map<nat, Option<Delivery>>)

  function PrepareDelivery(journal: map<nat, Option<Delivery>>, r: Request, written: Write): Outbox {
    var attempt := r.identity.attempt;
    if attempt !in journal then Failed(journal)
    else match journal[attempt]
      case Some(prior) =>
        if prior.request != r then Failed(journal) else if prior.reply.Some? then Held(prior.reply.value) else Kept(journal)
      case None =>
        match written
        case Written => Kept(journal[attempt := Some(Delivery(r, None))])
        case Unwritten => Failed(journal)
        case Unconfirmed => Failed(journal[attempt := Some(Delivery(r, None))])
  }

  function PrepareStep(s: State, id: nat, written: Write): State {
    if !Is(s, id, Registered) then s
    else match PrepareDelivery(s.journal, s.waiters[id].request, written)
      case Failed(journal) => At(s, id, Leaving(Failure(Unprepared))).(journal := journal)
      case Held(reply) => At(s, id, Settling(reply))
      case Kept(journal) => At(s, id, Prepared).(journal := journal)
  }

  /** The entry under the key is removed without looking whose it is. */
  function SettleStep(s: State, id: nat): State {
    if id in s.waiters && s.waiters[id].pc.Settling? then
      At(s, id, Leaving(Retained(s.waiters[id].pc.reply))).(pending := s.pending - {KeyOf(s.waiters[id].request)})
    else s
  }

  function SendStep(s: State, id: nat): State {
    if !Is(s, id, Prepared) || |s.outgoing| >= CAPACITY then s
    else At(s, id, Waiting).(outgoing := s.outgoing + [id])
  }

  function ExpireStep(s: State, id: nat): State {
    if Is(s, id, Prepared) then At(s, id, Withdrawing)
    else if Is(s, id, Waiting) then At(s, id, Leaving(Failure(Expired)))
    else s
  }

  function WithdrawStep(s: State, id: nat): State {
    if !Is(s, id, Withdrawing) then s
    else
      var key := KeyOf(s.waiters[id].request);
      var left := At(s, id, Leaving(Failure(Expired)));
      if key in s.pending && s.pending[key] == id then left.(pending := s.pending - {key}) else left
  }

  function LeaveStep(s: State, id: nat): State {
    if s.closed && (Is(s, id, Prepared) || Is(s, id, Waiting)) then At(s, id, Leaving(Failure(StreamClosed))) else s
  }

  function ReceiveStep(s: State, id: nat): State {
    if Is(s, id, Waiting) && s.waiters[id].slot.Some? then
      var w := s.waiters[id];
      s.(waiters := s.waiters[id := w.(slot := None, pc := Leaving(w.slot.value))])
    else s
  }

  /** The deferred cleanup: abandon the waiter and drain its channel. */
  function FinishStep(s: State, id: nat): State {
    if id in s.waiters && s.waiters[id].pc.Leaving? then
      var w := s.waiters[id];
      s.(waiters := s.waiters[id := w.(abandoned := true, slot := None, pc := Returned(w.pc.result))])
    else s
  }

  function TransmitStep(s: State): State {
    if s.outgoing == [] then s else s.(outgoing := s.outgoing[1..], wire := s.wire + {s.outgoing[0]})
  }

  /** Writes a waiter's channel, which must be empty for the session not to block. */
  function Wake(s: State, id: nat, result: Result): State
    requires id in s.waiters
  {
    var w := s.waiters[id];
    if w.abandoned then s else s.(waiters := s.waiters[id := w.(slot := Some(result), writes := w.writes + 1)])
  }

  predicate Matches(s: State, reply: Reply) {
    var key := Key(reply.identity.attempt, reply.kind);
    && !s.closed
    && key in s.pending
    && s.pending[key] in s.waiters
    && s.waiters[s.pending[key]].request.identity == reply.identity
    && s.waiters[s.pending[key]].request.execution == reply.execution
  }

  /** The outbox after an acknowledgement, and whether it succeeded. */
  datatype Acknowledgement = Acknowledgement(journal: map<nat, Option<Delivery>>, ok: bool)

  /** Acknowledges a terminal report in the outbox, unless the reply does not match or cannot be written. */
  function Acknowledge(journal: map<nat, Option<Delivery>>, r: Request, reply: Reply, matched: bool, written: Write)
    : Acknowledgement
  {
    var attempt := r.identity.attempt;
    if !matched || attempt !in journal || journal[attempt].None? || journal[attempt].value.request != r then
      Acknowledgement(journal, false)
    else match journal[attempt].value.reply
      case Some(prior) => Acknowledgement(journal, prior == reply)
      case None =>
        match written
        case Unwritten => Acknowledgement(journal, false)
        case _ => Acknowledgement(journal[attempt := Some(Delivery(r, Some(reply)))], written.Written?)
  }

  /** The journal is acknowledged before the entry goes and its waiter wakes. */
  function AcceptStep(s: State, reply: Reply, matched: bool, written: Write): State {
    if !Matches(s, reply) then s
    else
      var key := Key(reply.identity.attempt, reply.kind);
      var id := s.pending[key];
      var r := s.waiters[id].request;
      var done := if r.terminal then Acknowledge(s.journal, r, reply, matched, written) else Acknowledgement(s.journal, true);
      if !done.ok then s.(journal := done.journal)
      else Wake(s.(pending := s.pending - {key}, journal := done.journal), id, Success(reply))
  }

  /** A refused terminal report stays in the outbox; only its caller wakes. */
  function RejectStep(s: State, key: Key, matched: bool): State {
    if s.closed || key !in s.pending || s.pending[key] !in s.waiters ||
       !s.waiters[s.pending[key]].request.terminal || !matched then s
    else Wake(s.(pending := s.pending - {key}), s.pending[key], Failure(Refused))
  }

  function Abandoned(waiters: map<nat, Waiter>, ids: set<nat>): map<nat, Waiter> {
    map id | id in waiters :: if id in ids then waiters[id].(abandoned := true) else waiters[id]
  }

  function CloseStep(s: State): State {
    if s.closed then s
    else s.(closed := true, pending := map[], outgoing := [], waiters := Abandoned(s.waiters, s.pending.Values))
  }

  function Step(s: State, e: Event): State {
    match e
    case Bind(executor) => BindStep(s, executor)
    case Begin(id, request) => BeginStep(s, id, request)
    case Prepare(id, written) => PrepareStep(s, id, written)
    case Settle(id) => SettleStep(s, id)
    case Send(id) => SendStep(s, id)
    case Expire(id) => ExpireStep(s, id)
    case Withdraw(id) => WithdrawStep(s, id)
    case Leave(id) => LeaveStep(s, id)
    case Receive(id) => ReceiveStep(s, id)
    case Finish(id) => FinishStep(s, id)
    case Transmit => TransmitStep(s)
    case Answer(reply, matched, written) => AcceptStep(s.(wire := s.wire - {reply.answers}), reply, matched, written)
    case Refuse(key, matched, answers) => RejectStep(s.(wire := s.wire - {answers}), key, matched)
    case Close => CloseStep(s)
  }

  function Run(s: State, es: seq<Event>): State {
    if es == [] then s else Step(Run(s, es[..|es| - 1]), es[|es| - 1])
  }

  /** The Controller answers each message at most once, and only what it was sent. */
  predicate Honest(s: State, e: Event) {
    match e
    case Answer(reply, _, _) =>
      && reply.answers in s.wire && reply.answers in s.waiters
      && var r := s.waiters[reply.answers].request;
         reply.identity == r.identity && reply.kind == r.kind && reply.execution == r.execution
    case Refuse(key, _, answers) => answers in s.wire && answers in s.waiters && key == KeyOf(s.waiters[answers].request)
    case _ => true
  }

  predicate HonestRun(s: State, es: seq<Event>) {
    es == [] || (HonestRun(s, es[..|es| - 1]) && Honest(Run(s, es[..|es| - 1]), es[|es| - 1]))
  }
}
