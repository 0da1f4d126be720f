/**
 The deployment client: one durable receipt names the release and idempotency key of the deployment that may
 be unresolved. Responses can be lost, saves can fail and the process can crash at any point.
 */
module UpdateClient {
  import opened Outcomes

  datatype Status = Pending | Active | Succeeded | Failed | Cancelled | Superseded | Rejected

  predicate Terminal(status: Status) { status != Pending && status != Active }

  /** What a Task can report. */
  predicate TaskStatus(status: Status) { status != Pending && status != Rejected }

  datatype Receipt = Receipt(release: nat, key: nat, task: Option<nat>, status: Status)

  datatype Task = Task(id: nat, release: nat, status: Status)

  /** The result that the process reports: success, failure, unresolved, or an installation that needed nothing. */
  datatype Report = Success | Failure | Unresolved | Skipped

  /** `starting` is the save that begins a deployment; `outcome` is what the process reports once saved. */
  datatype Pc =
    | Idle
    | Following(value: Receipt)
    | Saving(value: Receipt, outcome: Option<Report>, starting: bool)
    | Reported(report: Report)

  /**
   The Controller keeps one Task for each accepted key. `late` holds requests that are still under way
   although nobody waits for them; the history lists every request sent and every key that got a Task.
   */
  datatype State = State(disk: Option<Receipt>, pc: Pc, tasks: map<nat, Task>, late: set<(nat, nat)>,
                         posts: seq<(nat, nat)>, created: seq<nat>)

  /** How the Controller takes a request for a key that it has no Task for. */
  datatype Reception = Accept | Refuse | Ignore

  /** A request is answered, taken without the answer arriving, or left under way. */
  datatype Delivery = Answered | Unheard | Delayed

  /**
   How a save ends: the receipt is replaced; it is left as it was; or it is replaced and the process is told
   that saving failed, because what comes after the replacement failed.
   */
  datatype Saved = Replaced | Unchanged | Unconfirmed

  datatype Event =
    | Run(release: nat, key: nat)
    | Ensure(release: nat, key: nat, installed: Option<bool>)
    | Resume
    | Post(reception: Reception, id: nat, delivery: Delivery)
    | Late(release: nat, key: nat, reception: Reception, id: nat)
    | Poll(lost: bool)
    | Save(saved: Saved)
    | GiveUp
    | Crash
    | Advance(key: nat, status: Status)

  const START := State(None, Idle, map[], {}, [], [])

  /** No process is at work. */
  predicate Free(pc: Pc) { pc.Idle? || pc.Reported? }

  predicate Open(r: Option<Receipt>) { r.Some? && !Terminal(r.value.status) }

  /** Starts or joins a deployment; another release may not pass an unresolved one. */
  function RunStep(s: State, release: nat, key: nat): State {
    if !Free(s.pc) then s
    else if Open(s.disk) then
      if s.disk.value.release != release then s.(pc := Reported(Unresolved)) else s.(pc := Following(s.disk.value))
    else s.(pc := Saving(Receipt(release, key, None, Pending), None, true))
  }

  function EnsureStep(s: State, release: nat, key: nat, installed: Option<bool>): State {
    if !Free(s.pc) then s
    else if Open(s.disk) then RunStep(s, release, key)
    else if installed.None? then s.(pc := Reported(Unresolved))
    else if installed.value then s.(pc := Reported(Skipped))
    else RunStep(s, release, key)
  }

  function ResumeStep(s: State): State {
    if !Free(s.pc) then s
    else if s.disk.None? then s.(pc := Reported(Unresolved))
    else if Terminal(s.disk.value.status) then
      s.(pc := Reported(if s.disk.value.status == Succeeded then Success else Failure))
    else s.(pc := Following(s.disk.value))
  }

  /** The Controller's side of a request: a known key gets its Task, for its own release only. */
  function Received(s: State, release: nat, key: nat, reception: Reception, id: nat): (State, Option<nat>, bool) {
    if key in s.tasks then
      if s.tasks[key].release == release then (s, Some(s.tasks[key].id), false) else (s, None, true)
    else match reception
      case Accept => (s.(tasks := s.tasks[key := Task(id, release, Active)], created := s.created + [key]), Some(id), false)
      case Refuse => (s, None, true)
      case Ignore => (s, None, false)
  }

  function PostStep(s: State, reception: Reception, id: nat, delivery: Delivery): State {
    if !s.pc.Following? || s.pc.value.task.Some? then s
    else
      var value := s.pc.value;
      var sent := s.(posts := s.posts + [(value.release, value.key)]);
      if delivery.Delayed? then sent.(late := s.late + {(value.release, value.key)})
      else
        var (t, task, refused) := Received(sent, value.release, value.key, reception, id);
        if delivery.Unheard? then t
        else if refused then t.(pc := Saving(value.(status := Rejected), Some(Failure), false))
        else if task.Some? then t.(pc := Saving(value.(task := task), None, false))
        else t
  }

  predicate Known(s: State, value: Receipt) {
    value.task.Some? && value.key in s.tasks && s.tasks[value.key].id == value.task.value
  }

  function PollStep(s: State, lost: bool): State {
    if !s.pc.Following? || !Known(s, s.pc.value) || lost then s
    else
      var status := s.tasks[s.pc.value.key].status;
      s.(pc := Saving(s.pc.value.(status := status),
                      if Terminal(status) then Some(if status == Succeeded then Success else Failure) else None, false))
  }

  /**
   The receipt is replaced atomically. When the process sees a failure, the follower goes on with the value in
   memory and a starting process reports.
   */
  function SaveStep(s: State, saved: Saved): State {
    if !s.pc.Saving? then s
    else
      var t := if saved.Unchanged? then s else s.(disk := Some(s.pc.value));
      if saved.Replaced? then
        t.(pc := if s.pc.outcome.Some? then Reported(s.pc.outcome.value) else Following(s.pc.value))
      else t.(pc := if s.pc.starting then Reported(Unresolved) else Following(s.pc.value))
  }

  function Step(s: State, e: Event): State {
    match e
    case Run(release, key) => RunStep(s, release, key)
    case Ensure(release, key, installed) => EnsureStep(s, release, key, installed)
    case Resume => ResumeStep(s)
    case Post(reception, id, delivery) => PostStep(s, reception, id, delivery)
    case Late(release, key, reception, id) =>
      if (release, key) in s.late then Received(s.(late := s.late - {(release, key)}), release, key, reception, id).0 else s
    case Poll(lost) => PollStep(s, lost)
    case Save(saved) => SaveStep(s, saved)
    case GiveUp => if s.pc.Following? || s.pc.Saving? then s.(pc := Reported(Unresolved)) else s
    case Crash => s.(pc := Idle)
    case Advance(key, status) =>
      if key in s.tasks && !Terminal(s.tasks[key].status) && TaskStatus(status) then
        s.(tasks := s.tasks[key := s.tasks[key].(status := status)])
      else s
  }

  function History(es: seq<Event>): State {
    if es == [] then START else Step(History(es[..|es| - 1]), es[|es| - 1])
  }

  predicate Distinct(keys: seq<nat>) { forall i, j :: 0 <= i < j < |keys| ==> keys[i] != keys[j] }

  predicate TaskOf(s: State, r: Receipt) {
    Known(s, r) && s.tasks[r.key].release == r.release
  }

  /** A receipt's Task is the key's Task, and what it says of that Task's end is so. */
  predicate ReceiptOk(s: State, r: Receipt) {
    && (if r.task.Some? then TaskOf(s, r) else r.status == Pending || r.status == Rejected)
    && (Terminal(r.status) && r.status != Rejected ==> TaskOf(s, r) && Terminal(s.tasks[r.key].status))
    && (r.status == Succeeded ==> TaskOf(s, r) && s.tasks[r.key].status == Succeeded)
  }

  /** The value in memory belongs to the unresolved receipt. */
  predicate Follows(s: State, value: Receipt) {
    && s.disk.Some? && value.release == s.disk.value.release && value.key == s.disk.value.key
    && (value.task.None? ==> s.disk.value.status == Pending || s.disk.value.status == value.status)
    && (s.disk.value.task.Some? ==> value.task == s.disk.value.task)
    && ReceiptOk(s, value)
  }

  ghost predicate Sound(s: State) {
    && Distinct(s.created) && (forall key :: key in s.created <==> key in s.tasks)
    && (forall key :: key in s.tasks ==> TaskStatus(s.tasks[key].status))
    && (s.disk.Some? ==> ReceiptOk(s, s.disk.value))
    && (match s.pc
        case Idle => true
        case Following(value) => Follows(s, value)
        case Saving(value, outcome, starting) =>
          && (if starting then !Open(s.disk) && value.task.None? && value.status == Pending && outcome.None? else Follows(s, value))
          && (!starting && outcome.None? ==> value.task.Some?)
          && (outcome == Some(Success) ==> value.status == Succeeded)
          && (outcome == Some(Failure) || outcome == Some(Success) || outcome.None?)
        case Reported(report) =>
          report == Success ==> s.disk.Some? && s.disk.value.status == Succeeded)
  }

  lemma {:induction false} ReceivedKeeps(s: State, release: nat, key: nat, reception: Reception, id: nat)
    requires Distinct(s.created) && forall k :: k in s.created <==> k in s.tasks
    ensures var t := Received(s, release, key, reception, id).0;
      && Distinct(t.created) && (forall k :: k in t.created <==> k in t.tasks)
      && t == s.(tasks := t.tasks, created := t.created)
      && forall k :: k in s.tasks ==> k in t.tasks && t.tasks[k] == s.tasks[k]
  {
    var t := Received(s, release, key, reception, id).0;
    if t.created != s.created {
      assert t.created == s.created + [key];
    }
  }

  /** A Task keeps its identity, and its status once terminal. */
  predicate Continues(before: Task, after: Task) {
    after.id == before.id && after.release == before.release && (Terminal(before.status) ==> after.status == before.status)
  }

  /** What is known of Tasks survives their creation and progress. */
  lemma {:induction false} TasksGrow(s: State, t: State)
    requires Sound(s) && t == s.(tasks := t.tasks, created := t.created, late := t.late, posts := t.posts)
    requires Distinct(t.created) && forall k :: k in t.created <==> k in t.tasks
    requires forall k :: k in s.tasks ==> k in t.tasks && Continues(s.tasks[k], t.tasks[k])
    requires forall k :: k in t.tasks ==> TaskStatus(t.tasks[k].status)
    ensures Sound(t)
  {}

  lemma {:induction false} PostKeeps(s: State, reception: Reception, id: nat, delivery: Delivery)
    requires Sound(s)
    ensures Sound(PostStep(s, reception, id, delivery))
  {
    if s.pc.Following? && s.pc.value.task.None? {
      var value := s.pc.value;
      var sent := s.(posts := s.posts + [(value.release, value.key)]);
      if delivery.Delayed? {
        TasksGrow(s, sent.(late := s.late + {(value.release, value.key)}));
      } else {
        ReceivedKeeps(sent, value.release, value.key, reception, id);
        TasksGrow(s, Received(sent, value.release, value.key, reception, id).0);
      }
    }
  }

  lemma {:induction false} LateKeeps(s: State, release: nat, key: nat, reception: Reception, id: nat)
    requires Sound(s)
    ensures Sound(Step(s, Late(release, key, reception, id)))
  {
    if (release, key) in s.late {
      var t := s.(late := s.late - {(release, key)});
      ReceivedKeeps(t, release, key, reception, id);
      TasksGrow(s, Received(t, release, key, reception, id).0);
    }
  }

  lemma {:induction false} SaveKeeps(s: State, e: Event)
    requires Sound(s) && (e.Save? || e.GiveUp? || e.Crash?)
    ensures Sound(Step(s, e))
  {}

  lemma {:induction false} StartKeeps(s: State, e: Event)
    requires Sound(s) && (e.Run? || e.Ensure? || e.Resume?)
    ensures Sound(Step(s, e))
  {
    assert Step(s, e) == s.(pc := Step(s, e).pc);
    hide Received, PostStep, PollStep, SaveStep;
  }

  lemma {:induction false} PollKeeps(s: State, lost: bool)
    requires Sound(s)
    ensures Sound(PollStep(s, lost))
  {}

  lemma {:induction false} StepKeeps(s: State, e: Event)
    requires Sound(s)
    ensures Sound(Step(s, e))
  {
    hide PostStep;
    hide PollStep;
    hide Sound;
    if e.Post? {
      PostKeeps(s, e.reception, e.id, e.delivery);
    } else if e.Late? {
      LateKeeps(s, e.release, e.key, e.reception, e.id);
    } else if e.Poll? {
      PollKeeps(s, e.lost);
    } else if e.Advance? {
      AdvanceKeeps(s, e.key, e.status);
    } else if e.Run? || e.Ensure? || e.Resume? {
      StartKeeps(s, e);
    } else {
      SaveKeeps(s, e);
    }
  }

  lemma {:induction false} AdvanceKeeps(s: State, key: nat, status: Status)
    requires Sound(s)
    ensures Sound(Step(s, Advance(key, status)))
  {
    TasksGrow(s, Step(s, Advance(key, status)));
  }

  lemma {:induction false} HistoriesAreSound(es: seq<Event>)
    ensures Sound(History(es))
    decreases |es|
  {
    hide Step;
    if es != [] {
      HistoriesAreSound(es[..|es| - 1]);
      StepKeeps(History(es[..|es| - 1]), es[|es| - 1]);
    }
  }

  /** A receipt gives way to another release or key only once its status is terminal. */
  lemma {:induction false} ReceiptIsNotReplaced(es: seq<Event>, e: Event)
    requires Open(History(es).disk)
    ensures var before, after := History(es).disk, Step(History(es), e).disk;
      && after.Some? && after.value.release == before.value.release && after.value.key == before.value.key
      && (before.value.task.Some? ==> after.value.task == before.value.task)
  {
    HistoriesAreSound(es);
  }

  /** Every request carries exactly the receipt's release and key. */
  lemma {:induction false} RequestsCarryTheReceipt(es: seq<Event>, e: Event)
    ensures var s, t := History(es), Step(History(es), e);
      t.posts == s.posts || (s.disk.Some? && t.posts == s.posts + [(s.disk.value.release, s.disk.value.key)])
  {
    HistoriesAreSound(es);
  }

  /** The process at work has saved a refusal without learning that the receipt was replaced. */
  predicate Landed(es: seq<Event>)
    decreases |es|
  {
    es != [] && !Free(History(es).pc) &&
    var before, e := es[..|es| - 1], es[|es| - 1];
    var s := History(before);
    Landed(before) || (e == Save(Unconfirmed) && s.pc.Saving? && s.pc.value.status == Rejected)
  }

  /** While a process is at work on a receipt without a Task, the receipt says "rejected" exactly when that was saved unawares. */
  predicate LandedSays(s: State, landed: bool) {
    && (Free(s.pc) ==> !landed)
    && (s.pc.Saving? && s.pc.starting ==> !landed)
    && (!Free(s.pc) && !(s.pc.Saving? && s.pc.starting) && s.disk.Some? && s.disk.value.task.None? ==>
          (s.disk.value.status == Rejected <==> landed))
  }

  lemma {:induction false} StepLands(s: State, e: Event, landed: bool)
    requires Sound(s) && LandedSays(s, landed)
    ensures LandedSays(Step(s, e), !Free(Step(s, e).pc) &&
              (landed || (e == Save(Unconfirmed) && s.pc.Saving? && s.pc.value.status == Rejected)))
  {}

  lemma {:induction false} HistoriesLand(es: seq<Event>)
    ensures LandedSays(History(es), Landed(es))
    decreases |es|
  {
    hide Step, LandedSays;
    if es != [] {
      var before := es[..|es| - 1];
      HistoriesLand(before);
      HistoriesAreSound(before);
      StepLands(History(before), es[|es| - 1], Landed(before));
    } else {
      NothingLanded();
    }
  }

  lemma {:induction false} NothingLanded()
    ensures LandedSays(START, false)
  {}

  /** When a request is sent the receipt is unresolved, unless the sender has saved a refusal without learning so. */
  lemma {:induction false} RequestsOfOpenReceipts(es: seq<Event>, e: Event)
    requires Step(History(es), e).posts != History(es).posts
    ensures Open(History(es).disk) <==> !Landed(es)
  {
    HistoriesAreSound(es);
    HistoriesLand(es);
    hide Landed, History;
  }

  /** However often a deployment is requested, its key gets at most one Task, which the receipt names if it names any. */
  lemma {:induction false} OneTaskPerDeployment(es: seq<Event>)
    ensures var s := History(es);
      && Distinct(s.created)
      && (s.disk.Some? && s.disk.value.task.Some? ==> TaskOf(s, s.disk.value))
  {
    HistoriesAreSound(es);
  }

  /** Success is reported, and recorded, only when the receipt's own Task succeeded. */
  lemma {:induction false} SuccessIsTheTasks(es: seq<Event>)
    requires History(es).pc == Reported(Success) || (History(es).disk.Some? && History(es).disk.value.status == Succeeded)
    ensures var s := History(es); s.disk.Some? && TaskOf(s, s.disk.value) && s.tasks[s.disk.value.key].status == Succeeded
  {
    HistoriesAreSound(es);
  }

  /** A terminal receipt leaves nothing open: its Task is over, or it was refused and its key has no Task of this release. */
  predicate Settled(s: State, r: Receipt) {
    if r.status == Rejected then r.task.None? && (r.key in s.tasks ==> s.tasks[r.key].release != r.release)
    else Terminal(r.status) ==> TaskOf(s, r) && Terminal(s.tasks[r.key].status)
  }

  predicate AllSettled(s: State) {
    && s.late == {}
    && (s.disk.Some? ==> Settled(s, s.disk.value))
    && (match s.pc
        case Following(value) => value.status != Rejected && Settled(s, value)
        case Saving(value, outcome, _) => Settled(s, value) && (outcome.None? ==> value.status != Rejected)
        case _ => true)
  }

  /** No request outlives its sender, and every refusal is saved for certain. */
  predicate Clean(s: State, e: Event) {
    !(e.Post? && e.delivery.Delayed?) && !(e.Save? && !e.saved.Replaced? && s.pc.Saving? && s.pc.value.status == Rejected)
  }

  predicate CleanHistory(es: seq<Event>) {
    es == [] || (CleanHistory(es[..|es| - 1]) && Clean(History(es[..|es| - 1]), es[|es| - 1]))
  }

  lemma {:induction false} PostSettles(s: State, e: Event)
    requires Sound(s) && AllSettled(s) && Clean(s, e) && e.Post?
    ensures AllSettled(Step(s, e))
  {}

  lemma {:induction false} SaveSettles(s: State, e: Event)
    requires Sound(s) && AllSettled(s) && Clean(s, e) && (e.Save? || e.Poll? || e.Advance?)
    ensures AllSettled(Step(s, e))
  {}

  lemma {:induction false} StepSettles(s: State, e: Event)
    requires Sound(s) && AllSettled(s) && Clean(s, e)
    ensures AllSettled(Step(s, e))
  {
    if e.Post? {
      PostSettles(s, e);
    } else if e.Save? || e.Poll? || e.Advance? {
      SaveSettles(s, e);
    }
  }

  /** In a clean history a terminal receipt is settled, so that a next deployment may begin. */
  lemma {:induction false} TerminalReceiptsAreSettled(es: seq<Event>)
    requires CleanHistory(es)
    ensures AllSettled(History(es))
    decreases |es|
  {
    hide Step;
    hide Clean;
    if es != [] {
      TerminalReceiptsAreSettled(es[..|es| - 1]);
      HistoriesAreSound(es[..|es| - 1]);
      StepSettles(History(es[..|es| - 1]), es[|es| - 1]);
    }
  }

  lemma {:induction false} Snoc(es: seq<Event>, e: Event)
    ensures History(es + [e]) == Step(History(es), e)
  {
    assert (es + [e])[..|es|] == es;
  }

  /** A terminal receipt whose Task ended is settled in every history. */
  lemma {:induction false} EndedReceiptsAreSettled(es: seq<Event>)
    requires var d := History(es).disk; d.Some? && d.value.status != Rejected
    ensures Settled(History(es), History(es).disk.value)
  {
    HistoriesAreSound(es);
  }

  /** A request for this release and key is answered with a refusal. */
  predicate RefusedAt(es: seq<Event>, i: nat, release: nat, key: nat) {
    && i < |es| && es[i].Post? && es[i].delivery.Answered?
    && var s := History(es[..i]);
       && s.pc.Following? && s.pc.value.task.None? && s.pc.value.release == release && s.pc.value.key == key
       && Received(s, release, key, es[i].reception, es[i].id).2
  }

  /** The Controller creates the Task of this release and key. */
  predicate CreatedAt(es: seq<Event>, j: nat, release: nat, key: nat) {
    && j < |es| && (es[j].Post? || es[j].Late?)
    && key !in History(es[..j]).tasks && key in History(es[..j + 1]).tasks && History(es[..j + 1]).tasks[key].release == release
  }

  ghost predicate EverRefused(es: seq<Event>, release: nat, key: nat) { exists i: nat :: RefusedAt(es, i, release, key) }

  lemma {:induction false} StillRefused(es: seq<Event>, release: nat, key: nat)
    requires es != [] && EverRefused(es[..|es| - 1], release, key)
    ensures EverRefused(es, release, key)
  {
    var i: nat :| RefusedAt(es[..|es| - 1], i, release, key);
    assert es[..|es| - 1][..i] == es[..i];
    assert RefusedAt(es, i, release, key);
  }

  /** A receipt that says "rejected". */
  predicate Refusal(r: Receipt) { r.status == Rejected }

  /** Every refusal that is recorded or held in memory was once answered. */
  ghost predicate RefusalsKnown(s: State, es: seq<Event>) {
    && (s.disk.Some? && Refusal(s.disk.value) ==> EverRefused(es, s.disk.value.release, s.disk.value.key))
    && (s.pc.Following? && Refusal(s.pc.value) ==> EverRefused(es, s.pc.value.release, s.pc.value.key))
    && (s.pc.Saving? && Refusal(s.pc.value) ==> EverRefused(es, s.pc.value.release, s.pc.value.key))
  }

  /** A refusal in the next state was there before, under the same release and key, or is answered now. */
  lemma {:induction false} NewRefusals(s: State, e: Event)
    requires Sound(s)
    ensures var t := Step(s, e);
      && (t.disk.Some? && Refusal(t.disk.value) ==> t.disk == s.disk || (s.pc.Saving? && s.pc.value == t.disk.value))
      && (t.pc.Following? && Refusal(t.pc.value) ==>
            || ((s.pc.Following? || s.pc.Saving?) && s.pc.value == t.pc.value) || Some(t.pc.value) == s.disk)
      && (t.pc.Saving? && Refusal(t.pc.value) ==>
            || (s.pc.Saving? && s.pc.value == t.pc.value)
            || (s.pc.Following? && s.pc.value.release == t.pc.value.release && s.pc.value.key == t.pc.value.key &&
                (Refusal(s.pc.value) || Refusing(s, e))))
  {}

  predicate Refusing(s: State, e: Event) {
    && e.Post? && e.delivery.Answered? && s.pc.Following? && s.pc.value.task.None?
    && Received(s, s.pc.value.release, s.pc.value.key, e.reception, e.id).2
  }

  lemma {:induction false} RefusalsWereAnswered(es: seq<Event>)
    ensures RefusalsKnown(History(es), es)
    decreases |es|
  {
    if es != [] {
      var before, e := es[..|es| - 1], es[|es| - 1];
      var s, t := History(before), History(es);
      RefusalsWereAnswered(before);
      HistoriesAreSound(before);
      NewRefusals(s, e);
      hide Step, Sound;
      if s.disk.Some? && Refusal(s.disk.value) { StillRefused(es, s.disk.value.release, s.disk.value.key); }
      if (s.pc.Following? || s.pc.Saving?) && Refusal(s.pc.value) { StillRefused(es, s.pc.value.release, s.pc.value.key); }
      if Refusing(s, e) {
        RefusedIsSent(s, e);
        assert RefusedAt(es, |es| - 1, s.pc.value.release, s.pc.value.key);
      }
    }
  }

  /** Received does not look at what was sent. */
  lemma {:induction false} RefusedIsSent(s: State, e: Event)
    requires Refusing(s, e)
    ensures e.Post? && s.pc.Following? && Received(s, s.pc.value.release, s.pc.value.key, e.reception, e.id).2
  {}

  /** Tasks stay, with their release. */
  lemma {:induction false} TasksStay(s: State, e: Event, key: nat)
    requires key in s.tasks
    ensures key in Step(s, e).tasks && Step(s, e).tasks[key].release == s.tasks[key].release
  {}

  lemma {:induction false} TasksRemain(es: seq<Event>, i: nat, key: nat)
    requires i <= |es| && key in History(es[..i]).tasks
    ensures key in History(es).tasks && History(es).tasks[key].release == History(es[..i]).tasks[key].release
    decreases |es|
  {
    hide Step;
    if i == |es| {
      assert es[..i] == es;
    } else {
      assert es[..|es| - 1][..i] == es[..i];
      TasksRemain(es[..|es| - 1], i, key);
      TasksStay(History(es[..|es| - 1]), es[|es| - 1], key);
    }
  }

  lemma {:induction false} CreationIsARequest(s: State, e: Event, key: nat)
    requires key !in s.tasks && key in Step(s, e).tasks
    ensures e.Post? || e.Late?
  {}

  /** Every Task was created by a request. */
  lemma {:induction false} CreationFound(es: seq<Event>, key: nat) returns (j: nat)
    requires key in History(es).tasks
    ensures CreatedAt(es, j, History(es).tasks[key].release, key)
    decreases |es|
  {
    hide Step;
    assert es != [];
    var before := es[..|es| - 1];
    assert es[..|es|] == es;
    if key in History(before).tasks {
      j := CreationFound(before, key);
      assert before[..j] == es[..j] && before[..j + 1] == es[..j + 1];
      TasksStay(History(before), es[|es| - 1], key);
    } else {
      j := |es| - 1;
      CreationIsARequest(History(before), es[j], key);
    }
  }

  /** A refusal is given only while the key has no Task of this release, and it makes none. */
  lemma {:induction false} RefusedHasNone(es: seq<Event>, i: nat, release: nat, key: nat)
    requires RefusedAt(es, i, release, key)
    ensures var s := History(es[..i + 1]); key in s.tasks ==> s.tasks[key].release != release
  {
    assert es[..i + 1][..i] == es[..i];
  }

  /**
   When a receipt leaves something open, in every history: exactly when it says "rejected" and the Controller
   created its key's Task after a refusal for that key had been answered.
   */
  lemma {:induction false} UnsettledExactly(es: seq<Event>)
    requires History(es).disk.Some?
    ensures var s := History(es); var r := s.disk.value;
      !Settled(s, r) <==>
        r.status == Rejected && exists i: nat, j: nat :: i < j && RefusedAt(es, i, r.release, r.key) && CreatedAt(es, j, r.release, r.key)
  {
    var s := History(es);
    var r := s.disk.value;
    HistoriesAreSound(es);
    RefusalsWereAnswered(es);
    hide Sound, RefusedAt, CreatedAt, Step;
    if r.status == Rejected {
      var i: nat :| RefusedAt(es, i, r.release, r.key);
      if r.key in s.tasks && s.tasks[r.key].release == r.release {
        var j := CreationFound(es, r.key);
        CreatedAfter(es, i, j, r.release, r.key);
      }
      if exists k: nat, j: nat :: k < j && RefusedAt(es, k, r.release, r.key) && CreatedAt(es, j, r.release, r.key) {
        var k: nat, j: nat :| k < j && RefusedAt(es, k, r.release, r.key) && CreatedAt(es, j, r.release, r.key);
        CreatedRemains(es, j, r.release, r.key);
      }
      if r.task.Some? { NamesItsTask(es); }
    }
  }

  lemma {:induction false} NamesItsTask(es: seq<Event>)
    requires History(es).disk.Some? && History(es).disk.value.task.Some?
    ensures var s := History(es); s.disk.value.key in s.tasks && s.tasks[s.disk.value.key].release == s.disk.value.release
  {
    HistoriesAreSound(es);
  }

  lemma {:induction false} CreatedRemains(es: seq<Event>, j: nat, release: nat, key: nat)
    requires CreatedAt(es, j, release, key)
    ensures key in History(es).tasks && History(es).tasks[key].release == release
  {
    TasksRemain(es, j + 1, key);
  }

  /** The creation comes after the refusal. */
  lemma {:induction false} CreatedAfter(es: seq<Event>, i: nat, j: nat, release: nat, key: nat)
    requires RefusedAt(es, i, release, key) && CreatedAt(es, j, release, key)
    ensures i < j
  {
    if j <= i {
      RefusedHasNone(es, i, release, key);
      assert es[..i + 1][..j + 1] == es[..j + 1];
      TasksRemain(es[..i + 1], j + 1, key);
    }
  }

  /** The first of three ways: the save of the refusal fails, and an acceptance is then recorded under it. */
  lemma {:induction false} FailedRefusalMisleads()
    ensures exists es :: var s := History(es);
      s.disk.Some? && Terminal(s.disk.value.status) && s.disk.value.status == Rejected &&
      TaskOf(s, s.disk.value) && s.tasks[s.disk.value.key].status == Active
  {
    hide Step;
    var refused := [] + [Run(1, 2)] + [Save(Replaced)] + [Post(Refuse, 0, Answered)] + [Save(Unchanged)];
    RefusedInMemory(Unchanged);
    var all := refused + [Post(Accept, 3, Answered)] + [Save(Replaced)];
    Snoc(refused, Post(Accept, 3, Answered));
    Snoc(refused + [Post(Accept, 3, Answered)], Save(Replaced));
    AcceptedAsRefused(History(refused));
    assert History(all).disk == Some(Receipt(1, 2, Some(3), Rejected));
  }

  /**
   The second: the receipt was replaced by the refusal and the save reported as failed. The next request goes out
   under a receipt that says "rejected"; its acceptance is not recorded when the process crashes, and another
   release may then begin.
   */
  lemma {:induction false} UnconfirmedRefusalMisleads()
    ensures exists es, e :: var s, t := History(es), Step(History(es), e);
      && !Open(s.disk) && t.posts == s.posts + [(1, 2)]
      && var after := Step(Step(t, Crash), Run(7, 8));
         && after.disk == Some(Receipt(1, 2, None, Rejected)) && after.tasks == map[2 := Task(3, 1, Active)]
         && after.pc == Saving(Receipt(7, 8, None, Pending), None, true)
  {
    hide Step;
    var es := [] + [Run(1, 2)] + [Save(Replaced)] + [Post(Refuse, 0, Answered)] + [Save(Unconfirmed)];
    RefusedInMemory(Unconfirmed);
    AcceptedUnrecorded(History(es));
    assert !Open(History(es).disk);
  }

  /** The third: a request that nobody waits for any more is accepted after a later one was refused. */
  lemma {:induction false} LateRequestMisleads()
    ensures exists es :: var s := History(es);
      s.disk == Some(Receipt(1, 2, None, Rejected)) && s.tasks == map[2 := Task(3, 1, Active)]
  {
    hide Step;
    var a := [] + [Run(1, 2)] + [Save(Replaced)];
    Begun();
    var b := a + [Post(Ignore, 0, Delayed)];
    Snoc(a, Post(Ignore, 0, Delayed));
    var c := b + [Post(Refuse, 0, Answered)];
    Snoc(b, Post(Refuse, 0, Answered));
    var d := c + [Save(Replaced)];
    Snoc(c, Save(Replaced));
    Snoc(d, Late(1, 2, Accept, 3));
    DelayedThenRefused(History(a));
    assert History(d + [Late(1, 2, Accept, 3)]).tasks == map[2 := Task(3, 1, Active)];
  }

  lemma {:induction false} DelayedThenRefused(s: State)
    requires s == START.(pc := Following(Receipt(1, 2, None, Pending)), disk := Some(Receipt(1, 2, None, Pending)))
    ensures var t := Step(Step(Step(Step(s, Post(Ignore, 0, Delayed)), Post(Refuse, 0, Answered)), Save(Replaced)), Late(1, 2, Accept, 3));
      t.disk == Some(Receipt(1, 2, None, Rejected)) && t.tasks == map[2 := Task(3, 1, Active)]
  {}

  lemma {:induction false} Begun()
    ensures History([] + [Run(1, 2)] + [Save(Replaced)]) ==
            START.(pc := Following(Receipt(1, 2, None, Pending)), disk := Some(Receipt(1, 2, None, Pending)))
  {
    var a := [] + [Run(1, 2)];
    Snoc([], Run(1, 2));
    assert History(a) == START.(pc := Saving(Receipt(1, 2, None, Pending), None, true));
    Snoc(a, Save(Replaced));
  }

  lemma {:induction false} RefusedInMemory(saved: Saved)
    requires !saved.Replaced?
    ensures var s := History([] + [Run(1, 2)] + [Save(Replaced)] + [Post(Refuse, 0, Answered)] + [Save(saved)]);
      && s.pc == Following(Receipt(1, 2, None, Rejected)) && s.tasks == map[] && s.late == {}
      && s.disk == Some(Receipt(1, 2, None, if saved.Unchanged? then Pending else Rejected))
  {
    var a := [] + [Run(1, 2)] + [Save(Replaced)];
    Begun();
    Snoc(a, Post(Refuse, 0, Answered));
    Snoc(a + [Post(Refuse, 0, Answered)], Save(saved));
  }

  lemma {:induction false} AcceptedUnrecorded(s: State)
    requires s.pc == Following(Receipt(1, 2, None, Rejected)) && s.tasks == map[] && s.disk == Some(Receipt(1, 2, None, Rejected))
    ensures var t := Step(s, Post(Accept, 3, Answered));
      && t.posts == s.posts + [(1, 2)]
      && var after := Step(Step(t, Crash), Run(7, 8));
         && after.disk == Some(Receipt(1, 2, None, Rejected)) && after.tasks == map[2 := Task(3, 1, Active)]
         && after.pc == Saving(Receipt(7, 8, None, Pending), None, true)
  {}

  lemma {:induction false} AcceptedAsRefused(s: State)
    requires s.pc == Following(Receipt(1, 2, None, Rejected)) && s.tasks == map[]
    ensures var t := Step(Step(s, Post(Accept, 3, Answered)), Save(Replaced));
      t.disk == Some(Receipt(1, 2, Some(3), Rejected)) && t.tasks == map[2 := Task(3, 1, Active)]
  {}

  /** The remote side of the requests. */
  class Controller {
    var tasks: map<nat, Task>
    ghost var created: seq<nat>

    method Receive(release: nat, key: nat, reception: Reception, id: nat) returns (task: Option<nat>, refused: bool)
      modifies this
      ensures forall s: State :: s.tasks == old(tasks) && s.created == old(created) ==>
                Received(s, release, key, reception, id) == (s.(tasks := tasks, created := created), task, refused)
    {
      if key in tasks {
        if tasks[key].release == release {
          return Some(tasks[key].id), false;
        }
        return None, true;
      }
      match reception
      case Accept =>
        tasks, created := tasks[key := Task(id, release, Active)], created + [key];
        return Some(id), false;
      case Refuse => return None, true;
      case Ignore => return None, false;
    }
  }

  /** What one round of following meets: how its request fares, and how its save ends. */
  datatype Round = Round(reception: Reception, id: nat, delivery: Delivery, saved: Saved)

  function RoundStep(s: State, r: Round): State {
    if !s.pc.Following? then s
    else
      var asked := if s.pc.value.task.None? then PostStep(s, r.reception, r.id, r.delivery) else PollStep(s, !r.delivery.Answered?);
      SaveStep(asked, r.saved)
  }

  /** Rounds until the deadline cuts them off. */
  function Rounds(s: State, rs: seq<Round>): State
    decreases |rs|
  {
    if rs == [] || !s.pc.Following? then s else Rounds(RoundStep(s, rs[0]), rs[1..])
  }

  /** The client process with its durable receipt. */
  class Client {
    const controller: Controller
    var disk: Option<Receipt>
    var pc: Pc
    ghost var late: set<(nat, nat)>
    ghost var posts: seq<(nat, nat)>

    ghost function Now(): State
      reads this, controller
    {
      State(disk, pc, controller.tasks, late, posts, controller.created)
    }

    constructor (controller: Controller)
      ensures this.controller == controller && disk.None? && pc == Idle && late == {} && posts == []
    {
      this.controller, disk, pc, late, posts := controller, None, Idle, {}, [];
    }

    /** Begins a deployment or joins the unresolved one; another release is turned away. */
    method Begin(release: nat, key: nat, saved: Saved)
      requires Free(pc)
      modifies this`disk, this`pc
      ensures var started := RunStep(old(Now()), release, key);
        Now() == SaveStep(started, saved)
    {
      if disk.Some? && !Terminal(disk.value.status) {
        pc := if disk.value.release == release then Following(disk.value) else Reported(Unresolved);
        return;
      }
      var value := Receipt(release, key, None, Pending);
      if !saved.Unchanged? {
        disk := Some(value);
      }
      pc := if saved.Replaced? then Following(value) else Reported(Unresolved);
    }

    method Save(value: Receipt, outcome: Option<Report>, saved: Saved)
      modifies this`disk, this`pc
      ensures var saving := old(Now()).(pc := Saving(value, outcome, false));
        Now() == SaveStep(saving, saved)
    {
      if !saved.Unchanged? {
        disk := Some(value);
      }
      pc := if saved.Replaced? && outcome.Some? then Reported(outcome.value) else Following(value);
    }

    /** One request, or one look at the Task, and the save of what it brought. */
    method Round(r: Round)
      requires pc.Following?
      modifies this, controller
      ensures Now() == RoundStep(old(Now()), r)
    {
      var value := pc.value;
      if value.task.None? {
        posts := posts + [(value.release, value.key)];
        if r.delivery.Delayed? {
          late := late + {(value.release, value.key)};
          return;
        }
        var task, refused := controller.Receive(value.release, value.key, r.reception, r.id);
        if r.delivery.Unheard? {
          return;
        }
        if refused {
          Save(value.(status := Rejected), Some(Failure), r.saved);
        } else if task.Some? {
          Save(value.(task := task), None, r.saved);
        }
        return;
      }
      if !r.delivery.Answered? || value.key !in controller.tasks || controller.tasks[value.key].id != value.task.value {
        return;
      }
      var status := controller.tasks[value.key].status;
      if Terminal(status) {
        Save(value.(status := status), Some(if status == Succeeded then Success else Failure), r.saved);
      } else {
        Save(value.(status := status), None, r.saved);
      }
    }

    /** Follows until a round reports or the rounds run out. */
    method Follow(rs: seq<Round>) returns (report: Report)
      requires pc.Following?
      modifies this, controller
      ensures Rounds(old(Now()), rs) == Now().(pc := Rounds(old(Now()), rs).pc)
      ensures if Rounds(old(Now()), rs).pc.Reported? then report == Rounds(old(Now()), rs).pc.report else report == Unresolved
      ensures pc == Reported(report)
    {
      var i := 0;
      while i < |rs| && pc.Following?
        invariant 0 <= i <= |rs|
        invariant pc.Following? || pc.Reported?
        invariant Rounds(old(Now()), rs) == Rounds(Now(), rs[i..])
      {
        assert rs[i..][0] == rs[i] && rs[i..][1..] == rs[i + 1..];
        Round(rs[i]);
        i := i + 1;
      }
      if pc.Following? {
        pc := Reported(Unresolved);
      }
      report := pc.report;
    }
  }
}
