/**
 When a consumed result frees its slot. Every operation kind has its own proof of completion and its own
 journal to retire; a failed local execution needs neither, and a result of another kind frees nothing.
 */
module ExecutionResults {
  import opened Outcomes

  datatype WorkAttempt = WorkAttempt(id: nat, work: nat, recovery: bool, assignment: nat)

  /** The operations whose result is one saved terminal attempt, in the order in which results are matched. */
  const SAVED_KINDS := 11
  type Rank = rank: nat | rank < SAVED_KINDS

  datatype Kind =
    | Backup
    | BackupRecovery
    | Saved(rank: Rank)
    | AttachRecovery
    | Attach
    | Environment
    | ScriptRecovery
    | Script
    | Recovery
    | Forward

  /** A terminal attempt as its operation's journal saved it. */
  datatype Terminal = Terminal(attempt: WorkAttempt, valid: bool, finished: bool, result: bool, succeeded: bool)

  datatype Removal = Removal(inFlight: bool, completed: nat)

  datatype Result = Result(
    failed: bool,
    backup: Option<Terminal>,
    saved: map<Rank, Terminal>,
    attachRecovery: Option<Terminal>,
    attach: Option<Removal>,
    attachFailure: Option<Terminal>,
    environmentRemoved: Option<bool>,
    environmentFailure: Option<Terminal>,
    script: bool,
    scriptFailure: bool,
    scriptRecovery: bool,
    report: bool,
    failure: bool,
    recovery: bool)

  /** A saved terminal acknowledgement of exactly this attempt. */
  predicate Acknowledges(t: Option<Terminal>, attempt: WorkAttempt) {
    t.Some? && t.value.valid && t.value.finished && t.value.result && t.value.attempt == attempt
  }

  predicate AcknowledgesFailure(t: Option<Terminal>, attempt: WorkAttempt) {
    t.Some? && t.value.finished && !t.value.succeeded && t.value.attempt == attempt
  }

  predicate NoScript(r: Result) { !r.script && !r.scriptFailure && !r.scriptRecovery }
  predicate NoRelease(r: Result) { !r.report && !r.failure && !r.recovery }
  predicate NoEnvironment(r: Result) { r.environmentRemoved.None? && r.environmentFailure.None? }

  /** Exactly one of two outcomes. */
  predicate One(a: bool, b: bool) { a != b }

  /** The proof of completion that each kind requires of a result without error. */
  predicate Complete(kind: Kind, attempt: WorkAttempt, r: Result, commands: nat) {
    match kind
    case Backup => Acknowledges(r.backup, attempt)
    case BackupRecovery => Acknowledges(r.backup, attempt)
    case Saved(rank) => rank in r.saved && Acknowledges(Some(r.saved[rank]), attempt)
    case AttachRecovery =>
      && r.attachRecovery.Some? && r.attachRecovery.value.finished && r.attachRecovery.value.result
      && r.attachRecovery.value.attempt == attempt
      && r.attach.None? && r.attachFailure.None? && NoEnvironment(r) && NoScript(r) && NoRelease(r)
    case Attach =>
      && One(r.attach.Some?, r.attachFailure.Some?) && NoEnvironment(r) && NoScript(r) && NoRelease(r)
      && (r.attach.Some? ==> !r.attach.value.inFlight && r.attach.value.completed == commands)
      && (r.attachFailure.Some? ==> AcknowledgesFailure(r.attachFailure, attempt))
    case Environment =>
      && One(r.environmentRemoved.Some?, r.environmentFailure.Some?) && NoScript(r) && NoRelease(r)
      && (r.environmentRemoved.Some? ==> r.environmentRemoved.value)
      && (r.environmentFailure.Some? ==> AcknowledgesFailure(r.environmentFailure, attempt))
    case ScriptRecovery => One(r.scriptRecovery, r.scriptFailure) && !r.script && NoRelease(r)
    case Script => One(r.script, r.scriptFailure) && !r.scriptRecovery && NoRelease(r)
    case Recovery => One(r.recovery, r.failure) && !r.report
    case Forward => One(r.report, r.failure) && !r.recovery
  }

  /** A result that carries the proof of an operation matched before this kind. */
  predicate Foreign(kind: Kind, r: Result) {
    match kind
    case Backup => false
    case BackupRecovery => false
    case Saved(rank) => r.backup.Some? || exists other: Rank :: other < rank && other in r.saved
    case _ =>
      || r.backup.Some? || r.saved != map[]
      || (!kind.AttachRecovery? && r.attachRecovery.Some?)
      || (!kind.Attach? && (r.attach.Some? || r.attachFailure.Some?))
  }

  /** An acknowledged attach recovery leaves no journal to retire. */
  predicate Retires(kind: Kind) { !kind.AttachRecovery? }

  /** A slot is freed by its own kind's proof once its journal retired, or by a failed local execution. */
  predicate Frees(kind: Kind, attempt: WorkAttempt, r: Result, commands: nat, decoded: bool, retired: bool) {
    !Foreign(kind, r) &&
    (r.failed || (Complete(kind, attempt, r, commands) && (kind.Attach? || kind.Environment? ==> decoded) &&
                  (Retires(kind) ==> retired)))
  }

  /** The terminal results that other operations carry, checked in order. `own` answers for the slot's own kind. */
  method MatchSaved(kind: Kind, attempt: WorkAttempt, r: Result, retired: bool) returns (own: Option<bool>)
    requires !kind.Backup? && !kind.BackupRecovery? && r.backup.None?
    ensures kind.Saved? ==> own == Some(Frees(kind, attempt, r, 0, true, retired))
    ensures !kind.Saved? ==> own == if r.saved != map[] then Some(false) else None
  {
    var rank := 0;
    while rank < SAVED_KINDS
      invariant 0 <= rank <= SAVED_KINDS
      invariant forall other: Rank :: other < rank ==> other !in r.saved && kind != Saved(other)
    {
      if kind == Saved(rank) {
        if !r.failed {
          if rank !in r.saved || !Acknowledges(Some(r.saved[rank]), attempt) {
            return Some(false);
          }
          return Some(retired);
        }
        return Some(true);
      }
      if rank in r.saved {
        return Some(false);
      }
      rank := rank + 1;
    }
    assert forall other :: other in r.saved ==> other < rank;
    assert r.saved == map[];
    own := None;
  }

  /** Whether consuming a result frees its slot, decided in the order in which the operations are matched. */
  method Settle(kind: Kind, attempt: WorkAttempt, r: Result, commands: nat, decoded: bool, retired: bool) returns (freed: bool)
    ensures freed == Frees(kind, attempt, r, commands, decoded, retired)
  {
    if kind.Backup? || kind.BackupRecovery? {
      return r.failed || (Acknowledges(r.backup, attempt) && retired);
    }
    if r.backup.Some? {
      return false;
    }
    var own := MatchSaved(kind, attempt, r, retired);
    if own.Some? {
      return own.value;
    }
    if !kind.AttachRecovery? && r.attachRecovery.Some? {
      return false;
    }
    if kind.AttachRecovery? && !r.failed {
      if r.attachRecovery.None? || !r.attachRecovery.value.finished || !r.attachRecovery.value.result ||
         r.attachRecovery.value.attempt != attempt || r.attach.Some? || r.attachFailure.Some? || !NoEnvironment(r) ||
         !NoScript(r) || !NoRelease(r) {
        return false;
      }
    }
    if !kind.Attach? && (r.attach.Some? || r.attachFailure.Some?) {
      return false;
    }
    if kind.Attach? && !r.failed {
      if r.attach.None? == r.attachFailure.None? || (r.attach.Some? && r.attach.value.inFlight) || !NoEnvironment(r) ||
         !NoScript(r) || !NoRelease(r) {
        return false;
      }
      if !decoded || (r.attach.Some? && r.attach.value.completed != commands) {
        return false;
      }
      if r.attachFailure.Some? && !AcknowledgesFailure(r.attachFailure, attempt) {
        return false;
      }
      return retired;
    }
    if kind.Environment? && !r.failed {
      if r.environmentRemoved.None? == r.environmentFailure.None? ||
         (r.environmentRemoved.Some? && !r.environmentRemoved.value) ||
         (r.environmentFailure.Some? && !AcknowledgesFailure(r.environmentFailure, attempt)) || !NoScript(r) || !NoRelease(r) {
        return false;
      }
      return decoded && retired;
    }
    if !r.failed {
      if kind.ScriptRecovery? && (r.scriptRecovery == r.scriptFailure || r.script || !NoRelease(r)) {
        return false;
      }
      if kind.Script? && (r.script == r.scriptFailure || r.scriptRecovery || !NoRelease(r)) {
        return false;
      }
      if kind.Recovery? && (r.recovery == r.failure || r.report) {
        return false;
      }
      if kind.Forward? && (r.report == r.failure || r.recovery) {
        return false;
      }
      if (kind.Script? || kind.ScriptRecovery? || kind.Forward? || kind.Recovery?) && !retired {
        return false;
      }
    }
    freed := true;
  }
}
