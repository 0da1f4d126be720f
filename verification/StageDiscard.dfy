/**
 One recovered backup stage: its files, its point directory, its reservation leaf and the database
 execution marker that a helper leaves beside it, with the durable operations of a startup disposition.
 */
module StageDiscard {
  import opened Outcomes

  type Digest = nat

  datatype Role = SourcePlaintext | StoredObject

  /** The four managed names, in the order in which a directory listing is sorted. */
  datatype Name = SourcePartial | StoredPartial | SourceFinal | StoredFinal

  datatype Content = Content(size: nat, sha: Digest)

  datatype RecoveredFile = RecoveredFile(role: Role, size: nat, sha: Digest)

  datatype Stage = Stage(files: map<Name, Content>, point: bool, reservation: bool, marker: bool)

  datatype Op = RemoveFile(name: Name) | RemovePoint | RemoveReservation | RemoveMarker

  datatype Growth = NoGrowth | Bounded(bytes: nat) | ExclusiveUnknown

  datatype Guard = Guard(terminalCleanup: bool, recoveryApply: bool)

  datatype Action =
    | DiscardRecovered
    | ResumePrepared(expected: seq<RecoveredFile>, restartEncryption: bool, growth: Growth)
    | RecoveryRequired(expected: seq<RecoveredFile>)

  datatype Disposition = Disposition(key: nat, guard: Option<Guard>, action: Action)

  /** An inventory entry: the files by role and whether a database execution marker exists. */
  datatype Entry = Entry(key: nat, files: seq<RecoveredFile>, database: bool)

  function RoleOf(name: Name): Role {
    if name.SourcePartial? || name.SourceFinal? then SourcePlaintext else StoredObject
  }

  function FileOf(name: Name, content: Content): RecoveredFile {
    RecoveredFile(RoleOf(name), content.size, content.sha)
  }

  function Step(s: Stage, op: Op): Stage {
    match op
    case RemoveFile(name) => s.(files := s.files - {name})
    case RemovePoint => s.(point := false)
    case RemoveReservation => s.(reservation := false)
    case RemoveMarker => s.(marker := false)
  }

  function Run(s: Stage, ops: seq<Op>): Stage
    decreases |ops|
  {
    if ops == [] then s else Run(Step(s, ops[0]), ops[1..])
  }

  /** Files appear only under a point directory whose reservation is already durable. */
  predicate Ordered(s: Stage) { s.files != map[] ==> s.point && s.reservation }

  /** Opening recovery removes a namespace without files and then its reservation. */
  function SweepOps(s: Stage): seq<Op> {
    if s.files != map[] then []
    else
      var last := if s.reservation then [RemoveReservation] else [];
      if s.point then [RemovePoint] + last else last
  }

  function Swept(s: Stage): Stage { Run(s, SweepOps(s)) }

  /** The names in a stage, in listing order. */
  function Names(files: map<Name, Content>): seq<Name> {
    var d := if StoredFinal in files then [StoredFinal] else [];
    var c := if SourceFinal in files then [SourceFinal] + d else d;
    var b := if StoredPartial in files then [StoredPartial] + c else c;
    if SourcePartial in files then [SourcePartial] + b else b
  }

  lemma {:induction false} NamesListed(files: map<Name, Content>)
    ensures forall name :: name in Names(files) <==> name in files
  {
    forall name ensures name in Names(files) <==> name in files {
      match name
      case SourcePartial =>
      case StoredPartial =>
      case SourceFinal =>
      case StoredFinal =>
    }
  }

  /** The files of one role, partial before final. */
  function FilesOf(files: map<Name, Content>, partial: Name, final: Name): seq<RecoveredFile> {
    (if partial in files then [FileOf(partial, files[partial])] else []) +
    (if final in files then [FileOf(final, files[final])] else [])
  }

  /** The wire order: by role. */
  function WireFiles(files: map<Name, Content>): seq<RecoveredFile> {
    FilesOf(files, SourcePartial, SourceFinal) + FilesOf(files, StoredPartial, StoredFinal)
  }

  function RemovalOps(names: seq<Name>): seq<Op> {
    if names == [] then [RemovePoint] + [RemoveReservation] else [RemoveFile(names[0])] + RemovalOps(names[1..])
  }

  predicate RetiresMarker(d: Disposition) {
    d.guard.Some? && d.guard.value.terminalCleanup
  }

  function MarkerOps(s: Stage, d: Disposition): seq<Op> {
    if RetiresMarker(d) && s.marker then [RemoveMarker] else []
  }

  /** Every file on disk is one the resume decision expects. */
  predicate AllExpected(files: map<Name, Content>, expected: seq<RecoveredFile>) {
    forall name :: name in files ==> FileOf(name, files[name]) in expected
  }

  predicate OnlySource(files: map<Name, Content>) {
    Names(files) == [SourcePartial] || Names(files) == [SourceFinal]
  }

  /** A restarted encryption drops the derived object; the plaintext stays. */
  function DerivedOps(files: map<Name, Content>): seq<Op> {
    var final := if StoredFinal in files then [RemoveFile(StoredFinal)] else [];
    if StoredPartial in files then [RemoveFile(StoredPartial)] + final else final
  }

  /** Applies one disposition to a stage as opening recovery left it. */
  function Dispose(s: Stage, d: Disposition): Attempt<Op> {
    match d.action
    case DiscardRecovered =>
      Attempt((if s.files != map[] then RemovalOps(Names(s.files)) else []) + MarkerOps(s, d), true)
    case RecoveryRequired(expected) =>
      Attempt([], s.files != map[] || (d.guard.Some? && expected == []))
    case ResumePrepared(expected, restartEncryption, _) =>
      if s.files == map[] || !AllExpected(s.files, expected) ||
         (|Names(s.files)| != |expected| && !(restartEncryption && OnlySource(s.files))) then Attempt([], false)
      else Attempt(if restartEncryption then DerivedOps(s.files) else [], true)
  }

  /** Everything one startup pass does to a stage under its disposition. */
  function Pass(s: Stage, d: Disposition): Attempt<Op> {
    if !Ordered(s) then Attempt([], false)
    else
      var dispose := Dispose(Swept(s), d);
      Attempt(SweepOps(s) + dispose.ops, dispose.done)
  }

  /** A stage that the inventory reports holds at most one file of each role. */
  predicate OnePerRole(files: map<Name, Content>) {
    !(SourcePartial in files && SourceFinal in files) && !(StoredPartial in files && StoredFinal in files)
  }

  lemma {:induction false} RunAppend(s: Stage, a: seq<Op>, b: seq<Op>)
    ensures Run(s, a + b) == Run(Run(s, a), b)
    decreases |a|
  {
    if a == [] {
      assert a + b == b;
    } else {
      assert (a + b)[1..] == a[1..] + b;
      RunAppend(Step(s, a[0]), a[1..], b);
    }
  }

  /** Removing the first listed name leaves the list of the others. */
  lemma {:induction false} NamesStep(files: map<Name, Content>)
    requires files != map[]
    ensures Names(files) != [] && Names(files - {Names(files)[0]}) == Names(files)[1..]
  {
    NamesListed(files);
    var name :| name in files;
    assert name in Names(files);
  }

  /** What the next operation of a pass may remove, and when. */
  predicate Permitted(s: Stage, d: Disposition, op: Op) {
    match op
    case RemoveFile(name) =>
      || d.action.DiscardRecovered?
      || (d.action.ResumePrepared? && d.action.restartEncryption && RoleOf(name) == StoredObject)
    case RemovePoint => s.files == map[]
    case RemoveReservation => s.files == map[] && !s.point
    case RemoveMarker => d.action.DiscardRecovered? && RetiresMarker(d) && s.files == map[] && !s.point && !s.reservation
  }

  /** A restarted encryption always has both files to expect. */
  predicate ValidDecision(d: Disposition) {
    d.action.ResumePrepared? && d.action.restartEncryption ==> |d.action.expected| == 2
  }

  lemma {:induction false} SweepRuns(s: Stage)
    requires s.files == map[]
    ensures Swept(s) == s.(point := false, reservation := false)
  {
    var ops := SweepOps(s);
    if ops != [] {
      assert Run(s, ops) == Run(Step(s, ops[0]), ops[1..]);
      if |ops| == 2 {
        assert ops[1..][0] == RemoveReservation && ops[1..][1..] == [];
        assert Run(Step(s, ops[0]), ops[1..]) == Step(Step(s, ops[0]), RemoveReservation);
      }
    }
  }

  predicate Advances(s: Stage, d: Disposition) {
    var pass := Pass(s, d);
    pass.done && pass.ops != [] ==>
      && Permitted(s, d, pass.ops[0])
      && OnePerRole(Step(s, pass.ops[0]).files)
      && Pass(Step(s, pass.ops[0]), d) == Attempt(pass.ops[1..], true)
  }

  lemma {:induction false} EmptyAdvances(s: Stage, d: Disposition)
    requires s.files == map[]
    ensures Advances(s, d)
  {
    var pass := Pass(s, d);
    SweepRuns(s);
    if pass.done && pass.ops != [] {
      var next := Step(s, pass.ops[0]);
      SweepRuns(next);
      assert Dispose(Swept(s), d).ops == if d.action.DiscardRecovered? then MarkerOps(s, d) else [];
      assert SweepOps(s) != [] ==> SweepOps(next) == SweepOps(s)[1..];
    }
  }

  lemma {:induction false} DiscardAdvances(s: Stage, d: Disposition)
    requires s.files != map[] && OnePerRole(s.files) && d.action.DiscardRecovered?
    ensures Advances(s, d)
  {
    hide Dispose;
    hide Pass;
    hide Names;
    hide OnePerRole;
    if Ordered(s) {
      NamesStep(s.files);
      var names := Names(s.files);
      var next := Step(s, RemoveFile(names[0]));
      DiscardPass(s, d);
      assert RemovalOps(names) + MarkerOps(s, d) == [RemoveFile(names[0])] + (RemovalOps(names[1..]) + MarkerOps(s, d));
      OnePerRoleStep(s.files, names[0]);
      NamesListed(next.files);
      if names[1..] == [] {
        LastDiscard(next, d);
      } else {
        assert names[1..][0] in Names(next.files);
        DiscardPass(next, d);
      }
    } else {
      DiscardBlocked(s, d);
    }
  }

  lemma {:induction false} OnePerRoleStep(files: map<Name, Content>, name: Name)
    requires OnePerRole(files)
    ensures OnePerRole(files - {name})
  {}

  lemma {:induction false} LastDiscard(s: Stage, d: Disposition)
    requires s.point && s.reservation && d.action.DiscardRecovered? && forall name :: name !in s.files
    ensures Pass(s, d) == Attempt(RemovalOps([]) + MarkerOps(s, d), true)
  {
    assert s.files == map[];
    EmptyDiscardPass(s, d);
  }

  lemma {:induction false} DiscardBlocked(s: Stage, d: Disposition)
    ensures !Ordered(s) ==> !Pass(s, d).done
  {}

  lemma {:induction false} EmptyDiscardPass(s: Stage, d: Disposition)
    requires s.files == map[] && d.action.DiscardRecovered?
    ensures Pass(s, d) == Attempt(SweepOps(s) + MarkerOps(s, d), true)
  {
    SweepRuns(s);
  }

  lemma {:induction false} DiscardPass(s: Stage, d: Disposition)
    requires s.files != map[] && Ordered(s) && d.action.DiscardRecovered?
    ensures Pass(s, d) == Attempt(RemovalOps(Names(s.files)) + MarkerOps(s, d), true)
  {
    assert SweepOps(s) == [];
    assert Swept(s) == s;
  }

  lemma {:induction false} ResumeAdvances(s: Stage, d: Disposition)
    requires s.files != map[] && OnePerRole(s.files) && d.action.ResumePrepared? && ValidDecision(d)
    ensures Advances(s, d)
  {
    ResumePass(s, d);
    var pass := Pass(s, d);
    if pass.done && pass.ops != [] {
      DerivedStep(s.files);
      var next := Step(s, pass.ops[0]);
      NamesListed(next.files);
      assert Names(next.files)[0] in next.files;
      ResumePass(next, d);
    }
  }

  lemma {:induction false} ResumePass(s: Stage, d: Disposition)
    requires s.files != map[] && d.action.ResumePrepared?
    ensures Pass(s, d) == if Ordered(s) then Dispose(s, d) else Attempt([], false)
  {
    assert SweepOps(s) == [];
    assert Swept(s) == s;
  }

  /** With one file of each role, dropping the derived object leaves only the source. */
  lemma {:induction false} DerivedStep(files: map<Name, Content>)
    requires OnePerRole(files) && DerivedOps(files) != [] && (|Names(files)| == 2 || OnlySource(files))
    ensures DerivedOps(files) == [DerivedOps(files)[0]] && DerivedOps(files)[0].RemoveFile?
    ensures RoleOf(DerivedOps(files)[0].name) == StoredObject
    ensures var rest := files - {DerivedOps(files)[0].name};
      OnlySource(rest) && DerivedOps(rest) == [] && OnePerRole(rest)
  {
    NamesListed(files);
    assert StoredPartial in files || StoredFinal in files;
    assert StoredPartial in Names(files) || StoredFinal in Names(files);
  }

  /** One operation of a succeeding pass is permitted and leaves exactly the rest of the pass to do. */
  lemma {:induction false} PassAdvances(s: Stage, d: Disposition)
    requires OnePerRole(s.files) && ValidDecision(d)
    ensures Advances(s, d)
  {
    if s.files == map[] {
      EmptyAdvances(s, d);
    } else if d.action.DiscardRecovered? {
      DiscardAdvances(s, d);
    } else if d.action.ResumePrepared? {
      ResumeAdvances(s, d);
    } else {
      assert Swept(s) == s;
    }
  }

  /** A crash during a pass over one stage: the next pass performs exactly the operations that were left. */
  lemma {:induction false} PassContinues(s: Stage, d: Disposition, count: nat)
    requires OnePerRole(s.files) && ValidDecision(d) && Pass(s, d).done && count <= |Pass(s, d).ops|
    ensures var after := Run(s, Pass(s, d).ops[..count]);
      OnePerRole(after.files) && Pass(after, d) == Attempt(Pass(s, d).ops[count..], true)
    decreases count
  {
    hide Pass;
    var ops := Pass(s, d).ops;
    if count == 0 {
      assert ops[..0] == [] && ops[0..] == ops;
    } else {
      PassAdvances(s, d);
      PassContinues(Step(s, ops[0]), d, count - 1);
      assert ops[..count][1..] == ops[1..][..count - 1];
      assert ops[1..][count - 1..] == ops[count..];
    }
  }

  /** Opening a stage without files twice does what is left of the first opening. */
  lemma {:induction false} SweepContinues(s: Stage, count: nat)
    requires count <= |SweepOps(s)|
    ensures var after := Run(s, SweepOps(s)[..count]);
      after.files == s.files && after.marker == s.marker && SweepOps(after) == SweepOps(s)[count..]
  {
    var ops := SweepOps(s);
    if count == 0 {
      assert ops[..0] == [] && ops[0..] == ops;
    } else {
      assert Run(s, ops[..count]) == Run(Step(s, ops[0]), ops[1..count]) by { assert ops[..count][1..] == ops[1..count]; }
      if count == 2 {
        assert ops[1..2] == [RemoveReservation];
        assert Run(Step(s, ops[0]), ops[1..2]) == Run(Step(Step(s, ops[0]), RemoveReservation), []);
      } else {
        assert ops[1..1] == [];
      }
    }
  }

  lemma {:induction false} NoMarkerKeepsMarker(s: Stage, ops: seq<Op>)
    requires RemoveMarker !in ops
    ensures Run(s, ops).marker == s.marker
    decreases |ops|
  {
    if ops != [] {
      assert ops[0] != RemoveMarker;
      NoMarkerKeepsMarker(Step(s, ops[0]), ops[1..]);
    }
  }

  lemma {:induction false} RemovalEmpties(s: Stage, names: seq<Name>)
    requires forall name :: name in s.files ==> name in names
    ensures var after := Run(s, RemovalOps(names));
      after.files == map[] && !after.point && !after.reservation
    ensures RemoveMarker !in RemovalOps(names)
    decreases |names|
  {
    var ops := RemovalOps(names);
    if names == [] {
      assert ops[1..] == [RemoveReservation];
      assert s.files == map[];
      assert Run(s, ops) == Run(Step(s, RemovePoint), [RemoveReservation]);
      assert Run(Step(s, RemovePoint), [RemoveReservation]) ==
             Run(Step(Step(s, RemovePoint), RemoveReservation), []);
    } else {
      assert ops[1..] == RemovalOps(names[1..]);
      RemovalEmpties(Step(s, ops[0]), names[1..]);
    }
  }

  lemma {:induction false} DerivedGone(s: Stage)
    ensures var after := Run(s, DerivedOps(s.files));
      DerivedOps(after.files) == [] && forall name :: name in s.files && RoleOf(name) == SourcePlaintext ==> name in after.files
  {
    var ops := DerivedOps(s.files);
    if ops != [] {
      assert Run(s, ops) == Run(Step(s, ops[0]), ops[1..]);
      if |ops| == 2 {
        assert ops[1..] == [RemoveFile(StoredFinal)];
        assert Run(Step(s, ops[0]), ops[1..]) == Run(Step(Step(s, ops[0]), RemoveFile(StoredFinal)), []);
      }
    }
  }

  lemma {:induction false} RemovalOnly(names: seq<Name>)
    ensures RemoveMarker !in RemovalOps(names)
    decreases |names|
  {
    if names != [] {
      RemovalOnly(names[1..]);
    }
  }

  /** Operations only remove. */
  lemma {:induction false} RunShrinks(s: Stage, ops: seq<Op>)
    ensures var after := Run(s, ops);
      && (forall name :: name in after.files ==> name in s.files && after.files[name] == s.files[name])
      && (after.marker ==> s.marker) && (after.point ==> s.point) && (after.reservation ==> s.reservation)
    decreases |ops|
  {
    if ops != [] {
      RunShrinks(Step(s, ops[0]), ops[1..]);
    }
  }
}
