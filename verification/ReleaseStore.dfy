/**
 Publication of controller releases. A release directory is prepared under a temporary name, renamed to the
 digest of its manifest, and only then named by the selector. Completed operations persist in order; a crash or
 a failed operation may fall between any two of them, and a failed write may leave any part of its bytes.
 */
module ReleaseStore {
  import opened Outcomes
  import opened Wire

  /** A SHA-256 digest, which is also the name of a published directory. */
  type Digest = nat

  const MAX_BINARY := 256 * 0x10_0000
  const MAX_METADATA := 4096

  datatype Manifest = Manifest(binary: Digest, details: Bytes)

  /** The digest, the canonical text of a manifest and the canonical text of the selector, whatever they are. */
  datatype Formats = Formats(hash: Bytes -> Digest, canonical: Manifest -> Bytes, pointer: Digest -> Bytes)

  /** `trusted` stands for the type, owner, links and permissions that the store insists on. */
  datatype File = File(bytes: Bytes, trusted: bool)

  datatype Leaf = ManifestFile | BinaryFile

  datatype Directory = Directory(private: bool, files: map<Leaf, File>)

  datatype Name = Published(identity: Digest) | Staging(token: nat)

  datatype Disk = Disk(releases: map<Name, Directory>, selector: Option<File>, drafts: map<nat, File>)

  /** Where a file under preparation lies. */
  datatype Place = InRelease(token: nat, leaf: Leaf) | Draft(token: nat)

  /** What one staging is given: validated metadata, the two readings of the binary, and its random names. */
  datatype Request = Request(manifest: Option<Manifest>, opens: bool, first: seq<Bytes>, second: seq<Bytes>, token: nat, draft: nat)

  function Raw(f: Formats, m: Manifest): Bytes { f.canonical(m) }

  function Identity(f: Formats, m: Manifest): Digest { f.hash(Raw(f, m)) }

  /** The digest of a stream of permitted length. */
  function StreamDigest(f: Formats, bytes: Bytes): Option<Digest> {
    if 0 < |bytes| <= MAX_BINARY then Some(f.hash(bytes)) else None
  }

  predicate Regular(dir: Directory, leaf: Leaf, maximum: nat) {
    leaf in dir.files && dir.files[leaf].trusted && 0 < |dir.files[leaf].bytes| <= maximum
  }

  /** The directory holds exactly the release that the manifest describes. */
  predicate Holds(f: Formats, dir: Directory, m: Manifest) {
    && dir.private
    && Regular(dir, ManifestFile, MAX_METADATA) && dir.files[ManifestFile].bytes == Raw(f, m)
    && Regular(dir, BinaryFile, MAX_BINARY) && f.hash(dir.files[BinaryFile].bytes) == m.binary
  }

  /** A published directory whose manifest hashes to its name and whose binary matches the manifest's digest. */
  ghost predicate Genuine(f: Formats, disk: Disk, identity: Digest) {
    Published(identity) in disk.releases &&
    exists m: Manifest :: Identity(f, m) == identity && Holds(f, disk.releases[Published(identity)], m)
  }

  /** Everything published is genuine, and the selector, if present, names something published. */
  ghost predicate Sound(f: Formats, disk: Disk) {
    && (forall identity :: Published(identity) in disk.releases ==> Genuine(f, disk, identity))
    && (disk.selector.Some? ==> exists identity :: disk.selector.value == File(f.pointer(identity), true) && Genuine(f, disk, identity))
  }

  /** What a staging may have done at any moment: publish its own release, then select it. */
  ghost predicate Kept(f: Formats, before: Disk, after: Disk, identity: Digest) {
    && (forall id :: Published(id) in before.releases ==>
          Published(id) in after.releases && after.releases[Published(id)] == before.releases[Published(id)])
    && (forall id :: Published(id) in after.releases && Published(id) !in before.releases ==> id == identity && Genuine(f, after, id))
    && (after.selector == before.selector ||
        (after.selector == Some(File(f.pointer(identity), true)) && Genuine(f, after, identity)))
  }

  lemma {:induction false} KeptSound(f: Formats, before: Disk, after: Disk, identity: Digest)
    requires Sound(f, before) && Kept(f, before, after, identity)
    ensures Sound(f, after)
  {
    forall id | Published(id) in after.releases ensures Genuine(f, after, id) {
      if Published(id) in before.releases { assert Genuine(f, before, id); }
    }
    if after.selector.Some? && after.selector == before.selector {
      var id :| before.selector.value == File(f.pointer(id), true) && Genuine(f, before, id);
      assert Genuine(f, after, id);
    }
  }

  /** One staging leads from the first disk to the second, whether it ends there or crashes. */
  ghost predicate Follows(f: Formats, before: Disk, after: Disk) {
    exists identity :: Kept(f, before, after, identity)
  }

  /** One staging after another: the disks on which they begin, as `StageAll` produces them. */
  ghost predicate History(f: Formats, disks: seq<Disk>) {
    forall i :: 0 <= i < |disks| - 1 ==> Follows(f, disks[i], disks[i + 1])
  }

  /** Whatever crashes, the selector names a genuine release. */
  lemma {:induction false} StoreStaysSound(f: Formats, disks: seq<Disk>, i: nat)
    requires History(f, disks) && i < |disks| && Sound(f, disks[0])
    ensures Sound(f, disks[i])
  {
    if i > 0 {
      StoreStaysSound(f, disks, i - 1);
      assert Follows(f, disks[i - 1], disks[(i - 1) + 1]);
      var identity :| Kept(f, disks[i - 1], disks[i], identity);
      KeptSound(f, disks[i - 1], disks[i], identity);
    }
  }

  /** Nothing published ever changes or goes, even in a store that was damaged before. */
  lemma {:induction false} PublishedNeverChanges(f: Formats, disks: seq<Disk>, i: nat, j: nat, identity: Digest)
    requires History(f, disks) && i <= j < |disks| && Published(identity) in disks[i].releases
    ensures Published(identity) in disks[j].releases && disks[j].releases[Published(identity)] == disks[i].releases[Published(identity)]
    decreases j
  {
    if i < j {
      PublishedNeverChanges(f, disks, i, j - 1, identity);
      assert Follows(f, disks[j - 1], disks[(j - 1) + 1]);
    }
  }

  /** The staging goes through when nothing fails: the digests agree, and what is already there is intact. */
  predicate Acceptable(f: Formats, disk: Disk, r: Request) {
    && r.manifest.Some? && |Raw(f, r.manifest.value)| <= MAX_METADATA && r.opens
    && (disk.selector.Some? ==> disk.selector.value.trusted)
    && StreamDigest(f, Content(r.first)) == Some(r.manifest.value.binary)
    && r.draft !in disk.drafts
    && var identity := Identity(f, r.manifest.value);
       if Published(identity) in disk.releases then Holds(f, disk.releases[Published(identity)], r.manifest.value)
       else StreamDigest(f, Content(r.second)) == Some(r.manifest.value.binary) && Staging(r.token) !in disk.releases
  }

  function NewDirectory(f: Formats, m: Manifest, binary: Bytes): Directory {
    Directory(true, map[ManifestFile := File(Raw(f, m), true), BinaryFile := File(binary, true)])
  }

  /** The disk after a staging that goes through: at most one directory more, and the selector. */
  function Staged(f: Formats, disk: Disk, r: Request): Disk
    requires Acceptable(f, disk, r)
  {
    var m := r.manifest.value;
    var name := Published(Identity(f, m));
    disk.(releases := if name in disk.releases then disk.releases else disk.releases[name := NewDirectory(f, m, Content(r.second))],
          selector := Some(File(f.pointer(name.identity), true)))
  }

  /** Staging a release again changes nothing, whatever the bundle's binary reads on the second pass. */
  lemma {:induction false} RestagingChangesNothing(f: Formats, disk: Disk, r: Request, again: Request)
    requires Acceptable(f, disk, r) && again.manifest == r.manifest && again.opens
    requires StreamDigest(f, Content(again.first)) == Some(r.manifest.value.binary)
    requires Raw(f, r.manifest.value) != [] && again.draft !in disk.drafts
    ensures Acceptable(f, Staged(f, disk, r), again) && Staged(f, Staged(f, disk, r), again) == Staged(f, disk, r)
  {}

  predicate HasFile(disk: Disk, place: Place)
    requires place.InRelease? ==> Staging(place.token) in disk.releases
  {
    match place
    case InRelease(token, leaf) => leaf in disk.releases[Staging(token)].files
    case Draft(token) => token in disk.drafts
  }

  function WithFile(disk: Disk, place: Place, file: File): Disk
    requires place.InRelease? ==> Staging(place.token) in disk.releases
  {
    match place
    case InRelease(token, leaf) =>
      var dir := disk.releases[Staging(token)];
      disk.(releases := disk.releases[Staging(token) := dir.(files := dir.files[leaf := file])])
    case Draft(token) => disk.(drafts := disk.drafts[token := file])
  }

  lemma {:induction false} LastWriteWins(disk: Disk, place: Place, first: File, second: File)
    requires place.InRelease? ==> Staging(place.token) in disk.releases
    ensures WithFile(WithFile(disk, place, first), place, second) == WithFile(disk, place, second)
  {
    match place
    case InRelease(token, leaf) =>
      var files := disk.releases[Staging(token)].files;
      assert files[leaf := first][leaf := second] == files[leaf := second];
      var one := WithFile(disk, place, first);
      assert one.releases[Staging(token) := Directory(disk.releases[Staging(token)].private, files[leaf := second])] ==
             disk.releases[Staging(token) := Directory(disk.releases[Staging(token)].private, files[leaf := second])];
    case Draft(token) =>
      assert disk.drafts[token := first][token := second] == disk.drafts[token := second];
  }

  /** Only the file under preparation may differ. */
  predicate Touches(before: Disk, after: Disk, place: Place) {
    match place
    case InRelease(token, leaf) =>
      && Staging(token) in before.releases && Staging(token) in after.releases
      && after == before.(releases := before.releases[Staging(token) := after.releases[Staging(token)]])
      && after.releases[Staging(token)].private == before.releases[Staging(token)].private
      && after.releases[Staging(token)].files - {leaf} == before.releases[Staging(token)].files - {leaf}
    case Draft(token) => after == before.(drafts := after.drafts) && after.drafts - {token} == before.drafts - {token}
  }

  lemma {:induction false} TouchesAgain(a: Disk, b: Disk, c: Disk, place: Place)
    requires Touches(a, b, place) && Touches(b, c, place)
    ensures Touches(a, c, place)
  {
    match place
    case InRelease(token, leaf) =>
      assert a.releases[Staging(token) := b.releases[Staging(token)]][Staging(token) := c.releases[Staging(token)]] ==
             a.releases[Staging(token) := c.releases[Staging(token)]];
    case Draft(token) =>
  }

  lemma {:induction false} WritingTouches(disk: Disk, place: Place, file: File)
    requires place.InRelease? ==> Staging(place.token) in disk.releases
    ensures Touches(disk, WithFile(disk, place, file), place)
  {}

  /** Every disk since a moment differs from the one at that moment only in the file under preparation. */
  ghost predicate Confined(trace: seq<Disk>, since: nat, before: Disk, place: Place) {
    since <= |trace| && forall i :: since <= i < |trace| ==> Touches(before, trace[i], place)
  }

  lemma {:induction false} ConfinedAgain(trace: seq<Disk>, since: nat, middle: nat, a: Disk, b: Disk, place: Place)
    requires since <= middle <= |trace| && Confined(trace[..middle], since, a, place) && Touches(a, b, place)
    requires Confined(trace, middle, b, place)
    ensures Confined(trace, since, a, place)
  {
    forall i | since <= i < |trace| ensures Touches(a, trace[i], place) {
      if i >= middle { TouchesAgain(a, b, trace[i], place); } else { assert trace[i] == trace[..middle][i]; }
    }
  }

  /** Published directories and the selector stay as they are. */
  ghost predicate Quiet(before: Disk, after: Disk) {
    && after.selector == before.selector
    && (forall id :: Published(id) in after.releases <==> Published(id) in before.releases)
    && (forall id :: Published(id) in after.releases ==> after.releases[Published(id)] == before.releases[Published(id)])
  }

  lemma {:induction false} KeptQuietly(f: Formats, a: Disk, b: Disk, c: Disk, identity: Digest)
    requires Kept(f, a, b, identity) && Quiet(b, c)
    ensures Kept(f, a, c, identity)
    ensures Genuine(f, b, identity) ==> Genuine(f, c, identity)
  {
    forall id | Genuine(f, b, id) ensures Genuine(f, c, id) {}
  }

  lemma {:induction false} QuietTwice(a: Disk, b: Disk, c: Disk)
    requires Quiet(a, b) && Quiet(b, c)
    ensures Quiet(a, c)
  {}

  /** Setting one name twice, or setting and removing it. */
  lemma {:induction false} AtOneName(releases: map<Name, Directory>, name: Name, first: Directory, second: Directory)
    ensures releases[name := first][name := second] == releases[name := second]
    ensures name !in releases ==> releases[name := second] - {name} == releases
  {}

  lemma {:induction false} NothingKept(f: Formats, disk: Disk, identity: Digest)
    ensures Kept(f, disk, disk, identity)
  {}

  /** The complete directory under its digest is genuine. */
  lemma {:induction false} RenamedIsGenuine(f: Formats, before: Disk, m: Manifest, binary: Bytes)
    requires Published(Identity(f, m)) !in before.releases
    requires 0 < |Raw(f, m)| <= MAX_METADATA && StreamDigest(f, binary) == Some(m.binary)
    ensures var after := before.(releases := before.releases[Published(Identity(f, m)) := NewDirectory(f, m, binary)]);
      && Kept(f, before, after, Identity(f, m)) && Holds(f, after.releases[Published(Identity(f, m))], m)
  {
    var after := before.(releases := before.releases[Published(Identity(f, m)) := NewDirectory(f, m, binary)]);
    assert Holds(f, after.releases[Published(Identity(f, m))], m);
    assert Genuine(f, after, Identity(f, m));
  }

  lemma {:induction false} DraftOnly(before: Disk, after: Disk, token: nat)
    requires Touches(before, after, Draft(token))
    ensures after == before.(drafts := after.drafts) && after.drafts - {token} == before.drafts - {token}
  {}

  /** Selecting a genuine release is what a staging may do. */
  lemma {:induction false} SelectedKeeps(f: Formats, before: Disk, after: Disk, identity: Digest)
    requires Genuine(f, before, identity) && after.releases == before.releases
    requires after.selector == Some(File(f.pointer(identity), true))
    ensures Kept(f, before, after, identity) && Genuine(f, after, identity)
  {}

  lemma {:induction false} KeptTwice(f: Formats, trace: seq<Disk>, since: nat, middle: nat, a: Disk, b: Disk, c: Disk, identity: Digest)
    requires since <= middle <= |trace| && KeptAll(f, trace[..middle], since, a, identity) && Kept(f, a, b, identity)
    requires KeptAll(f, trace, middle, b, identity) && Kept(f, b, c, identity)
    ensures KeptAll(f, trace, since, a, identity) && Kept(f, a, c, identity)
  {
    KeptOnce(f, a, b, c, identity);
    forall i | since <= i < |trace| ensures Kept(f, a, trace[i], identity) {
      if i >= middle { KeptOnce(f, a, b, trace[i], identity); } else { assert trace[i] == trace[..middle][i]; }
    }
  }

  lemma {:induction false} KeptOnce(f: Formats, a: Disk, b: Disk, c: Disk, identity: Digest)
    requires Kept(f, a, b, identity) && Kept(f, b, c, identity)
    ensures Kept(f, a, c, identity)
  {
    forall id | Published(id) in c.releases && Published(id) !in a.releases ensures id == identity && Genuine(f, c, id) {
      if Published(id) in b.releases { assert Genuine(f, b, id); }
    }
    if c.selector == b.selector && c.selector != a.selector {
      assert Genuine(f, b, identity);
    }
  }

  ghost predicate QuietAll(trace: seq<Disk>, since: nat, before: Disk) {
    since <= |trace| && forall i :: since <= i < |trace| ==> Quiet(before, trace[i])
  }

  lemma {:induction false} TouchesQuiet(trace: seq<Disk>, since: nat, before: Disk, after: Disk, place: Place)
    requires Confined(trace, since, before, place) && Touches(before, after, place)
    ensures QuietAll(trace, since, before) && Quiet(before, after)
  {}

  lemma {:induction false} QuietAgain(trace: seq<Disk>, since: nat, middle: nat, a: Disk, b: Disk)
    requires since <= middle <= |trace| && QuietAll(trace[..middle], since, a) && Quiet(a, b) && QuietAll(trace, middle, b)
    ensures QuietAll(trace, since, a)
  {
    forall i | since <= i < |trace| ensures Quiet(a, trace[i]) {
      if i < middle { assert trace[i] == trace[..middle][i]; }
    }
  }

  ghost predicate KeptAll(f: Formats, trace: seq<Disk>, since: nat, before: Disk, identity: Digest) {
    since <= |trace| && forall i :: since <= i < |trace| ==> Kept(f, before, trace[i], identity)
  }

  /** What disturbs nothing published leaves whatever was safe before it safe. */
  lemma {:induction false} QuietKeeps(f: Formats, trace: seq<Disk>, since: nat, middle: nat, a: Disk, b: Disk, c: Disk, identity: Digest)
    requires since <= middle <= |trace| && KeptAll(f, trace[..middle], since, a, identity) && Kept(f, a, b, identity)
    requires QuietAll(trace, middle, b) && Quiet(b, c)
    ensures KeptAll(f, trace, since, a, identity) && Kept(f, a, c, identity)
    ensures Genuine(f, b, identity) ==> Genuine(f, c, identity)
  {
    forall i | since <= i < |trace| ensures Kept(f, a, trace[i], identity) {
      if i >= middle { KeptQuietly(f, a, b, trace[i], identity); } else { assert trace[i] == trace[..middle][i]; }
    }
    KeptQuietly(f, a, b, c, identity);
  }

  /** What happens to an operation: nothing goes wrong, or it fails, a write after some of its bytes. */
  type Faults = nat -> Option<nat>

  class Store {
    const formats: Formats
    const faults: Faults
    var releases: map<Name, Directory>
    var selector: Option<File>
    var drafts: map<nat, File>
    /** Every disk since the store was opened: a crash may leave any of them. */
    var trace: seq<Disk>
    var clock: nat

    function Now(): Disk
      reads this
    {
      Disk(releases, selector, drafts)
    }

    constructor (formats: Formats, faults: Faults, disk: Disk)
      ensures this.formats == formats && this.faults == faults && Now() == disk && trace == [disk]
    {
      this.formats, this.faults := formats, faults;
      releases, selector, drafts, trace, clock := disk.releases, disk.selector, disk.drafts, [disk], 0;
    }

    ghost predicate Faultless() { forall n :: faults(n).None? }

    method Operate() returns (fault: Option<nat>)
      modifies this`clock
      ensures clock == old(clock) + 1 && fault == faults(old(clock))
    {
      fault := faults(clock);
      clock := clock + 1;
    }

    /** Puts a file's new state on the disk. */
    method Put(place: Place, file: File)
      requires place.InRelease? ==> Staging(place.token) in releases
      modifies this`releases, this`drafts, this`trace
      ensures Now() == WithFile(old(Now()), place, file) && trace == old(trace) + [Now()]
    {
      match place {
        case InRelease(token, leaf) =>
          var dir := releases[Staging(token)];
          releases := releases[Staging(token) := dir.(files := dir.files[leaf := file])];
        case Draft(token) =>
          drafts := drafts[token := file];
      }
      trace := trace + [Now()];
    }

    /** Creates an empty file where there is none. */
    method Create(place: Place) returns (ok: bool)
      requires place.InRelease? ==> Staging(place.token) in releases
      modifies this`releases, this`drafts, this`trace, this`clock
      ensures old(trace) <= trace && Confined(trace, |old(trace)|, old(Now()), place) && Touches(old(Now()), Now(), place)
      ensures Now() == if ok then WithFile(old(Now()), place, File([], true)) else old(Now())
      ensures Faultless() ==> (ok <==> !HasFile(old(Now()), place))
    {
      var fault := Operate();
      if fault.Some? {
        return false;
      }
      var exists_ := match place case InRelease(token, leaf) => leaf in releases[Staging(token)].files case Draft(token) => token in drafts;
      if exists_ {
        return false;
      }
      Put(place, File([], true));
      ok := true;
    }

    /** Writes bytes after those already written; a failed or interrupted write leaves some of them. */
    method Append(place: Place, written: Bytes, bytes: Bytes) returns (ok: bool)
      requires place.InRelease? ==> Staging(place.token) in releases
      modifies this`releases, this`drafts, this`trace, this`clock
      ensures old(trace) <= trace && Confined(trace, |old(trace)|, old(Now()), place) && Touches(old(Now()), Now(), place)
      ensures ok ==> Now() == WithFile(old(Now()), place, File(written + bytes, true))
      ensures Faultless() ==> ok
    {
      var before := Now();
      forall file ensures Touches(before, WithFile(before, place, file), place) {
        WritingTouches(before, place, file);
      }
      hide Touches, WithFile;
      var fault := Operate();
      trace := trace + seq(|bytes|, i requires 0 <= i < |bytes| => WithFile(before, place, File(written + bytes[..i], true)));
      if fault.Some? {
        Put(place, File(written + (if fault.value < |bytes| then bytes[..fault.value] else bytes), true));
        return false;
      }
      Put(place, File(written + bytes, true));
      ok := true;
    }

    /** Sets the final permissions, or flushes. */
    method Settle(place: Place) returns (ok: bool)
      modifies this`clock
      ensures Faultless() ==> ok
    {
      var permissions := Operate();
      if permissions.Some? {
        return false;
      }
      var flush := Operate();
      ok := flush.None?;
    }

    /** Writes a whole new file. */
    method Write(place: Place, bytes: Bytes) returns (ok: bool)
      requires place.InRelease? ==> Staging(place.token) in releases
      modifies this`releases, this`drafts, this`trace, this`clock
      ensures old(trace) <= trace && Confined(trace, |old(trace)|, old(Now()), place) && Touches(old(Now()), Now(), place)
      ensures ok ==> Now() == WithFile(old(Now()), place, File(bytes, true))
      ensures Faultless() ==> (ok <==> !HasFile(old(Now()), place))
      ensures Faultless() && !ok ==> Now() == old(Now())
    {
      hide Touches;
      hide WithFile;
      ok := Create(place);
      if !ok {
        return;
      }
      ghost var middle, created := |trace|, Now();
      ok := Append(place, [], bytes);
      ConfinedAgain(trace, |old(trace)|, middle, old(Now()), created, place);
      TouchesAgain(old(Now()), created, Now(), place);
      if !ok {
        return;
      }
      LastWriteWins(old(Now()), place, File([], true), File(bytes, true));
      assert [] + bytes == bytes;
      ok := Settle(place);
    }

    /** Copies the binary while its digest is taken; what was read must have the expected digest. */
    method Copy(place: Place, chunks: seq<Bytes>, expected: Digest) returns (ok: bool)
      requires place.InRelease? ==> Staging(place.token) in releases
      modifies this`releases, this`drafts, this`trace, this`clock
      ensures old(trace) <= trace && Confined(trace, |old(trace)|, old(Now()), place) && Touches(old(Now()), Now(), place)
      ensures ok ==> Now() == WithFile(old(Now()), place, File(Content(chunks), true))
      ensures ok ==> StreamDigest(formats, Content(chunks)) == Some(expected)
      ensures Faultless() ==> (ok <==> !HasFile(old(Now()), place) && StreamDigest(formats, Content(chunks)) == Some(expected))
    {
      hide Touches;
      hide WithFile;
      ok := Create(place);
      if !ok {
        return;
      }
      var total: Bytes, i := [], 0;
      while i < |chunks| && chunks[i] != []
        invariant 0 <= i <= |chunks| && total + Content(chunks[i..]) == Content(chunks) && |total| <= MAX_BINARY
        invariant old(trace) <= trace && Confined(trace, |old(trace)|, old(Now()), place) && Touches(old(Now()), Now(), place)
        invariant place.InRelease? ==> Staging(place.token) in releases
        invariant Now() == WithFile(old(Now()), place, File(total, true))
      {
        assert chunks[i..][0] == chunks[i] && chunks[i..][1..] == chunks[i + 1..];
        assert total + (chunks[i] + Content(chunks[i + 1..])) == (total + chunks[i]) + Content(chunks[i + 1..]);
        if |total| + |chunks[i]| > MAX_BINARY {
          return false;
        }
        ghost var middle, partial := |trace|, Now();
        ok := Append(place, total, chunks[i]);
        assert trace[..middle] <= trace;
        ConfinedAgain(trace, |old(trace)|, middle, old(Now()), partial, place);
        TouchesAgain(old(Now()), partial, Now(), place);
        if !ok {
          return;
        }
        LastWriteWins(old(Now()), place, File(total, true), File(total + chunks[i], true));
        total := total + chunks[i];
        i := i + 1;
      }
      assert total == Content(chunks);
      if total == [] || formats.hash(total) != expected {
        return false;
      }
      ok := Settle(place);
    }

    /** Puts a new state of the releases on the disk. */
    method Update(releases: map<Name, Directory>)
      modifies this`releases, this`trace
      ensures this.releases == releases && trace == old(trace) + [Now()]
    {
      this.releases := releases;
      trace := trace + [Now()];
    }

    method Unlink(token: nat, leaf: Leaf) returns (ok: bool)
      requires Staging(token) in releases
      modifies this`releases, this`trace, this`clock
      ensures old(trace) <= trace && Confined(trace, |old(trace)|, old(Now()), InRelease(token, leaf))
      ensures Touches(old(Now()), Now(), InRelease(token, leaf))
      ensures ok ==> !HasFile(Now(), InRelease(token, leaf))
      ensures Faultless() ==> ok
    {
      var fault := Operate();
      if fault.Some? {
        return false;
      }
      var dir := releases[Staging(token)];
      Update(releases[Staging(token) := dir.(files := dir.files - {leaf})]);
      ok := true;
    }

    /** Removes what an abandoned preparation left under its temporary name. */
    method Withdraw(token: nat) returns (ok: bool)
      requires Staging(token) in releases
      modifies this`releases, this`trace, this`clock
      ensures old(trace) <= trace && QuietAll(trace, |old(trace)|, old(Now())) && Quiet(old(Now()), Now())
      ensures Now() == old(Now()).(releases := releases)
      ensures Faultless() ==> ok && releases == old(releases) - {Staging(token)}
    {
      ok := Unlink(token, BinaryFile);
      TouchesQuiet(trace, |old(trace)|, old(Now()), Now(), InRelease(token, BinaryFile));
      if !ok {
        return;
      }
      ghost var middle, unlinked := |trace|, Now();
      ok := Unlink(token, ManifestFile);
      TouchesQuiet(trace, middle, unlinked, Now(), InRelease(token, ManifestFile));
      QuietAgain(trace, |old(trace)|, middle, old(Now()), unlinked);
      if !ok {
        return;
      }
      var left := releases[Staging(token)].files;
      assert BinaryFile !in left && ManifestFile !in left by {
        assert BinaryFile in left <==> BinaryFile in left - {ManifestFile};
      }
      assert left == map[] by {
        forall leaf: Leaf ensures leaf !in left { if leaf.BinaryFile? {} }
      }
      var fault := Operate();
      if fault.Some? || left != map[] {
        return false;
      }
      Update(releases - {Staging(token)});
    }

    /** Writes the manifest and the binary under a temporary name. */
    method Prepare(m: Manifest, token: nat, second: seq<Bytes>) returns (ok: bool)
      requires Staging(token) in releases && releases[Staging(token)] == Directory(true, map[])
      modifies this`releases, this`drafts, this`trace, this`clock
      ensures old(trace) <= trace && QuietAll(trace, |old(trace)|, old(Now())) && Quiet(old(Now()), Now())
      ensures Staging(token) in releases && Now() == old(Now()).(releases := old(releases)[Staging(token) := releases[Staging(token)]])
      ensures ok ==> releases[Staging(token)] == NewDirectory(formats, m, Content(second)) &&
                     StreamDigest(formats, Content(second)) == Some(m.binary)
      ensures Faultless() ==> (ok <==> StreamDigest(formats, Content(second)) == Some(m.binary))
    {
      ok := Write(InRelease(token, ManifestFile), Raw(formats, m));
      TouchesQuiet(trace, |old(trace)|, old(Now()), Now(), InRelease(token, ManifestFile));
      if !ok {
        return;
      }
      ghost var middle, described := |trace|, Now();
      ok := Copy(InRelease(token, BinaryFile), second, m.binary);
      TouchesQuiet(trace, middle, described, Now(), InRelease(token, BinaryFile));
      QuietAgain(trace, |old(trace)|, middle, old(Now()), described);
      if !ok {
        return;
      }
      var fault := Operate();
      ok := fault.None?;
    }

    /** Prepares a directory under a temporary name; what does not get ready is withdrawn. */
    method Ready(m: Manifest, token: nat, second: seq<Bytes>) returns (ok: bool)
      modifies this`releases, this`drafts, this`trace, this`clock
      ensures old(trace) <= trace && QuietAll(trace, |old(trace)|, old(Now())) && Quiet(old(Now()), Now())
      ensures Now() == old(Now()).(releases := releases)
      ensures ok ==> Staging(token) !in old(releases) && StreamDigest(formats, Content(second)) == Some(m.binary)
      ensures ok ==> releases == old(releases)[Staging(token) := NewDirectory(formats, m, Content(second))]
      ensures Faultless() ==> (ok <==> Staging(token) !in old(releases) && StreamDigest(formats, Content(second)) == Some(m.binary))
      ensures Faultless() && !ok ==> releases == old(releases)
    {
      hide StreamDigest;
      hide NewDirectory;
      hide Content;
      var fault := Operate();
      if fault.Some? || Staging(token) in releases {
        return false;
      }
      Update(releases[Staging(token) := Directory(true, map[])]);
      assert QuietAll(trace, |old(trace)|, old(Now()));
      ghost var made, directory := |trace|, Now();
      fault := Operate();
      if fault.Some? {
        return false;
      }
      hide Quiet;
      ok := Prepare(m, token, second);
      QuietAgain(trace, |old(trace)|, made, old(Now()), directory);
      QuietTwice(old(Now()), directory, Now());
      AtOneName(old(releases), Staging(token), Directory(true, map[]), releases[Staging(token)]);
      if ok {
        return;
      }
      ghost var prepared, left := |trace|, Now();
      var withdrawn := Withdraw(token);
      QuietAgain(trace, |old(trace)|, prepared, old(Now()), left);
      QuietTwice(old(Now()), left, Now());
    }

    /** Publishes the release under its digest, or insists that what is published there is intact. */
    method Publish(m: Manifest, r: Request) returns (ok: bool)
      requires 0 < |Raw(formats, m)| <= MAX_METADATA
      modifies this`releases, this`drafts, this`trace, this`clock
      ensures old(trace) <= trace && KeptAll(formats, trace, |old(trace)|, old(Now()), Identity(formats, m))
      ensures Kept(formats, old(Now()), Now(), Identity(formats, m))
      ensures Now() == old(Now()).(releases := releases)
      ensures ok ==> Published(Identity(formats, m)) in releases && Holds(formats, releases[Published(Identity(formats, m))], m)
      ensures Faultless() ==> (ok <==> if Published(Identity(formats, m)) in old(releases) then
                                         Holds(formats, old(releases)[Published(Identity(formats, m))], m)
                                       else StreamDigest(formats, Content(r.second)) == Some(m.binary) && Staging(r.token) !in old(releases))
      ensures Faultless() ==> releases == if ok && Published(Identity(formats, m)) !in old(releases) then
                                old(releases)[Published(Identity(formats, m)) := NewDirectory(formats, m, Content(r.second))]
                              else old(releases)
    {
      hide Holds;
      hide StreamDigest;
      hide NewDirectory;
      hide Content;
      hide Quiet;
      hide Kept;
      NothingKept(formats, old(Now()), Identity(formats, m));
      var name := Published(Identity(formats, m));
      var fault := Operate();
      if fault.Some? {
        return false;
      }
      if name in releases {
        ok := Holds(formats, releases[name], m);
        return;
      }
      ok := Ready(m, r.token, r.second);
      QuietKeeps(formats, trace, |old(trace)|, |old(trace)|, old(Now()), old(Now()), Now(), name.identity);
      if !ok {
        return;
      }
      ghost var ready := Now();
      fault := Operate();
      if fault.Some? {
        ghost var prepared := |trace|;
        var withdrawn := Withdraw(r.token);
        QuietKeeps(formats, trace, |old(trace)|, prepared, old(Now()), ready, Now(), name.identity);
        return false;
      }
      Update((releases - {Staging(r.token)})[name := releases[Staging(r.token)]]);
      AtOneName(old(releases), Staging(r.token), NewDirectory(formats, m, Content(r.second)), NewDirectory(formats, m, Content(r.second)));
      RenamedIsGenuine(formats, old(Now()), m, Content(r.second));
      fault := Operate();
      ok := fault.None?;
    }

    /** The selector that is there may be replaced. */
    predicate Replaceable()
      reads this`selector
    {
      selector.Some? ==> selector.value.trusted
    }

    /** Replaces the selector by a complete file; whatever draft is left is removed. */
    method Select(identity: Digest, draft: nat) returns (ok: bool)
      requires Genuine(formats, Now(), identity)
      modifies this`releases, this`selector, this`drafts, this`trace, this`clock
      ensures old(trace) <= trace && KeptAll(formats, trace, |old(trace)|, old(Now()), identity)
      ensures Kept(formats, old(Now()), Now(), identity) && Genuine(formats, Now(), identity)
      ensures releases == old(releases)
      ensures ok ==> selector == Some(File(formats.pointer(identity), true))
      ensures Faultless() ==> (ok <==> old(Replaceable()) && draft !in old(drafts))
      ensures Faultless() ==> drafts == old(drafts) - {draft} && (!ok ==> selector == old(selector))
    {
      hide Touches;
      NothingKept(formats, old(Now()), identity);
      var file := File(formats.pointer(identity), true);
      var written := Write(Draft(draft), file.bytes);
      TouchesQuiet(trace, |old(trace)|, old(Now()), Now(), Draft(draft));
      DraftOnly(old(Now()), Now(), draft);
      QuietKeeps(formats, trace, |old(trace)|, |old(trace)|, old(Now()), old(Now()), Now(), identity);
      ok := written && Replaceable();
      if ok {
        var fault := Operate();
        ok := fault.None?;
      }
      if ok {
        selector, drafts := Some(file), drafts - {draft};
        trace := trace + [Now()];
        SelectedKeeps(formats, old(Now()), Now(), identity);
        var fault := Operate();
        ok := fault.None?;
      }
      var fault := Operate();
      if fault.Some? {
        return false;
      }
      if draft in drafts {
        ghost var undone, middle := Now(), |trace|;
        drafts := drafts - {draft};
        trace := trace + [Now()];
        assert QuietAll(trace, middle, undone);
        QuietKeeps(formats, trace, |old(trace)|, middle, old(Now()), undone, Now(), identity);
      }
    }

    /** Reads a stream to its end for its digest. */
    method Digested(chunks: seq<Bytes>) returns (digest: Option<Digest>)
      ensures digest == StreamDigest(formats, Content(chunks))
    {
      var total: Bytes, i := [], 0;
      while i < |chunks| && chunks[i] != []
        invariant 0 <= i <= |chunks| && total + Content(chunks[i..]) == Content(chunks) && |total| <= MAX_BINARY
      {
        assert chunks[i..][0] == chunks[i] && chunks[i..][1..] == chunks[i + 1..];
        assert total + (chunks[i] + Content(chunks[i + 1..])) == (total + chunks[i]) + Content(chunks[i + 1..]);
        total := total + chunks[i];
        if |total| > MAX_BINARY {
          return None;
        }
        i := i + 1;
      }
      assert total == Content(chunks);
      digest := if total == [] then None else Some(formats.hash(total));
    }

    /**
     Publishes a release and selects it. Wherever this stops, published directories are untouched and the selector
     is the old one or names the new, complete release; without faults the whole new disk is known.
     */
    method Stage(r: Request) returns (selected: Option<Digest>)
      requires forall m: Manifest :: Raw(formats, m) != []
      modifies this`releases, this`selector, this`drafts, this`trace, this`clock
      ensures old(trace) <= trace
      ensures r.manifest.None? ==> selected.None? && trace == old(trace) && Now() == old(Now())
      ensures r.manifest.Some? ==> KeptAll(formats, trace, |old(trace)|, old(Now()), Identity(formats, r.manifest.value)) &&
                                   Kept(formats, old(Now()), Now(), Identity(formats, r.manifest.value))
      ensures selected.Some? ==> r.manifest.Some? && selected.value == Identity(formats, r.manifest.value) &&
                                 selector == Some(File(formats.pointer(selected.value), true)) && Genuine(formats, Now(), selected.value)
      ensures Faultless() ==> (selected.Some? <==> Acceptable(formats, old(Now()), r))
      ensures Faultless() && selected.Some? ==> Now() == Staged(formats, old(Now()), r)
    {
      if r.manifest.None? {
        return None;
      }
      var m := r.manifest.value;
      NothingKept(formats, Now(), Identity(formats, m));
      hide Kept;
      hide Holds;
      hide NewDirectory;
      hide Content;
      if |Raw(formats, m)| > MAX_METADATA || !r.opens {
        return None;
      }
      var fault := Operate();
      if fault.Some? || !Replaceable() {
        return None;
      }
      var digest := Digested(r.first);
      if digest != Some(m.binary) {
        return None;
      }
      var published := Publish(m, r);
      if !published {
        return None;
      }
      ghost var middle, before := |trace|, Now();
      assert Genuine(formats, Now(), Identity(formats, m));
      var replaced := Select(Identity(formats, m), r.draft);
      KeptTwice(formats, trace, |old(trace)|, middle, old(Now()), before, Now(), Identity(formats, m));
      if replaced {
        selected := Some(Identity(formats, m));
      } else {
        selected := None;
      }
    }
  }

  /** One life of the store: a staging under its faults, which ends or crashes after a number of changes. */
  datatype Operation = Operation(request: Request, faults: Faults, crash: Option<nat>)

  /** What an operation may leave of the disk it found. */
  ghost predicate Leaves(f: Formats, before: Disk, after: Disk, r: Request) {
    if r.manifest.None? then after == before else Kept(f, before, after, Identity(f, r.manifest.value))
  }

  lemma {:induction false} LeavesFollows(f: Formats, before: Disk, after: Disk, r: Request)
    requires Leaves(f, before, after, r)
    ensures Follows(f, before, after)
  {
    if r.manifest.None? { NothingKept(f, before, 0); }
  }

  /** Opens the store on a disk, stages one release, and takes the disk that is left. */
  method StageOnce(f: Formats, disk: Disk, o: Operation) returns (left: Disk)
    requires forall m: Manifest :: Raw(f, m) != []
    ensures Leaves(f, disk, left, o.request)
    ensures o.crash.None? && (forall n :: o.faults(n).None?) && Acceptable(f, disk, o.request) ==> left == Staged(f, disk, o.request)
  {
    hide Kept, Acceptable, Staged, Genuine;
    var store := new Store(f, o.faults, disk);
    var selected := store.Stage(o.request);
    left := if o.crash.Some? && o.crash.value < |store.trace| then store.trace[o.crash.value] else store.Now();
    if o.request.manifest.Some? { NothingKept(f, disk, Identity(f, o.request.manifest.value)); }
    assert store.trace[0] == disk;
  }

  /**
   Any number of stagings, each failing and crashing as it may, and each begun on the disk that the last one
   left: every one of these disks is sound if the first is, and no published directory ever changes or goes.
   */
  method StageAll(f: Formats, disk: Disk, os: seq<Operation>) returns (disks: seq<Disk>)
    requires forall m: Manifest :: Raw(f, m) != []
    ensures |disks| == |os| + 1 && disks[0] == disk
    ensures forall i :: 0 <= i < |os| ==> Leaves(f, disks[i], disks[i + 1], os[i].request)
    ensures Sound(f, disk) ==> forall i :: 0 <= i < |disks| ==> Sound(f, disks[i])
    ensures forall i, j, identity :: 0 <= i <= j < |disks| && Published(identity) in disks[i].releases ==>
              Published(identity) in disks[j].releases && disks[j].releases[Published(identity)] == disks[i].releases[Published(identity)]
  {
    hide Leaves, Sound, Follows;
    disks := [disk];
    for k := 0 to |os|
      invariant |disks| == k + 1 && disks[0] == disk
      invariant forall i :: 0 <= i < k ==> Leaves(f, disks[i], disks[i + 1], os[i].request)
    {
      var left := StageOnce(f, disks[k], os[k]);
      disks := disks + [left];
    }
    forall i | 0 <= i < |disks| - 1 ensures Follows(f, disks[i], disks[i + 1]) { LeavesFollows(f, disks[i], disks[i + 1], os[i].request); }
    forall i: nat | i < |disks| && Sound(f, disk) ensures Sound(f, disks[i]) { StoreStaysSound(f, disks, i); }
    forall i: nat, j: nat, identity | i <= j < |disks| && Published(identity) in disks[i].releases
      ensures Published(identity) in disks[j].releases && disks[j].releases[Published(identity)] == disks[i].releases[Published(identity)]
    {
      PublishedNeverChanges(f, disks, i, j, identity);
    }
  }
}
