/** The host-resolution projection: one canonical list for every way of writing the same names and addresses. */
module HostProjection {
  import opened Outcomes
  import opened Wire
  import opened Ordering

  const DOT: Byte := 46
  const HYPHEN: Byte := 45

  /** An IPv4 address by its octets, or any other address. */
  datatype Address = V4(octets: Bytes) | Other

  datatype Host = Host(address: Address, names: seq<Bytes>)

  datatype Projection = Projection(revision: int, digest: Bytes, hosts: seq<Host>)

  predicate ValidAddress(a: Address) {
    a.V4? && |a.octets| == 4 && a.octets != [0, 0, 0, 0] && !(224 <= a.octets[0] <= 239)
  }

  predicate LabelByte(b: Byte) { b == HYPHEN || 97 <= b <= 122 || 48 <= b <= 57 }

  predicate ValidLabel(part: Bytes) {
    0 < |part| <= 63 && part[0] != HYPHEN && part[|part| - 1] != HYPHEN && forall b :: b in part ==> LabelByte(b)
  }

  /** The labels between dots. */
  function Labels(name: Bytes): (labels: seq<Bytes>)
    ensures labels != []
  {
    if name == [] then [[]]
    else
      var rest := Labels(name[1..]);
      if name[0] == DOT then [[]] + rest else [[name[0]] + rest[0]] + rest[1..]
  }

  predicate ValidName(name: Bytes) {
    0 < |name| <= 253 && name[|name| - 1] != DOT && forall part :: part in Labels(name) ==> ValidLabel(part)
  }

  predicate Set(digest: Bytes) { exists b :: b in digest && b != 0 }

  /** The relation between addresses and names that the hosts state. */
  predicate Related(hosts: seq<Host>, a: Address, n: Bytes) {
    exists h :: h in hosts && h.address == a && n in h.names
  }

  ghost predicate SingleValued(hosts: seq<Host>) {
    forall a, b, n :: Related(hosts, a, n) && Related(hosts, b, n) ==> a == b
  }

  predicate ValidHost(h: Host) { ValidAddress(h.address) && h.names != [] && forall n :: n in h.names ==> ValidName(n) }

  /** The revision and digest are set, and every name has one address. */
  ghost predicate Acceptable(revision: int, digest: Bytes, hosts: seq<Host>) {
    revision > 0 && Set(digest) && (forall h :: h in hosts ==> ValidHost(h)) && SingleValued(hosts)
  }

  function NameKey(n: Bytes): Key { [n] }

  function HostKey(h: Host): Key { [if h.address.V4? then h.address.octets else []] }

  /** Addresses and names ascend strictly. */
  predicate Canonical(hosts: seq<Host>) {
    StrictlyAscending(hosts, HostKey) && forall h :: h in hosts ==> StrictlyAscending(h.names, NameKey)
  }

  lemma {:induction false} NamesUnique(h: Host, g: Host)
    requires StrictlyAscending(h.names, NameKey) && StrictlyAscending(g.names, NameKey) && h.address == g.address
    requires forall n :: n in h.names <==> n in g.names
    ensures h == g
  {
    AscendingUnique(h.names, g.names, NameKey, 1);
  }

  /** Canonical hosts have each address once. */
  lemma {:induction false} OneHost(hosts: seq<Host>, h: Host, g: Host)
    requires StrictlyAscending(hosts, HostKey) && h in hosts && g in hosts && h.address == g.address
    ensures h == g
  {
    var i :| 0 <= i < |hosts| && hosts[i] == h;
    var j :| 0 <= j < |hosts| && hosts[j] == g;
    KeyOrder(HostKey(h), HostKey(g));
  }

  lemma {:induction false} SameHost(hosts: seq<Host>, more: seq<Host>, h: Host)
    requires Canonical(hosts) && Canonical(more) && h in hosts && h.names != []
    requires forall a, n :: Related(hosts, a, n) <==> Related(more, a, n)
    ensures h in more
  {
    var first := h.names[0];
    assert Related(hosts, h.address, first);
    var g :| g in more && g.address == h.address && first in g.names;
    forall n ensures n in h.names <==> n in g.names {
      if n in h.names {
        assert Related(hosts, h.address, n);
        var k :| k in more && k.address == h.address && n in k.names;
        OneHost(more, g, k);
      }
      if n in g.names {
        assert Related(more, h.address, n);
        var k :| k in hosts && k.address == h.address && n in k.names;
        OneHost(hosts, h, k);
      }
    }
    NamesUnique(h, g);
  }

  /** There is one canonical list for a relation, however it was written. */
  lemma {:induction false} CanonicalUnique(hosts: seq<Host>, more: seq<Host>)
    requires Canonical(hosts) && Canonical(more)
    requires (forall h :: h in hosts ==> h.names != []) && (forall h :: h in more ==> h.names != [])
    requires forall a, n :: Related(hosts, a, n) <==> Related(more, a, n)
    ensures hosts == more
  {
    forall h ensures h in hosts <==> h in more {
      if h in hosts { SameHost(hosts, more, h); }
      if h in more { SameHost(more, hosts, h); }
    }
    AscendingUnique(hosts, more, HostKey, 1);
  }

  /** What a projection of these hosts is: their relation in canonical form. */
  ghost predicate Projects(hosts: seq<Host>, canonical: seq<Host>) {
    && Canonical(canonical) && (forall h :: h in canonical ==> ValidHost(h))
    && forall a, n :: Related(canonical, a, n) <==> Related(hosts, a, n)
  }

  /** Acceptance, too, depends on the relation alone once every host is valid. */
  lemma {:induction false} AcceptanceByRelation(revision: int, digest: Bytes, hosts: seq<Host>, more: seq<Host>)
    requires forall a, n :: Related(hosts, a, n) <==> Related(more, a, n)
    requires (forall h :: h in hosts ==> ValidHost(h)) && (forall h :: h in more ==> ValidHost(h))
    ensures Acceptable(revision, digest, hosts) <==> Acceptable(revision, digest, more)
  {
    if SingleValued(hosts) {
      forall a, b, n | Related(more, a, n) && Related(more, b, n) ensures a == b { assert Related(hosts, a, n) && Related(hosts, b, n); }
    }
    if SingleValued(more) {
      forall a, b, n | Related(hosts, a, n) && Related(hosts, b, n) ensures a == b { assert Related(more, a, n) && Related(more, b, n); }
    }
  }

  /** Reordering, repeating or splitting hosts changes nothing, neither the result nor, for valid hosts, whether there is one. */
  lemma {:induction false} OnlyTheRelationCounts(revision: int, digest: Bytes, hosts: seq<Host>, more: seq<Host>, a: seq<Host>, b: seq<Host>)
    requires Projects(hosts, a) && Projects(more, b)
    requires forall address, n :: Related(hosts, address, n) <==> Related(more, address, n)
    ensures a == b
    ensures (forall h :: h in hosts + more ==> ValidHost(h)) ==> (Acceptable(revision, digest, hosts) <==> Acceptable(revision, digest, more))
  {
    CanonicalUnique(a, b);
    if forall h :: h in hosts + more ==> ValidHost(h) { AcceptanceByRelation(revision, digest, hosts, more); }
  }

  /** The projection of a projection's hosts is the same. */
  lemma {:induction false} ProjectingAgain(hosts: seq<Host>, canonical: seq<Host>, again: seq<Host>)
    requires Projects(hosts, canonical) && Projects(canonical, again)
    ensures again == canonical
  {
    CanonicalUnique(again, canonical);
  }
}
