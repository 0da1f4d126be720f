/** Building and validating a host-resolution projection. */
module HostProjector {
  import opened Outcomes
  import opened Wire
  import opened Ordering
  import opened HostProjection

  /** The hosts before an index, and the first names of the host there. */
  function Seen(hosts: seq<Host>, i: nat, j: nat): seq<Host>
    requires i < |hosts| && j <= |hosts[i].names|
  {
    hosts[..i] + [Host(hosts[i].address, hosts[i].names[..j])]
  }

  lemma {:induction false} SeenNext(hosts: seq<Host>, i: nat, j: nat, a: Address, n: Bytes)
    requires i < |hosts| && j < |hosts[i].names|
    ensures Related(Seen(hosts, i, j + 1), a, n) <==> Related(Seen(hosts, i, j), a, n) || (a == hosts[i].address && n == hosts[i].names[j])
  {
    var now, next := Seen(hosts, i, j), Seen(hosts, i, j + 1);
    assert next[i].names == now[i].names + [hosts[i].names[j]];
    if Related(next, a, n) {
      var h :| h in next && h.address == a && n in h.names;
      if h in hosts[..i] { assert h in now; } else { assert now[i] in now; }
    }
    if Related(now, a, n) {
      var h :| h in now && h.address == a && n in h.names;
      if h in hosts[..i] { assert h in next; } else { assert next[i] in next; }
    }
    if a == hosts[i].address && n == hosts[i].names[j] { assert next[i] in next; }
  }

  lemma {:induction false} SeenNone(hosts: seq<Host>, i: nat, a: Address, n: Bytes)
    requires i < |hosts|
    ensures Related(Seen(hosts, i, 0), a, n) <==> Related(hosts[..i], a, n)
  {
    if Related(Seen(hosts, i, 0), a, n) {
      var h :| h in Seen(hosts, i, 0) && h.address == a && n in h.names;
      assert h in hosts[..i];
    }
    if Related(hosts[..i], a, n) {
      var h :| h in hosts[..i] && h.address == a && n in h.names;
      assert h in Seen(hosts, i, 0);
    }
  }

  lemma {:induction false} SeenAll(hosts: seq<Host>, i: nat)
    requires i < |hosts|
    ensures Seen(hosts, i, |hosts[i].names|) == hosts[..i + 1]
  {
    assert hosts[i].names[..|hosts[i].names|] == hosts[i].names;
  }

  lemma {:induction false} SeenIsStated(hosts: seq<Host>, i: nat, j: nat, a: Address, n: Bytes)
    requires i < |hosts| && j <= |hosts[i].names| && Related(Seen(hosts, i, j), a, n)
    ensures Related(hosts, a, n)
  {
    var h :| h in Seen(hosts, i, j) && h.address == a && n in h.names;
    if h !in hosts[..i] { assert hosts[i] in hosts && n in hosts[i].names; }
  }

  /** The table maps exactly the related names, each to its address. */
  ghost predicate Maps(seen: seq<Host>, addressByName: map<Bytes, Address>) {
    && (forall n :: n in addressByName ==> Related(seen, addressByName[n], n))
    && forall a, n :: Related(seen, a, n) ==> n in addressByName && addressByName[n] == a
  }

  /** The table groups exactly the related names by address. */
  ghost predicate Groups(seen: seq<Host>, byAddress: map<Address, set<Bytes>>) {
    forall a, n :: Related(seen, a, n) <==> a in byAddress && n in byAddress[a]
  }

  /** One more related pair. */
  ghost predicate Extends(now: seq<Host>, next: seq<Host>, a: Address, n: Bytes) {
    forall b, m :: Related(next, b, m) <==> Related(now, b, m) || (b == a && m == n)
  }

  lemma {:induction false} MapsMore(now: seq<Host>, next: seq<Host>, table: map<Bytes, Address>, a: Address, n: Bytes)
    requires Maps(now, table) && Extends(now, next, a, n) && (n in table ==> table[n] == a)
    ensures Maps(next, table[n := a])
  {
    hide Related;
    var more := table[n := a];
    assert Related(next, a, n);
    forall m | m in more ensures Related(next, more[m], m) {
      if m != n { assert Related(now, table[m], m); }
    }
    forall b, m | Related(next, b, m) ensures m in more && more[m] == b {
      if m != n { assert Related(now, b, m); }
    }
  }

  lemma {:induction false} GroupsMore(now: seq<Host>, next: seq<Host>, table: map<Address, set<Bytes>>, a: Address, n: Bytes)
    requires Groups(now, table) && Extends(now, next, a, n) && a in table
    ensures Groups(next, table[a := table[a] + {n}])
  {
    hide Related;
    var more := table[a := table[a] + {n}];
    forall b, m ensures Related(next, b, m) <==> b in more && m in more[b] {
      assert Related(now, b, m) <==> b in table && m in table[b];
    }
  }

  lemma {:induction false} SeenExtends(hosts: seq<Host>, i: nat, j: nat)
    requires i < |hosts| && j < |hosts[i].names|
    ensures Extends(Seen(hosts, i, j), Seen(hosts, i, j + 1), hosts[i].address, hosts[i].names[j])
  {
    forall b, m ensures Related(Seen(hosts, i, j + 1), b, m) <==>
                        Related(Seen(hosts, i, j), b, m) || (b == hosts[i].address && m == hosts[i].names[j]) {
      SeenNext(hosts, i, j, b, m);
    }
  }

  /** A name that another address has already cannot be added. */
  lemma {:induction false} Contradicts(hosts: seq<Host>, i: nat, j: nat, table: map<Bytes, Address>)
    requires i < |hosts| && j < |hosts[i].names| && Maps(Seen(hosts, i, j), table)
    requires hosts[i].names[j] in table && table[hosts[i].names[j]] != hosts[i].address
    ensures !SingleValued(hosts)
  {
    SeenIsStated(hosts, i, j, table[hosts[i].names[j]], hosts[i].names[j]);
    assert hosts[i] in hosts && Related(hosts, hosts[i].address, hosts[i].names[j]);
  }

  /** At the start of a host nothing of it was seen; at its end all of it. */
  lemma {:induction false} HostBegins(hosts: seq<Host>, i: nat)
    requires i < |hosts|
    ensures forall a, n :: Related(Seen(hosts, i, 0), a, n) <==> Related(hosts[..i], a, n)
  {
    forall a, n ensures Related(Seen(hosts, i, 0), a, n) <==> Related(hosts[..i], a, n) { SeenNone(hosts, i, a, n); }
  }

  /** Adds the names of one host to the tables. */
  method CollectNames(hosts: seq<Host>, i: nat, byAddress: map<Address, set<Bytes>>, addressByName: map<Bytes, Address>)
    returns (ok: bool, grouped: map<Address, set<Bytes>>, mapped: map<Bytes, Address>)
    requires i < |hosts| && hosts[i].names != [] && hosts[i].address in byAddress
    requires Maps(Seen(hosts, i, 0), addressByName) && Groups(Seen(hosts, i, 0), byAddress)
    requires forall a :: a in byAddress && a != hosts[i].address ==> byAddress[a] != {}
    ensures !ok ==> !(forall n :: n in hosts[i].names ==> ValidName(n)) || !SingleValued(hosts)
    ensures ok ==> (forall n :: n in hosts[i].names ==> ValidName(n)) && forall a :: a in grouped ==> grouped[a] != {}
    ensures ok ==> Maps(Seen(hosts, i, |hosts[i].names|), mapped) && Groups(Seen(hosts, i, |hosts[i].names|), grouped)
  {
    hide Seen, Maps, Groups, Extends, Related, SingleValued, ValidName;
    grouped, mapped := byAddress, addressByName;
    var host, j := hosts[i], 0;
    while j < |host.names|
      invariant 0 <= j <= |host.names| && host.address in grouped
      invariant Maps(Seen(hosts, i, j), mapped) && Groups(Seen(hosts, i, j), grouped)
      invariant (j > 0 ==> grouped[host.address] != {}) && forall a :: a in grouped && a != host.address ==> grouped[a] != {}
      invariant forall k :: 0 <= k < j ==> ValidName(host.names[k])
    {
      var name := host.names[j];
      if !ValidName(name) {
        assert name in host.names;
        return false, grouped, mapped;
      }
      if name in mapped && mapped[name] != host.address {
        Contradicts(hosts, i, j, mapped);
        return false, grouped, mapped;
      }
      SeenExtends(hosts, i, j);
      MapsMore(Seen(hosts, i, j), Seen(hosts, i, j + 1), mapped, host.address, name);
      GroupsMore(Seen(hosts, i, j), Seen(hosts, i, j + 1), grouped, host.address, name);
      mapped := mapped[name := host.address];
      grouped := grouped[host.address := grouped[host.address] + {name}];
      j := j + 1;
    }
    ok := true;
  }

  lemma {:induction false} TablesBegin(hosts: seq<Host>, i: nat, byAddress: map<Address, set<Bytes>>, addressByName: map<Bytes, Address>)
    requires i < |hosts| && Maps(hosts[..i], addressByName) && Groups(hosts[..i], byAddress)
    ensures Maps(Seen(hosts, i, 0), addressByName) && Groups(Seen(hosts, i, 0), byAddress)
    ensures hosts[i].address !in byAddress ==> Groups(Seen(hosts, i, 0), byAddress[hosts[i].address := {}])
  {
    HostBegins(hosts, i);
    hide Related, Seen;
  }

  lemma {:induction false} NothingSeen()
    ensures Maps([], map[]) && Groups([], map[])
  {}

  /** Maps are single-valued. */
  lemma {:induction false} MappedOnce(hosts: seq<Host>, addressByName: map<Bytes, Address>)
    requires Maps(hosts, addressByName)
    ensures SingleValued(hosts)
  {
    hide Related;
  }

  method Collect(hosts: seq<Host>) returns (ok: bool, byAddress: map<Address, set<Bytes>>)
    ensures ok <==> (forall h :: h in hosts ==> ValidHost(h)) && SingleValued(hosts)
    ensures ok ==> Groups(hosts, byAddress) && forall a :: a in byAddress ==> byAddress[a] != {}
  {
    hide Seen, Maps, Groups, Related, SingleValued, ValidName, ValidAddress;
    byAddress := map[];
    var addressByName: map<Bytes, Address> := map[];
    var i := 0;
    NothingSeen();
    assert hosts[..0] == [];
    while i < |hosts|
      invariant 0 <= i <= |hosts| && Maps(hosts[..i], addressByName) && Groups(hosts[..i], byAddress)
      invariant (forall k :: 0 <= k < i ==> ValidHost(hosts[k])) && forall a :: a in byAddress ==> byAddress[a] != {}
    {
      var host := hosts[i];
      assert host in hosts;
      if !ValidAddress(host.address) || |host.names| == 0 {
        return false, byAddress;
      }
      TablesBegin(hosts, i, byAddress, addressByName);
      if host.address !in byAddress {
        byAddress := byAddress[host.address := {}];
      }
      ok, byAddress, addressByName := CollectNames(hosts, i, byAddress, addressByName);
      if !ok {
        return;
      }
      SeenAll(hosts, i);
      i := i + 1;
    }
    assert hosts[..i] == hosts;
    MappedOnce(hosts, addressByName);
    ok := true;
  }

  lemma {:induction false} KeyMore(list: seq<Bytes>, n: Bytes)
    requires DistinctKeys(list, NameKey) && n !in list
    ensures DistinctKeys(list + [n], NameKey) && forall m :: m in list + [n] <==> m in list || m == n
  {
    forall i | 0 <= i < |list| ensures NameKey(list[i]) != NameKey(n) { assert NameKey(list[i])[0] == list[i] && NameKey(n)[0] == n; }
  }

  /** Lists a set in some order. */
  method Listed(names: set<Bytes>) returns (list: seq<Bytes>)
    ensures (forall n :: n in list <==> n in names) && DistinctKeys(list, NameKey)
  {
    list := [];
    var left := names;
    while left != {}
      invariant left <= names && (forall n :: n in list <==> n in names - left) && DistinctKeys(list, NameKey)
    {
      var n :| n in left;
      KeyMore(list, n);
      left := left - {n};
      list := list + [n];
    }
  }

  lemma {:induction false} NamesSorted(list: seq<Bytes>, names: set<Bytes>)
    requires (forall n :: n in list <==> n in names) && DistinctKeys(list, NameKey)
    ensures StrictlyAscending(Sort(list, NameKey), NameKey) && forall n :: n in Sort(list, NameKey) <==> n in names
  {
    SortPermutes(list, list, NameKey, 1);
    SortSorts(list, NameKey, 1);
    forall n ensures n in Sort(list, NameKey) <==> n in list {
      assert n in Sort(list, NameKey) <==> n in multiset(Sort(list, NameKey));
      assert n in list <==> n in multiset(list);
    }
  }

  /** A host with its grouped names in order. */
  ghost predicate Ordered(h: Host, byAddress: map<Address, set<Bytes>>) {
    h.address in byAddress && StrictlyAscending(h.names, NameKey) && forall n :: n in h.names <==> n in byAddress[h.address]
  }

  lemma {:induction false} HostsSorted(list: seq<Host>, byAddress: map<Address, set<Bytes>>)
    requires forall h :: h in list ==> Ordered(h, byAddress) && h.address.V4?
    requires forall i, j :: 0 <= i < j < |list| ==> list[i].address != list[j].address
    requires forall a :: a in byAddress ==> exists h :: h in list && h.address == a
    ensures Canonical(Sort(list, HostKey)) && Groups(Sort(list, HostKey), byAddress)
    ensures forall h :: h in Sort(list, HostKey) ==> h in list
  {
    var sorted := Sort(list, HostKey);
    forall i, j | 0 <= i < j < |list| ensures HostKey(list[i]) != HostKey(list[j]) {
      assert list[i] in list && list[j] in list;
    }
    SortPermutes(list, list, HostKey, 1);
    SortSorts(list, HostKey, 1);
    forall h ensures h in sorted <==> h in list {
      assert h in sorted <==> h in multiset(sorted);
      assert h in list <==> h in multiset(list);
    }
    forall a, n ensures Related(sorted, a, n) <==> a in byAddress && n in byAddress[a] {
      if Related(sorted, a, n) {
        var h :| h in sorted && h.address == a && n in h.names;
        assert Ordered(h, byAddress);
      }
      if a in byAddress && n in byAddress[a] {
        var h :| h in list && h.address == a;
        assert Ordered(h, byAddress) && h in sorted;
      }
    }
  }

  /** Puts the groups in canonical form, in whatever order they come. */
  method Canonicalise(byAddress: map<Address, set<Bytes>>) returns (canonical: seq<Host>)
    requires forall a :: a in byAddress ==> a.V4?
    ensures Canonical(canonical) && Groups(canonical, byAddress)
    ensures forall h :: h in canonical ==> h.address in byAddress && forall n :: n in h.names <==> n in byAddress[h.address]
  {
    hide StrictlyAscending, Canonical, Groups;
    var list, left := [], byAddress.Keys;
    while left != {}
      invariant left <= byAddress.Keys
      invariant forall h :: h in list ==> Ordered(h, byAddress) && h.address !in left
      invariant forall i, j :: 0 <= i < j < |list| ==> list[i].address != list[j].address
      invariant forall a :: a in byAddress && a !in left ==> exists h :: h in list && h.address == a
    {
      var a :| a in left;
      var names := Listed(byAddress[a]);
      NamesSorted(names, byAddress[a]);
      var host := Host(a, Sort(names, NameKey));
      assert Ordered(host, byAddress);
      assert host in list + [host] && forall h :: h in list ==> h in list + [host];
      left := left - {a};
      list := list + [host];
    }
    HostsSorted(list, byAddress);
    canonical := Sort(list, HostKey);
  }

  /** A list stays strictly ascending when its last key is below the next. */
  lemma {:induction false} AscendsOn<T>(xs: seq<T>, key: T -> Key, i: nat)
    requires i < |xs| && StrictlyAscending(xs[..i], key) && (forall x :: x in xs ==> |key(x)| == 1)
    requires i > 0 ==> KeyBelow(key(xs[i - 1]), key(xs[i]))
    ensures StrictlyAscending(xs[..i + 1], key)
  {
    var all := xs[..i + 1];
    forall j, k | 0 <= j < k < |all| ensures KeyBelow(key(all[j]), key(all[k])) {
      assert xs[j] in xs && xs[i - 1] in xs && xs[i] in xs;
      if k < i {
        assert xs[..i][j] == xs[j] && xs[..i][k] == xs[k];
      } else if j < i - 1 {
        assert xs[..i][j] == xs[j] && xs[..i][i - 1] == xs[i - 1];
        KeyTransitive(key(xs[j]), key(xs[i - 1]), key(xs[i]));
      }
    }
  }

  lemma {:induction false} SingleKey(a: Bytes, b: Bytes)
    ensures KeyBelow([a], [b]) == Below(a, b)
  {
    assert [a][1..] == [] && [b][1..] == [];
  }

  /** Names in ascending order, none of them empty. */
  method NamesAscend(names: seq<Bytes>) returns (ok: bool)
    ensures ok <==> (forall n :: n in names ==> ValidName(n)) && StrictlyAscending(names, NameKey)
  {
    var previous: Bytes, i := [], 0;
    while i < |names|
      invariant 0 <= i <= |names| && (forall k :: 0 <= k < i ==> ValidName(names[k])) && StrictlyAscending(names[..i], NameKey)
      invariant previous == if i == 0 then [] else names[i - 1]
    {
      if !ValidName(names[i]) || !Below(previous, names[i]) {
        assert names[i] in names;
        if i > 0 { SingleKey(names[i - 1], names[i]); }
        assert i > 0 && StrictlyAscending(names, NameKey) ==> KeyBelow(NameKey(names[i - 1]), NameKey(names[i]));
        return false;
      }
      if i > 0 { SingleKey(names[i - 1], names[i]); }
      AscendsOn(names, NameKey, i);
      previous := names[i];
      i := i + 1;
    }
    assert names[..i] == names;
    ok := true;
  }

  /** What a valid projection is. */
  ghost predicate ValidProjection(p: Projection) {
    Acceptable(p.revision, p.digest, p.hosts) && Canonical(p.hosts)
  }

  /** Records the names of a valid host, unless one has another address already. */
  method Record(hosts: seq<Host>, i: nat, seenNames: map<Bytes, Address>) returns (ok: bool, mapped: map<Bytes, Address>)
    requires i < |hosts| && Maps(hosts[..i], seenNames)
    ensures if ok then Maps(hosts[..i + 1], mapped) else !SingleValued(hosts)
  {
    HostBegins(hosts, i);
    assert Maps(Seen(hosts, i, 0), seenNames) by { hide Related, Seen; }
    hide Seen, Maps, Extends, Related, SingleValued;
    mapped := seenNames;
    var host, j := hosts[i], 0;
    while j < |host.names|
      invariant 0 <= j <= |host.names| && Maps(Seen(hosts, i, j), mapped)
    {
      var name := host.names[j];
      if name in mapped && mapped[name] != host.address {
        Contradicts(hosts, i, j, mapped);
        return false, mapped;
      }
      SeenExtends(hosts, i, j);
      MapsMore(Seen(hosts, i, j), Seen(hosts, i, j + 1), mapped, host.address, name);
      mapped := mapped[name := host.address];
      j := j + 1;
    }
    SeenAll(hosts, i);
    ok := true;
  }

  /** The keys of valid hosts compare as their addresses. */
  predicate AddressBelow(a: Address, b: Address) { a.V4? && b.V4? && Below(a.octets, b.octets) }

  method Validate(p: Projection) returns (ok: bool)
    ensures ok <==> ValidProjection(p)
  {
    if p.revision <= 0 || !Set(p.digest) {
      return false;
    }
    hide Maps, SingleValued, StrictlyAscending, ValidName, Set, Related;
    var seenNames: map<Bytes, Address> := map[];
    var hosts, i := p.hosts, 0;
    NothingSeen();
    assert hosts[..0] == [];
    NothingAscends(hosts);
    while i < |hosts|
      invariant 0 <= i <= |hosts| && Maps(hosts[..i], seenNames) && StrictlyAscending(hosts[..i], HostKey)
      invariant forall k :: 0 <= k < i ==> ValidHost(hosts[k]) && StrictlyAscending(hosts[k].names, NameKey)
    {
      var host := hosts[i];
      assert host in hosts;
      if !ValidAddress(host.address) || |host.names| == 0 || (i > 0 && !AddressBelow(hosts[i - 1].address, host.address)) {
        if ValidAddress(host.address) && |host.names| != 0 { NotBelow(hosts, i); }
        return false;
      }
      var ascend := NamesAscend(host.names);
      if !ascend {
        return false;
      }
      ok, seenNames := Record(hosts, i, seenNames);
      if !ok {
        return;
      }
      if i > 0 { SingleKey(hosts[i - 1].address.octets, host.address.octets); }
      AscendsOn(hosts, HostKey, i);
      i := i + 1;
    }
    assert hosts[..i] == hosts;
    MappedOnce(hosts, seenNames);
    ok := true;
  }

  lemma {:induction false} NothingAscends(hosts: seq<Host>)
    ensures StrictlyAscending(hosts[..0], HostKey)
  {}

  lemma {:induction false} NotBelow(hosts: seq<Host>, i: nat)
    requires 0 < i < |hosts| && !AddressBelow(hosts[i - 1].address, hosts[i].address)
    requires ValidAddress(hosts[i - 1].address) && ValidAddress(hosts[i].address)
    ensures !StrictlyAscending(hosts, HostKey)
  {
    SingleKey(hosts[i - 1].address.octets, hosts[i].address.octets);
  }

  /** Canonical hosts of accepted ones are valid, so that the final check can only find the revision or digest missing. */
  lemma {:induction false} GroupsProject(hosts: seq<Host>, byAddress: map<Address, set<Bytes>>, canonical: seq<Host>)
    requires (forall h :: h in hosts ==> ValidHost(h)) && SingleValued(hosts) && Groups(hosts, byAddress)
    requires forall a :: a in byAddress ==> byAddress[a] != {}
    requires Canonical(canonical) && Groups(canonical, byAddress)
    requires forall h :: h in canonical ==> h.address in byAddress && forall n :: n in h.names <==> n in byAddress[h.address]
    ensures Projects(hosts, canonical) && SingleValued(canonical)
  {
    forall h | h in canonical ensures ValidHost(h) {
      var n :| n in byAddress[h.address];
      forall m | m in h.names ensures ValidName(m) && ValidAddress(h.address) { assert Related(hosts, h.address, m); }
      assert n in h.names;
    }
    forall a, n ensures Related(canonical, a, n) <==> Related(hosts, a, n) {}
    forall a, b, n | Related(canonical, a, n) && Related(canonical, b, n) ensures a == b {
      assert Related(hosts, a, n) && Related(hosts, b, n);
    }
  }

  lemma {:induction false} KeysAreV4(hosts: seq<Host>, byAddress: map<Address, set<Bytes>>)
    requires (forall h :: h in hosts ==> ValidHost(h)) && Groups(hosts, byAddress) && forall a :: a in byAddress ==> byAddress[a] != {}
    ensures forall a :: a in byAddress ==> a.V4?
  {
    forall a | a in byAddress ensures a.V4? {
      var n :| n in byAddress[a];
      assert Related(hosts, a, n);
    }
  }

  /** Succeeds exactly on acceptable input; the result has the input's relation in canonical form. */
  method NewHostResolutionProjection(revision: int, digest: Bytes, hosts: seq<Host>) returns (p: Option<Projection>)
    ensures p.Some? <==> Acceptable(revision, digest, hosts)
    ensures p.Some? ==> p.value.revision == revision && p.value.digest == digest && Projects(hosts, p.value.hosts) && ValidProjection(p.value)
  {
    hide Groups, Canonical, SingleValued, Related, ValidHost, Set;
    var ok, byAddress := Collect(hosts);
    if !ok {
      return None;
    }
    KeysAreV4(hosts, byAddress);
    var canonical := Canonicalise(byAddress);
    GroupsProject(hosts, byAddress, canonical);
    var projection := Projection(revision, digest, canonical);
    ok := Validate(projection);
    p := if ok then Some(projection) else None;
  }
}
