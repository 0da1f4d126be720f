/** Bytewise order on texts and on keys made of texts; sorting, and binary search over sorted registrations. */
module Ordering {
  import opened Outcomes
  import opened Wire

  type Key = seq<Bytes>

  /** Strict bytewise order, a prefix before its extensions. */
  predicate Below(a: Bytes, b: Bytes) {
    b != [] && (a == [] || a[0] < b[0] || (a[0] == b[0] && Below(a[1..], b[1..])))
  }

  /** Strict order on keys of one length: the first texts that differ decide. */
  predicate KeyBelow(a: Key, b: Key) {
    a != [] && b != [] && (Below(a[0], b[0]) || (a[0] == b[0] && KeyBelow(a[1..], b[1..])))
  }

  lemma {:induction false} BelowOrder(a: Bytes, b: Bytes)
    ensures !(Below(a, b) && Below(b, a)) && !Below(a, a)
    ensures Below(a, b) || Below(b, a) || a == b
    decreases |a|
  {
    if a != [] {
      if b != [] {
        BelowOrder(a[1..], b[1..]);
        assert a == [a[0]] + a[1..] && b == [b[0]] + b[1..];
      }
      if |a| > 0 { BelowIrreflexive(a); }
    }
  }

  lemma {:induction false} BelowIrreflexive(a: Bytes)
    ensures !Below(a, a)
    decreases |a|
  {
    if a != [] { BelowIrreflexive(a[1..]); }
  }

  lemma {:induction false} BelowTransitive(a: Bytes, b: Bytes, c: Bytes)
    requires Below(a, b) && Below(b, c)
    ensures Below(a, c)
    decreases |a|
  {
    if a != [] && a[0] == b[0] && b[0] == c[0] {
      BelowTransitive(a[1..], b[1..], c[1..]);
    }
  }

  lemma {:induction false} KeyOrder(a: Key, b: Key)
    requires |a| == |b|
    ensures !(KeyBelow(a, b) && KeyBelow(b, a)) && !KeyBelow(a, a)
    ensures KeyBelow(a, b) || KeyBelow(b, a) || a == b
    decreases |a|
  {
    if a != [] {
      BelowOrder(a[0], b[0]);
      BelowIrreflexive(a[0]);
      KeyOrder(a[1..], b[1..]);
      assert a == [a[0]] + a[1..] && b == [b[0]] + b[1..];
    }
  }

  lemma {:induction false} KeyTransitive(a: Key, b: Key, c: Key)
    requires |a| == |b| == |c| && KeyBelow(a, b) && KeyBelow(b, c)
    ensures KeyBelow(a, c)
    decreases |a|
  {
    if Below(a[0], b[0]) && Below(b[0], c[0]) {
      BelowTransitive(a[0], b[0], c[0]);
    } else if a[0] == b[0] && b[0] == c[0] {
      KeyTransitive(a[1..], b[1..], c[1..]);
    }
  }

  /** All keys of a registration list have one width. */
  ghost predicate Uniform<T>(xs: seq<T>, key: T -> Key, width: nat) { forall x :: x in xs ==> |key(x)| == width }

  predicate Ascending<T>(xs: seq<T>, key: T -> Key) {
    forall i, j :: 0 <= i < j < |xs| ==> key(xs[i]) == key(xs[j]) || KeyBelow(key(xs[i]), key(xs[j]))
  }

  predicate StrictlyAscending<T>(xs: seq<T>, key: T -> Key) {
    forall i, j :: 0 <= i < j < |xs| ==> KeyBelow(key(xs[i]), key(xs[j]))
  }

  predicate DistinctKeys<T>(xs: seq<T>, key: T -> Key) {
    forall i, j :: 0 <= i < j < |xs| ==> key(xs[i]) != key(xs[j])
  }

  function Insert<T>(x: T, xs: seq<T>, key: T -> Key): seq<T> {
    if xs == [] then [x] else if KeyBelow(key(xs[0]), key(x)) then [xs[0]] + Insert(x, xs[1..], key) else [x] + xs
  }

  /** Sorts by key; equal keys keep their order. */
  function Sort<T>(xs: seq<T>, key: T -> Key): seq<T> {
    if xs == [] then [] else Insert(xs[0], Sort(xs[1..], key), key)
  }

  lemma {:induction false} InsertPermutes<T>(x: T, xs: seq<T>, key: T -> Key)
    ensures multiset(Insert(x, xs, key)) == multiset(xs) + multiset{x}
    decreases |xs|
  {
    if xs != [] {
      assert xs == [xs[0]] + xs[1..];
      if KeyBelow(key(xs[0]), key(x)) { InsertPermutes(x, xs[1..], key); }
    }
  }

  lemma {:induction false} InsertAscends<T>(x: T, xs: seq<T>, key: T -> Key, width: nat)
    requires Ascending(xs, key) && Uniform(xs, key, width) && |key(x)| == width
    ensures Ascending(Insert(x, xs, key), key)
    decreases |xs|
  {
    var ys := Insert(x, xs, key);
    if xs != [] {
      KeyOrder(key(xs[0]), key(x));
      if KeyBelow(key(xs[0]), key(x)) {
        var rest := Insert(x, xs[1..], key);
        InsertAscends(x, xs[1..], key, width);
        InsertPermutes(x, xs[1..], key);
        forall y | y in rest ensures key(xs[0]) == key(y) || KeyBelow(key(xs[0]), key(y)) {
          assert y in multiset(rest);
          if y != x {
            assert y in multiset(xs[1..]);
            var j :| 0 <= j < |xs[1..]| && xs[1..][j] == y;
            assert xs[j + 1] == y;
          }
        }
        forall i, j | 0 <= i < j < |ys| ensures key(ys[i]) == key(ys[j]) || KeyBelow(key(ys[i]), key(ys[j])) {
          if i == 0 { assert ys[j] == rest[j - 1] && rest[j - 1] in rest; }
          else { assert ys[i] == rest[i - 1] && ys[j] == rest[j - 1]; }
        }
      } else {
        forall j | 0 < j < |ys| ensures key(x) == key(ys[j]) || KeyBelow(key(x), key(ys[j])) {
          assert ys[j] == xs[j - 1] && xs[j - 1] in xs;
          if j > 1 && key(xs[0]) != key(xs[j - 1]) && KeyBelow(key(x), key(xs[0])) {
            KeyTransitive(key(x), key(xs[0]), key(xs[j - 1]));
          }
        }
      }
    }
  }

  lemma {:induction false} SortSorts<T>(xs: seq<T>, key: T -> Key, width: nat)
    requires Uniform(xs, key, width)
    ensures multiset(Sort(xs, key)) == multiset(xs) && Ascending(Sort(xs, key), key) && Uniform(Sort(xs, key), key, width)
    decreases |xs|
  {
    if xs != [] {
      assert xs == [xs[0]] + xs[1..];
      SortSorts(xs[1..], key, width);
      InsertPermutes(xs[0], Sort(xs[1..], key), key);
      InsertAscends(xs[0], Sort(xs[1..], key), key, width);
      forall x | x in Sort(xs, key) ensures |key(x)| == width { assert x in multiset(Sort(xs, key)) && x in multiset(xs); }
    }
  }

  lemma {:induction false} AscendingDistinct<T>(xs: seq<T>, key: T -> Key)
    requires Ascending(xs, key) && DistinctKeys(xs, key)
    ensures StrictlyAscending(xs, key)
  {}

  lemma {:induction false} RepeatCounts<T>(xs: seq<T>)
    ensures (forall i, j :: 0 <= i < j < |xs| ==> xs[i] != xs[j]) <==> forall x :: multiset(xs)[x] <= 1
    decreases |xs|
  {
    if xs != [] {
      var rest := xs[1..];
      RepeatCounts(rest);
      assert xs == [xs[0]] + rest;
      assert multiset(xs) == multiset{xs[0]} + multiset(rest);
      assert xs[0] in multiset(rest) <==> xs[0] in rest;
      if forall x :: multiset(xs)[x] <= 1 {
        assert multiset(xs)[xs[0]] <= 1;
        forall x ensures multiset(rest)[x] <= 1 { assert multiset(xs)[x] <= 1; }
        forall i, j | 0 <= i < j < |xs| ensures xs[i] != xs[j] {
          assert xs[j] == rest[j - 1] && rest[j - 1] in rest;
          if i > 0 { assert xs[i] == rest[i - 1]; }
        }
      }
      if forall i, j :: 0 <= i < j < |xs| ==> xs[i] != xs[j] {
        forall i, j | 0 <= i < j < |rest| ensures rest[i] != rest[j] { assert rest[i] == xs[i + 1] && rest[j] == xs[j + 1]; }
        forall x ensures multiset(xs)[x] <= 1 { assert multiset(rest)[x] <= 1; }
      }
    }
  }

  /** Whether keys repeat does not depend on the order. */
  lemma {:induction false} DistinctPermutes<T>(xs: seq<T>, ys: seq<T>, key: T -> Key)
    requires multiset(xs) == multiset(ys) && DistinctKeys(xs, key)
    ensures DistinctKeys(ys, key)
  {
    RepeatCounts(xs);
    RepeatCounts(ys);
    forall i, j | 0 <= i < j < |ys| ensures key(ys[i]) != key(ys[j]) {
      assert ys[i] in multiset(xs) && ys[j] in multiset(xs);
      var m :| 0 <= m < |xs| && xs[m] == ys[i];
      var n :| 0 <= n < |xs| && xs[n] == ys[j];
      assert m != n;
    }
  }

  /** The keys of a sorted list repeat exactly when two neighbours agree. */
  lemma {:induction false} NeighboursDecide<T>(xs: seq<T>, key: T -> Key, width: nat)
    requires Ascending(xs, key) && Uniform(xs, key, width)
    ensures DistinctKeys(xs, key) <==> forall i :: 0 < i < |xs| ==> key(xs[i]) != key(xs[i - 1])
  {
    if forall i :: 0 < i < |xs| ==> key(xs[i]) != key(xs[i - 1]) {
      forall i, j | 0 <= i < j < |xs| ensures key(xs[i]) != key(xs[j]) {
        assert xs[i] in xs && xs[j] in xs && xs[j - 1] in xs;
        assert KeyBelow(key(xs[j - 1]), key(xs[j]));
        assert i < j - 1 ==> key(xs[i]) == key(xs[j - 1]) || KeyBelow(key(xs[i]), key(xs[j - 1]));
        KeyOrder(key(xs[j - 1]), key(xs[j]));
      }
    }
  }

  /** A strictly ascending list is determined by its elements. */
  lemma {:induction false} AscendingUnique<T>(xs: seq<T>, ys: seq<T>, key: T -> Key, width: nat)
    requires StrictlyAscending(xs, key) && StrictlyAscending(ys, key) && Uniform(xs, key, width) && Uniform(ys, key, width)
    requires forall x :: x in xs <==> x in ys
    ensures xs == ys
    decreases |xs|
  {
    assert ys != [] ==> ys[0] in ys;
    if xs != [] {
      assert xs[0] in xs && xs[0] in ys;
      assert ys[0] in ys && ys[0] in xs;
      var i :| 0 <= i < |xs| && xs[i] == ys[0];
      var j :| 0 <= j < |ys| && ys[j] == xs[0];
      KeyOrder(key(xs[0]), key(ys[0]));
      assert xs[0] == ys[0];
      forall x ensures x in xs[1..] <==> x in ys[1..] {
        TailMember(xs, key, width, x);
        TailMember(ys, key, width, x);
      }
      AscendingUnique(xs[1..], ys[1..], key, width);
      assert xs == [xs[0]] + xs[1..] && ys == [ys[0]] + ys[1..];
    }
  }

  lemma {:induction false} TailMember<T>(xs: seq<T>, key: T -> Key, width: nat, x: T)
    requires xs != [] && StrictlyAscending(xs, key) && Uniform(xs, key, width)
    ensures x in xs[1..] <==> x in xs && x != xs[0]
  {
    if x in xs[1..] {
      var i :| 0 <= i < |xs[1..]| && xs[1..][i] == x;
      assert xs[i + 1] == x && xs[0] in xs;
      KeyOrder(key(xs[0]), key(xs[0]));
    }
    if x in xs && x != xs[0] {
      var i :| 0 <= i < |xs| && xs[i] == x;
      assert xs[1..][i - 1] == x;
    }
  }

  /** Any two arrangements of the same registrations with distinct keys sort to the same list. */
  lemma {:induction false} SortPermutes<T>(xs: seq<T>, ys: seq<T>, key: T -> Key, width: nat)
    requires multiset(xs) == multiset(ys) && DistinctKeys(xs, key) && Uniform(xs, key, width)
    ensures Sort(xs, key) == Sort(ys, key) && StrictlyAscending(Sort(xs, key), key)
  {
    forall y | y in ys ensures |key(y)| == width { assert y in multiset(ys) && y in multiset(xs); }
    SortSorts(xs, key, width);
    SortSorts(ys, key, width);
    var a, b := Sort(xs, key), Sort(ys, key);
    DistinctPermutes(xs, a, key);
    DistinctPermutes(xs, b, key);
    forall x ensures x in a <==> x in b { assert x in a <==> x in multiset(a); assert x in b <==> x in multiset(b); }
    AscendingUnique(a, b, key, width);
  }

  /** The position of a linear search, or none. */
  function Linear<T>(xs: seq<T>, key: T -> Key, target: Key): Option<T> {
    if xs == [] then None else if key(xs[0]) == target then Some(xs[0]) else Linear(xs[1..], key, target)
  }

  lemma {:induction false} LinearAt<T>(xs: seq<T>, key: T -> Key, target: Key, index: nat)
    requires index <= |xs| && forall i :: 0 <= i < index ==> key(xs[i]) != target
    ensures Linear(xs, key, target) == Linear(xs[index..], key, target)
    decreases index
  {
    if index > 0 {
      LinearAt(xs[1..], key, target, index - 1);
      assert xs[1..][index - 1..] == xs[index..];
    }
  }

  lemma {:induction false} LinearNone<T>(xs: seq<T>, key: T -> Key, target: Key)
    requires forall x :: x in xs ==> key(x) != target
    ensures Linear(xs, key, target) == None
    decreases |xs|
  {
    if xs != [] {
      assert xs[0] in xs;
      LinearNone(xs[1..], key, target);
    }
  }

  /** Halving search for the first key that is not below the target, and the linear search it stands for. */
  method Find<T>(xs: seq<T>, key: T -> Key, target: Key, ghost width: nat) returns (found: Option<T>)
    requires StrictlyAscending(xs, key) && Uniform(xs, key, width) && |target| == width
    ensures found == Linear(xs, key, target)
  {
    var low, high := 0, |xs|;
    while low < high
      invariant 0 <= low <= high <= |xs|
      invariant forall i :: 0 <= i < low ==> KeyBelow(key(xs[i]), target)
      invariant forall i :: high <= i < |xs| ==> !KeyBelow(key(xs[i]), target)
    {
      var middle := low + (high - low) / 2;
      if KeyBelow(key(xs[middle]), target) {
        forall i | 0 <= i < middle ensures KeyBelow(key(xs[i]), target) {
          assert xs[i] in xs && xs[middle] in xs;
          KeyTransitive(key(xs[i]), key(xs[middle]), target);
        }
        low := middle + 1;
      } else {
        forall i | middle < i < |xs| ensures !KeyBelow(key(xs[i]), target) {
          assert xs[i] in xs && xs[middle] in xs;
          if KeyBelow(key(xs[i]), target) { KeyTransitive(key(xs[middle]), key(xs[i]), target); }
        }
        high := middle;
      }
    }
    forall i | 0 <= i < low ensures key(xs[i]) != target { KeyOrder(target, target); }
    LinearAt(xs, key, target, low);
    if low == |xs| || key(xs[low]) != target {
      forall x | x in xs[low..] ensures key(x) != target {
        var i :| 0 <= i < |xs[low..]| && xs[low..][i] == x;
        assert x == xs[low + i] && xs[low] in xs;
        assert i > 0 ==> KeyBelow(key(xs[low]), key(xs[low + i]));
      }
      LinearNone(xs[low..], key, target);
      return None;
    }
    found := Some(xs[low]);
  }

  function Without<T>(xs: seq<T>, i: nat): seq<T>
    requires i < |xs|
  {
    xs[..i] + xs[i + 1..]
  }

  lemma {:induction false} WithoutCounts<T>(xs: seq<T>, i: nat)
    requires i < |xs|
    ensures multiset(Without(xs, i)) + multiset{xs[i]} == multiset(xs)
  {
    assert xs == xs[..i] + [xs[i]] + xs[i + 1..];
  }

  /** Where the first element of one arrangement stands in another. */
  lemma {:induction false} FirstIn<T>(xs: seq<T>, ys: seq<T>) returns (i: nat)
    requires multiset(xs) == multiset(ys) && xs != []
    ensures i < |ys| && ys[i] == xs[0] && multiset(Without(ys, i)) == multiset(xs[1..])
  {
    assert xs == [xs[0]] + xs[1..];
    assert xs[0] in multiset(ys);
    i :| 0 <= i < |ys| && ys[i] == xs[0];
    WithoutCounts(ys, i);
    assert multiset(xs) == multiset{xs[0]} + multiset(xs[1..]);
    assert multiset(Without(ys, i)) == multiset(ys) - multiset{ys[i]};
    assert multiset(xs[1..]) == multiset(xs) - multiset{xs[0]};
  }

  lemma {:induction false} EmptyArrangement<T>(ys: seq<T>)
    requires multiset(ys) == multiset{}
    ensures ys == []
  {
    assert |multiset(ys)| == |ys|;
  }

  /** Equal keys mean equal elements. */
  predicate KeysDecide<T(==)>(xs: seq<T>, key: T -> Key) {
    forall i, j :: 0 <= i < |xs| && 0 <= j < |xs| && key(xs[i]) == key(xs[j]) ==> xs[i] == xs[j]
  }

  lemma {:induction false} Heads<T>(xs: seq<T>, ys: seq<T>, key: T -> Key, width: nat)
    requires Ascending(xs, key) && Ascending(ys, key) && multiset(xs) == multiset(ys) && xs != [] && ys != []
    requires Uniform(xs, key, width) && KeysDecide(xs, key)
    ensures xs[0] == ys[0]
  {
    assert xs[0] in multiset(ys) && ys[0] in multiset(xs);
    var j :| 0 <= j < |ys| && ys[j] == xs[0];
    var i :| 0 <= i < |xs| && xs[i] == ys[0];
    assert xs[0] in xs && xs[i] in xs;
    KeyOrder(key(xs[0]), key(ys[0]));
    assert key(xs[0]) == key(xs[i]);
  }

  lemma {:induction false} Tails<T>(xs: seq<T>, ys: seq<T>)
    requires multiset(xs) == multiset(ys) && xs != [] && ys != [] && xs[0] == ys[0]
    ensures multiset(xs[1..]) == multiset(ys[1..])
  {
    assert xs == [xs[0]] + xs[1..] && ys == [ys[0]] + ys[1..];
    assert multiset(xs[1..]) == multiset(xs) - multiset{xs[0]} && multiset(ys[1..]) == multiset(ys) - multiset{ys[0]};
  }

  /** Two ascending arrangements of the same elements are the same when keys decide them. */
  lemma {:induction false} AscendingSame<T>(xs: seq<T>, ys: seq<T>, key: T -> Key, width: nat)
    requires Ascending(xs, key) && Ascending(ys, key) && multiset(xs) == multiset(ys)
    requires Uniform(xs, key, width) && KeysDecide(xs, key)
    ensures xs == ys
    decreases |xs|
  {
    assert |multiset(xs)| == |xs| && |multiset(ys)| == |ys|;
    if xs != [] {
      Heads(xs, ys, key, width);
      Tails(xs, ys);
      forall i, j | 0 <= i < |xs[1..]| && 0 <= j < |xs[1..]| && key(xs[1..][i]) == key(xs[1..][j]) ensures xs[1..][i] == xs[1..][j] {
        assert xs[1..][i] == xs[i + 1] && xs[1..][j] == xs[j + 1];
      }
      AscendingSame(xs[1..], ys[1..], key, width);
      assert xs == [xs[0]] + xs[1..] && ys == [ys[0]] + ys[1..];
    }
  }

  /** The elements under one key, in their order. */
  function Matching<T>(xs: seq<T>, key: T -> Key, k: Key): seq<T> {
    if xs == [] then [] else (if key(xs[0]) == k then [xs[0]] else []) + Matching(xs[1..], key, k)
  }

  lemma {:induction false} InsertMatching<T>(x: T, xs: seq<T>, key: T -> Key, k: Key)
    ensures Matching(Insert(x, xs, key), key, k) == (if key(x) == k then [x] else []) + Matching(xs, key, k)
    decreases |xs|
  {
    if xs != [] && KeyBelow(key(xs[0]), key(x)) {
      KeyOrder(key(x), key(x));
      InsertMatching(x, xs[1..], key, k);
      assert Insert(x, xs, key)[1..] == Insert(x, xs[1..], key);
    } else {
      assert ([x] + xs)[1..] == xs;
      assert xs == [] ==> [x] + xs == [x];
    }
  }

  /** Sorting is stable: it keeps the order of the elements under each key. */
  lemma {:induction false} SortMatching<T>(xs: seq<T>, key: T -> Key, k: Key)
    ensures Matching(Sort(xs, key), key, k) == Matching(xs, key, k)
    decreases |xs|
  {
    if xs != [] {
      SortMatching(xs[1..], key, k);
      InsertMatching(xs[0], Sort(xs[1..], key), key, k);
    }
  }

  /** Where an element stands among those under its key. */
  lemma {:induction false} MatchingAt<T>(xs: seq<T>, key: T -> Key, i: nat)
    requires i < |xs|
    ensures var k := key(xs[i]); var before := |Matching(xs[..i], key, k)|;
      before < |Matching(xs, key, k)| && Matching(xs, key, k)[before] == xs[i]
    decreases i
  {
    if i == 0 {
      assert xs[..0] == [];
    } else {
      MatchingAt(xs[1..], key, i - 1);
      assert xs[..i][1..] == xs[1..][..i - 1];
    }
  }

  /** The elements before i and j exchanged. */
  function Exchanged<T>(xs: seq<T>, i: nat, j: nat): seq<T>
    requires i < j < |xs|
  {
    xs[i := xs[j]][j := xs[i]]
  }

  lemma {:induction false} ExchangedPermutes<T>(xs: seq<T>, i: nat, j: nat)
    requires i < j < |xs|
    ensures multiset(Exchanged(xs, i, j)) == multiset(xs)
  {}

  /** Exchanging two different elements under one key changes what sorting gives. */
  lemma {:induction false} ExchangeShows<T>(xs: seq<T>, key: T -> Key, i: nat, j: nat)
    requires i < j < |xs| && key(xs[i]) == key(xs[j]) && xs[i] != xs[j]
    ensures Sort(Exchanged(xs, i, j), key) != Sort(xs, key)
  {
    var ys, k := Exchanged(xs, i, j), key(xs[i]);
    MatchingAt(xs, key, i);
    MatchingAt(ys, key, i);
    assert ys[..i] == xs[..i];
    SortMatching(xs, key, k);
    SortMatching(ys, key, k);
  }

  /** Sorting gives the same for every arrangement exactly when equal keys mean equal elements. */
  lemma {:induction false} SortDecided<T(!new)>(xs: seq<T>, key: T -> Key, width: nat)
    requires Uniform(xs, key, width)
    ensures (forall ys :: multiset(ys) == multiset(xs) ==> Sort(ys, key) == Sort(xs, key)) <==> KeysDecide(xs, key)
  {
    if KeysDecide(xs, key) {
      forall ys | multiset(ys) == multiset(xs) ensures Sort(ys, key) == Sort(xs, key) { SortAlike(xs, ys, key, width); }
    } else {
      var i, j :| 0 <= i < |xs| && 0 <= j < |xs| && key(xs[i]) == key(xs[j]) && xs[i] != xs[j];
      var a, b := if i < j then i else j, if i < j then j else i;
      ExchangeShows(xs, key, a, b);
      ExchangedPermutes(xs, a, b);
    }
  }

  lemma {:induction false} SortAlike<T>(xs: seq<T>, ys: seq<T>, key: T -> Key, width: nat)
    requires Uniform(xs, key, width) && multiset(ys) == multiset(xs) && KeysDecide(xs, key)
    ensures Sort(ys, key) == Sort(xs, key)
  {
    forall y | y in ys ensures |key(y)| == width { assert y in multiset(ys) && y in multiset(xs); }
    SortSorts(xs, key, width);
    SortSorts(ys, key, width);
    var a := Sort(xs, key);
    forall i, j | 0 <= i < |a| && 0 <= j < |a| && key(a[i]) == key(a[j]) ensures a[i] == a[j] {
      assert a[i] in multiset(xs) && a[j] in multiset(xs);
      var m :| 0 <= m < |xs| && xs[m] == a[i];
      var n :| 0 <= n < |xs| && xs[n] == a[j];
    }
    AscendingSame(a, Sort(ys, key), key, width);
  }
}
