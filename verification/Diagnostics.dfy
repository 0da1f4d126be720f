/** The report of the architecture check: what the baseline excuses is left out, stale excuses are put in, in one order. */
module Diagnostics {
  import opened Wire
  import opened Ordering
  import opened Numbers

  /** A line or column. */
  type Position = n: int | 0 <= n < LONG

  datatype Finding = Finding(path: Bytes, line: Position, column: Position, rule: Bytes, subject: Bytes, message: Bytes)

  /** A finding that the baseline excuses. */
  datatype Excuse = Excuse(path: Bytes, rule: Bytes, subject: Bytes, reason: Bytes)

  const NUL: Byte := 0

  function LegacyKey(path: Bytes, rule: Bytes, subject: Bytes): Bytes { path + [NUL] + rule + [NUL] + subject }

  function FindingKey(f: Finding): Bytes { LegacyKey(f.path, f.rule, f.subject) }

  function ExcuseKey(e: Excuse): Bytes { LegacyKey(e.path, e.rule, e.subject) }

  /** The report of an excuse that nothing needs any more. */
  function Stale(e: Excuse): Finding {
    Finding(e.path, 1, 1, Ascii("stale-legacy-finding"), e.subject, Ascii("legacy finding ") + e.rule + Ascii(" is no longer present"))
  }

  /** The last excuse given for each key. */
  function Legacy(excuses: seq<Excuse>): map<Bytes, Excuse> {
    if excuses == [] then map[]
    else Legacy(excuses[..|excuses| - 1])[ExcuseKey(excuses[|excuses| - 1]) := excuses[|excuses| - 1]]
  }

  /** The findings that no excuse covers, in order. */
  function Filtered(findings: seq<Finding>, legacy: map<Bytes, Excuse>): seq<Finding> {
    if findings == [] then []
    else
      var f := findings[0];
      (if FindingKey(f) in legacy then [] else [f]) + Filtered(findings[1..], legacy)
  }

  function Used(findings: seq<Finding>, legacy: map<Bytes, Excuse>): set<Bytes> {
    set f | f in findings && FindingKey(f) in legacy :: FindingKey(f)
  }

  /** The stale reports of some keys. */
  function Stales(keys: seq<Bytes>, legacy: map<Bytes, Excuse>): seq<Finding>
    requires forall k :: k in keys ==> k in legacy
  {
    seq(|keys|, i requires 0 <= i < |keys| => Stale(legacy[keys[i]]))
  }

  predicate Distinct(keys: seq<Bytes>) { forall i, j :: 0 <= i < j < |keys| ==> keys[i] != keys[j] }

  /** A report: the findings not excused, then each unused excuse once, in whatever order the table gives them. */
  ghost predicate Reports(findings: seq<Finding>, legacy: map<Bytes, Excuse>, keys: seq<Bytes>, report: seq<Finding>) {
    && Distinct(keys) && (forall k :: k in keys <==> k in legacy && k !in Used(findings, legacy))
    && report == Filtered(findings, legacy) + Stales(keys, legacy)
  }

  /** The place of a finding in the order: path, line, column, rule, subject, message. */
  function Rank(f: Finding): Key { [f.path, Digits(8, f.line), Digits(8, f.column), f.rule, f.subject, f.message] }

  predicate Precedes(f: Finding, g: Finding) {
    if f.path != g.path then Below(f.path, g.path)
    else if f.line != g.line then f.line < g.line
    else if f.column != g.column then f.column < g.column
    else if f.rule != g.rule then Below(f.rule, g.rule)
    else if f.subject != g.subject then Below(f.subject, g.subject)
    else Below(f.message, g.message)
  }

  lemma {:induction false} FirstDiffers(a: Key, b: Key)
    requires a != [] && b != []
    ensures KeyBelow(a, b) <==> if a[0] != b[0] then Below(a[0], b[0]) else KeyBelow(a[1..], b[1..])
  {
    if a[0] == b[0] { BelowIrreflexive(a[0]); }
  }

  lemma {:induction false} NumbersAlike(a: Position, b: Position)
    ensures Below(Digits(8, a), Digits(8, b)) <==> a < b
    ensures Digits(8, a) == Digits(8, b) <==> a == b
  {
    Limits();
    DigitsOrder(8, a, b);
    ValueDigits(8, a);
    ValueDigits(8, b);
  }

  /** The rank orders findings as the comparison does, and no two findings share one. */
  lemma {:induction false} RankPrecedes(f: Finding, g: Finding)
    ensures KeyBelow(Rank(f), Rank(g)) <==> Precedes(f, g)
    ensures Rank(f) == Rank(g) <==> f == g
  {
    NumbersAlike(f.line, g.line);
    NumbersAlike(f.column, g.column);
    hide Digits, Below;
    var a, b := Rank(f), Rank(g);
    assert Rank(f) == Rank(g) ==> a[0] == b[0] && a[1] == b[1] && a[2] == b[2] && a[3] == b[3] && a[4] == b[4] && a[5] == b[5];
    FirstDiffers(a, b);
    FirstDiffers(a[1..], b[1..]);
    FirstDiffers(a[1..][1..], b[1..][1..]);
    FirstDiffers(a[1..][1..][1..], b[1..][1..][1..]);
    FirstDiffers(a[1..][1..][1..][1..], b[1..][1..][1..][1..]);
    FirstDiffers(a[1..][1..][1..][1..][1..], b[1..][1..][1..][1..][1..]);
  }

  /** Two ascending arrangements of the same findings are the same. */
  /** Sorted findings depend only on which findings there are, and how often. */
  lemma {:induction false} SortedByContents(xs: seq<Finding>, ys: seq<Finding>)
    requires multiset(xs) == multiset(ys)
    ensures Sort(xs, Rank) == Sort(ys, Rank)
  {
    forall i, j | 0 <= i < |xs| && 0 <= j < |xs| && Rank(xs[i]) == Rank(xs[j]) ensures xs[i] == xs[j] {
      RankPrecedes(xs[i], xs[j]);
    }
    assert Uniform(xs, Rank, 6);
    hide Rank;
    SortAlike(xs, ys, Rank, 6);
  }

  /** A finding's own part of what is left. */
  function Own(f: Finding, legacy: map<Bytes, Excuse>): multiset<Finding> {
    if FindingKey(f) in legacy then multiset{} else multiset{f}
  }

  lemma {:induction false} FilteredHead(findings: seq<Finding>, legacy: map<Bytes, Excuse>)
    requires findings != []
    ensures multiset(Filtered(findings, legacy)) == Own(findings[0], legacy) + multiset(Filtered(findings[1..], legacy))
  {
    hide FindingKey;
  }

  lemma {:induction false} FilteredAppend(a: seq<Finding>, b: seq<Finding>, legacy: map<Bytes, Excuse>)
    ensures Filtered(a + b, legacy) == Filtered(a, legacy) + Filtered(b, legacy)
    decreases |a|
  {
    hide FindingKey;
    if a == [] {
      assert a + b == b;
    } else {
      assert (a + b)[1..] == a[1..] + b;
      FilteredAppend(a[1..], b, legacy);
    }
  }

  lemma {:induction false} FilteredMiddle(a: seq<Finding>, x: Finding, b: seq<Finding>, legacy: map<Bytes, Excuse>)
    ensures multiset(Filtered(a + ([x] + b), legacy)) == multiset(Filtered(a + b, legacy)) + Own(x, legacy)
  {
    var tail := [x] + b;
    assert tail[1..] == b;
    FilteredAppend(a, tail, legacy);
    FilteredAppend(a, b, legacy);
    FilteredHead(tail, legacy);
    hide Filtered, Own;
  }

  lemma {:induction false} FilteredWithout(findings: seq<Finding>, legacy: map<Bytes, Excuse>, i: nat)
    requires i < |findings|
    ensures multiset(Filtered(findings, legacy)) == multiset(Filtered(Without(findings, i), legacy)) + Own(findings[i], legacy)
  {
    assert findings == findings[..i] + ([findings[i]] + findings[i + 1..]);
    hide Filtered, Own;
    FilteredMiddle(findings[..i], findings[i], findings[i + 1..], legacy);
  }

  lemma {:induction false} FilteredPermutes(xs: seq<Finding>, ys: seq<Finding>, legacy: map<Bytes, Excuse>)
    requires multiset(xs) == multiset(ys)
    ensures multiset(Filtered(xs, legacy)) == multiset(Filtered(ys, legacy))
    decreases |xs|
  {
    if xs == [] {
      EmptyArrangement(ys);
    } else {
      var i := FirstIn(xs, ys);
      FilteredPermutes(xs[1..], Without(ys, i), legacy);
      FilteredWithout(ys, legacy, i);
      FilteredHead(xs, legacy);
    }
  }

  lemma {:induction false} UsedPermutes(xs: seq<Finding>, ys: seq<Finding>, legacy: map<Bytes, Excuse>)
    requires multiset(xs) == multiset(ys)
    ensures Used(xs, legacy) == Used(ys, legacy)
  {
    forall f ensures f in xs <==> f in ys {
      assert f in xs <==> f in multiset(xs);
      assert f in ys <==> f in multiset(ys);
    }
  }

  lemma {:induction false} StalesPermute(keys: seq<Bytes>, more: seq<Bytes>, legacy: map<Bytes, Excuse>)
    requires multiset(keys) == multiset(more) && (forall k :: k in keys ==> k in legacy) && (forall k :: k in more ==> k in legacy)
    ensures multiset(Stales(keys, legacy)) == multiset(Stales(more, legacy))
    decreases |keys|
  {
    if keys == [] {
      EmptyArrangement(more);
    } else {
      var i := FirstIn(keys, more);
      var rest := Without(more, i);
      forall k | k in rest ensures k in legacy { assert k in multiset(rest); }
      StalesPermute(keys[1..], rest, legacy);
      assert Stales(keys, legacy) == [Stale(legacy[keys[0]])] + Stales(keys[1..], legacy);
      assert Stales(rest, legacy) == Without(Stales(more, legacy), i);
      WithoutCounts(Stales(more, legacy), i);
    }
  }

  lemma {:induction false} SameKeys(keys: seq<Bytes>, more: seq<Bytes>)
    requires Distinct(keys) && Distinct(more) && forall k :: k in keys <==> k in more
    ensures multiset(keys) == multiset(more)
  {
    RepeatCounts(keys);
    RepeatCounts(more);
    forall k ensures multiset(keys)[k] == multiset(more)[k] {
      assert k in keys <==> k in multiset(keys);
      assert k in more <==> k in multiset(more);
    }
  }

  /**
   The sorted report is the same for every order in which the findings were made and every order in which the
   table of excuses is walked.
   */
  lemma {:induction false} ReportIsDeterministic(findings: seq<Finding>, more: seq<Finding>, legacy: map<Bytes, Excuse>,
                                                 keys: seq<Bytes>, keys2: seq<Bytes>, report: seq<Finding>, report2: seq<Finding>)
    requires multiset(findings) == multiset(more)
    requires Reports(findings, legacy, keys, report) && Reports(more, legacy, keys2, report2)
    ensures Sort(report, Rank) == Sort(report2, Rank)
  {
    FilteredPermutes(findings, more, legacy);
    UsedPermutes(findings, more, legacy);
    SameKeys(keys, keys2);
    StalesPermute(keys, keys2, legacy);
    SortedByContents(report, report2);
  }

  lemma {:induction false} FilteredEmpty(findings: seq<Finding>, legacy: map<Bytes, Excuse>)
    ensures Filtered(findings, legacy) == [] <==> forall f :: f in findings ==> FindingKey(f) in legacy
    decreases |findings|
  {
    if findings != [] {
      assert findings == [findings[0]] + findings[1..];
      FilteredEmpty(findings[1..], legacy);
    }
  }

  /** Nothing is reported exactly when every finding is excused and every excuse is needed. */
  lemma {:induction false} CleanReport(findings: seq<Finding>, legacy: map<Bytes, Excuse>, keys: seq<Bytes>, report: seq<Finding>)
    requires Reports(findings, legacy, keys, report)
    ensures report == [] <==>
            (forall f :: f in findings ==> FindingKey(f) in legacy) &&
            forall k :: k in legacy ==> exists f :: f in findings && FindingKey(f) == k
  {
    FilteredEmpty(findings, legacy);
    assert report == [] <==> Filtered(findings, legacy) == [] && |keys| == 0;
    assert |keys| == 0 <==> forall k :: k !in keys by { if |keys| > 0 { assert keys[0] in keys; } }
    if forall k :: k in legacy ==> exists f :: f in findings && FindingKey(f) == k {
      forall k | k in legacy ensures k in Used(findings, legacy) {
        var f :| f in findings && FindingKey(f) == k;
        assert FindingKey(f) in Used(findings, legacy);
      }
    }
  }

  lemma {:induction false} LegacyNext(excuses: seq<Excuse>, i: nat)
    requires i < |excuses|
    ensures Legacy(excuses[..i + 1]) == Legacy(excuses[..i])[ExcuseKey(excuses[i]) := excuses[i]]
  {
    assert excuses[..i + 1][..i] == excuses[..i];
  }

  lemma {:induction false} FilteredNext(findings: seq<Finding>, legacy: map<Bytes, Excuse>, i: nat)
    requires i < |findings|
    ensures Filtered(findings[..i + 1], legacy) ==
            Filtered(findings[..i], legacy) + if FindingKey(findings[i]) in legacy then [] else [findings[i]]
  {
    assert findings[..i + 1] == findings[..i] + [findings[i]];
    FilteredAppend(findings[..i], [findings[i]], legacy);
    assert [findings[i]][1..] == [];
  }

  lemma {:induction false} UsedNext(findings: seq<Finding>, legacy: map<Bytes, Excuse>, i: nat)
    requires i < |findings|
    ensures Used(findings[..i + 1], legacy) ==
            Used(findings[..i], legacy) + if FindingKey(findings[i]) in legacy then {FindingKey(findings[i])} else {}
  {
    assert findings[..i + 1] == findings[..i] + [findings[i]];
  }

  /** Leaves out what the baseline excuses and adds what it excuses in vain. */
  method ApplyLegacyFindings(findings: seq<Finding>, excuses: seq<Excuse>) returns (report: seq<Finding>, ghost keys: seq<Bytes>)
    ensures Reports(findings, Legacy(excuses), keys, report)
  {
    hide FindingKey, ExcuseKey, Stale;
    var legacy: map<Bytes, Excuse>, i := map[], 0;
    assert excuses[..0] == [];
    while i < |excuses|
      invariant 0 <= i <= |excuses| && legacy == Legacy(excuses[..i])
    {
      LegacyNext(excuses, i);
      legacy := legacy[ExcuseKey(excuses[i]) := excuses[i]];
      i := i + 1;
    }
    assert excuses[..i] == excuses;
    var used: set<Bytes> := {};
    report, i := [], 0;
    assert findings[..0] == [];
    while i < |findings|
      invariant 0 <= i <= |findings| && report == Filtered(findings[..i], legacy) && used == Used(findings[..i], legacy)
    {
      FilteredNext(findings, legacy, i);
      UsedNext(findings, legacy, i);
      if FindingKey(findings[i]) in legacy {
        used := used + {FindingKey(findings[i])};
      } else {
        report := report + [findings[i]];
      }
      i := i + 1;
    }
    assert findings[..i] == findings;
    hide Filtered, Used, Legacy;
    keys := [];
    var left := legacy.Keys;
    while left != {}
      invariant left <= legacy.Keys && Distinct(keys) && forall k :: k in keys <==> k in legacy && k !in left && k !in used
      invariant report == Filtered(findings, legacy) + Stales(keys, legacy)
    {
      var key :| key in left;
      left := left - {key};
      if key !in used {
        KeysNext(keys, key, legacy);
        report := report + [Stale(legacy[key])];
        keys := keys + [key];
      }
    }
  }

  lemma {:induction false} KeysNext(keys: seq<Bytes>, key: Bytes, legacy: map<Bytes, Excuse>)
    requires Distinct(keys) && key !in keys && key in legacy && forall k :: k in keys ==> k in legacy
    ensures Distinct(keys + [key]) && (forall k :: k in keys + [key] <==> k in keys || k == key)
    ensures Stales(keys + [key], legacy) == Stales(keys, legacy) + [Stale(legacy[key])]
  {}

  /** The diagnostics of one check, in their one order. */
  method Check(findings: seq<Finding>, excuses: seq<Excuse>) returns (diagnostics: seq<Finding>)
    ensures exists keys, report :: Reports(findings, Legacy(excuses), keys, report) && diagnostics == Sort(report, Rank)
    ensures forall i, j :: 0 <= i < j < |diagnostics| ==> diagnostics[i] == diagnostics[j] || Precedes(diagnostics[i], diagnostics[j])
  {
    var report, keys := ApplyLegacyFindings(findings, excuses);
    diagnostics := Sort(report, Rank);
    SortSorts(report, Rank, 6);
    forall i, j | 0 <= i < j < |diagnostics| ensures diagnostics[i] == diagnostics[j] || Precedes(diagnostics[i], diagnostics[j]) {
      RankPrecedes(diagnostics[i], diagnostics[j]);
    }
  }
}
