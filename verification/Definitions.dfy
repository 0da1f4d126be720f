/** Component definitions: their canonical form, their encoding, and the lookup of an action. */
module Definitions {
  import opened Outcomes
  import opened Wire
  import opened Ordering

  datatype Grant = Grant(capability: Bytes, operations: seq<Bytes>)

  datatype Action = Action(id: Bytes, capability: Bytes, operation: Bytes)

  datatype Definition = Definition(
    implementation: Bytes,
    variant: Bytes,
    provided: seq<Bytes>,
    grants: seq<Grant>,
    scopes: seq<Bytes>,
    actions: seq<Action>)

  const CAPABILITIES := [
    Ascii("services"), Ascii("routes"), Ascii("volumes"), Ascii("secrets"), Ascii("scripts"), Ascii("backups"),
    Ascii("networks"), Ascii("entries"), Ascii("tasks"), Ascii("http-router"), Ascii("edge-tunnel"),
    Ascii("dns-resolver"), Ascii("managed-config"), Ascii("host-resolution"), Ascii("host-trust")]

  const OPERATIONS := [
    Ascii("list"), Ascii("read"), Ascii("create"), Ascii("edit"), Ascii("remove"), Ascii("run"), Ascii("bind"),
    Ascii("configure"), Ascii("activate"), Ascii("observe"), Ascii("materialize")]

  const SCOPES := [Ascii("environment"), Ascii("platform")]

  /** A lowercase token of at most 64 bytes, without a leading digit, a double dash or a trailing dash. */
  predicate Token(t: Bytes) {
    && 0 < |t| <= 64 && 'a' as int <= t[0] <= 'z' as int && t[|t| - 1] != '-' as int
    && forall i :: 0 <= i < |t| ==>
         || 'a' as int <= t[i] <= 'z' as int || '0' as int <= t[i] <= '9' as int
         || (t[i] == '-' as int && (i > 0 ==> t[i - 1] != '-' as int))
  }

  function Whole(t: Bytes): Key { [t] }
  function CapabilityKey(g: Grant): Key { [g.capability] }
  function ActionKey(a: Action): Key { [a.id] }

  predicate Listed(ts: seq<Bytes>, known: seq<Bytes>) {
    (forall t :: t in ts ==> t in known) && DistinctKeys(ts, Whole)
  }

  predicate GrantOk(g: Grant) { g.capability in CAPABILITIES && g.operations != [] && Listed(g.operations, OPERATIONS) }

  predicate ActionOk(a: Action) { Token(a.id) && a.capability in CAPABILITIES && a.operation in OPERATIONS }

  predicate Acceptable(d: Definition) {
    && Token(d.implementation) && Token(d.variant)
    && d.provided != [] && Listed(d.provided, CAPABILITIES)
    && d.scopes != [] && Listed(d.scopes, SCOPES)
    && (forall g :: g in d.grants ==> GrantOk(g)) && DistinctKeys(d.grants, CapabilityKey)
    && (forall a :: a in d.actions ==> ActionOk(a)) && DistinctKeys(d.actions, ActionKey)
  }

  function SortGrant(g: Grant): Grant { g.(operations := Sort(g.operations, Whole)) }

  function SortGrants(gs: seq<Grant>): seq<Grant> { seq(|gs|, i requires 0 <= i < |gs| => SortGrant(gs[i])) }

  /** The definition that a builder returns: every list sorted, or none. */
  function NewDefinition(d: Definition): Option<Definition> {
    if !Acceptable(d) then None
    else Some(Definition(d.implementation, d.variant, Sort(d.provided, Whole), SortGrants(Sort(d.grants, CapabilityKey)),
                         Sort(d.scopes, Whole), Sort(d.actions, ActionKey)))
  }

  lemma {:induction false} SortIsStable<T>(xs: seq<T>, key: T -> Key, width: nat)
    requires Uniform(xs, key, width) && StrictlyAscending(xs, key)
    ensures Sort(xs, key) == xs
    decreases |xs|
  {
    if xs != [] {
      assert forall i :: 0 <= i < |xs[1..]| ==> xs[1..][i] == xs[i + 1];
      SortIsStable(xs[1..], key, width);
      assert xs == [xs[0]] + xs[1..];
      if |xs| > 1 {
        assert xs[0] in xs && xs[1] in xs;
        KeyOrder(key(xs[0]), key(xs[1]));
      }
    }
  }

  /** Sorting a valid list of names keeps it valid and is final. */
  lemma {:induction false} ListedSorts(ts: seq<Bytes>, known: seq<Bytes>)
    requires Listed(ts, known)
    ensures var sorted := Sort(ts, Whole);
      Listed(sorted, known) && Sort(sorted, Whole) == sorted && (ts != [] ==> sorted != [])
  {
    var sorted := Sort(ts, Whole);
    SortSorts(ts, Whole, 1);
    DistinctPermutes(ts, sorted, Whole);
    AscendingDistinct(sorted, Whole);
    SortIsStable(sorted, Whole, 1);
    forall t | t in sorted ensures t in known { assert t in multiset(sorted) && t in multiset(ts); }
    assert |multiset(ts)| == |ts| && |multiset(sorted)| == |sorted|;
  }

  lemma {:induction false} GrantSorts(g: Grant)
    requires GrantOk(g)
    ensures GrantOk(SortGrant(g)) && SortGrant(SortGrant(g)) == SortGrant(g)
  {
    ListedSorts(g.operations, OPERATIONS);
  }

  lemma {:induction false} GrantsSort(gs: seq<Grant>)
    requires (forall g :: g in gs ==> GrantOk(g)) && DistinctKeys(gs, CapabilityKey)
    ensures var sorted := SortGrants(Sort(gs, CapabilityKey));
      && (forall g :: g in sorted ==> GrantOk(g)) && DistinctKeys(sorted, CapabilityKey)
      && SortGrants(Sort(sorted, CapabilityKey)) == sorted
  {
    var arranged := Sort(gs, CapabilityKey);
    var sorted := SortGrants(arranged);
    SortSorts(gs, CapabilityKey, 1);
    DistinctPermutes(gs, arranged, CapabilityKey);
    AscendingDistinct(arranged, CapabilityKey);
    forall i | 0 <= i < |arranged| ensures GrantOk(arranged[i]) && GrantOk(sorted[i]) && SortGrant(sorted[i]) == sorted[i] {
      assert arranged[i] in multiset(arranged) && arranged[i] in multiset(gs);
      GrantSorts(arranged[i]);
    }
    assert StrictlyAscending(sorted, CapabilityKey);
    SortIsStable(sorted, CapabilityKey, 1);
    forall i, j | 0 <= i < j < |sorted| ensures CapabilityKey(sorted[i]) != CapabilityKey(sorted[j]) {
      assert CapabilityKey(arranged[i]) != CapabilityKey(arranged[j]);
    }
  }

  /** A built definition is canonical: validating it rebuilds exactly it. */
  lemma {:induction false} BuiltValidates(d: Definition)
    requires NewDefinition(d).Some?
    ensures NewDefinition(NewDefinition(d).value) == NewDefinition(d)
  {
    ListedSorts(d.provided, CAPABILITIES);
    ListedSorts(d.scopes, SCOPES);
    GrantsSort(d.grants);
    var actions := Sort(d.actions, ActionKey);
    SortSorts(d.actions, ActionKey, 1);
    DistinctPermutes(d.actions, actions, ActionKey);
    AscendingDistinct(actions, ActionKey);
    SortIsStable(actions, ActionKey, 1);
    forall a | a in actions ensures ActionOk(a) { assert a in multiset(actions) && a in multiset(d.actions); }
  }

  lemma {:induction false} ListedPermutes(ts: seq<Bytes>, us: seq<Bytes>, known: seq<Bytes>)
    requires multiset(ts) == multiset(us) && Listed(ts, known)
    ensures Listed(us, known) && Sort(ts, Whole) == Sort(us, Whole) && (ts != [] ==> us != [])
  {
    DistinctPermutes(ts, us, Whole);
    SortPermutes(ts, us, Whole, 1);
    forall t | t in us ensures t in known { assert t in multiset(us) && t in multiset(ts); }
    if ts != [] { assert ts[0] in multiset(ts) && ts[0] in multiset(us); }
  }

  /** The order in which a definition lists its parts decides nothing. */
  lemma {:induction false} DefinitionOrderIndependent(d: Definition, e: Definition)
    requires d.implementation == e.implementation && d.variant == e.variant
    requires multiset(d.provided) == multiset(e.provided) && multiset(d.grants) == multiset(e.grants)
    requires multiset(d.scopes) == multiset(e.scopes) && multiset(d.actions) == multiset(e.actions)
    ensures NewDefinition(d) == NewDefinition(e)
  {
    if Acceptable(d) {
      DefinitionPermutes(d, e);
    } else if Acceptable(e) {
      DefinitionPermutes(e, d);
    }
  }

  lemma {:induction false} DefinitionPermutes(d: Definition, e: Definition)
    requires Acceptable(d) && d.implementation == e.implementation && d.variant == e.variant
    requires multiset(d.provided) == multiset(e.provided) && multiset(d.grants) == multiset(e.grants)
    requires multiset(d.scopes) == multiset(e.scopes) && multiset(d.actions) == multiset(e.actions)
    ensures Acceptable(e) && NewDefinition(d) == NewDefinition(e)
  {
    ListedPermutes(d.provided, e.provided, CAPABILITIES);
    ListedPermutes(d.scopes, e.scopes, SCOPES);
    DistinctPermutes(d.grants, e.grants, CapabilityKey);
    SortPermutes(d.grants, e.grants, CapabilityKey, 1);
    DistinctPermutes(d.actions, e.actions, ActionKey);
    SortPermutes(d.actions, e.actions, ActionKey, 1);
    forall g | g in e.grants ensures GrantOk(g) { assert g in multiset(e.grants) && g in multiset(d.grants); }
    forall a | a in e.actions ensures ActionOk(a) { assert a in multiset(e.actions) && a in multiset(d.actions); }
  }

  function GrantNode(g: Grant): Node { Pair(Text(g.capability), Texts(g.operations)) }

  function ActionNode(a: Action): Node { Pair(Text(a.id), Pair(Text(a.capability), Text(a.operation))) }

  const DEFINITION_TAG := Ascii("groundplane-component-definition-v1")

  function DefinitionNode(d: Definition): Node {
    Pair(Text(DEFINITION_TAG), Pair(Text(d.implementation), Pair(Text(d.variant), Pair(Texts(d.provided),
      Pair(GrantNodes(d), Pair(Texts(d.scopes), ActionNodes(d)))))))
  }

  function GrantNodes(d: Definition): Node {
    Many(ManyOf(d.grants, GrantNode))
  }

  function ActionNodes(d: Definition): Node {
    Many(ManyOf(d.actions, ActionNode))
  }

  const DEFINITION_SCHEMA := PairS(TextS, PairS(TextS, PairS(TextS, PairS(ManyS(TextS),
    PairS(ManyS(GRANT_SCHEMA), PairS(ManyS(TextS), ManyS(ACTION_SCHEMA)))))))

  /** The bytes whose hash is the definition's digest. */
  function DefinitionBytes(d: Definition): Bytes { Encode(Word, DefinitionNode(d)) }

  predicate Short(ts: seq<Bytes>) { |ts| < WORD && forall t :: t in ts ==> |t| < WORD }

  /** Every count of the definition fits 32 bits. */
  predicate Sized(d: Definition) {
    && |d.implementation| < WORD && |d.variant| < WORD && Short(d.provided) && Short(d.scopes)
    && |d.grants| < WORD && (forall g :: g in d.grants ==> |g.capability| < WORD && Short(g.operations))
    && |d.actions| < WORD && (forall a :: a in d.actions ==> |a.id| < WORD && |a.capability| < WORD && |a.operation| < WORD)
  }

  const GRANT_SCHEMA := PairS(TextS, ManyS(TextS))
  const ACTION_SCHEMA := PairS(TextS, PairS(TextS, TextS))

  lemma {:induction false} PartsConform(d: Definition)
    requires Sized(d)
    ensures Conforms(Word, GrantNodes(d), ManyS(GRANT_SCHEMA)) && Conforms(Word, ActionNodes(d), ManyS(ACTION_SCHEMA))
  {
    forall i | 0 <= i < |d.grants| ensures Conforms(Word, GrantNode(d.grants[i]), GRANT_SCHEMA) {
      assert d.grants[i] in d.grants;
      TextsConform(Word, d.grants[i].operations);
    }
    forall i | 0 <= i < |d.actions| ensures Conforms(Word, ActionNode(d.actions[i]), ACTION_SCHEMA) {
      assert d.actions[i] in d.actions;
    }
  }

  lemma {:induction false} DefinitionConforms(d: Definition)
    requires Sized(d)
    ensures Conforms(Word, DefinitionNode(d), DEFINITION_SCHEMA)
  {
    PartsConform(d);
    TextsConform(Word, d.provided);
    TextsConform(Word, d.scopes);
    var g, a := ManyS(GRANT_SCHEMA), ManyS(ACTION_SCHEMA);
    var scopes := Pair(Texts(d.scopes), ActionNodes(d));
    Prepend(Word, Texts(d.scopes), ActionNodes(d), ManyS(TextS), a);
    var grants := Pair(GrantNodes(d), scopes);
    Prepend(Word, GrantNodes(d), scopes, g, PairS(ManyS(TextS), a));
    var provided := Pair(Texts(d.provided), grants);
    var rest := PairS(ManyS(TextS), PairS(g, PairS(ManyS(TextS), a)));
    Prepend(Word, Texts(d.provided), grants, ManyS(TextS), PairS(g, PairS(ManyS(TextS), a)));
    Prepend(Word, Text(d.variant), provided, TextS, rest);
    Prepend(Word, Text(d.implementation), Pair(Text(d.variant), provided), TextS, PairS(TextS, rest));
    Prepend(Word, Text(DEFINITION_TAG), Pair(Text(d.implementation), Pair(Text(d.variant), provided)), TextS,
            PairS(TextS, PairS(TextS, rest)));
  }

  lemma {:induction false} NodeInjective(d: Definition, e: Definition)
    requires DefinitionNode(d) == DefinitionNode(e)
    ensures d == e
  {
    TextsInjective(d.provided, e.provided);
    TextsInjective(d.scopes, e.scopes);
    assert GrantNodes(d) == GrantNodes(e) && ActionNodes(d) == ActionNodes(e);
    assert |GrantNodes(d).items| == |GrantNodes(e).items| && |ActionNodes(d).items| == |ActionNodes(e).items|;
    forall i | 0 <= i < |d.grants| ensures d.grants[i] == e.grants[i] {
      assert GrantNodes(d).items[i] == GrantNodes(e).items[i];
      TextsInjective(d.grants[i].operations, e.grants[i].operations);
    }
    forall i | 0 <= i < |d.actions| ensures d.actions[i] == e.actions[i] {
      assert ActionNodes(d).items[i] == ActionNodes(e).items[i];
    }
  }

  /** Distinct definitions have distinct bytes. */
  lemma {:induction false} DefinitionBytesInjective(d: Definition, e: Definition)
    requires Sized(d) && Sized(e) && DefinitionBytes(d) == DefinitionBytes(e)
    ensures d == e
  {
    DefinitionConforms(d);
    DefinitionConforms(e);
    EncodePrefixFree(Word, DefinitionNode(d), DefinitionNode(e), DEFINITION_SCHEMA, [], []);
    NodeInjective(d, e);
  }

  /** Binary search over the sorted actions. */
  method FindAction(d: Definition, id: Bytes) returns (action: Option<Action>)
    requires NewDefinition(d) == Some(d)
    ensures action == Linear(d.actions, ActionKey, [id])
  {
    SortSorts(d.actions, ActionKey, 1);
    AscendingDistinct(d.actions, ActionKey);
    action := Find(d.actions, ActionKey, [id], 1);
  }

  method AppendGrants(encoded: Bytes, d: Definition) returns (r: Bytes)
    ensures r == encoded + Encode(Word, GrantNodes(d))
  {
    hide Count;
    hide Encode;
    r := encoded + Count(Word, |d.grants|);
    ghost var nodes := GrantNodes(d).items;
    var i := 0;
    while i < |d.grants|
      invariant 0 <= i <= |d.grants|
      invariant r == encoded + (Count(Word, |d.grants|) + EncodeAll(Word, nodes[..i]))
    {
      r := AppendText(Word, r, d.grants[i].capability);
      r := AppendTexts(Word, r, d.grants[i].operations);
      EncodePair(Word, Text(d.grants[i].capability), Texts(d.grants[i].operations));
      EncodeNext(Word, nodes, i);
      i := i + 1;
    }
    assert nodes[..|d.grants|] == nodes;
    EncodeMany(Word, nodes);
  }

  method AppendActions(encoded: Bytes, d: Definition) returns (r: Bytes)
    ensures r == encoded + Encode(Word, ActionNodes(d))
  {
    hide Count;
    hide Encode;
    r := encoded + Count(Word, |d.actions|);
    ghost var nodes := ActionNodes(d).items;
    var i := 0;
    while i < |d.actions|
      invariant 0 <= i <= |d.actions|
      invariant r == encoded + (Count(Word, |d.actions|) + EncodeAll(Word, nodes[..i]))
    {
      var a := d.actions[i];
      r := AppendText(Word, r, a.id);
      r := AppendText(Word, r, a.capability);
      r := AppendText(Word, r, a.operation);
      EncodePair(Word, Text(a.capability), Text(a.operation));
      EncodePair(Word, Text(a.id), Pair(Text(a.capability), Text(a.operation)));
      EncodeNext(Word, nodes, i);
      i := i + 1;
    }
    assert nodes[..|d.actions|] == nodes;
    EncodeMany(Word, nodes);
  }

  /** Grows the bytes of a definition field by field. */
  method WriteDefinition(d: Definition) returns (encoded: Bytes)
    ensures encoded == DefinitionBytes(d)
  {
    hide Encode;
    encoded := AppendText(Word, [], DEFINITION_TAG);
    encoded := AppendText(Word, encoded, d.implementation);
    encoded := AppendText(Word, encoded, d.variant);
    encoded := AppendTexts(Word, encoded, d.provided);
    encoded := AppendGrants(encoded, d);
    encoded := AppendTexts(Word, encoded, d.scopes);
    encoded := AppendActions(encoded, d);
    DefinitionFields(d);
  }

  lemma {:induction false} DefinitionFields(d: Definition)
    ensures DefinitionBytes(d) ==
      [] + Encode(Word, Text(DEFINITION_TAG)) + Encode(Word, Text(d.implementation)) + Encode(Word, Text(d.variant)) +
      Encode(Word, Texts(d.provided)) + Encode(Word, GrantNodes(d)) + Encode(Word, Texts(d.scopes)) + Encode(Word, ActionNodes(d))
  {
    hide Encode;
    var scopes := Pair(Texts(d.scopes), ActionNodes(d));
    var grants := Pair(GrantNodes(d), scopes);
    var provided := Pair(Texts(d.provided), grants);
    var variant := Pair(Text(d.variant), provided);
    EncodePair(Word, Texts(d.scopes), ActionNodes(d));
    EncodePair(Word, GrantNodes(d), scopes);
    EncodePair(Word, Texts(d.provided), grants);
    EncodePair(Word, Text(d.variant), provided);
    EncodePair(Word, Text(d.implementation), variant);
    EncodePair(Word, Text(DEFINITION_TAG), Pair(Text(d.implementation), variant));
  }
}
