/** Which of a package's types are interfaces: those declared so, and those that name one, through any chain. */
module LocalInterfaces {
  import opened Wire

  type Name = Bytes

  /** A type expression, as far as the resolution looks at it. */
  datatype Expression = Interface | Identifier(name: Name) | Index(of: Expression) | IndexList(of: Expression) | Elsewise

  type Types = map<Name, Expression>

  /** An interface, or the name of one of these. */
  predicate IsInterface(e: Expression, interfaces: set<Name>) {
    match e
    case Interface => true
    case Identifier(name) => name in interfaces
    case Index(of) => IsInterface(of, interfaces)
    case IndexList(of) => IsInterface(of, interfaces)
    case Elsewise => false
  }

  /** Every type that is an interface by these is one of these. */
  ghost predicate Closed(types: Types, interfaces: set<Name>) {
    forall n :: n in types && IsInterface(types[n], interfaces) ==> n in interfaces
  }

  /** The smallest closed set around what is known at first. */
  ghost predicate Least(types: Types, known: set<Name>, interfaces: set<Name>) {
    && known <= interfaces && Closed(types, interfaces)
    && forall s: set<Name> :: known <= s && Closed(types, s) ==> interfaces <= s
  }

  lemma {:induction false} Monotone(e: Expression, s: set<Name>, t: set<Name>)
    requires s <= t && IsInterface(e, s)
    ensures IsInterface(e, t)
    decreases e
  {
    if e.Index? || e.IndexList? { Monotone(e.of, s, t); }
  }

  /** A chain of names that leads to an interface in this many steps. */
  predicate Leads(types: Types, known: set<Name>, n: Name, steps: nat) {
    n in known || (n in types && Ends(types, known, types[n], steps))
  }

  predicate Ends(types: Types, known: set<Name>, e: Expression, steps: nat)
    decreases steps, e
  {
    match e
    case Interface => true
    case Identifier(name) => name in known || (steps > 0 && name in types && Ends(types, known, types[name], steps - 1))
    case Index(of) => Ends(types, known, of, steps)
    case IndexList(of) => Ends(types, known, of, steps)
    case Elsewise => false
  }

  lemma {:induction false} EndsIsClosed(types: Types, known: set<Name>, e: Expression, steps: nat, s: set<Name>)
    requires known <= s && Closed(types, s) && Ends(types, known, e, steps)
    ensures IsInterface(e, s)
    decreases steps, e
  {
    if e.Index? || e.IndexList? {
      EndsIsClosed(types, known, e.of, steps, s);
    } else if e.Identifier? && e.name !in known {
      EndsIsClosed(types, known, types[e.name], steps - 1, s);
    }
  }

  /** What some chain reaches, in any number of steps. */
  ghost predicate Reached(types: Types, known: set<Name>, n: Name) {
    exists steps: nat :: Leads(types, known, n, steps)
  }

  lemma {:induction false} ReachedEnds(types: Types, known: set<Name>, e: Expression, s: set<Name>) returns (steps: nat)
    requires IsInterface(e, s) && forall n :: n in s ==> Reached(types, known, n)
    ensures Ends(types, known, e, steps)
    decreases e
  {
    match e
    case Interface => steps := 0;
    case Index(of) => steps := ReachedEnds(types, known, of, s);
    case IndexList(of) => steps := ReachedEnds(types, known, of, s);
    case Identifier(name) =>
      var k: nat :| Leads(types, known, name, k);
      steps := k + 1;
  }

  /** The least set is what the chains reach; a cycle of names reaches nothing. */
  lemma {:induction false} LeastIsReached(types: Types, known: set<Name>, interfaces: set<Name>, n: Name)
    requires Least(types, known, interfaces)
    ensures n in interfaces <==> Reached(types, known, n)
  {
    if Reached(types, known, n) {
      var steps: nat :| Leads(types, known, n, steps);
      if n !in known { EndsIsClosed(types, known, types[n], steps, interfaces); }
    }
    if n in interfaces {
      var reached := set m | m in interfaces && Reached(types, known, m);
      forall m | m in types && IsInterface(types[m], reached) ensures m in reached {
        Monotone(types[m], reached, interfaces);
        var steps := ReachedEnds(types, known, types[m], reached);
        assert Leads(types, known, m, steps);
      }
      forall m | m in known ensures m in reached { assert Leads(types, known, m, 0); }
      assert Closed(types, reached);
    }
  }

  /** Names that only name each other around a cycle are no interfaces. */
  lemma {:induction false} CyclesAreNone(types: Types, cycle: set<Name>, interfaces: set<Name>, n: Name)
    requires Least(types, {}, interfaces) && n in cycle
    requires forall m :: m in cycle ==> m in types && types[m].Identifier? && types[m].name in cycle
    ensures n !in interfaces
  {
    var rest := interfaces - cycle;
    forall m | m in types && IsInterface(types[m], rest) ensures m in rest { Monotone(types[m], rest, interfaces); }
    assert Closed(types, rest);
  }

  /** Adds names until nothing changes, whatever order each round visits them in. */
  method ResolveLocalInterfaces(types: Types, known: set<Name>) returns (interfaces: set<Name>)
    ensures Least(types, known, interfaces)
  {
    interfaces := known;
    var changed := true;
    while changed
      invariant known <= interfaces && forall s: set<Name> :: known <= s && Closed(types, s) ==> interfaces <= s
      invariant changed || Closed(types, interfaces)
      decreases types.Keys - interfaces, changed
    {
      changed := false;
      ghost var before := interfaces;
      var left := types.Keys;
      while left != {}
        invariant left <= types.Keys && before <= interfaces
        invariant known <= interfaces && forall s: set<Name> :: known <= s && Closed(types, s) ==> interfaces <= s
        invariant if changed then types.Keys - interfaces < types.Keys - before else interfaces == before
        invariant !changed ==> forall n :: n in types && n !in left && IsInterface(types[n], interfaces) ==> n in interfaces
      {
        var name :| name in left;
        left := left - {name};
        if name !in interfaces && IsInterface(types[name], interfaces) {
          forall s: set<Name> | known <= s && Closed(types, s) ensures name in s { Monotone(types[name], interfaces, s); }
          assert name in types.Keys - before;
          interfaces := interfaces + {name};
          changed := true;
        }
      }
    }
  }
}
