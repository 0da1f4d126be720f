/**
 The compiled component catalog: which registrations it accepts, the one canonical catalog that they make in
 any order, and its lookups.
 */
module Catalogs {
  import opened Outcomes
  import opened Wire
  import opened Ordering
  import opened Definitions
  import opened Images

  /** The four recipes differ in how many texts and commands they carry and in which action they serve. */
  datatype Kind = Managed | Container | Resolver | Tunnel

  datatype Recipe = Recipe(action: Bytes, texts: seq<Bytes>, image: Image, commands: seq<seq<Bytes>>)

  datatype Registration = Registration(definition: Definition, images: seq<Image>, recipes: map<Kind, seq<Recipe>>)

  datatype Tagged<+T> = Tagged(implementation: Bytes, value: T)

  datatype Catalog = Catalog(definitions: seq<Definition>, images: seq<Tagged<Image>>, recipes: map<Kind, seq<Tagged<Recipe>>>)

  /** Field validation of images and recipes, which is not modelled: any rules will do. */
  datatype Rules = Rules(image: Image -> bool, recipe: (Kind, Recipe) -> bool)

  function TextCount(kind: Kind): nat {
    match kind case Managed => 1 case Container => 3 case Resolver => 5 case Tunnel => 2
  }

  function CommandCount(kind: Kind): nat {
    match kind case Managed => 1 case Container => 3 case Resolver => 0 case Tunnel => 0
  }

  function Serves(kind: Kind): (Bytes, Bytes) {
    match kind
    case Managed => (Ascii("managed-config"), Ascii("activate"))
    case Container => (Ascii("managed-config"), Ascii("activate"))
    case Resolver => (Ascii("host-resolution"), Ascii("observe"))
    case Tunnel => (Ascii("edge-tunnel"), Ascii("observe"))
  }

  function RecipesOf(r: Registration, kind: Kind): seq<Recipe> { if kind in r.recipes then r.recipes[kind] else [] }

  function DefinitionKey(d: Definition): Key { [d.implementation] }
  function RepositoryKey(i: Image): Key { [i.repository] }
  function ImageKey(t: Tagged<Image>): Key { [t.implementation] + [t.value.repository] }
  function RecipeKey(t: Tagged<Recipe>): Key { [t.implementation] + [t.value.action] }

  /** A recipe of this kind for an action of the definition, under one of the images it may use. */
  predicate RecipeOk(rules: Rules, kind: Kind, d: Definition, images: seq<Image>, r: Recipe) {
    var action := Linear(d.actions, ActionKey, [r.action]);
    && action.Some? && (action.value.capability, action.value.operation) == Serves(kind)
    && rules.recipe(kind, r) && rules.image(r.image) && r.image in images
    && |r.texts| == TextCount(kind) && |r.commands| == CommandCount(kind)
  }

  predicate RecipesOk(rules: Rules, r: Registration, kind: Kind, images: seq<Image>) {
    forall recipe :: recipe in RecipesOf(r, kind) ==> RecipeOk(rules, kind, r.definition, images, recipe)
  }

  predicate ImagesOk(rules: Rules, r: Registration) {
    && NewDefinition(r.definition) == Some(r.definition)
    && (forall image :: image in r.images ==> rules.image(image))
    && DistinctKeys(r.images, RepositoryKey)
  }

  predicate RegistrationOk(rules: Rules, r: Registration) {
    ImagesOk(rules, r) && forall kind :: RecipesOk(rules, r, kind, r.images)
  }

  function Tag<T>(implementation: Bytes, values: seq<T>): seq<Tagged<T>> {
    seq(|values|, i requires 0 <= i < |values| => Tagged(implementation, values[i]))
  }

  function DefinitionsOf(rs: seq<Registration>): seq<Definition> {
    seq(|rs|, i requires 0 <= i < |rs| => rs[i].definition)
  }

  function AllImages(rs: seq<Registration>): seq<Tagged<Image>> {
    if rs == [] then [] else Tag(rs[0].definition.implementation, rs[0].images) + AllImages(rs[1..])
  }

  function AllRecipes(rs: seq<Registration>, kind: Kind): seq<Tagged<Recipe>> {
    if rs == [] then [] else Tag(rs[0].definition.implementation, RecipesOf(rs[0], kind)) + AllRecipes(rs[1..], kind)
  }

  /** What the registrations must be, none of which mentions their order. */
  predicate Accepted(rules: Rules, rs: seq<Registration>) {
    && rs != []
    && (forall r :: r in rs ==> RegistrationOk(rules, r))
    && DistinctKeys(DefinitionsOf(rs), DefinitionKey)
    && forall kind :: DistinctKeys(AllRecipes(rs, kind), RecipeKey)
  }

  /** The canonical catalog of accepted registrations. */
  function Build(rules: Rules, rs: seq<Registration>): Option<Catalog> {
    if !Accepted(rules, rs) then None
    else Some(Catalog(Sort(DefinitionsOf(rs), DefinitionKey), Sort(AllImages(rs), ImageKey),
                      map[Managed := Sort(AllRecipes(rs, Managed), RecipeKey), Container := Sort(AllRecipes(rs, Container), RecipeKey),
                          Resolver := Sort(AllRecipes(rs, Resolver), RecipeKey), Tunnel := Sort(AllRecipes(rs, Tunnel), RecipeKey)]))
  }

  /** The same registration with its images and recipes in any order. */
  predicate Shuffled(a: Registration, b: Registration) {
    && a.definition == b.definition && multiset(a.images) == multiset(b.images)
    && forall kind :: multiset(RecipesOf(a, kind)) == multiset(RecipesOf(b, kind))
  }

  lemma {:induction false} TagWithout<T>(implementation: Bytes, xs: seq<T>, i: nat)
    requires i < |xs|
    ensures Tag(implementation, Without(xs, i)) == Without(Tag(implementation, xs), i)
  {}

  lemma {:induction false} TagPermutes<T>(implementation: Bytes, xs: seq<T>, ys: seq<T>)
    requires multiset(xs) == multiset(ys)
    ensures multiset(Tag(implementation, xs)) == multiset(Tag(implementation, ys))
    decreases |xs|
  {
    if xs == [] {
      EmptyArrangement(ys);
    } else {
      var i := FirstIn(xs, ys);
      TagPermutes(implementation, xs[1..], Without(ys, i));
      TagWithout(implementation, ys, i);
      WithoutCounts(Tag(implementation, ys), i);
      assert Tag(implementation, xs) == [Tagged(implementation, xs[0])] + Tag(implementation, xs[1..]);
    }
  }

  predicate ShuffledAll(a: seq<Registration>, b: seq<Registration>) {
    |a| == |b| && forall i :: 0 <= i < |a| ==> Shuffled(a[i], b[i])
  }

  lemma {:induction false} ShuffledParts(a: seq<Registration>, b: seq<Registration>)
    requires ShuffledAll(a, b)
    ensures DefinitionsOf(a) == DefinitionsOf(b)
    ensures multiset(AllImages(a)) == multiset(AllImages(b))
    ensures forall kind :: multiset(AllRecipes(a, kind)) == multiset(AllRecipes(b, kind))
    decreases |a|
  {
    if a != [] {
      assert Shuffled(a[0], b[0]);
      assert ShuffledAll(a[1..], b[1..]);
      ShuffledParts(a[1..], b[1..]);
      TagPermutes(a[0].definition.implementation, a[0].images, b[0].images);
      forall kind ensures multiset(AllRecipes(a, kind)) == multiset(AllRecipes(b, kind)) {
        TagPermutes(a[0].definition.implementation, RecipesOf(a[0], kind), RecipesOf(b[0], kind));
      }
    }
  }

  lemma {:induction false} MultisetMember<T>(xs: seq<T>, ys: seq<T>, x: T)
    requires multiset(xs) == multiset(ys)
    ensures x in xs <==> x in ys
  {
    assert x in xs <==> x in multiset(xs);
    assert x in ys <==> x in multiset(ys);
  }

  lemma {:induction false} ShuffledOk(rules: Rules, a: Registration, b: Registration)
    requires Shuffled(a, b) && RegistrationOk(rules, a)
    ensures RegistrationOk(rules, b)
  {
    DistinctPermutes(a.images, b.images, RepositoryKey);
    forall image ensures image in b.images <==> image in a.images { MultisetMember(a.images, b.images, image); }
    forall kind, recipe | recipe in RecipesOf(b, kind) ensures RecipeOk(rules, kind, b.definition, b.images, recipe) {
      MultisetMember(RecipesOf(a, kind), RecipesOf(b, kind), recipe);
      assert RecipesOk(rules, a, kind, a.images);
    }
  }

  lemma {:induction false} MovedDefinitions(a: seq<Registration>, b: seq<Registration>, i: nat)
    requires a != [] && i < |b| && b[i] == a[0]
    requires multiset(DefinitionsOf(a[1..])) == multiset(DefinitionsOf(Without(b, i)))
    ensures multiset(DefinitionsOf(a)) == multiset(DefinitionsOf(b))
  {
    assert DefinitionsOf(a) == [a[0].definition] + DefinitionsOf(a[1..]);
    assert DefinitionsOf(Without(b, i)) == Without(DefinitionsOf(b), i);
    WithoutCounts(DefinitionsOf(b), i);
  }

  lemma {:induction false} MovedParts(a: seq<Registration>, b: seq<Registration>)
    requires multiset(a) == multiset(b)
    ensures multiset(DefinitionsOf(a)) == multiset(DefinitionsOf(b))
    ensures multiset(AllImages(a)) == multiset(AllImages(b))
    ensures forall kind :: multiset(AllRecipes(a, kind)) == multiset(AllRecipes(b, kind))
    decreases |a|
  {
    if a == [] {
      EmptyArrangement(b);
    } else {
      var i := FirstIn(a, b);
      MovedParts(a[1..], Without(b, i));
      MovedDefinitions(a, b, i);
      MovedImages(b, i);
      forall kind ensures multiset(AllRecipes(a, kind)) == multiset(AllRecipes(b, kind)) { MovedRecipes(b, i, kind); }
    }
  }

  lemma {:induction false} MovedImages(b: seq<Registration>, i: nat)
    requires i < |b|
    ensures multiset(AllImages(b)) ==
            multiset(Tag(b[i].definition.implementation, b[i].images)) + multiset(AllImages(Without(b, i)))
    decreases i
  {
    if i == 0 {
      assert Without(b, 0) == b[1..];
    } else {
      var rest := Without(b, i);
      assert rest[1..] == Without(b[1..], i - 1) && rest[0] == b[0];
      MovedImages(b[1..], i - 1);
    }
  }

  lemma {:induction false} MovedRecipes(b: seq<Registration>, i: nat, kind: Kind)
    requires i < |b|
    ensures multiset(AllRecipes(b, kind)) ==
            multiset(Tag(b[i].definition.implementation, RecipesOf(b[i], kind))) + multiset(AllRecipes(Without(b, i), kind))
    decreases i
  {
    if i == 0 {
      assert Without(b, 0) == b[1..];
    } else {
      var rest := Without(b, i);
      assert rest[1..] == Without(b[1..], i - 1) && rest[0] == b[0];
      MovedRecipes(b[1..], i - 1, kind);
    }
  }

  lemma {:induction false} ImageTags(rs: seq<Registration>, t: Tagged<Image>)
    ensures t in AllImages(rs) <==> exists r :: r in rs && r.definition.implementation == t.implementation && t.value in r.images
    decreases |rs|
  {
    if rs != [] {
      ImageTags(rs[1..], t);
      var first := Tag(rs[0].definition.implementation, rs[0].images);
      if t in first { var i :| 0 <= i < |first| && first[i] == t; assert t.value == rs[0].images[i]; }
      if rs[0].definition.implementation == t.implementation && t.value in rs[0].images {
        var i :| 0 <= i < |rs[0].images| && rs[0].images[i] == t.value;
        assert first[i] == t;
      }
      if exists r :: r in rs && r.definition.implementation == t.implementation && t.value in r.images {
        var r :| r in rs && r.definition.implementation == t.implementation && t.value in r.images;
        assert rs == [rs[0]] + rs[1..];
      }
    }
  }

  lemma {:induction false} FirstImagesApart(rs: seq<Registration>, t: Tagged<Image>)
    requires rs != [] && DistinctKeys(DefinitionsOf(rs), DefinitionKey) && t in AllImages(rs[1..])
    ensures t.implementation != rs[0].definition.implementation
  {
    ImageTags(rs[1..], t);
    var r :| r in rs[1..] && r.definition.implementation == t.implementation && t.value in r.images;
    var n :| 0 <= n < |rs[1..]| && rs[1..][n] == r;
    assert DefinitionKey(DefinitionsOf(rs)[0]) != DefinitionKey(DefinitionsOf(rs)[n + 1]);
  }

  /** With distinct implementations an image repeats under none of them. */
  lemma {:induction false} ImagesDistinct(rules: Rules, rs: seq<Registration>)
    requires DistinctKeys(DefinitionsOf(rs), DefinitionKey) && forall r :: r in rs ==> ImagesOk(rules, r)
    ensures DistinctKeys(AllImages(rs), ImageKey)
    decreases |rs|
  {
    if rs != [] {
      var first, rest := Tag(rs[0].definition.implementation, rs[0].images), AllImages(rs[1..]);
      assert forall i :: 0 <= i < |DefinitionsOf(rs[1..])| ==> DefinitionsOf(rs[1..])[i] == DefinitionsOf(rs)[i + 1];
      ImagesDistinct(rules, rs[1..]);
      assert rs[0] in rs;
      var all := AllImages(rs);
      assert all == first + rest;
      forall i, j | 0 <= i < j < |all| ensures ImageKey(all[i]) != ImageKey(all[j]) {
        if j < |first| {
          assert RepositoryKey(rs[0].images[i]) != RepositoryKey(rs[0].images[j]);
          assert ImageKey(all[i])[1] != ImageKey(all[j])[1];
        } else if i < |first| {
          assert all[j] == rest[j - |first|] && all[j] in rest;
          FirstImagesApart(rs, all[j]);
          assert ImageKey(all[i])[0] != ImageKey(all[j])[0];
        } else {
          assert all[i] == rest[i - |first|] && all[j] == rest[j - |first|];
        }
      }
    }
  }

  lemma {:induction false} RecipesSort(a: seq<Registration>, b: seq<Registration>, kind: Kind)
    requires multiset(AllRecipes(a, kind)) == multiset(AllRecipes(b, kind)) && DistinctKeys(AllRecipes(a, kind), RecipeKey)
    ensures DistinctKeys(AllRecipes(b, kind), RecipeKey)
    ensures Sort(AllRecipes(a, kind), RecipeKey) == Sort(AllRecipes(b, kind), RecipeKey)
  {
    DistinctPermutes(AllRecipes(a, kind), AllRecipes(b, kind), RecipeKey);
    SortPermutes(AllRecipes(a, kind), AllRecipes(b, kind), RecipeKey, 2);
  }

  lemma {:induction false} PartsSort(rules: Rules, a: seq<Registration>, b: seq<Registration>)
    requires Accepted(rules, a)
    requires multiset(DefinitionsOf(a)) == multiset(DefinitionsOf(b)) && multiset(AllImages(a)) == multiset(AllImages(b))
    requires forall kind :: multiset(AllRecipes(a, kind)) == multiset(AllRecipes(b, kind))
    requires b != [] && forall r :: r in b ==> RegistrationOk(rules, r)
    ensures Accepted(rules, b) && Build(rules, a) == Build(rules, b)
  {
    hide RegistrationOk;
    SortPermutes(DefinitionsOf(a), DefinitionsOf(b), DefinitionKey, 1);
    DistinctPermutes(DefinitionsOf(a), DefinitionsOf(b), DefinitionKey);
    forall r | r in a ensures ImagesOk(rules, r) { OkImages(rules, r); }
    ImagesDistinct(rules, a);
    SortPermutes(AllImages(a), AllImages(b), ImageKey, 2);
    forall kind
      ensures DistinctKeys(AllRecipes(b, kind), RecipeKey)
      ensures Sort(AllRecipes(a, kind), RecipeKey) == Sort(AllRecipes(b, kind), RecipeKey)
    {
      RecipesSort(a, b, kind);
    }
  }

  lemma {:induction false} OkImages(rules: Rules, r: Registration)
    requires RegistrationOk(rules, r)
    ensures ImagesOk(rules, r)
  {}

  lemma {:induction false} AcceptedMoves(rules: Rules, a: seq<Registration>, shuffled: seq<Registration>, b: seq<Registration>)
    requires Accepted(rules, a) && ShuffledAll(a, shuffled) && multiset(shuffled) == multiset(b)
    ensures Accepted(rules, b) && Build(rules, a) == Build(rules, b)
  {
    ShuffledParts(a, shuffled);
    MovedParts(shuffled, b);
    assert |multiset(shuffled)| == |shuffled| && |multiset(b)| == |b|;
    forall r | r in b ensures RegistrationOk(rules, r) {
      MultisetMember(shuffled, b, r);
      var i :| 0 <= i < |shuffled| && shuffled[i] == r;
      assert a[i] in a && Shuffled(a[i], shuffled[i]);
      ShuffledOk(rules, a[i], r);
    }
    PartsSort(rules, a, b);
  }

  lemma {:induction false} ShuffledWithout(a: seq<Registration>, b: seq<Registration>, i: nat)
    requires ShuffledAll(a, b) && i < |a|
    ensures ShuffledAll(Without(a, i), Without(b, i))
  {
    forall n | 0 <= n < |Without(a, i)| ensures Shuffled(Without(a, i)[n], Without(b, i)[n]) {
      assert Shuffled(a[if n < i then n else n + 1], b[if n < i then n else n + 1]);
    }
  }

  /** The way back: shuffle each registration first, then move it. */
  lemma {:induction false} MoveBack(b: seq<Registration>, shuffled: seq<Registration>, a: seq<Registration>)
    returns (moved: seq<Registration>)
    requires ShuffledAll(a, shuffled) && multiset(shuffled) == multiset(b)
    ensures ShuffledAll(b, moved) && multiset(moved) == multiset(a)
    decreases |b|
  {
    hide Shuffled;
    if b == [] {
      EmptyArrangement(shuffled);
      moved := [];
    } else {
      var i := FirstIn(b, shuffled);
      ShuffledWithout(a, shuffled, i);
      var rest := MoveBack(b[1..], Without(shuffled, i), Without(a, i));
      assert Shuffled(a[i], shuffled[i]);
      ShuffledBack(a[i], b[0]);
      moved := [a[i]] + rest;
      WithoutCounts(a, i);
      forall n | 0 <= n < |b| ensures Shuffled(b[n], moved[n]) {
        if n > 0 { assert Shuffled(b[1..][n - 1], rest[n - 1]); }
      }
    }
  }

  lemma {:induction false} ShuffledBack(a: Registration, b: Registration)
    requires Shuffled(a, b)
    ensures Shuffled(b, a)
  {}

  /**
   Registrations are accepted, and make the same catalog, in whatever order they come and in whatever order
   each lists its images and recipes.
   */
  lemma {:induction false} OrderIndependent(rules: Rules, a: seq<Registration>, shuffled: seq<Registration>, b: seq<Registration>)
    requires ShuffledAll(a, shuffled) && multiset(shuffled) == multiset(b)
    ensures Build(rules, a) == Build(rules, b)
  {
    if Accepted(rules, a) {
      AcceptedMoves(rules, a, shuffled, b);
    } else if Accepted(rules, b) {
      var moved := MoveBack(b, shuffled, a);
      AcceptedMoves(rules, b, moved, a);
    }
  }
}
