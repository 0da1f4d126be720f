/** Building a catalog registration by registration, and looking things up in it by halving. */
module CatalogBuilder {
  import opened Outcomes
  import opened Wire
  import opened Ordering
  import opened Definitions
  import opened Images
  import opened Catalogs
  import opened CatalogDigest

  predicate Matches(images: seq<Tagged<Image>>, implementation: Bytes, image: Image) {
    Tagged(implementation, image) in images
  }

  /** The builder's check, against every image registered so far. */
  predicate RecipeFits(rules: Rules, kind: Kind, d: Definition, images: seq<Tagged<Image>>, r: Recipe) {
    var action := Linear(d.actions, ActionKey, [r.action]);
    && action.Some? && (action.value.capability, action.value.operation) == Serves(kind)
    && rules.recipe(kind, r) && rules.image(r.image) && Matches(images, d.implementation, r.image)
    && |r.texts| == TextCount(kind) && |r.commands| == CommandCount(kind)
  }

  predicate RecipesFit(rules: Rules, r: Registration, kind: Kind, images: seq<Tagged<Image>>) {
    forall recipe :: recipe in RecipesOf(r, kind) ==> RecipeFits(rules, kind, r.definition, images, recipe)
  }

  lemma {:induction false} ImagesSnoc(rs: seq<Registration>, r: Registration)
    ensures AllImages(rs + [r]) == AllImages(rs) + Tag(r.definition.implementation, r.images)
    decreases |rs|
  {
    if rs == [] {
      assert (rs + [r])[1..] == [];
    } else {
      assert (rs + [r])[1..] == rs[1..] + [r];
      ImagesSnoc(rs[1..], r);
    }
  }

  lemma {:induction false} RecipesSnoc(rs: seq<Registration>, r: Registration, kind: Kind)
    ensures AllRecipes(rs + [r], kind) == AllRecipes(rs, kind) + Tag(r.definition.implementation, RecipesOf(r, kind))
    decreases |rs|
  {
    if rs == [] {
      assert (rs + [r])[1..] == [];
    } else {
      assert (rs + [r])[1..] == rs[1..] + [r];
      RecipesSnoc(rs[1..], r, kind);
    }
  }

  method RegisterImages(rules: Rules, r: Registration) returns (ok: bool, images: seq<Tagged<Image>>)
    ensures ok <==> (forall image :: image in r.images ==> rules.image(image)) && DistinctKeys(r.images, RepositoryKey)
    ensures ok ==> images == Tag(r.definition.implementation, r.images)
  {
    images := [];
    var seen: set<Bytes> := {};
    var i := 0;
    while i < |r.images|
      invariant 0 <= i <= |r.images|
      invariant images == Tag(r.definition.implementation, r.images[..i])
      invariant seen == set j | 0 <= j < i :: r.images[j].repository
      invariant forall j :: 0 <= j < i ==> rules.image(r.images[j])
      invariant DistinctKeys(r.images[..i], RepositoryKey)
    {
      if !rules.image(r.images[i]) {
        assert r.images[i] in r.images;
        return false, images;
      }
      if r.images[i].repository in seen {
        var j :| 0 <= j < i && r.images[j].repository == r.images[i].repository;
        assert RepositoryKey(r.images[j]) == RepositoryKey(r.images[i]);
        return false, images;
      }
      forall j | 0 <= j < i ensures RepositoryKey(r.images[j]) != RepositoryKey(r.images[i]) {
        assert r.images[j].repository in seen;
        assert RepositoryKey(r.images[j])[0] != RepositoryKey(r.images[i])[0];
      }
      seen := seen + {r.images[i].repository};
      images := images + [Tagged(r.definition.implementation, r.images[i])];
      i := i + 1;
    }
    assert r.images[..i] == r.images;
    ok := true;
  }

  method RegisterRecipes(rules: Rules, r: Registration, kind: Kind, images: seq<Tagged<Image>>)
    returns (ok: bool, recipes: seq<Tagged<Recipe>>)
    ensures ok <==> RecipesFit(rules, r, kind, images)
    ensures ok ==> recipes == Tag(r.definition.implementation, RecipesOf(r, kind))
  {
    var own := RecipesOf(r, kind);
    recipes := [];
    var i := 0;
    while i < |own|
      invariant 0 <= i <= |own|
      invariant recipes == Tag(r.definition.implementation, own[..i])
      invariant forall j :: 0 <= j < i ==> RecipeFits(rules, kind, r.definition, images, own[j])
    {
      if !RecipeFits(rules, kind, r.definition, images, own[i]) {
        assert own[i] in own;
        return false, recipes;
      }
      recipes := recipes + [Tagged(r.definition.implementation, own[i])];
      i := i + 1;
    }
    assert own[..i] == own;
    ok := true;
  }

  /** Sorts and refuses equal neighbours. */
  method SortDistinct<T>(xs: seq<T>, key: T -> Key, ghost width: nat) returns (distinct: bool, sorted: seq<T>)
    requires Uniform(xs, key, width)
    ensures sorted == Sort(xs, key) && distinct == DistinctKeys(xs, key)
  {
    sorted := Sort(xs, key);
    SortSorts(xs, key, width);
    NeighboursDecide(sorted, key, width);
    if DistinctKeys(xs, key) { DistinctPermutes(xs, sorted, key); }
    if DistinctKeys(sorted, key) { DistinctPermutes(sorted, xs, key); }
    var i := 1;
    while i < |sorted|
      invariant 1 <= i
      invariant forall j :: 0 < j < i && j < |sorted| ==> key(sorted[j]) != key(sorted[j - 1])
    {
      if key(sorted[i]) == key(sorted[i - 1]) {
        return false, sorted;
      }
      i := i + 1;
    }
    distinct := true;
  }

  /** An image registered so far under an implementation is the registration's own, when implementations are distinct. */
  lemma {:induction false} OwnImage(rs: seq<Registration>, i: nat, j: nat, image: Image)
    requires i < |rs| && i < j <= |rs| && DistinctKeys(DefinitionsOf(rs), DefinitionKey)
    ensures Matches(AllImages(rs[..j]), rs[i].definition.implementation, image) <==> image in rs[i].images
  {
    ImageTags(rs[..j], Tagged(rs[i].definition.implementation, image));
    assert rs[..j][i] == rs[i];
    if Matches(AllImages(rs[..j]), rs[i].definition.implementation, image) {
      var r :| r in rs[..j] && r.definition.implementation == rs[i].definition.implementation && image in r.images;
      var n :| 0 <= n < j && rs[n] == r;
      assert DefinitionKey(DefinitionsOf(rs)[n]) == DefinitionKey(DefinitionsOf(rs)[i]);
    }
  }

  lemma {:induction false} FitsIsOk(rules: Rules, rs: seq<Registration>, i: nat, j: nat, kind: Kind)
    requires i < j <= |rs| && DistinctKeys(DefinitionsOf(rs), DefinitionKey)
    ensures RecipesFit(rules, rs[i], kind, AllImages(rs[..j])) <==> RecipesOk(rules, rs[i], kind, rs[i].images)
  {
    hide DistinctKeys;
    hide Matches;
    forall recipe | recipe in RecipesOf(rs[i], kind)
      ensures RecipeFits(rules, kind, rs[i].definition, AllImages(rs[..j]), recipe) <==>
              RecipeOk(rules, kind, rs[i].definition, rs[i].images, recipe)
    {
      OwnImage(rs, i, j, recipe.image);
    }
  }

  /** A recipe that fits no image registered so far fits none of its own. */
  lemma {:induction false} UnfitIsNotOk(rules: Rules, rs: seq<Registration>, i: nat, j: nat, kind: Kind)
    requires i < j <= |rs| && !RecipesFit(rules, rs[i], kind, AllImages(rs[..j]))
    ensures !RegistrationOk(rules, rs[i])
  {
    var recipe :| recipe in RecipesOf(rs[i], kind) && !RecipeFits(rules, kind, rs[i].definition, AllImages(rs[..j]), recipe);
    ImageTags(rs[..j], Tagged(rs[i].definition.implementation, recipe.image));
    assert rs[..j][i] == rs[i];
    assert !RecipeOk(rules, kind, rs[i].definition, rs[i].images, recipe);
    assert !RecipesOk(rules, rs[i], kind, rs[i].images);
  }

  /** One pass over the registrations for one kind of recipe. */
  method CollectRecipes(rules: Rules, rs: seq<Registration>, kind: Kind) returns (ok: bool, recipes: seq<Tagged<Recipe>>)
    ensures ok <==> forall i :: 0 <= i < |rs| ==> RecipesFit(rules, rs[i], kind, AllImages(rs))
    ensures ok ==> recipes == AllRecipes(rs, kind)
  {
    recipes := [];
    var images := AllImages(rs);
    var i := 0;
    while i < |rs|
      invariant 0 <= i <= |rs|
      invariant recipes == AllRecipes(rs[..i], kind)
      invariant forall j :: 0 <= j < i ==> RecipesFit(rules, rs[j], kind, images)
    {
      var more;
      ok, more := RegisterRecipes(rules, rs[i], kind, images);
      if !ok {
        return;
      }
      assert rs[..i + 1] == rs[..i] + [rs[i]];
      RecipesSnoc(rs[..i], rs[i], kind);
      recipes := recipes + more;
      i := i + 1;
    }
    assert rs[..i] == rs;
    ok := true;
  }

  /** One registration: its images join those registered so far before its recipes are checked against them. */
  method Register(rules: Rules, r: Registration, images: seq<Tagged<Image>>)
    returns (ok: bool, all: seq<Tagged<Image>>, ms: seq<Tagged<Recipe>>, cs: seq<Tagged<Recipe>>, os: seq<Tagged<Recipe>>)
    ensures var own := images + Tag(r.definition.implementation, r.images);
      && (ok <==> ImagesOk(rules, r) && RecipesFit(rules, r, Managed, own) && RecipesFit(rules, r, Container, own) &&
                  RecipesFit(rules, r, Resolver, own))
      && (ok ==> all == own && ms == Tag(r.definition.implementation, RecipesOf(r, Managed)) &&
                 cs == Tag(r.definition.implementation, RecipesOf(r, Container)) &&
                 os == Tag(r.definition.implementation, RecipesOf(r, Resolver)))
  {
    hide RecipesFit;
    all, ms, cs, os := images, [], [], [];
    if NewDefinition(r.definition) != Some(r.definition) {
      ok := false;
      return;
    }
    var more;
    ok, more := RegisterImages(rules, r);
    if !ok {
      return;
    }
    all := images + more;
    ok, ms := RegisterRecipes(rules, r, Managed, all);
    if !ok {
      return;
    }
    ok, cs := RegisterRecipes(rules, r, Container, all);
    if !ok {
      return;
    }
    ok, os := RegisterRecipes(rules, r, Resolver, all);
  }

  /** A registration that the builder refuses is refused in any order. */
  lemma {:induction false} RefusedIsNotOk(rules: Rules, rs: seq<Registration>, i: nat)
    requires i < |rs| && !Checked(rules, rs, i)
    ensures !RegistrationOk(rules, rs[i])
  {
    hide RegistrationOk;
    hide RecipesFit;
    if !ImagesOk(rules, rs[i]) {
      BadImages(rules, rs[i]);
    } else if !RecipesFit(rules, rs[i], Managed, AllImages(rs[..i + 1])) {
      UnfitIsNotOk(rules, rs, i, i + 1, Managed);
    } else if !RecipesFit(rules, rs[i], Container, AllImages(rs[..i + 1])) {
      UnfitIsNotOk(rules, rs, i, i + 1, Container);
    } else {
      UnfitIsNotOk(rules, rs, i, i + 1, Resolver);
    }
  }

  /** The first pass: definitions, images, and the recipes that are checked as they come. */
  method Collect(rules: Rules, rs: seq<Registration>)
    returns (ok: bool, definitions: seq<Definition>, images: seq<Tagged<Image>>, managed: seq<Tagged<Recipe>>,
             container: seq<Tagged<Recipe>>, resolver: seq<Tagged<Recipe>>)
    ensures !ok ==> exists r :: r in rs && !RegistrationOk(rules, r)
    ensures ok ==> definitions == DefinitionsOf(rs) && images == AllImages(rs)
    ensures ok ==> managed == AllRecipes(rs, Managed) && container == AllRecipes(rs, Container) && resolver == AllRecipes(rs, Resolver)
    ensures ok ==> forall i :: 0 <= i < |rs| ==> Checked(rules, rs, i)
  {
    definitions, images, managed, container, resolver := [], [], [], [], [];
    ok := true;
    var i := 0;
    while i < |rs|
      invariant 0 <= i <= |rs|
      invariant definitions == DefinitionsOf(rs[..i]) && images == AllImages(rs[..i])
      invariant managed == AllRecipes(rs[..i], Managed) && container == AllRecipes(rs[..i], Container)
      invariant resolver == AllRecipes(rs[..i], Resolver)
      invariant forall j :: 0 <= j < i ==> Checked(rules, rs, j)
    {
      hide RegistrationOk;
      hide RecipesFit;
      hide AllImages;
      hide AllRecipes;
      hide ImagesOk;
      var r := rs[i];
      assert rs[..i + 1] == rs[..i] + [r];
      definitions := definitions + [r.definition];
      ImagesSnoc(rs[..i], r);
      RecipesSnoc(rs[..i], r, Managed);
      RecipesSnoc(rs[..i], r, Container);
      RecipesSnoc(rs[..i], r, Resolver);
      var ms, cs, os;
      ok, images, ms, cs, os := Register(rules, r, images);
      if !ok {
        RefusedIsNotOk(rules, rs, i);
        assert r in rs;
        return;
      }
      managed, container, resolver := managed + ms, container + cs, resolver + os;
      i := i + 1;
    }
    assert rs[..i] == rs;
  }

  predicate Checked(rules: Rules, rs: seq<Registration>, i: nat)
    requires i < |rs|
  {
    && ImagesOk(rules, rs[i])
    && RecipesFit(rules, rs[i], Managed, AllImages(rs[..i + 1]))
    && RecipesFit(rules, rs[i], Container, AllImages(rs[..i + 1]))
    && RecipesFit(rules, rs[i], Resolver, AllImages(rs[..i + 1]))
  }

  lemma {:induction false} BadImages(rules: Rules, r: Registration)
    requires !ImagesOk(rules, r)
    ensures !RegistrationOk(rules, r)
  {}

  lemma {:induction false} CheckedIsOk(rules: Rules, rs: seq<Registration>, i: nat)
    requires i < |rs| && DistinctKeys(DefinitionsOf(rs), DefinitionKey)
    requires Checked(rules, rs, i) && RecipesFit(rules, rs[i], Tunnel, AllImages(rs))
    ensures RegistrationOk(rules, rs[i])
  {
    FitsIsOk(rules, rs, i, i + 1, Managed);
    FitsIsOk(rules, rs, i, i + 1, Container);
    FitsIsOk(rules, rs, i, i + 1, Resolver);
    FitsIsOk(rules, rs, i, |rs|, Tunnel);
    assert rs[..|rs|] == rs;
    forall kind ensures RecipesOk(rules, rs[i], kind, rs[i].images) {
      match kind
      case Managed =>
      case Container =>
      case Resolver =>
      case Tunnel =>
    }
  }

  /** The catalog of the registrations, or none. */
  method NewRegistered(rules: Rules, rs: seq<Registration>) returns (catalog: Option<Catalog>)
    ensures catalog == Build(rules, rs)
  {
    hide RegistrationOk;
    hide RecipesFit;
    hide Checked;
    if rs == [] {
      return None;
    }
    var ok, definitions, images, managed, container, resolver := Collect(rules, rs);
    if !ok {
      return None;
    }
    var distinct;
    distinct, definitions := SortDistinct(definitions, DefinitionKey, 1);
    if !distinct {
      return None;
    }
    images := Sort(images, ImageKey);
    distinct, managed := SortDistinct(managed, RecipeKey, 2);
    if !distinct {
      return None;
    }
    distinct, container := SortDistinct(container, RecipeKey, 2);
    if !distinct {
      return None;
    }
    distinct, resolver := SortDistinct(resolver, RecipeKey, 2);
    if !distinct {
      return None;
    }
    var tunnel;
    ok, tunnel := CollectRecipes(rules, rs, Tunnel);
    if !ok {
      var i :| 0 <= i < |rs| && !RecipesFit(rules, rs[i], Tunnel, AllImages(rs));
      assert rs[..|rs|] == rs;
      UnfitIsNotOk(rules, rs, i, |rs|, Tunnel);
      assert rs[i] in rs;
      return None;
    }
    distinct, tunnel := SortDistinct(tunnel, RecipeKey, 2);
    if !distinct {
      return None;
    }
    forall r | r in rs ensures RegistrationOk(rules, r) {
      var i :| 0 <= i < |rs| && rs[i] == r;
      CheckedIsOk(rules, rs, i);
    }
    AllDistinct(rs);
    catalog := Some(Catalog(definitions, images,
                                    map[Managed := managed, Container := container, Resolver := resolver, Tunnel := tunnel]));
  }

  lemma {:induction false} AllDistinct(rs: seq<Registration>)
    requires DistinctKeys(AllRecipes(rs, Managed), RecipeKey) && DistinctKeys(AllRecipes(rs, Container), RecipeKey)
    requires DistinctKeys(AllRecipes(rs, Resolver), RecipeKey) && DistinctKeys(AllRecipes(rs, Tunnel), RecipeKey)
    ensures forall kind :: DistinctKeys(AllRecipes(rs, kind), RecipeKey)
  {
    forall kind ensures DistinctKeys(AllRecipes(rs, kind), RecipeKey) {
      match kind
      case Managed =>
      case Container =>
      case Resolver =>
      case Tunnel =>
    }
  }

  /** The definition of an implementation, by halving. */
  method FindDefinition(ghost rules: Rules, ghost rs: seq<Registration>, c: Catalog, implementation: Bytes) returns (d: Option<Definition>)
    requires Build(rules, rs) == Some(c)
    ensures d == Linear(c.definitions, DefinitionKey, [implementation])
  {
    BuiltCanonical(rules, rs, c);
    d := Find(c.definitions, DefinitionKey, [implementation], 1);
  }

  /** The recipe of one kind for an implementation's action, by halving. */
  method ResolveRecipe(ghost rules: Rules, ghost rs: seq<Registration>, c: Catalog, kind: Kind, implementation: Bytes, action: Bytes)
    returns (r: Option<Tagged<Recipe>>)
    requires Build(rules, rs) == Some(c)
    ensures kind in c.recipes && r == Linear(c.recipes[kind], RecipeKey, [implementation] + [action])
  {
    BuiltCanonical(rules, rs, c);
    r := Find(c.recipes[kind], RecipeKey, [implementation] + [action], 2);
  }
}
