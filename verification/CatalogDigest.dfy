/**
 The bytes whose hash is the catalog's digest. Three recipe kinds write only the repository of their image;
 the image is still determined, because an implementation registers each repository once.
 */
module CatalogDigest {
  import opened Outcomes
  import opened Wire
  import opened Ordering
  import opened Definitions
  import opened Images
  import opened Catalogs

  /** Texts one after another, without a count. */
  function Row(ts: seq<Bytes>): Node { if ts == [] then Fixed([]) else Pair(Text(ts[0]), Row(ts[1..])) }

  function Commands(cs: seq<seq<Bytes>>): Node { if cs == [] then Fixed([]) else Pair(Texts(cs[0]), Commands(cs[1..])) }

  /** Only a tunnel recipe writes its whole image. */
  function RecipeImage(kind: Kind, image: Image): Node { if kind.Tunnel? then ImageNode(image) else Text(image.repository) }

  function RecipeNode(kind: Kind, t: Tagged<Recipe>): Node {
    Pair(Text(t.implementation), Pair(Text(t.value.action), Pair(Row(t.value.texts),
      Pair(RecipeImage(kind, t.value.image), Commands(t.value.commands)))))
  }

  function RecipeNodes(kind: Kind, ts: seq<Tagged<Recipe>>): Node {
    Many(ManyOf(ts, t => RecipeNode(kind, t)))
  }

  function TaggedImageNode(t: Tagged<Image>): Node { Pair(Text(t.implementation), ImageNode(t.value)) }

  function ImageNodes(ts: seq<Tagged<Image>>): Node {
    Many(ManyOf(ts, TaggedImageNode))
  }

  function EntryNode(hash: Bytes -> Bytes, d: Definition): Node {
    Pair(Text(d.implementation), Fixed(hash(DefinitionBytes(d))))
  }

  function EntryNodes(hash: Bytes -> Bytes, ds: seq<Definition>): Node {
    Many(ManyOf(ds, d => EntryNode(hash, d)))
  }

  const CATALOG_TAG := Ascii("groundplane-component-catalog-v15")

  predicate AllKinds(c: Catalog) { Managed in c.recipes && Container in c.recipes && Resolver in c.recipes && Tunnel in c.recipes }

  function CatalogNode(hash: Bytes -> Bytes, c: Catalog): Node
    requires AllKinds(c)
  {
    Pair(Text(CATALOG_TAG), Pair(EntryNodes(hash, c.definitions), Pair(ImageNodes(c.images),
      Pair(RecipeNodes(Managed, c.recipes[Managed]), Pair(RecipeNodes(Container, c.recipes[Container]),
        Pair(RecipeNodes(Resolver, c.recipes[Resolver]), RecipeNodes(Tunnel, c.recipes[Tunnel])))))))
  }

  function CatalogBytes(hash: Bytes -> Bytes, c: Catalog): Bytes
    requires AllKinds(c)
  {
    Encode(Word, CatalogNode(hash, c))
  }

  function RowSchema(n: nat): Schema { if n == 0 then FixedS(0) else PairS(TextS, RowSchema(n - 1)) }
  function CommandsSchema(n: nat): Schema { if n == 0 then FixedS(0) else PairS(ManyS(TextS), CommandsSchema(n - 1)) }

  function RecipeSchema(kind: Kind): Schema {
    PairS(TextS, PairS(TextS, PairS(RowSchema(TextCount(kind)),
      PairS(if kind.Tunnel? then IMAGE_SCHEMA else TextS, CommandsSchema(CommandCount(kind))))))
  }

  const DIGEST_SIZE := 32

  const CATALOG_SCHEMA := PairS(TextS, PairS(ManyS(PairS(TextS, FixedS(DIGEST_SIZE))), PairS(ManyS(PairS(TextS, IMAGE_SCHEMA)),
    PairS(ManyS(RecipeSchema(Managed)), PairS(ManyS(RecipeSchema(Container)), PairS(ManyS(RecipeSchema(Resolver)), ManyS(RecipeSchema(Tunnel))))))))

  /** Every count fits 32 bits. */
  predicate SizedRecipe(t: Tagged<Recipe>) {
    && |t.implementation| < WORD && |t.value.action| < WORD && (forall x :: x in t.value.texts ==> |x| < WORD)
    && SizedImage(Word, t.value.image) && forall c :: c in t.value.commands ==> Short(c)
  }

  predicate SizedRecipes(ts: seq<Tagged<Recipe>>) { |ts| < WORD && forall t :: t in ts ==> SizedRecipe(t) }

  predicate SizedCatalog(c: Catalog) {
    && AllKinds(c)
    && |c.definitions| < WORD && (forall d :: d in c.definitions ==> Sized(d))
    && |c.images| < WORD && (forall t :: t in c.images ==> |t.implementation| < WORD && SizedImage(Word, t.value))
    && forall kind :: kind in c.recipes ==> SizedRecipes(c.recipes[kind])
  }

  /** What building leaves of a recipe: the fields of its kind, and an image registered under its implementation. */
  predicate Registered(c: Catalog, kind: Kind, t: Tagged<Recipe>) {
    && |t.value.texts| == TextCount(kind) && |t.value.commands| == CommandCount(kind)
    && Tagged(t.implementation, t.value.image) in c.images
  }

  /** A catalog as building leaves it. */
  predicate Canonical(c: Catalog) {
    && c.recipes.Keys == {Managed, Container, Resolver, Tunnel}
    && StrictlyAscending(c.images, ImageKey)
    && forall kind, t :: kind in c.recipes && t in c.recipes[kind] ==> Registered(c, kind, t)
  }

  lemma {:induction false} RowConforms(ts: seq<Bytes>)
    requires forall t :: t in ts ==> |t| < WORD
    ensures Conforms(Word, Row(ts), RowSchema(|ts|))
    decreases |ts|
  {
    if ts != [] {
      assert ts[0] in ts;
      RowConforms(ts[1..]);
    }
  }

  lemma {:induction false} CommandsConform(cs: seq<seq<Bytes>>)
    requires forall c :: c in cs ==> Short(c)
    ensures Conforms(Word, Commands(cs), CommandsSchema(|cs|))
    decreases |cs|
  {
    if cs != [] {
      assert cs[0] in cs;
      TextsConform(Word, cs[0]);
      CommandsConform(cs[1..]);
    }
  }

  lemma {:induction false} RecipeConforms(kind: Kind, t: Tagged<Recipe>)
    requires SizedRecipe(t) && |t.value.texts| == TextCount(kind) && |t.value.commands| == CommandCount(kind)
    ensures Conforms(Word, RecipeNode(kind, t), RecipeSchema(kind))
  {
    hide RowSchema;
    hide CommandsSchema;
    hide Row;
    hide Commands;
    hide ImageNode;
    var r := t.value;
    RowConforms(r.texts);
    CommandsConform(r.commands);
    ImageConforms(Word, r.image);
    var image := if kind.Tunnel? then IMAGE_SCHEMA else TextS;
    var commands := CommandsSchema(CommandCount(kind));
    var tail := Pair(RecipeImage(kind, r.image), Commands(r.commands));
    Prepend(Word, RecipeImage(kind, r.image), Commands(r.commands), image, commands);
    Prepend(Word, Row(r.texts), tail, RowSchema(TextCount(kind)), PairS(image, commands));
    var fields := PairS(RowSchema(TextCount(kind)), PairS(image, commands));
    Prepend(Word, Text(r.action), Pair(Row(r.texts), tail), TextS, fields);
    Prepend(Word, Text(t.implementation), Pair(Text(r.action), Pair(Row(r.texts), tail)), TextS, PairS(TextS, fields));
  }

  lemma {:induction false} RecipesConform(kind: Kind, ts: seq<Tagged<Recipe>>)
    requires SizedRecipes(ts)
    requires forall t :: t in ts ==> |t.value.texts| == TextCount(kind) && |t.value.commands| == CommandCount(kind)
    ensures Conforms(Word, RecipeNodes(kind, ts), ManyS(RecipeSchema(kind)))
  {
    hide RecipeSchema;
    hide SizedRecipe;
    forall i | 0 <= i < |ts| ensures Conforms(Word, RecipeNode(kind, ts[i]), RecipeSchema(kind)) {
      assert ts[i] in ts;
      RecipeConforms(kind, ts[i]);
    }
  }

  lemma {:induction false} HeadConforms(hash: Bytes -> Bytes, c: Catalog)
    requires SizedCatalog(c) && forall d :: d in c.definitions ==> |hash(DefinitionBytes(d))| == DIGEST_SIZE
    ensures Conforms(Word, EntryNodes(hash, c.definitions), ManyS(PairS(TextS, FixedS(DIGEST_SIZE))))
    ensures Conforms(Word, ImageNodes(c.images), ManyS(PairS(TextS, IMAGE_SCHEMA)))
  {
    hide SizedImage;
    hide ImageNode;
    forall i | 0 <= i < |c.definitions|
      ensures Conforms(Word, EntryNode(hash, c.definitions[i]), PairS(TextS, FixedS(DIGEST_SIZE)))
    {
      assert c.definitions[i] in c.definitions;
    }
    forall i | 0 <= i < |c.images| ensures Conforms(Word, TaggedImageNode(c.images[i]), PairS(TextS, IMAGE_SCHEMA)) {
      assert c.images[i] in c.images;
      ImageConforms(Word, c.images[i].value);
    }
  }

  lemma {:induction false} CatalogConforms(hash: Bytes -> Bytes, c: Catalog)
    requires SizedCatalog(c) && Canonical(c) && forall d :: d in c.definitions ==> |hash(DefinitionBytes(d))| == DIGEST_SIZE
    ensures Conforms(Word, CatalogNode(hash, c), CATALOG_SCHEMA)
  {
    hide RecipeSchema;
    hide RecipeNodes;
    hide EntryNodes;
    hide ImageNodes;
    HeadConforms(hash, c);
    forall kind | kind in c.recipes ensures Conforms(Word, RecipeNodes(kind, c.recipes[kind]), ManyS(RecipeSchema(kind))) {
      RecipesConform(kind, c.recipes[kind]);
    }
    var m, n := RecipeNodes(Managed, c.recipes[Managed]), RecipeNodes(Container, c.recipes[Container]);
    var o, p := RecipeNodes(Resolver, c.recipes[Resolver]), RecipeNodes(Tunnel, c.recipes[Tunnel]);
    var ms, ns := ManyS(RecipeSchema(Managed)), ManyS(RecipeSchema(Container));
    var os, ps := ManyS(RecipeSchema(Resolver)), ManyS(RecipeSchema(Tunnel));
    Prepend(Word, o, p, os, ps);
    Prepend(Word, n, Pair(o, p), ns, PairS(os, ps));
    Prepend(Word, m, Pair(n, Pair(o, p)), ms, PairS(ns, PairS(os, ps)));
    var rest := Pair(m, Pair(n, Pair(o, p)));
    var restS := PairS(ms, PairS(ns, PairS(os, ps)));
    Prepend(Word, ImageNodes(c.images), rest, ManyS(PairS(TextS, IMAGE_SCHEMA)), restS);
    var imagesS := PairS(ManyS(PairS(TextS, IMAGE_SCHEMA)), restS);
    Prepend(Word, EntryNodes(hash, c.definitions), Pair(ImageNodes(c.images), rest), ManyS(PairS(TextS, FixedS(DIGEST_SIZE))), imagesS);
    Prepend(Word, Text(CATALOG_TAG), Pair(EntryNodes(hash, c.definitions), Pair(ImageNodes(c.images), rest)), TextS,
            PairS(ManyS(PairS(TextS, FixedS(DIGEST_SIZE))), imagesS));
  }

  lemma {:induction false} ImageInjective(a: Image, b: Image)
    requires ImageNode(a) == ImageNode(b)
    ensures a == b
  {
    ImageReads(a);
    ImageReads(b);
  }

  lemma {:induction false} RowInjective(a: seq<Bytes>, b: seq<Bytes>)
    requires |a| == |b| && Row(a) == Row(b)
    ensures a == b
    decreases |a|
  {
    if a != [] {
      RowInjective(a[1..], b[1..]);
      assert a == [a[0]] + a[1..] && b == [b[0]] + b[1..];
    }
  }

  lemma {:induction false} CommandsInjective(a: seq<seq<Bytes>>, b: seq<seq<Bytes>>)
    requires |a| == |b| && Commands(a) == Commands(b)
    ensures a == b
    decreases |a|
  {
    if a != [] {
      TextsInjective(a[0], b[0]);
      CommandsInjective(a[1..], b[1..]);
      assert a == [a[0]] + a[1..] && b == [b[0]] + b[1..];
    }
  }

  lemma {:induction false} ImagesInjective(a: seq<Tagged<Image>>, b: seq<Tagged<Image>>)
    requires ImageNodes(a) == ImageNodes(b)
    ensures a == b
  {
    hide ImageNode;
    assert |ImageNodes(a).items| == |ImageNodes(b).items|;
    forall i | 0 <= i < |a| ensures a[i] == b[i] {
      assert ImageNodes(a).items[i] == ImageNodes(b).items[i];
      ImageInjective(a[i].value, b[i].value);
    }
  }

  /** One implementation has one image of a repository. */
  lemma {:induction false} RepositoryDecides(c: Catalog, implementation: Bytes, a: Image, b: Image)
    requires StrictlyAscending(c.images, ImageKey) && a.repository == b.repository
    requires Tagged(implementation, a) in c.images && Tagged(implementation, b) in c.images
    ensures a == b
  {
    var i :| 0 <= i < |c.images| && c.images[i] == Tagged(implementation, a);
    var j :| 0 <= j < |c.images| && c.images[j] == Tagged(implementation, b);
    KeyOrder(ImageKey(c.images[i]), ImageKey(c.images[j]));
  }

  lemma {:induction false} RecipeInjective(c: Catalog, d: Catalog, kind: Kind, a: Tagged<Recipe>, b: Tagged<Recipe>)
    requires StrictlyAscending(c.images, ImageKey) && c.images == d.images
    requires Registered(c, kind, a) && Registered(d, kind, b) && RecipeNode(kind, a) == RecipeNode(kind, b)
    ensures a == b
  {
    hide StrictlyAscending;
    hide Row;
    hide Commands;
    RowInjective(a.value.texts, b.value.texts);
    CommandsInjective(a.value.commands, b.value.commands);
    RepositoryDecides(c, a.implementation, a.value.image, b.value.image);
  }

  lemma {:induction false} RecipesInjective(c: Catalog, d: Catalog, kind: Kind)
    requires Canonical(c) && Canonical(d) && c.images == d.images && kind in c.recipes && kind in d.recipes
    requires RecipeNodes(kind, c.recipes[kind]) == RecipeNodes(kind, d.recipes[kind])
    ensures c.recipes[kind] == d.recipes[kind]
  {
    hide RecipeNode;
    hide Registered;
    hide StrictlyAscending;
    var a, b := c.recipes[kind], d.recipes[kind];
    assert |RecipeNodes(kind, a).items| == |RecipeNodes(kind, b).items|;
    forall i | 0 <= i < |a| ensures a[i] == b[i] {
      assert RecipeNodes(kind, a).items[i] == RecipeNodes(kind, b).items[i];
      assert a[i] in a && b[i] in b;
      RecipeInjective(c, d, kind, a[i], b[i]);
    }
  }

  /** The hash separates the definitions at hand. */
  predicate Separates(hash: Bytes -> Bytes, a: seq<Definition>, b: seq<Definition>) {
    && (forall d :: d in a ==> |hash(DefinitionBytes(d))| == DIGEST_SIZE)
    && (forall d :: d in b ==> |hash(DefinitionBytes(d))| == DIGEST_SIZE)
    && forall d, e :: d in a && e in b && hash(DefinitionBytes(d)) == hash(DefinitionBytes(e)) ==> DefinitionBytes(d) == DefinitionBytes(e)
  }

  lemma {:induction false} EntriesInjective(hash: Bytes -> Bytes, a: seq<Definition>, b: seq<Definition>)
    requires EntryNodes(hash, a) == EntryNodes(hash, b) && Separates(hash, a, b)
    requires (forall d :: d in a ==> Sized(d)) && forall d :: d in b ==> Sized(d)
    ensures a == b
  {
    hide DefinitionBytes;
    assert |EntryNodes(hash, a).items| == |EntryNodes(hash, b).items|;
    forall i | 0 <= i < |a| ensures a[i] == b[i] {
      assert EntryNodes(hash, a).items[i] == EntryNodes(hash, b).items[i];
      assert a[i] in a && b[i] in b;
      DefinitionBytesInjective(a[i], b[i]);
    }
  }

  /** Distinct catalogs have distinct bytes, whenever the hash separates their definitions. */
  lemma {:induction false} CatalogBytesInjective(hash: Bytes -> Bytes, c: Catalog, d: Catalog)
    requires SizedCatalog(c) && SizedCatalog(d) && Canonical(c) && Canonical(d)
    requires Separates(hash, c.definitions, d.definitions) && CatalogBytes(hash, c) == CatalogBytes(hash, d)
    ensures c == d
  {
    hide EntryNodes;
    hide ImageNodes;
    hide RecipeNodes;
    CatalogConforms(hash, c);
    CatalogConforms(hash, d);
    EncodePrefixFree(Word, CatalogNode(hash, c), CatalogNode(hash, d), CATALOG_SCHEMA, [], []);
    EntriesInjective(hash, c.definitions, d.definitions);
    ImagesInjective(c.images, d.images);
    RecipesInjective(c, d, Managed);
    RecipesInjective(c, d, Container);
    RecipesInjective(c, d, Resolver);
    RecipesInjective(c, d, Tunnel);
    assert c.recipes == d.recipes;
  }

  lemma {:induction false} RecipeTags(rs: seq<Registration>, kind: Kind, t: Tagged<Recipe>)
    requires t in AllRecipes(rs, kind)
    ensures exists r :: r in rs && r.definition.implementation == t.implementation && t.value in RecipesOf(r, kind)
    decreases |rs|
  {
    var own := Tag(rs[0].definition.implementation, RecipesOf(rs[0], kind));
    if t in own {
      var i :| 0 <= i < |own| && own[i] == t;
      assert t.value == RecipesOf(rs[0], kind)[i] && rs[0] in rs;
    } else {
      RecipeTags(rs[1..], kind, t);
      var r :| r in rs[1..] && r.definition.implementation == t.implementation && t.value in RecipesOf(r, kind);
      assert r in rs;
    }
  }

  /** Building leaves each kind's recipes as sorted, and the images. */
  lemma {:induction false} BuiltLists(rules: Rules, rs: seq<Registration>, c: Catalog, kind: Kind)
    requires Build(rules, rs) == Some(c)
    ensures Accepted(rules, rs) && c.images == Sort(AllImages(rs), ImageKey)
    ensures kind in c.recipes && c.recipes[kind] == Sort(AllRecipes(rs, kind), RecipeKey)
  {
    hide Sort, AllRecipes, AllImages, Accepted;
  }

  lemma {:induction false} AcceptedRecipe(rules: Rules, r: Registration, kind: Kind, recipe: Recipe)
    requires RegistrationOk(rules, r) && recipe in RecipesOf(r, kind)
    ensures RecipeOk(rules, kind, r.definition, r.images, recipe)
  {
    hide RecipeOk, ImagesOk;
    assert RecipesOk(rules, r, kind, r.images);
  }

  /** The registration that a recipe of the catalog came with. */
  lemma {:induction false} RecipeSource(rules: Rules, rs: seq<Registration>, c: Catalog, kind: Kind, t: Tagged<Recipe>) returns (r: Registration)
    requires Build(rules, rs) == Some(c) && kind in c.recipes && t in c.recipes[kind]
    ensures r in rs && r.definition.implementation == t.implementation && RecipeOk(rules, kind, r.definition, r.images, t.value)
  {
    hide RecipeOk, RegistrationOk, Build, Sort, AllRecipes, RecipesOf;
    BuiltLists(rules, rs, c, kind);
    SortSorts(AllRecipes(rs, kind), RecipeKey, 2);
    MultisetMember(c.recipes[kind], AllRecipes(rs, kind), t);
    RecipeTags(rs, kind, t);
    r :| r in rs && r.definition.implementation == t.implementation && t.value in RecipesOf(r, kind);
    AcceptedRecipe(rules, r, kind, t.value);
  }

  lemma {:induction false} BuiltRecipe(rules: Rules, rs: seq<Registration>, c: Catalog, kind: Kind, t: Tagged<Recipe>)
    requires Build(rules, rs) == Some(c) && kind in c.recipes && t in c.recipes[kind]
    ensures Registered(c, kind, t)
  {
    hide RegistrationOk, Accepted, Build, Sort, AllImages;
    var r := RecipeSource(rules, rs, c, kind, t);
    BuiltLists(rules, rs, c, kind);
    SortSorts(AllImages(rs), ImageKey, 2);
    ImageTags(rs, Tagged(t.implementation, t.value.image));
    MultisetMember(c.images, AllImages(rs), Tagged(t.implementation, t.value.image));
  }

  lemma {:induction false} BuiltImages(rules: Rules, rs: seq<Registration>, c: Catalog)
    requires Build(rules, rs) == Some(c)
    ensures StrictlyAscending(c.images, ImageKey)
  {
    forall r | r in rs ensures ImagesOk(rules, r) { OkImages(rules, r); }
    hide RegistrationOk;
    ImagesDistinct(rules, rs);
    SortPermutes(AllImages(rs), AllImages(rs), ImageKey, 2);
  }

  lemma {:induction false} BuiltRecipes(rules: Rules, rs: seq<Registration>, c: Catalog, kind: Kind)
    requires Build(rules, rs) == Some(c)
    ensures kind in c.recipes && c.recipes[kind] == Sort(AllRecipes(rs, kind), RecipeKey)
    ensures StrictlyAscending(c.recipes[kind], RecipeKey)
  {
    hide RegistrationOk;
    hide AllRecipes;
    hide Sort;
    assert DistinctKeys(AllRecipes(rs, kind), RecipeKey);
    hide DistinctKeys;
    hide Accepted;
    SortPermutes(AllRecipes(rs, kind), AllRecipes(rs, kind), RecipeKey, 2);
  }

  /** Building leaves a canonical catalog, and every list of it strictly ascending. */
  lemma {:induction false} BuiltCanonical(rules: Rules, rs: seq<Registration>, c: Catalog)
    requires Build(rules, rs) == Some(c)
    ensures Canonical(c) && StrictlyAscending(c.definitions, DefinitionKey)
    ensures forall kind :: kind in c.recipes ==> StrictlyAscending(c.recipes[kind], RecipeKey)
  {
    hide RegistrationOk;
    hide Sort;
    hide AllRecipes;
    hide AllImages;
    hide StrictlyAscending;
    hide Registered;
    SortPermutes(DefinitionsOf(rs), DefinitionsOf(rs), DefinitionKey, 1);
    BuiltImages(rules, rs, c);
    forall kind | kind in c.recipes ensures StrictlyAscending(c.recipes[kind], RecipeKey) { BuiltRecipes(rules, rs, c, kind); }
    forall kind, t | kind in c.recipes && t in c.recipes[kind] ensures Registered(c, kind, t) {
      BuiltRecipe(rules, rs, c, kind, t);
    }
  }

  /**
   The catalog encoding is injective on built catalogs, although three recipe kinds write only the repository
   of their image: equal bytes, with a hash that separates the definitions, come from equal catalogs.
   */
  lemma {:induction false} BuiltBytesInjective(rules: Rules, hash: Bytes -> Bytes, rs: seq<Registration>, c: Catalog,
                                               ss: seq<Registration>, d: Catalog)
    requires Build(rules, rs) == Some(c) && Build(rules, ss) == Some(d) && SizedCatalog(c) && SizedCatalog(d)
    requires Separates(hash, c.definitions, d.definitions) && CatalogBytes(hash, c) == CatalogBytes(hash, d)
    ensures c == d
  {
    BuiltCanonical(rules, rs, c);
    BuiltCanonical(rules, ss, d);
    CatalogBytesInjective(hash, c, d);
  }

  const SOME_IMAGE := Image(Ascii("r"), Ascii("a"), [], [])
  const OTHER_IMAGE := Image(Ascii("r"), Ascii("b"), [], [])

  /** The repetition of a repository that building refuses would break this: these catalogs differ and write the same. */
  lemma {:induction false} UniquenessIsNeeded(hash: Bytes -> Bytes)
    ensures var images := [Tagged(Ascii("i"), SOME_IMAGE), Tagged(Ascii("i"), OTHER_IMAGE)];
      var a := Tagged(Ascii("i"), Recipe(Ascii("x"), [Ascii("p")], SOME_IMAGE, [[Ascii("c")]]));
      var b := Tagged(Ascii("i"), Recipe(Ascii("x"), [Ascii("p")], OTHER_IMAGE, [[Ascii("c")]]));
      var c := Catalog([], images, map[Managed := [a], Container := [], Resolver := [], Tunnel := []]);
      var d := Catalog([], images, map[Managed := [b], Container := [], Resolver := [], Tunnel := []]);
      && c != d && CatalogBytes(hash, c) == CatalogBytes(hash, d)
      && Registered(c, Managed, a) && Registered(d, Managed, b)
  {
    var images := [Tagged(Ascii("i"), SOME_IMAGE), Tagged(Ascii("i"), OTHER_IMAGE)];
    assert images[0] in images && images[1] in images;
    assert Ascii("a")[0] != Ascii("b")[0];
    var a := Tagged(Ascii("i"), Recipe(Ascii("x"), [Ascii("p")], SOME_IMAGE, [[Ascii("c")]]));
    var b := Tagged(Ascii("i"), Recipe(Ascii("x"), [Ascii("p")], OTHER_IMAGE, [[Ascii("c")]]));
    assert RecipeNode(Managed, a) == RecipeNode(Managed, b);
    assert RecipeNodes(Managed, [a]) == RecipeNodes(Managed, [b]);
    var c := map[Managed := [a], Container := [], Resolver := [], Tunnel := []];
    var d := map[Managed := [b], Container := [], Resolver := [], Tunnel := []];
    assert c[Managed][0] != d[Managed][0];
  }
}
