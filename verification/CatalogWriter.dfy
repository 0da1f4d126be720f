/** Writing a catalog's bytes list by list, as the digest takes them. */
module CatalogWriter {
  import opened Outcomes
  import opened Wire
  import opened Definitions
  import opened Images
  import opened Catalogs
  import opened CatalogDigest

  method AppendPlatforms(encoded: Bytes, ps: seq<Platform>) returns (r: Bytes)
    ensures r == encoded + Encode(Word, PlatformNodes(ps))
  {
    hide Count;
    hide Encode;
    r := encoded + Count(Word, |ps|);
    ghost var nodes := PlatformNodes(ps).items;
    var i := 0;
    while i < |ps|
      invariant 0 <= i <= |ps|
      invariant r == encoded + (Count(Word, |ps|) + EncodeAll(Word, nodes[..i]))
    {
      var p := ps[i];
      r := AppendText(Word, r, p.os);
      r := AppendText(Word, r, p.architecture);
      r := AppendText(Word, r, p.variant);
      r := AppendText(Word, r, p.child);
      r := AppendText(Word, r, p.config);
      PlatformFields(p);
      EncodeNext(Word, nodes, i);
      i := i + 1;
    }
    assert nodes[..|ps|] == nodes;
    EncodeMany(Word, nodes);
  }

  lemma {:induction false} PlatformFields(p: Platform)
    ensures Encode(Word, PlatformNode(p)) == Encode(Word, Text(p.os)) + Encode(Word, Text(p.architecture)) +
      Encode(Word, Text(p.variant)) + Encode(Word, Text(p.child)) + Encode(Word, Text(p.config))
  {
    hide Encode;
    var child := Pair(Text(p.child), Text(p.config));
    var variant := Pair(Text(p.variant), child);
    EncodePair(Word, Text(p.child), Text(p.config));
    EncodePair(Word, Text(p.variant), child);
    EncodePair(Word, Text(p.architecture), variant);
    EncodePair(Word, Text(p.os), Pair(Text(p.architecture), variant));
  }

  method AppendImage(encoded: Bytes, image: Image) returns (r: Bytes)
    ensures r == encoded + Encode(Word, ImageNode(image))
  {
    hide Encode;
    r := AppendText(Word, encoded, image.repository);
    r := AppendText(Word, r, image.index);
    r := AppendText(Word, r, image.tag);
    r := AppendPlatforms(r, image.platforms);
    var tag := Pair(Text(image.tag), PlatformNodes(image.platforms));
    EncodePair(Word, Text(image.tag), PlatformNodes(image.platforms));
    EncodePair(Word, Text(image.index), tag);
    EncodePair(Word, Text(image.repository), Pair(Text(image.index), tag));
  }

  method AppendRow(encoded: Bytes, ts: seq<Bytes>) returns (r: Bytes)
    ensures r == encoded + Encode(Word, Row(ts))
  {
    r := encoded;
    var i := 0;
    while i < |ts|
      invariant 0 <= i <= |ts|
      invariant r + Encode(Word, Row(ts[i..])) == encoded + Encode(Word, Row(ts))
    {
      RowStep(ts, i);
      ghost var before := r;
      r := AppendText(Word, r, ts[i]);
      assert before + (Encode(Word, Text(ts[i])) + Encode(Word, Row(ts[i + 1..]))) == r + Encode(Word, Row(ts[i + 1..]));
      i := i + 1;
    }
    assert Encode(Word, Row(ts[i..])) == [] && r + [] == r;
  }

  lemma {:induction false} RowStep(ts: seq<Bytes>, i: nat)
    requires i < |ts|
    ensures Encode(Word, Row(ts[i..])) == Encode(Word, Text(ts[i])) + Encode(Word, Row(ts[i + 1..]))
  {
    assert ts[i..][0] == ts[i] && ts[i..][1..] == ts[i + 1..];
    EncodePair(Word, Text(ts[i]), Row(ts[i + 1..]));
  }

  method AppendCommands(encoded: Bytes, cs: seq<seq<Bytes>>) returns (r: Bytes)
    ensures r == encoded + Encode(Word, Commands(cs))
  {
    r := encoded;
    var i := 0;
    while i < |cs|
      invariant 0 <= i <= |cs|
      invariant r + Encode(Word, Commands(cs[i..])) == encoded + Encode(Word, Commands(cs))
    {
      CommandStep(cs, i);
      ghost var before := r;
      r := AppendTexts(Word, r, cs[i]);
      assert before + (Encode(Word, Texts(cs[i])) + Encode(Word, Commands(cs[i + 1..]))) == r + Encode(Word, Commands(cs[i + 1..]));
      i := i + 1;
    }
    assert Encode(Word, Commands(cs[i..])) == [] && r + [] == r;
  }

  lemma {:induction false} CommandStep(cs: seq<seq<Bytes>>, i: nat)
    requires i < |cs|
    ensures Encode(Word, Commands(cs[i..])) == Encode(Word, Texts(cs[i])) + Encode(Word, Commands(cs[i + 1..]))
  {
    assert cs[i..][0] == cs[i] && cs[i..][1..] == cs[i + 1..];
    EncodePair(Word, Texts(cs[i]), Commands(cs[i + 1..]));
  }

  method AppendRecipe(encoded: Bytes, kind: Kind, t: Tagged<Recipe>) returns (r: Bytes)
    ensures r == encoded + Encode(Word, RecipeNode(kind, t))
  {
    hide Encode;
    hide Row;
    hide Commands;
    r := AppendText(Word, encoded, t.implementation);
    r := AppendText(Word, r, t.value.action);
    r := AppendRow(r, t.value.texts);
    if kind.Tunnel? {
      r := AppendImage(r, t.value.image);
    } else {
      r := AppendText(Word, r, t.value.image.repository);
    }
    r := AppendCommands(r, t.value.commands);
    var image := Pair(RecipeImage(kind, t.value.image), Commands(t.value.commands));
    EncodePair(Word, RecipeImage(kind, t.value.image), Commands(t.value.commands));
    EncodePair(Word, Row(t.value.texts), image);
    EncodePair(Word, Text(t.value.action), Pair(Row(t.value.texts), image));
    EncodePair(Word, Text(t.implementation), Pair(Text(t.value.action), Pair(Row(t.value.texts), image)));
  }

  method AppendRecipes(encoded: Bytes, kind: Kind, ts: seq<Tagged<Recipe>>) returns (r: Bytes)
    ensures r == encoded + Encode(Word, RecipeNodes(kind, ts))
  {
    hide Count;
    hide Encode;
    r := encoded + Count(Word, |ts|);
    ghost var nodes := RecipeNodes(kind, ts).items;
    var i := 0;
    while i < |ts|
      invariant 0 <= i <= |ts|
      invariant r == encoded + (Count(Word, |ts|) + EncodeAll(Word, nodes[..i]))
    {
      r := AppendRecipe(r, kind, ts[i]);
      EncodeNext(Word, nodes, i);
      i := i + 1;
    }
    assert nodes[..|ts|] == nodes;
    EncodeMany(Word, nodes);
  }

  method AppendImages(encoded: Bytes, ts: seq<Tagged<Image>>) returns (r: Bytes)
    ensures r == encoded + Encode(Word, ImageNodes(ts))
  {
    hide Count;
    hide Encode;
    r := encoded + Count(Word, |ts|);
    ghost var nodes := ImageNodes(ts).items;
    var i := 0;
    while i < |ts|
      invariant 0 <= i <= |ts|
      invariant r == encoded + (Count(Word, |ts|) + EncodeAll(Word, nodes[..i]))
    {
      r := AppendText(Word, r, ts[i].implementation);
      r := AppendImage(r, ts[i].value);
      EncodePair(Word, Text(ts[i].implementation), ImageNode(ts[i].value));
      EncodeNext(Word, nodes, i);
      i := i + 1;
    }
    assert nodes[..|ts|] == nodes;
    EncodeMany(Word, nodes);
  }

  method AppendEntries(encoded: Bytes, hash: Bytes -> Bytes, ds: seq<Definition>) returns (r: Bytes)
    ensures r == encoded + Encode(Word, EntryNodes(hash, ds))
  {
    hide Count;
    r := encoded + Count(Word, |ds|);
    ghost var nodes := EntryNodes(hash, ds).items;
    var i := 0;
    while i < |ds|
      invariant 0 <= i <= |ds|
      invariant r == encoded + (Count(Word, |ds|) + EncodeAll(Word, nodes[..i]))
    {
      var input := WriteDefinition(ds[i]);
      r := AppendText(Word, r, ds[i].implementation);
      r := r + hash(input);
      EncodePair(Word, Text(ds[i].implementation), Fixed(hash(input)));
      EncodeNext(Word, nodes, i);
      i := i + 1;
    }
    assert nodes[..|ds|] == nodes;
    EncodeMany(Word, nodes);
  }

  /** The bytes of the whole catalog: definitions with their digests, images, and the four recipe lists. */
  method WriteCatalog(hash: Bytes -> Bytes, c: Catalog) returns (encoded: Bytes)
    requires AllKinds(c)
    ensures encoded == CatalogBytes(hash, c)
  {
    hide Encode;
    hide RecipeNodes;
    hide ImageNodes;
    hide EntryNodes;
    encoded := AppendText(Word, [], CATALOG_TAG);
    encoded := AppendEntries(encoded, hash, c.definitions);
    encoded := AppendImages(encoded, c.images);
    encoded := AppendRecipes(encoded, Managed, c.recipes[Managed]);
    encoded := AppendRecipes(encoded, Container, c.recipes[Container]);
    encoded := AppendRecipes(encoded, Resolver, c.recipes[Resolver]);
    encoded := AppendRecipes(encoded, Tunnel, c.recipes[Tunnel]);
    var o, p := RecipeNodes(Resolver, c.recipes[Resolver]), RecipeNodes(Tunnel, c.recipes[Tunnel]);
    var m, n := RecipeNodes(Managed, c.recipes[Managed]), RecipeNodes(Container, c.recipes[Container]);
    EncodePair(Word, o, p);
    EncodePair(Word, n, Pair(o, p));
    EncodePair(Word, m, Pair(n, Pair(o, p)));
    EncodePair(Word, ImageNodes(c.images), Pair(m, Pair(n, Pair(o, p))));
    EncodePair(Word, EntryNodes(hash, c.definitions), Pair(ImageNodes(c.images), Pair(m, Pair(n, Pair(o, p)))));
    EncodePair(Word, Text(CATALOG_TAG), Pair(EntryNodes(hash, c.definitions), Pair(ImageNodes(c.images), Pair(m, Pair(n, Pair(o, p))))));
  }
}
