/** Container images and their encoding, shared by the catalog and the environment plan. */
module Images {
  import opened Outcomes
  import opened Wire

  datatype Platform = Platform(os: Bytes, architecture: Bytes, variant: Bytes, child: Bytes, config: Bytes)

  datatype Image = Image(repository: Bytes, index: Bytes, tag: Bytes, platforms: seq<Platform>)

  function PlatformNode(p: Platform): Node {
    Pair(Text(p.os), Pair(Text(p.architecture), Pair(Text(p.variant), Pair(Text(p.child), Text(p.config)))))
  }

  function PlatformNodes(ps: seq<Platform>): Node { Many(ManyOf(ps, PlatformNode)) }

  function ImageNode(image: Image): Node {
    Pair(Text(image.repository), Pair(Text(image.index), Pair(Text(image.tag), PlatformNodes(image.platforms))))
  }

  const PLATFORM_SCHEMA := PairS(TextS, PairS(TextS, PairS(TextS, PairS(TextS, TextS))))
  const IMAGE_SCHEMA := PairS(TextS, PairS(TextS, PairS(TextS, ManyS(PLATFORM_SCHEMA))))

  function ReadPlatform(n: Node): Option<Platform> {
    match n
    case Pair(Text(os), Pair(Text(architecture), Pair(Text(variant), Pair(Text(child), Text(config))))) =>
      Some(Platform(os, architecture, variant, child, config))
    case _ => None
  }

  function ReadImage(n: Node): Option<Image> {
    match n
    case Pair(Text(repository), Pair(Text(index), Pair(Text(tag), Many(items)))) =>
      (match ReadMany(items, ReadPlatform) case Some(ps) => Some(Image(repository, index, tag, ps)) case None => None)
    case _ => None
  }

  lemma {:induction false} ImageReads(image: Image)
    ensures ReadImage(ImageNode(image)) == Some(image)
  {
    ReadManyOf(image.platforms, PlatformNode, ReadPlatform);
  }

  predicate SizedPlatform(w: Width, p: Platform) {
    && Countable(w, |p.os|) && Countable(w, |p.architecture|) && Countable(w, |p.variant|)
    && Countable(w, |p.child|) && Countable(w, |p.config|)
  }

  /** Every count of the image fits. */
  predicate SizedImage(w: Width, image: Image) {
    && Countable(w, |image.repository|) && Countable(w, |image.index|) && Countable(w, |image.tag|)
    && Countable(w, |image.platforms|) && forall p :: p in image.platforms ==> SizedPlatform(w, p)
  }

  lemma {:induction false} PlatformConforms(w: Width, p: Platform)
    requires SizedPlatform(w, p)
    ensures Conforms(w, PlatformNode(p), PLATFORM_SCHEMA)
  {
    var two := PairS(TextS, TextS);
    Prepend(w, Text(p.child), Text(p.config), TextS, TextS);
    Prepend(w, Text(p.variant), Pair(Text(p.child), Text(p.config)), TextS, two);
    Prepend(w, Text(p.architecture), Pair(Text(p.variant), Pair(Text(p.child), Text(p.config))), TextS, PairS(TextS, two));
    Prepend(w, Text(p.os), Pair(Text(p.architecture), Pair(Text(p.variant), Pair(Text(p.child), Text(p.config)))), TextS,
            PairS(TextS, PairS(TextS, two)));
  }

  lemma {:induction false} ImageConforms(w: Width, image: Image)
    requires SizedImage(w, image)
    ensures Conforms(w, ImageNode(image), IMAGE_SCHEMA)
  {
    forall p | p in image.platforms ensures Conforms(w, PlatformNode(p), PLATFORM_SCHEMA) { PlatformConforms(w, p); }
    ManyConforms(w, image.platforms, PlatformNode, PLATFORM_SCHEMA);
    var ps := ManyS(PLATFORM_SCHEMA);
    Prepend(w, Text(image.tag), PlatformNodes(image.platforms), TextS, ps);
    Prepend(w, Text(image.index), Pair(Text(image.tag), PlatformNodes(image.platforms)), TextS, PairS(TextS, ps));
    Prepend(w, Text(image.repository), Pair(Text(image.index), Pair(Text(image.tag), PlatformNodes(image.platforms))), TextS,
            PairS(TextS, PairS(TextS, ps)));
  }
}
