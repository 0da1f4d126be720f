/** Writing a plan's bytes field by field, as the digest takes them. */
module EnvironmentPlanWriter {
  import opened Outcomes
  import opened Wire
  import opened Images
  import opened Ordering
  import opened EnvironmentPlan

  /** Seven bits at a time, least significant first. */
  method AppendNumber(encoded: Bytes, value: nat) returns (r: Bytes)
    ensures r == encoded + Encode(Varint, Number(value))
  {
    r := encoded;
    var rest := value;
    while rest >= 0x80
      invariant r + Uvarint(rest) == encoded + Uvarint(value)
    {
      ghost var before := r;
      r := r + [rest % 0x80 + 0x80];
      assert before + Uvarint(rest) == r + Uvarint(rest / 0x80);
      rest := rest / 0x80;
    }
    r := r + [rest];
  }

  method AppendImage(encoded: Bytes, image: Image) returns (r: Bytes)
    ensures r == encoded + Encode(Varint, ImageNode(image))
  {
    hide Encode;
    hide Count;
    r := AppendText(Varint, encoded, image.repository);
    r := AppendText(Varint, r, image.index);
    r := AppendText(Varint, r, image.tag);
    ghost var before := r;
    r := r + Count(Varint, |image.platforms|);
    ghost var nodes := PlatformNodes(image.platforms).items;
    var i := 0;
    while i < |image.platforms|
      invariant 0 <= i <= |image.platforms|
      invariant r == before + (Count(Varint, |image.platforms|) + EncodeAll(Varint, nodes[..i]))
    {
      var p := image.platforms[i];
      r := AppendText(Varint, r, p.os);
      r := AppendText(Varint, r, p.architecture);
      r := AppendText(Varint, r, p.variant);
      r := AppendText(Varint, r, p.child);
      r := AppendText(Varint, r, p.config);
      PlatformFields(p);
      EncodeNext(Varint, nodes, i);
      i := i + 1;
    }
    assert nodes[..|image.platforms|] == nodes;
    EncodeMany(Varint, nodes);
    ImageFields(image);
  }

  lemma {:induction false} PlatformFields(p: Platform)
    ensures Encode(Varint, PlatformNode(p)) == Encode(Varint, Text(p.os)) + Encode(Varint, Text(p.architecture)) +
      Encode(Varint, Text(p.variant)) + Encode(Varint, Text(p.child)) + Encode(Varint, Text(p.config))
  {
    hide Encode;
    var child := Pair(Text(p.child), Text(p.config));
    EncodePair(Varint, Text(p.child), Text(p.config));
    EncodePair(Varint, Text(p.variant), child);
    EncodePair(Varint, Text(p.architecture), Pair(Text(p.variant), child));
    EncodePair(Varint, Text(p.os), Pair(Text(p.architecture), Pair(Text(p.variant), child)));
  }

  lemma {:induction false} ImageFields(image: Image)
    ensures Encode(Varint, ImageNode(image)) == Encode(Varint, Text(image.repository)) + Encode(Varint, Text(image.index)) +
      Encode(Varint, Text(image.tag)) + Encode(Varint, PlatformNodes(image.platforms))
  {
    hide Encode;
    var tag := Pair(Text(image.tag), PlatformNodes(image.platforms));
    EncodePair(Varint, Text(image.tag), PlatformNodes(image.platforms));
    EncodePair(Varint, Text(image.index), tag);
    EncodePair(Varint, Text(image.repository), Pair(Text(image.index), tag));
  }

  method AppendNetworks(encoded: Bytes, ns: seq<Network>) returns (r: Bytes)
    ensures r == encoded + Encode(Varint, NetworkNodes(ns))
  {
    hide Encode;
    hide Count;
    r := encoded + Count(Varint, |ns|);
    ghost var nodes := NetworkNodes(ns).items;
    var i := 0;
    while i < |ns|
      invariant 0 <= i <= |ns|
      invariant r == encoded + (Count(Varint, |ns|) + EncodeAll(Varint, nodes[..i]))
    {
      var n := ns[i];
      r := AppendText(Varint, r, n.name);
      r := AppendTexts(Varint, r, n.aliases);
      r := AppendText(Varint, r, n.staticIPv4);
      r := AppendNumber(r, Unsigned(n.gatewayPriority));
      var priority := Number(Unsigned(n.gatewayPriority));
      EncodePair(Varint, Text(n.staticIPv4), priority);
      EncodePair(Varint, Texts(n.aliases), Pair(Text(n.staticIPv4), priority));
      EncodePair(Varint, Text(n.name), Pair(Texts(n.aliases), Pair(Text(n.staticIPv4), priority)));
      EncodeNext(Varint, nodes, i);
      i := i + 1;
    }
    assert nodes[..|ns|] == nodes;
    EncodeMany(Varint, nodes);
  }

  method AppendFlag(encoded: Bytes, flag: bool) returns (r: Bytes)
    ensures r == encoded + Encode(Varint, Flag(flag))
  {
    r := encoded + [if flag then 1 else 0];
  }

  method AppendMounts(encoded: Bytes, ms: seq<Mount>) returns (r: Bytes)
    ensures r == encoded + Encode(Varint, Many(ManyOf(ms, MountNode)))
  {
    hide Count;
    hide Encode;
    r := encoded + Count(Varint, |ms|);
    ghost var nodes := ManyOf(ms, MountNode);
    var i := 0;
    while i < |ms|
      invariant 0 <= i <= |ms|
      invariant r == encoded + (Count(Varint, |ms|) + EncodeAll(Varint, nodes[..i]))
    {
      var m := ms[i];
      r := AppendText(Varint, r, m.source);
      r := AppendText(Varint, r, m.target);
      r := AppendText(Varint, r, m.kind);
      r := AppendFlag(r, m.readOnly);
      EncodePair(Varint, Text(m.kind), Flag(m.readOnly));
      EncodePair(Varint, Text(m.target), Pair(Text(m.kind), Flag(m.readOnly)));
      EncodePair(Varint, Text(m.source), Pair(Text(m.target), Pair(Text(m.kind), Flag(m.readOnly))));
      EncodeNext(Varint, nodes, i);
      i := i + 1;
    }
    assert nodes[..|ms|] == nodes;
    EncodeMany(Varint, nodes);
  }

  method AppendNames(encoded: Bytes, ns: seq<Named>) returns (r: Bytes)
    ensures r == encoded + Encode(Varint, Many(ManyOf(ns, NamedNode)))
  {
    hide Encode;
    hide Count;
    r := encoded + Count(Varint, |ns|);
    ghost var nodes := ManyOf(ns, NamedNode);
    var i := 0;
    while i < |ns|
      invariant 0 <= i <= |ns|
      invariant r == encoded + (Count(Varint, |ns|) + EncodeAll(Varint, nodes[..i]))
    {
      r := AppendText(Varint, r, ns[i].name);
      r := AppendText(Varint, r, ns[i].value);
      EncodePair(Varint, Text(ns[i].name), Text(ns[i].value));
      EncodeNext(Varint, nodes, i);
      i := i + 1;
    }
    assert nodes[..|ns|] == nodes;
    EncodeMany(Varint, nodes);
  }

  method AppendHealth(encoded: Bytes, health: Option<Health>) returns (r: Bytes)
    ensures r == encoded + Encode(Varint, HealthField(health))
  {
    if health.None? {
      r := encoded + [0];
      return;
    }
    var h := health.value;
    r := encoded + [1];
    r := AppendTexts(Varint, r, h.command);
    r := AppendNumber(r, h.interval);
    r := AppendNumber(r, h.timeout);
    r := AppendNumber(r, h.startPeriod);
    r := AppendNumber(r, h.retries);
    assert Encode(Varint, HealthField(health)) == [1] + Encode(Varint, HealthNode(h));
    hide Encode;
    var a, b, c, d := Number(h.interval), Number(h.timeout), Number(h.startPeriod), Number(h.retries);
    EncodePair(Varint, c, d);
    EncodePair(Varint, b, Pair(c, d));
    EncodePair(Varint, a, Pair(b, Pair(c, d)));
    EncodePair(Varint, Texts(h.command), Pair(a, Pair(b, Pair(c, d))));
  }

  method AppendTail(encoded: Bytes, s: Service) returns (r: Bytes)
    ensures r == encoded + Encode(Varint, ServiceTail(s))
  {
    hide Encode;
    hide HealthField;
    r := AppendText(Varint, encoded, s.restart);
    r := AppendNumber(r, s.replicas);
    r := AppendMounts(r, s.mounts);
    r := AppendNames(r, s.dependencies);
    r := AppendNames(r, s.secrets);
    r := AppendText(Varint, r, s.observation);
    r := AppendHealth(r, s.health);
    var mounts, dependencies, secrets := Many(ManyOf(s.mounts, MountNode)), Many(ManyOf(s.dependencies, NamedNode)), Many(ManyOf(s.secrets, NamedNode));
    var observed := Pair(Text(s.observation), HealthField(s.health));
    EncodePair(Varint, Text(s.observation), HealthField(s.health));
    EncodePair(Varint, secrets, observed);
    EncodePair(Varint, dependencies, Pair(secrets, observed));
    EncodePair(Varint, mounts, Pair(dependencies, Pair(secrets, observed)));
    EncodePair(Varint, Number(s.replicas), Pair(mounts, Pair(dependencies, Pair(secrets, observed))));
    EncodePair(Varint, Text(s.restart), Pair(Number(s.replicas), Pair(mounts, Pair(dependencies, Pair(secrets, observed)))));
  }

  method AppendService(encoded: Bytes, s: Service) returns (r: Bytes)
    ensures r == encoded + Encode(Varint, ServiceNode(s))
  {
    hide Encode;
    hide Texts;
    hide ServiceTail;
    hide ImageNode;
    hide NetworkNodes;
    r := AppendText(Varint, encoded, s.id);
    r := AppendText(Varint, r, s.name);
    r := AppendImage(r, s.image);
    r := AppendText(Varint, r, s.networkMode);
    r := AppendTexts(Varint, r, s.command);
    r := AppendTexts(Varint, r, s.entrypoint);
    r := AppendNetworks(r, s.networks);
    r := AppendTexts(Varint, r, s.expose);
    r := AppendTail(r, s);
    var exposed := Pair(Texts(s.expose), ServiceTail(s));
    var networked := Pair(NetworkNodes(s.networks), exposed);
    var entered := Pair(Texts(s.entrypoint), networked);
    var commanded := Pair(Texts(s.command), entered);
    EncodePair(Varint, Texts(s.expose), ServiceTail(s));
    EncodePair(Varint, NetworkNodes(s.networks), exposed);
    EncodePair(Varint, Texts(s.entrypoint), networked);
    EncodePair(Varint, Texts(s.command), entered);
    EncodePair(Varint, Text(s.networkMode), commanded);
    EncodePair(Varint, ImageNode(s.image), Pair(Text(s.networkMode), commanded));
    EncodePair(Varint, Text(s.name), Pair(ImageNode(s.image), Pair(Text(s.networkMode), commanded)));
    EncodePair(Varint, Text(s.id), Pair(Text(s.name), Pair(ImageNode(s.image), Pair(Text(s.networkMode), commanded))));
  }

  /** Sorts services and files, then writes every field. */
  method WritePlan(plan: Plan) returns (encoded: Bytes)
    ensures encoded == PlanBytes(plan)
  {
    hide Encode;
    hide Count;
    hide Sort;
    var services := Sort(plan.services, ServiceKey);
    var files := Sort(plan.files, PathKey);
    encoded := AppendText(Varint, [], PLAN_TAG);
    ghost var before := encoded;
    encoded := encoded + Count(Varint, |services|);
    ghost var nodes := ManyOf(services, ServiceNode);
    var i := 0;
    while i < |services|
      invariant 0 <= i <= |services|
      invariant encoded == before + (Count(Varint, |services|) + EncodeAll(Varint, nodes[..i]))
    {
      encoded := AppendService(encoded, services[i]);
      EncodeNext(Varint, nodes, i);
      i := i + 1;
    }
    assert nodes[..|services|] == nodes;
    EncodeMany(Varint, nodes);
    encoded := AppendFiles(encoded, files);
    EncodePair(Varint, Many(nodes), Many(ManyOf(files, FileNode)));
    EncodePair(Varint, Text(PLAN_TAG), Pair(Many(nodes), Many(ManyOf(files, FileNode))));
  }

  method AppendFiles(encoded: Bytes, files: seq<File>) returns (r: Bytes)
    ensures r == encoded + Encode(Varint, Many(ManyOf(files, FileNode)))
  {
    hide Encode;
    hide Count;
    r := encoded + Count(Varint, |files|);
    ghost var nodes := ManyOf(files, FileNode);
    var i := 0;
    while i < |files|
      invariant 0 <= i <= |files|
      invariant r == encoded + (Count(Varint, |files|) + EncodeAll(Varint, nodes[..i]))
    {
      r := AppendText(Varint, r, files[i].path);
      r := AppendText(Varint, r, files[i].content);
      EncodePair(Varint, Text(files[i].path), Text(files[i].content));
      EncodeNext(Varint, nodes, i);
      i := i + 1;
    }
    assert nodes[..|files|] == nodes;
    EncodeMany(Varint, nodes);
  }
}
