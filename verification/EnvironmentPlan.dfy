/**
 The environment plan's canonical bytes. Services are ordered by (ID, name) and files by path before every
 field is written with variable-length counts; reading the bytes back gives exactly the normalised plan.
 */
module EnvironmentPlan {
  import opened Outcomes
  import opened Wire
  import opened Images
  import opened Ordering
  import opened Definitions

  datatype Network = Network(name: Bytes, aliases: seq<Bytes>, staticIPv4: Bytes, gatewayPriority: int)

  datatype Mount = Mount(source: Bytes, target: Bytes, kind: Bytes, readOnly: bool)

  /** Dependencies and secrets are both pairs of texts. */
  datatype Named = Named(name: Bytes, value: Bytes)

  datatype Health = Health(command: seq<Bytes>, interval: nat, timeout: nat, startPeriod: nat, retries: nat)

  datatype Service = Service(
    id: Bytes, name: Bytes, image: Image, networkMode: Bytes, command: seq<Bytes>, entrypoint: seq<Bytes>,
    networks: seq<Network>, expose: seq<Bytes>, restart: Bytes, replicas: nat, mounts: seq<Mount>,
    dependencies: seq<Named>, secrets: seq<Named>, observation: Bytes, health: Option<Health>)

  datatype File = File(path: Bytes, content: Bytes)

  datatype Plan = Plan(services: seq<Service>, files: seq<File>)

  const HALF := 0x8000_0000_0000_0000

  /** A signed 64-bit integer as the unsigned one with the same bits. */
  function Unsigned(value: int): nat { value % LONG }

  function Signed(value: nat): int { if value < HALF then value else value - LONG }

  function NetworkNode(n: Network): Node {
    Pair(Text(n.name), Pair(Texts(n.aliases), Pair(Text(n.staticIPv4), Number(Unsigned(n.gatewayPriority)))))
  }

  function MountNode(m: Mount): Node { Pair(Text(m.source), Pair(Text(m.target), Pair(Text(m.kind), Flag(m.readOnly)))) }

  function NamedNode(n: Named): Node { Pair(Text(n.name), Text(n.value)) }

  function HealthNode(h: Health): Node {
    Pair(Texts(h.command), Pair(Number(h.interval), Pair(Number(h.timeout), Pair(Number(h.startPeriod), Number(h.retries)))))
  }

  function HealthField(h: Option<Health>): Node { Maybe(if h.Some? then Some(HealthNode(h.value)) else None) }

  function NetworkNodes(ns: seq<Network>): Node { Many(ManyOf(ns, NetworkNode)) }

  /** The last fields of a service, from the restart policy on. */
  function ServiceTail(s: Service): Node {
    Pair(Text(s.restart), Pair(Number(s.replicas), Pair(Many(ManyOf(s.mounts, MountNode)),
      Pair(Many(ManyOf(s.dependencies, NamedNode)), Pair(Many(ManyOf(s.secrets, NamedNode)),
        Pair(Text(s.observation), HealthField(s.health)))))))
  }

  function ServiceNode(s: Service): Node {
    Pair(Text(s.id), Pair(Text(s.name), Pair(ImageNode(s.image), Pair(Text(s.networkMode), Pair(Texts(s.command),
      Pair(Texts(s.entrypoint), Pair(NetworkNodes(s.networks), Pair(Texts(s.expose), ServiceTail(s)))))))))
  }

  function FileNode(f: File): Node { Pair(Text(f.path), Text(f.content)) }

  const PLAN_TAG := Ascii("environment-plan-v9")

  function PlanNode(p: Plan): Node {
    Pair(Text(PLAN_TAG), Pair(Many(ManyOf(p.services, ServiceNode)),
      Many(ManyOf(p.files, FileNode))))
  }

  function ServiceKey(s: Service): Key { [s.id] + [s.name] }
  function PathKey(f: File): Key { [f.path] }

  /** The order in which the plan is written. */
  function Normalised(p: Plan): Plan { Plan(Sort(p.services, ServiceKey), Sort(p.files, PathKey)) }

  lemma {:induction false} NormalisedMembers(p: Plan)
    ensures multiset(Normalised(p).services) == multiset(p.services) && multiset(Normalised(p).files) == multiset(p.files)
    ensures forall s :: s in Normalised(p).services <==> s in p.services
    ensures forall f :: f in Normalised(p).files <==> f in p.files
  {
    SortSorts(p.services, ServiceKey, 2);
    SortSorts(p.files, PathKey, 1);
    var n := Normalised(p);
    forall s ensures s in n.services <==> s in p.services { assert s in n.services <==> s in multiset(n.services); assert s in p.services <==> s in multiset(p.services); }
    forall f ensures f in n.files <==> f in p.files { assert f in n.files <==> f in multiset(n.files); assert f in p.files <==> f in multiset(p.files); }
  }

  /** The bytes whose hash is the plan's digest. */
  function PlanBytes(p: Plan): Bytes { Encode(Varint, PlanNode(Normalised(p))) }

  const NETWORK_SCHEMA := PairS(TextS, PairS(ManyS(TextS), PairS(TextS, NumberS)))
  const MOUNT_SCHEMA := PairS(TextS, PairS(TextS, PairS(TextS, FlagS)))
  const NAMED_SCHEMA := PairS(TextS, TextS)
  const HEALTH_SCHEMA := PairS(ManyS(TextS), PairS(NumberS, PairS(NumberS, PairS(NumberS, NumberS))))
  const TAIL_SCHEMA := PairS(TextS, PairS(NumberS, PairS(ManyS(MOUNT_SCHEMA), PairS(ManyS(NAMED_SCHEMA),
    PairS(ManyS(NAMED_SCHEMA), PairS(TextS, MaybeS(HEALTH_SCHEMA)))))))
  const SERVICE_SCHEMA := PairS(TextS, PairS(TextS, PairS(IMAGE_SCHEMA, PairS(TextS, PairS(ManyS(TextS),
    PairS(ManyS(TextS), PairS(ManyS(NETWORK_SCHEMA), PairS(ManyS(TextS), TAIL_SCHEMA))))))))
  const PLAN_SCHEMA := PairS(TextS, PairS(ManyS(SERVICE_SCHEMA), ManyS(NAMED_SCHEMA)))

  /** Lengths and numbers are 64-bit. */
  predicate Long(t: Bytes) { |t| < LONG }
  predicate Longs(ts: seq<Bytes>) { |ts| < LONG && forall t :: t in ts ==> Long(t) }

  predicate SizedNetwork(n: Network) {
    Long(n.name) && Longs(n.aliases) && Long(n.staticIPv4) && -HALF <= n.gatewayPriority < HALF
  }

  predicate SizedHealth(h: Health) { Longs(h.command) && h.interval < LONG && h.timeout < LONG && h.startPeriod < LONG && h.retries < LONG }

  predicate SizedNames(ns: seq<Named>) { |ns| < LONG && forall n :: n in ns ==> Long(n.name) && Long(n.value) }

  predicate SizedTail(s: Service) {
    && Long(s.restart) && s.replicas < LONG && Long(s.observation) && SizedNames(s.dependencies) && SizedNames(s.secrets)
    && |s.mounts| < LONG && (forall m :: m in s.mounts ==> Long(m.source) && Long(m.target) && Long(m.kind))
    && (s.health.Some? ==> SizedHealth(s.health.value))
  }

  predicate SizedService(s: Service) {
    && Long(s.id) && Long(s.name) && SizedImage(Varint, s.image) && Long(s.networkMode) && Longs(s.command)
    && Longs(s.entrypoint) && |s.networks| < LONG && (forall n :: n in s.networks ==> SizedNetwork(n)) && Longs(s.expose)
    && SizedTail(s)
  }

  predicate SizedPlan(p: Plan) {
    && |p.services| < LONG && (forall s :: s in p.services ==> SizedService(s))
    && |p.files| < LONG && (forall f :: f in p.files ==> Long(f.path) && Long(f.content))
  }

  lemma {:induction false} NetworkConforms(n: Network)
    requires SizedNetwork(n)
    ensures Conforms(Varint, NetworkNode(n), NETWORK_SCHEMA)
  {
    hide Texts;
    TextsConform(Varint, n.aliases);
    var priority := Number(Unsigned(n.gatewayPriority));
    Prepend(Varint, Text(n.staticIPv4), priority, TextS, NumberS);
    Prepend(Varint, Texts(n.aliases), Pair(Text(n.staticIPv4), priority), ManyS(TextS), PairS(TextS, NumberS));
    Prepend(Varint, Text(n.name), Pair(Texts(n.aliases), Pair(Text(n.staticIPv4), priority)), TextS,
            PairS(ManyS(TextS), PairS(TextS, NumberS)));
  }

  lemma {:induction false} MountConforms(m: Mount)
    requires Long(m.source) && Long(m.target) && Long(m.kind)
    ensures Conforms(Varint, MountNode(m), MOUNT_SCHEMA)
  {
    Prepend(Varint, Text(m.kind), Flag(m.readOnly), TextS, FlagS);
    Prepend(Varint, Text(m.target), Pair(Text(m.kind), Flag(m.readOnly)), TextS, PairS(TextS, FlagS));
    Prepend(Varint, Text(m.source), Pair(Text(m.target), Pair(Text(m.kind), Flag(m.readOnly))), TextS, PairS(TextS, PairS(TextS, FlagS)));
  }

  lemma {:induction false} HealthConforms(h: Option<Health>)
    requires h.Some? ==> SizedHealth(h.value)
    ensures Conforms(Varint, HealthField(h), MaybeS(HEALTH_SCHEMA))
  {
    if h.Some? {
      hide Texts;
      TextsConform(Varint, h.value.command);
      var a, b, c, d := Number(h.value.interval), Number(h.value.timeout), Number(h.value.startPeriod), Number(h.value.retries);
      Prepend(Varint, c, d, NumberS, NumberS);
      Prepend(Varint, b, Pair(c, d), NumberS, PairS(NumberS, NumberS));
      Prepend(Varint, a, Pair(b, Pair(c, d)), NumberS, PairS(NumberS, PairS(NumberS, NumberS)));
      Prepend(Varint, Texts(h.value.command), Pair(a, Pair(b, Pair(c, d))), ManyS(TextS), PairS(NumberS, PairS(NumberS, PairS(NumberS, NumberS))));
      assert Conforms(Varint, HealthNode(h.value), HEALTH_SCHEMA);
    }
  }

  lemma {:induction false} NamesConform(ns: seq<Named>)
    requires SizedNames(ns)
    ensures Conforms(Varint, Many(ManyOf(ns, NamedNode)), ManyS(NAMED_SCHEMA))
  {
    ManyConforms(Varint, ns, NamedNode, NAMED_SCHEMA);
  }

  lemma {:induction false} TailConforms(s: Service)
    requires SizedTail(s)
    ensures Conforms(Varint, ServiceTail(s), TAIL_SCHEMA)
  {
    hide HealthField;
    forall m | m in s.mounts ensures Conforms(Varint, MountNode(m), MOUNT_SCHEMA) { MountConforms(m); }
    ManyConforms(Varint, s.mounts, MountNode, MOUNT_SCHEMA);
    NamesConform(s.dependencies);
    NamesConform(s.secrets);
    HealthConforms(s.health);
    var mounts, dependencies, secrets := Many(ManyOf(s.mounts, MountNode)), Many(ManyOf(s.dependencies, NamedNode)), Many(ManyOf(s.secrets, NamedNode));
    var h, hs := HealthField(s.health), MaybeS(HEALTH_SCHEMA);
    Prepend(Varint, Text(s.observation), h, TextS, hs);
    Prepend(Varint, secrets, Pair(Text(s.observation), h), ManyS(NAMED_SCHEMA), PairS(TextS, hs));
    var rest, restS := Pair(secrets, Pair(Text(s.observation), h)), PairS(ManyS(NAMED_SCHEMA), PairS(TextS, hs));
    Prepend(Varint, dependencies, rest, ManyS(NAMED_SCHEMA), restS);
    Prepend(Varint, mounts, Pair(dependencies, rest), ManyS(MOUNT_SCHEMA), PairS(ManyS(NAMED_SCHEMA), restS));
    var more, moreS := Pair(mounts, Pair(dependencies, rest)), PairS(ManyS(MOUNT_SCHEMA), PairS(ManyS(NAMED_SCHEMA), restS));
    Prepend(Varint, Number(s.replicas), more, NumberS, moreS);
    Prepend(Varint, Text(s.restart), Pair(Number(s.replicas), more), TextS, PairS(NumberS, moreS));
  }

  lemma {:induction false} ServiceConforms(s: Service)
    requires SizedService(s)
    ensures Conforms(Varint, ServiceNode(s), SERVICE_SCHEMA)
  {
    hide ServiceTail;
    hide ImageNode;
    hide Texts;
    hide SizedTail;
    hide SizedImage;
    TailConforms(s);
    ImageConforms(Varint, s.image);
    TextsConform(Varint, s.command);
    TextsConform(Varint, s.entrypoint);
    TextsConform(Varint, s.expose);
    forall n | n in s.networks ensures Conforms(Varint, NetworkNode(n), NETWORK_SCHEMA) { NetworkConforms(n); }
    ManyConforms(Varint, s.networks, NetworkNode, NETWORK_SCHEMA);
    var tail, tailS := ServiceTail(s), TAIL_SCHEMA;
    var a, aS := Pair(Texts(s.expose), tail), PairS(ManyS(TextS), tailS);
    Prepend(Varint, Texts(s.expose), tail, ManyS(TextS), tailS);
    var b, bS := Pair(NetworkNodes(s.networks), a), PairS(ManyS(NETWORK_SCHEMA), aS);
    Prepend(Varint, NetworkNodes(s.networks), a, ManyS(NETWORK_SCHEMA), aS);
    var c, cS := Pair(Texts(s.entrypoint), b), PairS(ManyS(TextS), bS);
    Prepend(Varint, Texts(s.entrypoint), b, ManyS(TextS), bS);
    var d, dS := Pair(Texts(s.command), c), PairS(ManyS(TextS), cS);
    Prepend(Varint, Texts(s.command), c, ManyS(TextS), cS);
    Prepend(Varint, Text(s.networkMode), d, TextS, dS);
    Prepend(Varint, ImageNode(s.image), Pair(Text(s.networkMode), d), IMAGE_SCHEMA, PairS(TextS, dS));
    Prepend(Varint, Text(s.name), Pair(ImageNode(s.image), Pair(Text(s.networkMode), d)), TextS, PairS(IMAGE_SCHEMA, PairS(TextS, dS)));
    Prepend(Varint, Text(s.id), Pair(Text(s.name), Pair(ImageNode(s.image), Pair(Text(s.networkMode), d))), TextS,
            PairS(TextS, PairS(IMAGE_SCHEMA, PairS(TextS, dS))));
  }

  lemma {:induction false} PlanConforms(p: Plan)
    requires SizedPlan(p)
    ensures Conforms(Varint, PlanNode(p), PLAN_SCHEMA)
  {
    hide ServiceNode;
    hide SizedService;
    forall s | s in p.services ensures Conforms(Varint, ServiceNode(s), SERVICE_SCHEMA) { ServiceConforms(s); }
    var services := ManyOf(p.services, ServiceNode);
    ManyConforms(Varint, p.services, ServiceNode, SERVICE_SCHEMA);
    ManyConforms(Varint, p.files, FileNode, NAMED_SCHEMA);
    Prepend(Varint, Many(services), Many(ManyOf(p.files, FileNode)), ManyS(SERVICE_SCHEMA), ManyS(NAMED_SCHEMA));
    Prepend(Varint, Text(PLAN_TAG), Pair(Many(services), Many(ManyOf(p.files, FileNode))), TextS,
            PairS(ManyS(SERVICE_SCHEMA), ManyS(NAMED_SCHEMA)));
  }

  function ReadNetwork(n: Node): Option<Network> {
    match n
    case Pair(Text(name), Pair(aliases, Pair(Text(address), Number(priority)))) =>
      (match ReadTexts(aliases) case Some(ts) => Some(Network(name, ts, address, Signed(priority))) case None => None)
    case _ => None
  }

  function ReadMount(n: Node): Option<Mount> {
    match n
    case Pair(Text(source), Pair(Text(target), Pair(Text(kind), Flag(readOnly)))) => Some(Mount(source, target, kind, readOnly))
    case _ => None
  }

  function ReadNamed(n: Node): Option<Named> {
    match n
    case Pair(Text(name), Text(value)) => Some(Named(name, value))
    case _ => None
  }

  function ReadFile(n: Node): Option<File> {
    match n
    case Pair(Text(path), Text(content)) => Some(File(path, content))
    case _ => None
  }

  function ReadHealth(n: Node): Option<Health> {
    match n
    case Pair(command, Pair(Number(interval), Pair(Number(timeout), Pair(Number(start), Number(retries))))) =>
      (match ReadTexts(command) case Some(ts) => Some(Health(ts, interval, timeout, start, retries)) case None => None)
    case _ => None
  }

  function ReadHealthField(n: Node): Option<Option<Health>> {
    match n
    case Maybe(None) => Some(None)
    case Maybe(Some(h)) => (match ReadHealth(h) case Some(health) => Some(Some(health)) case None => None)
    case _ => None
  }

  function ReadList<T>(n: Node, read: Node -> Option<T>): Option<seq<T>> { if n.Many? then ReadMany(n.items, read) else None }

  datatype Tail = Tail(restart: Bytes, replicas: nat, mounts: seq<Mount>, dependencies: seq<Named>, secrets: seq<Named>,
                       observation: Bytes, health: Option<Health>)

  function ReadTail(n: Node): Option<Tail> {
    match n
    case Pair(Text(restart), Pair(Number(replicas), Pair(mounts, Pair(dependencies, Pair(secrets, Pair(Text(observation), health)))))) =>
      var ms, ds, ss, h := ReadList(mounts, ReadMount), ReadList(dependencies, ReadNamed), ReadList(secrets, ReadNamed), ReadHealthField(health);
      if ms.None? || ds.None? || ss.None? || h.None? then None
      else Some(Tail(restart, replicas, ms.value, ds.value, ss.value, observation, h.value))
    case _ => None
  }

  function ReadService(n: Node): Option<Service> {
    match n
    case Pair(Text(id), Pair(Text(name), Pair(image, Pair(Text(mode), Pair(command, Pair(entrypoint, Pair(networks, Pair(expose, tail)))))))) =>
      var i, c, e, ns, x, t := ReadImage(image), ReadTexts(command), ReadTexts(entrypoint), ReadList(networks, ReadNetwork), ReadTexts(expose), ReadTail(tail);
      if i.None? || c.None? || e.None? || ns.None? || x.None? || t.None? then None
      else Some(Service(id, name, i.value, mode, c.value, e.value, ns.value, x.value, t.value.restart, t.value.replicas,
                        t.value.mounts, t.value.dependencies, t.value.secrets, t.value.observation, t.value.health))
    case _ => None
  }

  function ReadPlanNode(n: Node): Option<Plan> {
    match n
    case Pair(Text(tag), Pair(services, files)) =>
      var ss, fs := ReadList(services, ReadService), ReadList(files, ReadFile);
      if tag != PLAN_TAG || ss.None? || fs.None? then None else Some(Plan(ss.value, fs.value))
    case _ => None
  }

  /** Reads a plan back from its canonical bytes. */
  function ReadPlan(bytes: Bytes): Option<Plan> {
    match Decode(Varint, PLAN_SCHEMA, bytes)
    case None => None
    case Some(read) => if read.rest == [] then ReadPlanNode(read.value) else None
  }

  lemma {:induction false} ListReads<T>(xs: seq<T>, node: T -> Node, read: Node -> Option<T>)
    requires forall x :: x in xs ==> read(node(x)) == Some(x)
    ensures ReadList(Many(ManyOf(xs, node)), read) == Some(xs)
  {
    ReadManyOf(xs, node, read);
  }

  lemma {:induction false} NetworkReads(n: Network)
    requires -HALF <= n.gatewayPriority < HALF
    ensures ReadNetwork(NetworkNode(n)) == Some(n)
  {
    TextsRead(n.aliases);
  }

  lemma {:induction false} TailReads(s: Service)
    ensures ReadTail(ServiceTail(s)) ==
            Some(Tail(s.restart, s.replicas, s.mounts, s.dependencies, s.secrets, s.observation, s.health))
  {
    hide ReadList;
    ListReads(s.mounts, MountNode, ReadMount);
    ListReads(s.dependencies, NamedNode, ReadNamed);
    ListReads(s.secrets, NamedNode, ReadNamed);
    if s.health.Some? { TextsRead(s.health.value.command); }
  }

  lemma {:induction false} ServiceReads(s: Service)
    requires SizedService(s)
    ensures ReadService(ServiceNode(s)) == Some(s)
  {
    hide ReadList;
    hide ReadTail;
    hide ServiceTail;
    hide ReadImage;
    hide ReadTexts;
    hide Texts;
    TailReads(s);
    ImageReads(s.image);
    TextsRead(s.command);
    TextsRead(s.entrypoint);
    TextsRead(s.expose);
    forall n | n in s.networks ensures ReadNetwork(NetworkNode(n)) == Some(n) { NetworkReads(n); }
    hide ReadNetwork;
    hide NetworkNode;
    ListReads(s.networks, NetworkNode, ReadNetwork);
  }

  lemma {:induction false} PlanNodeReads(p: Plan)
    requires SizedPlan(p)
    ensures ReadPlanNode(PlanNode(p)) == Some(p)
  {
    hide ReadList;
    hide ReadService;
    hide ServiceNode;
    hide SizedService;
    forall s | s in p.services ensures ReadService(ServiceNode(s)) == Some(s) { ServiceReads(s); }
    ListReads(p.services, ServiceNode, ReadService);
    ListReads(p.files, FileNode, ReadFile);
  }

  lemma {:induction false} NormalisedSized(p: Plan)
    requires SizedPlan(p)
    ensures SizedPlan(Normalised(p))
  {
    hide SizedService;
    NormalisedMembers(p);
    assert |multiset(p.services)| == |p.services| && |multiset(Normalised(p).services)| == |Normalised(p).services|;
    assert |multiset(p.files)| == |p.files| && |multiset(Normalised(p).files)| == |Normalised(p).files|;
  }

  /** Reading a plan's bytes gives the normalised plan back. */
  lemma {:induction false} ReadPlanBytes(p: Plan)
    requires SizedPlan(p)
    ensures ReadPlan(PlanBytes(p)) == Some(Normalised(p))
  {
    NormalisedSized(p);
    PlanConforms(Normalised(p));
    PlanNodeReads(Normalised(p));
    hide Normalised;
    hide PlanNode;
    hide ReadPlanNode;
    var bytes := PlanBytes(p);
    DecodeEncode(Varint, PlanNode(Normalised(p)), PLAN_SCHEMA, []);
    assert bytes + [] == bytes;
  }

  /** Two plans have the same bytes exactly when they normalise to the same plan. */
  lemma {:induction false} SameBytesSamePlan(p: Plan, q: Plan)
    requires SizedPlan(p) && SizedPlan(q)
    ensures (PlanBytes(p) == PlanBytes(q) <==> Normalised(p) == Normalised(q))
  {
    ReadPlanBytes(p);
    ReadPlanBytes(q);
  }

  /** With distinct (ID, name) and distinct paths, no reordering changes the bytes. */
  lemma {:induction false} PlanOrderIndependent(p: Plan, q: Plan)
    requires multiset(p.services) == multiset(q.services) && multiset(p.files) == multiset(q.files)
    requires DistinctKeys(p.services, ServiceKey) && DistinctKeys(p.files, PathKey)
    ensures PlanBytes(p) == PlanBytes(q)
  {
    SortPermutes(p.services, q.services, ServiceKey, 2);
    SortPermutes(p.files, q.files, PathKey, 1);
  }

  /** The sort is stable, so without distinct keys the order does change the bytes. */
  lemma {:induction false} EqualKeysKeepTheirOrder(a: Service, b: Service)
    requires SizedService(a) && SizedService(b) && ServiceKey(a) == ServiceKey(b) && a != b
    ensures var p, q := Plan([a, b], []), Plan([b, a], []);
      PlanBytes(p) != PlanBytes(q)
  {
    hide SizedService;
    var p, q := Plan([a, b], []), Plan([b, a], []);
    KeyOrder(ServiceKey(a), ServiceKey(b));
    hide ServiceKey;
    SameBytesSamePlan(p, q);
    assert [a, b][1..] == [b] && [b, a][1..] == [a] && [b][1..] == [] && [a][1..] == [];
    assert Sort([b], ServiceKey) == [b] && Sort([a], ServiceKey) == [a];
    assert Sort([a, b], ServiceKey) == [a, b];
    assert Sort([b, a], ServiceKey) == [b, a];
    assert [a, b][0] != [b, a][0];
  }

  /** The same services and files in any order. */
  predicate Reordered(p: Plan, q: Plan) { multiset(p.services) == multiset(q.services) && multiset(p.files) == multiset(q.files) }

  lemma {:induction false} ReorderedSized(p: Plan, q: Plan)
    requires SizedPlan(p) && Reordered(p, q)
    ensures SizedPlan(q)
  {
    hide SizedService;
    assert |multiset(p.services)| == |p.services| && |multiset(q.services)| == |q.services|;
    assert |multiset(p.files)| == |p.files| && |multiset(q.files)| == |q.files|;
    forall s | s in q.services ensures SizedService(s) { assert s in multiset(q.services) && s in multiset(p.services); }
    forall f | f in q.files ensures Long(f.path) && Long(f.content) { assert f in multiset(q.files) && f in multiset(p.files); }
  }

  lemma {:induction false} ReorderedBytes(p: Plan, q: Plan)
    requires SizedPlan(p) && Reordered(p, q)
    ensures PlanBytes(q) == PlanBytes(p) <==>
            Sort(q.services, ServiceKey) == Sort(p.services, ServiceKey) && Sort(q.files, PathKey) == Sort(p.files, PathKey)
  {
    hide SizedPlan, PlanBytes, Reordered, Sort, ServiceKey, PathKey;
    ReorderedSized(p, q);
    SameBytesSamePlan(p, q);
  }

  /** If no reordering shows, none of the services shows, and none of the files. */
  lemma {:induction false} NothingShows(p: Plan)
    requires SizedPlan(p) && forall q :: Reordered(p, q) ==> PlanBytes(q) == PlanBytes(p)
    ensures KeysDecide(p.services, ServiceKey) && KeysDecide(p.files, PathKey)
  {
    hide SizedPlan, PlanBytes, Sort, ServiceKey, PathKey;
    forall services | multiset(services) == multiset(p.services) ensures Sort(services, ServiceKey) == Sort(p.services, ServiceKey) {
      var q := p.(services := services);
      assert Reordered(p, q);
      ReorderedBytes(p, q);
    }
    forall files | multiset(files) == multiset(p.files) ensures Sort(files, PathKey) == Sort(p.files, PathKey) {
      var q := p.(files := files);
      assert Reordered(p, q);
      ReorderedBytes(p, q);
    }
    KeysFit(p);
    SortDecided(p.services, ServiceKey, 2);
    SortDecided(p.files, PathKey, 1);
  }

  lemma {:induction false} KeysFit(p: Plan)
    ensures Uniform(p.services, ServiceKey, 2) && Uniform(p.files, PathKey, 1)
  {}

  /**
   When the order of a plan's services and files decides nothing: exactly when services of one (ID, name) are
   equal, and files of one path.
   */
  lemma {:induction false} OrderDecidesNothing(p: Plan)
    requires SizedPlan(p)
    ensures (forall q :: Reordered(p, q) ==> PlanBytes(q) == PlanBytes(p)) <==>
            KeysDecide(p.services, ServiceKey) && KeysDecide(p.files, PathKey)
  {
    KeysFit(p);
    hide SizedPlan, PlanBytes, Sort, ServiceKey, PathKey, KeysDecide;
    if KeysDecide(p.services, ServiceKey) && KeysDecide(p.files, PathKey) {
      forall q | Reordered(p, q) ensures PlanBytes(q) == PlanBytes(p) {
        SortAlike(p.services, q.services, ServiceKey, 2);
        SortAlike(p.files, q.files, PathKey, 1);
        ReorderedBytes(p, q);
      }
    }
    if forall q :: Reordered(p, q) ==> PlanBytes(q) == PlanBytes(p) { NothingShows(p); }
  }
}
