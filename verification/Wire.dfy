/**
 The byte encodings behind the digests of the component SDK. A value is written as a tree of fields; the
 counts of texts and lists are four big-endian bytes or an unsigned variable-length integer. Decoding by the
 tree's schema undoes the encoding wherever every count fits, so the encodings are prefix-free.
 */
module Wire {
  import opened Outcomes

  type Byte = x: int | 0 <= x < 0x100
  type Bytes = seq<Byte>

  const WORD := 0x1_0000_0000
  const LONG := 0x1_0000_0000_0000_0000

  /** The bytes of an ASCII text. */
  function Ascii(text: string): (bytes: Bytes)
    ensures |bytes| == |text|
  {
    seq(|text|, i requires 0 <= i < |text| => text[i] as int % 0x100)
  }

  /** What a stream of reads gives until the first empty one. */
  function Content(chunks: seq<Bytes>): Bytes {
    if chunks == [] || chunks[0] == [] then [] else chunks[0] + Content(chunks[1..])
  }

  datatype Width = Word | Varint

  datatype Node =
    | Text(text: Bytes)
    | Fixed(bytes: Bytes)
    | Number(number: nat)
    | Flag(flag: bool)
    | Many(items: seq<Node>)
    | Maybe(item: Option<Node>)
    | Pair(first: Node, second: Node)

  datatype Schema =
    | TextS
    | FixedS(size: nat)
    | NumberS
    | FlagS
    | ManyS(of: Schema)
    | MaybeS(of: Schema)
    | PairS(first: Schema, second: Schema)

  /** A count truncated to 32 bits, most significant byte first. */
  function BigEndian(value: nat): Bytes {
    var second := value / 0x100;
    var third := second / 0x100;
    var fourth := third / 0x100;
    [fourth % 0x100, third % 0x100, second % 0x100, value % 0x100]
  }

  /** Seven bits a byte, least significant first; the high bit marks that more follow. */
  function Uvarint(value: nat): Bytes {
    if value < 0x80 then [value] else [value % 0x80 + 0x80] + Uvarint(value / 0x80)
  }

  function Count(w: Width, value: nat): Bytes { if w.Word? then BigEndian(value) else Uvarint(value) }

  /** The counts that the encoding does not truncate. */
  predicate Countable(w: Width, value: nat) { if w.Word? then value < WORD else value < LONG }

  function Encode(w: Width, n: Node): Bytes
    decreases n
  {
    match n
    case Text(text) => Count(w, |text|) + text
    case Fixed(bytes) => bytes
    case Number(number) => Uvarint(number)
    case Flag(flag) => [if flag then 1 else 0]
    case Many(items) => Count(w, |items|) + EncodeAll(w, items)
    case Maybe(item) => if item.Some? then [1] + Encode(w, item.value) else [0]
    case Pair(first, second) => Encode(w, first) + Encode(w, second)
  }

  function EncodeAll(w: Width, items: seq<Node>): Bytes
    decreases items
  {
    if items == [] then [] else Encode(w, items[0]) + EncodeAll(w, items[1..])
  }

  /** The node has the schema's shape and every count in it fits. */
  predicate Conforms(w: Width, n: Node, schema: Schema)
    decreases n
  {
    match n
    case Text(text) => schema.TextS? && Countable(w, |text|)
    case Fixed(bytes) => schema.FixedS? && |bytes| == schema.size
    case Number(number) => schema.NumberS? && number < LONG
    case Flag(_) => schema.FlagS?
    case Many(items) =>
      schema.ManyS? && Countable(w, |items|) && forall i :: 0 <= i < |items| ==> Conforms(w, items[i], schema.of)
    case Maybe(item) => schema.MaybeS? && (item.Some? ==> Conforms(w, item.value, schema.of))
    case Pair(first, second) => schema.PairS? && Conforms(w, first, schema.first) && Conforms(w, second, schema.second)
  }

  /** A value and the bytes after it. */
  datatype Read<+T> = Read(value: T, rest: Bytes)

  function ReadBigEndian(s: Bytes): Option<Read<nat>> {
    if |s| < 4 then None
    else Some(Read(((s[0] as nat * 0x100 + s[1]) * 0x100 + s[2]) * 0x100 + s[3], s[4..]))
  }

  function ReadUvarint(s: Bytes): Option<Read<nat>> {
    if s == [] then None
    else if s[0] < 0x80 then Some(Read(s[0], s[1..]))
    else
      match ReadUvarint(s[1..])
      case None => None
      case Some(more) => Some(Read(more.value * 0x80 + (s[0] - 0x80), more.rest))
  }

  function ReadCount(w: Width, s: Bytes): Option<Read<nat>> { if w.Word? then ReadBigEndian(s) else ReadUvarint(s) }

  function Take(n: nat, s: Bytes): Option<Read<Bytes>> {
    if |s| < n then None else Some(Read(s[..n], s[n..]))
  }

  function Decode(w: Width, schema: Schema, s: Bytes): Option<Read<Node>>
    decreases schema, 0
  {
    match schema
    case TextS => (match ReadCount(w, s)
                   case None => None
                   case Some(count) => match Take(count.value, count.rest)
                     case None => None
                     case Some(text) => Some(Read(Text(text.value), text.rest)))
    case FixedS(size) => (match Take(size, s) case None => None case Some(bytes) => Some(Read(Fixed(bytes.value), bytes.rest)))
    case NumberS => (match ReadUvarint(s) case None => None case Some(n) => Some(Read(Number(n.value), n.rest)))
    case FlagS => if s == [] || s[0] > 1 then None else Some(Read(Flag(s[0] == 1), s[1..]))
    case ManyS(of) => (match ReadCount(w, s)
                       case None => None
                       case Some(count) => match DecodeAll(w, of, count.value, count.rest)
                         case None => None
                         case Some(items) => Some(Read(Many(items.value), items.rest)))
    case MaybeS(of) =>
      if s == [] || s[0] > 1 then None
      else if s[0] == 0 then Some(Read(Maybe(None), s[1..]))
      else (match Decode(w, of, s[1..]) case None => None case Some(item) => Some(Read(Maybe(Some(item.value)), item.rest)))
    case PairS(first, second) =>
      match Decode(w, first, s)
      case None => None
      case Some(a) => match Decode(w, second, a.rest)
        case None => None
        case Some(b) => Some(Read(Pair(a.value, b.value), b.rest))
  }

  function DecodeAll(w: Width, of: Schema, count: nat, s: Bytes): Option<Read<seq<Node>>>
    decreases of, count + 1
  {
    if count == 0 then Some(Read([], s))
    else
      match Decode(w, of, s)
      case None => None
      case Some(first) => match DecodeAll(w, of, count - 1, first.rest)
        case None => None
        case Some(more) => Some(Read([first.value] + more.value, more.rest))
  }

  lemma {:induction false} BigEndianReads(value: nat, rest: Bytes)
    requires value < WORD
    ensures ReadBigEndian(BigEndian(value) + rest) == Some(Read(value, rest))
  {
    var s := BigEndian(value) + rest;
    assert s[4..] == rest;
    var second := value / 0x100;
    var third := second / 0x100;
    var fourth := third / 0x100;
    assert fourth < 0x100;
    assert s[0] == fourth && s[1] == third % 0x100 && s[2] == second % 0x100 && s[3] == value % 0x100;
  }

  lemma {:induction false} UvarintReads(value: nat, rest: Bytes)
    ensures ReadUvarint(Uvarint(value) + rest) == Some(Read(value, rest))
    decreases value
  {
    var s := Uvarint(value) + rest;
    if value < 0x80 {
      assert s[1..] == rest;
    } else {
      assert s[1..] == Uvarint(value / 0x80) + rest;
      UvarintReads(value / 0x80, rest);
    }
  }

  lemma {:induction false} CountReads(w: Width, value: nat, rest: Bytes)
    requires Countable(w, value)
    ensures ReadCount(w, Count(w, value) + rest) == Some(Read(value, rest))
  {
    if w.Word? { BigEndianReads(value, rest); } else { UvarintReads(value, rest); }
  }

  lemma {:induction false} TakeReads(bytes: Bytes, rest: Bytes)
    ensures Take(|bytes|, bytes + rest) == Some(Read(bytes, rest))
  {
    assert (bytes + rest)[..|bytes|] == bytes && (bytes + rest)[|bytes|..] == rest;
  }

  lemma {:induction false} TextReads(w: Width, text: Bytes, rest: Bytes)
    requires Countable(w, |text|)
    ensures Decode(w, TextS, Encode(w, Text(text)) + rest) == Some(Read(Text(text), rest))
  {
    hide Count;
    hide ReadCount;
    hide Take;
    assert Encode(w, Text(text)) + rest == Count(w, |text|) + (text + rest);
    CountReads(w, |text|, text + rest);
    TakeReads(text, rest);
  }

  lemma {:induction false} LeafReads(w: Width, n: Node, schema: Schema, rest: Bytes)
    requires Conforms(w, n, schema) && (n.Text? || n.Fixed? || n.Number? || n.Flag?)
    ensures Decode(w, schema, Encode(w, n) + rest) == Some(Read(n, rest))
  {
    hide Uvarint;
    hide ReadUvarint;
    hide Take;
    match n
    case Text(text) => TextReads(w, text, rest);
    case Fixed(bytes) => TakeReads(bytes, rest);
    case Number(number) => UvarintReads(number, rest);
    case Flag(_) => assert (Encode(w, n) + rest)[1..] == rest;
  }

  /** Decoding undoes encoding, whatever follows. */
  lemma {:induction false} DecodeEncode(w: Width, n: Node, schema: Schema, rest: Bytes)
    requires Conforms(w, n, schema)
    ensures Decode(w, schema, Encode(w, n) + rest) == Some(Read(n, rest))
    decreases n, 1
  {
    if n.Many? {
      ManyReads(w, n.items, schema.of, rest);
    } else if n.Maybe? {
      MaybeReads(w, n.item, schema.of, rest);
    } else if n.Pair? {
      PairReads(w, n.first, n.second, schema, rest);
    } else {
      LeafReads(w, n, schema, rest);
    }
  }

  lemma {:induction false} ManyReads(w: Width, items: seq<Node>, of: Schema, rest: Bytes)
    requires Conforms(w, Many(items), ManyS(of))
    ensures Decode(w, ManyS(of), Encode(w, Many(items)) + rest) == Some(Read(Many(items), rest))
    decreases items, 1
  {
    hide Count;
    hide ReadCount;
    assert Encode(w, Many(items)) + rest == Count(w, |items|) + (EncodeAll(w, items) + rest);
    CountReads(w, |items|, EncodeAll(w, items) + rest);
    DecodeEncodeAll(w, items, of, rest);
  }

  lemma {:induction false} MaybeReads(w: Width, item: Option<Node>, of: Schema, rest: Bytes)
    requires Conforms(w, Maybe(item), MaybeS(of))
    ensures Decode(w, MaybeS(of), Encode(w, Maybe(item)) + rest) == Some(Read(Maybe(item), rest))
    decreases item, 1
  {
    var s := Encode(w, Maybe(item)) + rest;
    if item.Some? {
      assert s[1..] == Encode(w, item.value) + rest;
      DecodeEncode(w, item.value, of, rest);
    } else {
      assert s[1..] == rest;
    }
  }

  lemma {:induction false} PairReads(w: Width, first: Node, second: Node, schema: Schema, rest: Bytes)
    requires schema.PairS? && Conforms(w, first, schema.first) && Conforms(w, second, schema.second)
    ensures Decode(w, schema, Encode(w, Pair(first, second)) + rest) == Some(Read(Pair(first, second), rest))
    decreases Pair(first, second), 0
  {
    assert Encode(w, Pair(first, second)) + rest == Encode(w, first) + (Encode(w, second) + rest);
    DecodeEncode(w, first, schema.first, Encode(w, second) + rest);
    DecodeEncode(w, second, schema.second, rest);
  }

  lemma {:induction false} DecodeEncodeAll(w: Width, items: seq<Node>, of: Schema, rest: Bytes)
    requires forall i :: 0 <= i < |items| ==> Conforms(w, items[i], of)
    ensures DecodeAll(w, of, |items|, EncodeAll(w, items) + rest) == Some(Read(items, rest))
    decreases items, 0
  {
    if items == [] {
      assert EncodeAll(w, items) + rest == rest;
    } else {
      var after := EncodeAll(w, items[1..]) + rest;
      assert EncodeAll(w, items) + rest == Encode(w, items[0]) + after;
      DecodeEncode(w, items[0], of, after);
      DecodeEncodeAll(w, items[1..], of, rest);
      assert [items[0]] + items[1..] == items;
    }
  }

  /** Prefix-freeness: an encoding is never continued into the encoding of another value of the schema. */
  lemma {:induction false} EncodePrefixFree(w: Width, a: Node, b: Node, schema: Schema, x: Bytes, y: Bytes)
    requires Conforms(w, a, schema) && Conforms(w, b, schema)
    requires Encode(w, a) + x == Encode(w, b) + y
    ensures a == b && x == y
  {
    DecodeEncode(w, a, schema, x);
    DecodeEncode(w, b, schema, y);
  }

  lemma {:induction false} EncodeAllAppend(w: Width, items: seq<Node>, last: Node)
    ensures EncodeAll(w, items + [last]) == EncodeAll(w, items) + Encode(w, last)
    decreases |items|
  {
    if items == [] {
      assert (items + [last])[1..] == [];
    } else {
      assert (items + [last])[1..] == items[1..] + [last];
      EncodeAllAppend(w, items[1..], last);
    }
  }

  /** One more item of a list that is being written. */
  lemma {:induction false} EncodeNext(w: Width, items: seq<Node>, i: nat)
    requires i < |items|
    ensures EncodeAll(w, items[..i + 1]) == EncodeAll(w, items[..i]) + Encode(w, items[i])
  {
    assert items[..i + 1] == items[..i] + [items[i]];
    EncodeAllAppend(w, items[..i], items[i]);
  }

  /** A field before fields that conform. */
  lemma {:induction false} Prepend(w: Width, a: Node, b: Node, sa: Schema, sb: Schema)
    requires Conforms(w, a, sa) && Conforms(w, b, sb)
    ensures Conforms(w, Pair(a, b), PairS(sa, sb))
  {}

  function ManyOf<T>(xs: seq<T>, node: T -> Node): (nodes: seq<Node>)
    ensures |nodes| == |xs| && forall i :: 0 <= i < |xs| ==> nodes[i] == node(xs[i])
  {
    seq(|xs|, i requires 0 <= i < |xs| => node(xs[i]))
  }

  /** The values behind a list of nodes, if each has one. */
  function ReadMany<T>(nodes: seq<Node>, read: Node -> Option<T>): Option<seq<T>> {
    if nodes == [] then Some([])
    else
      match read(nodes[0])
      case None => None
      case Some(first) =>
        match ReadMany(nodes[1..], read)
        case None => None
        case Some(more) => Some([first] + more)
  }

  lemma {:induction false} ReadManyOf<T>(xs: seq<T>, node: T -> Node, read: Node -> Option<T>)
    requires forall x :: x in xs ==> read(node(x)) == Some(x)
    ensures ReadMany(ManyOf(xs, node), read) == Some(xs)
    decreases |xs|
  {
    if xs != [] {
      assert xs[0] in xs;
      assert ManyOf(xs, node)[1..] == ManyOf(xs[1..], node);
      ReadManyOf(xs[1..], node, read);
      assert xs == [xs[0]] + xs[1..];
    }
  }

  lemma {:induction false} ManyConforms<T>(w: Width, xs: seq<T>, node: T -> Node, schema: Schema)
    requires Countable(w, |xs|) && forall x :: x in xs ==> Conforms(w, node(x), schema)
    ensures Conforms(w, Many(ManyOf(xs, node)), ManyS(schema))
  {
    forall i | 0 <= i < |xs| ensures Conforms(w, ManyOf(xs, node)[i], schema) { assert xs[i] in xs; }
  }

  lemma {:induction false} EncodePair(w: Width, a: Node, b: Node)
    ensures Encode(w, Pair(a, b)) == Encode(w, a) + Encode(w, b)
  {}

  lemma {:induction false} EncodeMany(w: Width, items: seq<Node>)
    ensures Encode(w, Many(items)) == Count(w, |items|) + EncodeAll(w, items)
  {}

  function Texts(ts: seq<Bytes>): Node { Many(ManyOf(ts, t => Text(t))) }

  lemma {:induction false} TextsConform(w: Width, ts: seq<Bytes>)
    requires Countable(w, |ts|) && forall t :: t in ts ==> Countable(w, |t|)
    ensures Conforms(w, Texts(ts), ManyS(TextS))
  {
    ManyConforms(w, ts, t => Text(t), TextS);
  }

  function ReadText(n: Node): Option<Bytes> { if n.Text? then Some(n.text) else None }

  function ReadTexts(n: Node): Option<seq<Bytes>> { if n.Many? then ReadMany(n.items, ReadText) else None }

  lemma {:induction false} TextsRead(ts: seq<Bytes>)
    ensures ReadTexts(Texts(ts)) == Some(ts)
  {
    ReadManyOf(ts, t => Text(t), ReadText);
  }

  lemma {:induction false} TextsInjective(a: seq<Bytes>, b: seq<Bytes>)
    requires Texts(a) == Texts(b)
    ensures a == b
  {
    TextsRead(a);
    TextsRead(b);
  }

  method AppendText(w: Width, encoded: Bytes, text: Bytes) returns (r: Bytes)
    ensures r == encoded + Encode(w, Text(text))
  {
    r := encoded + Count(w, |text|);
    r := r + text;
  }

  method AppendTexts(w: Width, encoded: Bytes, ts: seq<Bytes>) returns (r: Bytes)
    ensures r == encoded + Encode(w, Texts(ts))
  {
    hide Count;
    hide Encode;
    r := encoded + Count(w, |ts|);
    ghost var nodes := Texts(ts).items;
    var i := 0;
    while i < |ts|
      invariant 0 <= i <= |ts|
      invariant r == encoded + (Count(w, |ts|) + EncodeAll(w, nodes[..i]))
    {
      r := AppendText(w, r, ts[i]);
      EncodeNext(w, nodes, i);
      i := i + 1;
    }
    assert nodes[..|ts|] == nodes;
    EncodeMany(w, nodes);
  }
}
