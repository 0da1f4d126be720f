/** The sealed capsule that tells the PostgreSQL helper gate what to run: its layout, parsing and what it accepts. */
module Capsule {
  import opened Outcomes
  import opened Wire
  import opened Numbers

  const HEADER := 186
  const MAX_SIZE := 32768
  const STORAGE := 16416
  const MAX_ARGUMENT := 4096
  const MAX_ARGUMENTS := 32

  const MAGIC := Ascii("GPPG16G1")

  /** The widths of the header's fields, in order. */
  const WIDTHS: seq<nat> := [8, 4, 32, 32, 4, 8, 16, 8, 8, 8, 8, 8, 8, 32, 1, 1]

  datatype Intent = Intent(nonce: Bytes, intentSha: Bytes, parentPid: nat, parentStart: nat, bootId: Bytes, deadline: nat,
                           gateDev: nat, gateIno: nat, clientDev: nat, clientIno: nat, clientSize: nat, clientSha: Bytes,
                           operation: nat, arguments: seq<Bytes>)

  function Sum(widths: seq<nat>): nat { if widths == [] then 0 else widths[0] + Sum(widths[1..]) }

  function Join(fields: seq<Bytes>): Bytes { if fields == [] then [] else fields[0] + Join(fields[1..]) }

  predicate Widths(fields: seq<Bytes>, widths: seq<nat>) {
    |fields| == |widths| && forall i :: 0 <= i < |fields| ==> |fields[i]| == widths[i]
  }

  function Split(s: Bytes, widths: seq<nat>): (fields: seq<Bytes>)
    requires |s| == Sum(widths)
    ensures Widths(fields, widths)
    decreases widths
  {
    if widths == [] then [] else [s[..widths[0]]] + Split(s[widths[0]..], widths[1..])
  }

  lemma {:induction false} JoinSplit(s: Bytes, widths: seq<nat>)
    requires |s| == Sum(widths)
    ensures Join(Split(s, widths)) == s
    decreases widths
  {
    if widths != [] {
      JoinSplit(s[widths[0]..], widths[1..]);
      assert s == s[..widths[0]] + s[widths[0]..];
    }
  }

  lemma {:induction false} Cut(a: Bytes, b: Bytes)
    ensures (a + b)[..|a|] == a && (a + b)[|a|..] == b
  {}

  lemma {:induction false} SplitJoin(fields: seq<Bytes>, widths: seq<nat>)
    requires Widths(fields, widths)
    ensures |Join(fields)| == Sum(widths) && Split(Join(fields), widths) == fields
    decreases fields
  {
    if fields != [] {
      forall i | 0 <= i < |fields[1..]| ensures |fields[1..][i]| == widths[1..][i] { assert fields[1..][i] == fields[i + 1]; }
      SplitJoin(fields[1..], widths[1..]);
      Cut(fields[0], Join(fields[1..]));
      assert fields == [fields[0]] + fields[1..];
    }
  }

  /** An argument is short, not empty and free of NUL. */
  predicate Argument(a: Bytes) { 0 < |a| <= MAX_ARGUMENT && 0 !in a }

  /** The room that arguments take with their terminators. */
  function Room(arguments: seq<Bytes>): nat { if arguments == [] then 0 else |arguments[0]| + 1 + Room(arguments[1..]) }

  predicate WellFormed(c: Intent) {
    && |c.nonce| == 32 && |c.intentSha| == 32 && |c.bootId| == 16 && |c.clientSha| == 32
    && 0 < c.parentPid < Limit(4) && 0 < c.parentStart < Limit(8) && 0 < c.deadline < Limit(8)
    && c.gateDev < Limit(8) && c.gateIno < Limit(8) && c.clientDev < Limit(8) && c.clientIno < Limit(8) && c.clientSize < Limit(8)
    && 1 <= c.operation <= 10
    && 1 <= |c.arguments| <= MAX_ARGUMENTS && (forall a :: a in c.arguments ==> Argument(a)) && Room(c.arguments) <= STORAGE
  }

  function Fields(c: Intent): seq<Bytes> {
    [MAGIC, Digits(4, 1), c.nonce, c.intentSha, Digits(4, c.parentPid), Digits(8, c.parentStart), c.bootId, Digits(8, c.deadline),
     Digits(8, c.gateDev), Digits(8, c.gateIno), Digits(8, c.clientDev), Digits(8, c.clientIno), Digits(8, c.clientSize),
     c.clientSha, Digits(1, c.operation), Digits(1, |c.arguments|)]
  }

  function EncodeArguments(arguments: seq<Bytes>): Bytes {
    if arguments == [] then [] else Digits(2, |arguments[0]|) + arguments[0] + EncodeArguments(arguments[1..])
  }

  function EncodeIntent(c: Intent): Bytes { Join(Fields(c)) + EncodeArguments(c.arguments) }

  /** The arguments that fill the bytes exactly, while their storage lasts. */
  function ParseArguments(s: Bytes, count: nat, room: nat): Option<seq<Bytes>> {
    if count == 0 then if s == [] then Some([]) else None
    else if |s| < 2 then None
    else
      var length := Value(s[..2]);
      if length == 0 || length > MAX_ARGUMENT || 2 + length > |s| || 0 in s[2..2 + length] || length + 1 > room then None
      else match ParseArguments(s[2 + length..], count - 1, room - (length + 1))
        case None => None
        case Some(more) => Some([s[2..2 + length]] + more)
  }

  function FromFields(f: seq<Bytes>, arguments: seq<Bytes>): Intent
    requires |f| == 16
  {
    Intent(f[2], f[3], Value(f[4]), Value(f[5]), f[6], Value(f[7]), Value(f[8]), Value(f[9]), Value(f[10]), Value(f[11]), Value(f[12]),
           f[13], Value(f[14]), arguments)
  }

  predicate Acceptable(f: seq<Bytes>)
    requires |f| == 16
  {
    && f[0] == MAGIC && Value(f[1]) == 1
    && Value(f[4]) != 0 && Value(f[5]) != 0 && Value(f[7]) != 0
    && 1 <= Value(f[14]) <= 10 && 1 <= Value(f[15]) <= MAX_ARGUMENTS
  }

  function Header(s: Bytes): (f: seq<Bytes>)
    requires |s| >= HEADER
    ensures Widths(f, WIDTHS) && |f| == 16
  {
    assert Sum(WIDTHS) == HEADER by { WidthsSum(); }
    Split(s[..HEADER], WIDTHS)
  }

  lemma {:induction false} WidthsSum()
    ensures Sum(WIDTHS) == HEADER && |WIDTHS| == 16
  {
    assert Sum([1, 1]) == 2;
    assert Sum([8, 32, 1, 1]) == 42;
    assert Sum([8, 8, 8, 32, 1, 1]) == 58;
    assert Sum([8, 8, 8, 8, 8, 32, 1, 1]) == 74;
    assert Sum([16, 8, 8, 8, 8, 8, 8, 32, 1, 1]) == 98;
    assert Sum([4, 8, 16, 8, 8, 8, 8, 8, 8, 32, 1, 1]) == 110;
    assert Sum([32, 32, 4, 8, 16, 8, 8, 8, 8, 8, 8, 32, 1, 1]) == 174;
  }

  function Parse(s: Bytes): Option<Intent> {
    if |s| < HEADER || |s| > MAX_SIZE then None
    else
      var f := Header(s);
      if !Acceptable(f) then None
      else match ParseArguments(s[HEADER..], Value(f[15]), STORAGE)
        case None => None
        case Some(arguments) => Some(FromFields(f, arguments))
  }

  lemma {:induction false} CutTwice(a: Bytes, b: Bytes, c: Bytes)
    ensures var s := a + b + c; s[..|a|] == a && s[|a|..|a| + |b|] == b && s[|a| + |b|..] == c
  {}

  /** An encoded argument is read back, and then what follows it. */
  lemma {:induction false} ArgumentRead(a: Bytes, rest: Bytes, count: nat, room: nat)
    requires Argument(a) && |a| + 1 <= room && count > 0
    ensures ParseArguments(Digits(2, |a|) + a + rest, count, room) ==
            match ParseArguments(rest, count - 1, room - (|a| + 1)) case None => None case Some(more) => Some([a] + more)
  {
    Limits();
    ValueDigits(2, |a|);
    hide Digits, Value, Limit;
    CutTwice(Digits(2, |a|), a, rest);
  }

  lemma {:induction false} ParseEncodedArguments(arguments: seq<Bytes>, room: nat)
    requires (forall a :: a in arguments ==> Argument(a)) && Room(arguments) <= room
    ensures ParseArguments(EncodeArguments(arguments), |arguments|, room) == Some(arguments)
    decreases |arguments|
  {
    if arguments != [] {
      var a, rest := arguments[0], EncodeArguments(arguments[1..]);
      assert Argument(a);
      ParseEncodedArguments(arguments[1..], room - (|a| + 1));
      ArgumentRead(a, rest, |arguments|, room);
      assert [a] + arguments[1..] == arguments;
    }
  }

  lemma {:induction false} EncodeParsedArguments(s: Bytes, count: nat, room: nat)
    requires ParseArguments(s, count, room).Some?
    ensures var arguments := ParseArguments(s, count, room).value;
      && EncodeArguments(arguments) == s && |arguments| == count && (forall a :: a in arguments ==> Argument(a)) && Room(arguments) <= room
    decreases count
  {
    if count > 0 {
      var length := Value(s[..2]);
      var a, more := s[2..2 + length], ParseArguments(s[2 + length..], count - 1, room - (length + 1)).value;
      EncodeParsedArguments(s[2 + length..], count - 1, room - (length + 1));
      DigitsValue(s[..2]);
      var arguments := [a] + more;
      assert arguments[1..] == more;
      assert s == s[..2] + a + s[2 + length..];
    }
  }

  lemma {:induction false} ArgumentBytes(arguments: seq<Bytes>)
    ensures |EncodeArguments(arguments)| == Room(arguments) + |arguments|
    decreases |arguments|
  {
    if arguments != [] { ArgumentBytes(arguments[1..]); }
  }

  /** The widths of the header's fields one by one. */
  predicate Headed(f: seq<Bytes>) {
    && |f| == 16 && |f[0]| == 8 && |f[1]| == 4 && |f[2]| == 32 && |f[3]| == 32 && |f[4]| == 4 && |f[5]| == 8 && |f[6]| == 16
    && |f[7]| == 8 && |f[8]| == 8 && |f[9]| == 8 && |f[10]| == 8 && |f[11]| == 8 && |f[12]| == 8 && |f[13]| == 32
    && |f[14]| == 1 && |f[15]| == 1
  }

  lemma {:induction false} HeadedWidths(f: seq<Bytes>)
    requires Headed(f)
    ensures Widths(f, WIDTHS)
  {}

  lemma {:induction false} FieldsHeaded(c: Intent)
    requires WellFormed(c)
    ensures Headed(Fields(c))
  {
    hide Value, Limit, Room, Argument;
  }

  /** Encoded numbers are read back. */
  lemma {:induction false} FieldsRead(c: Intent)
    requires WellFormed(c)
    ensures Acceptable(Fields(c)) && FromFields(Fields(c), c.arguments) == c && Value(Fields(c)[15]) == |c.arguments|
  {
    Limits();
    ValueDigits(4, 1);
    ValueDigits(4, c.parentPid);
    ValueDigits(8, c.parentStart);
    ValueDigits(8, c.deadline);
    ValueDigits(8, c.gateDev);
    ValueDigits(8, c.gateIno);
    ValueDigits(8, c.clientDev);
    ValueDigits(8, c.clientIno);
    ValueDigits(8, c.clientSize);
    ValueDigits(1, c.operation);
    ValueDigits(1, |c.arguments|);
    hide Limit, Value, Digits, Room, Argument;
  }

  lemma {:induction false} FieldsFit(c: Intent)
    requires WellFormed(c)
    ensures Widths(Fields(c), WIDTHS) && Acceptable(Fields(c)) && FromFields(Fields(c), c.arguments) == c && Value(Fields(c)[15]) == |c.arguments|
  {
    FieldsHeaded(c);
    FieldsRead(c);
    hide Fields, Acceptable, FromFields, Value, Widths, WellFormed;
    HeadedWidths(Fields(c));
  }

  /** A header and its arguments are parsed apart. */
  lemma {:induction false} ParseApart(f: seq<Bytes>, arguments: Bytes)
    requires Widths(f, WIDTHS) && |f| == 16 && HEADER + |arguments| <= MAX_SIZE
    ensures var s := Join(f) + arguments; HEADER <= |s| <= MAX_SIZE && Header(s) == f && s[HEADER..] == arguments
  {
    WidthsSum();
    SplitJoin(f, WIDTHS);
    hide Split, Join, Sum;
    Cut(Join(f), arguments);
  }

  /** A well-formed capsule is accepted, as itself. */
  lemma {:induction false} ParseEncode(c: Intent)
    requires WellFormed(c)
    ensures Parse(EncodeIntent(c)) == Some(c)
  {
    FieldsFit(c);
    ArgumentBytes(c.arguments);
    ParseEncodedArguments(c.arguments, STORAGE);
    hide Fields, Acceptable, FromFields, Header, Join, EncodeArguments, ParseArguments, Value;
    ParseApart(Fields(c), EncodeArguments(c.arguments));
  }

  lemma {:induction false} ArgumentsKept(f: seq<Bytes>, arguments: seq<Bytes>)
    requires |f| == 16
    ensures FromFields(f, arguments).arguments == arguments
  {}

  lemma {:induction false} HeaderJoins(s: Bytes)
    requires HEADER <= |s|
    ensures Join(Header(s)) == s[..HEADER]
  {
    WidthsSum();
    JoinSplit(s[..HEADER], WIDTHS);
  }

  /** Whatever is accepted is the encoding of the well-formed capsule it is taken for. */
  lemma {:induction false} EncodeParse(s: Bytes)
    requires Parse(s).Some?
    ensures WellFormed(Parse(s).value) && EncodeIntent(Parse(s).value) == s
  {
    hide Acceptable, FromFields, EncodeArguments, ParseArguments, Value, WellFormed, Fields, Join, Split, Sum, Header, Widths, Room, Argument;
    var f := Header(s);
    var arguments := ParseArguments(s[HEADER..], Value(f[15]), STORAGE).value;
    EncodeParsedArguments(s[HEADER..], Value(f[15]), STORAGE);
    HeaderFields(f, arguments);
    ArgumentsKept(f, arguments);
    HeaderJoins(s);
    assert s == s[..HEADER] + s[HEADER..];
  }

  lemma {:induction false} HeaderFields(f: seq<Bytes>, arguments: seq<Bytes>)
    requires Widths(f, WIDTHS) && |f| == 16 && Acceptable(f) && Value(f[15]) == |arguments|
    requires (forall a :: a in arguments ==> Argument(a)) && Room(arguments) <= STORAGE
    ensures WellFormed(FromFields(f, arguments)) && Fields(FromFields(f, arguments)) == f
  {
    assert Headed(f);
    hide Widths, Argument, Room;
    HeaderWellFormed(f, arguments);
    HeaderAgain(f, arguments);
  }

  lemma {:induction false} HeaderWellFormed(f: seq<Bytes>, arguments: seq<Bytes>)
    requires Headed(f) && Acceptable(f) && Value(f[15]) == |arguments|
    requires (forall a :: a in arguments ==> Argument(a)) && Room(arguments) <= STORAGE
    ensures WellFormed(FromFields(f, arguments))
  {
    hide Value, Digits, Limit, Room, Argument;
    DigitsValue(f[4]);
    DigitsValue(f[5]);
    DigitsValue(f[7]);
    DigitsValue(f[8]);
    DigitsValue(f[9]);
    DigitsValue(f[10]);
    DigitsValue(f[11]);
    DigitsValue(f[12]);
  }

  lemma {:induction false} HeaderAgain(f: seq<Bytes>, arguments: seq<Bytes>)
    requires Headed(f) && Acceptable(f) && Value(f[15]) == |arguments|
    ensures Fields(FromFields(f, arguments)) == f
  {
    hide Value, Digits;
    DigitsValue(f[1]);
    DigitsValue(f[4]);
    DigitsValue(f[5]);
    DigitsValue(f[7]);
    DigitsValue(f[8]);
    DigitsValue(f[9]);
    DigitsValue(f[10]);
    DigitsValue(f[11]);
    DigitsValue(f[12]);
    DigitsValue(f[14]);
    DigitsValue(f[15]);
    assert f == [f[0], f[1], f[2], f[3], f[4], f[5], f[6], f[7], f[8], f[9], f[10], f[11], f[12], f[13], f[14], f[15]];
  }

  /** Exactly the encodings of well-formed capsules are accepted, and no two of them alike. */
  lemma {:induction false} AcceptsExactlyEncodings(s: Bytes)
    ensures Parse(s).Some? <==> exists c :: WellFormed(c) && EncodeIntent(c) == s
    ensures forall t :: Parse(s).Some? && Parse(t) == Parse(s) ==> t == s
  {
    if Parse(s).Some? {
      EncodeParse(s);
      forall t | Parse(t) == Parse(s) ensures t == s { EncodeParse(t); }
    }
    forall c | WellFormed(c) && EncodeIntent(c) == s ensures Parse(s).Some? { ParseEncode(c); }
  }
}
