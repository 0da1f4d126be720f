/** Reading the capsule into fixed buffers. */
module CapsuleReader {
  import opened Outcomes
  import opened Wire
  import opened Numbers
  import opened Capsule

  lemma {:induction false} SliceOfDrop(s: Bytes, d: nat, from: nat, to: nat)
    requires d + from <= d + to <= |s|
    ensures s[d..][from..to] == s[d + from..d + to]
  {}

  lemma {:induction false} SumDrop(widths: seq<nat>, i: nat)
    requires 0 < i <= |widths|
    ensures Sum(widths[..i]) == widths[0] + Sum(widths[1..][..i - 1])
  {
    assert widths[..i][1..] == widths[1..][..i - 1];
  }

  lemma {:induction false} SplitTail(s: Bytes, widths: seq<nat>, i: nat)
    requires |s| == Sum(widths) && 0 < i < |widths|
    ensures widths[0] <= |s| && |s| - widths[0] == Sum(widths[1..]) && Split(s, widths)[i] == Split(s[widths[0]..], widths[1..])[i - 1]
  {}

  /** A field is the slice behind the widths before it. */
  lemma {:induction false} SplitSlice(s: Bytes, widths: seq<nat>, i: nat)
    requires |s| == Sum(widths) && i < |widths|
    ensures Sum(widths[..i]) + widths[i] <= |s| && Split(s, widths)[i] == s[Sum(widths[..i])..Sum(widths[..i]) + widths[i]]
    decreases i
  {
    if i == 0 {
      assert widths[..0] == [];
    } else {
      SumDrop(widths, i);
      SplitTail(s, widths, i);
      hide Split, Sum, Widths;
      SplitSlice(s[widths[0]..], widths[1..], i - 1);
      var from := Sum(widths[1..][..i - 1]);
      SliceOfDrop(s, widths[0], from, from + widths[i]);
    }
  }

  lemma {:induction false} SumNext(widths: seq<nat>, i: nat)
    requires i < |widths|
    ensures Sum(widths[..i + 1]) == Sum(widths[..i]) + widths[i]
    decreases i
  {
    if i == 0 {
      assert widths[..1] == [widths[0]];
    } else {
      SumNext(widths[1..], i - 1);
      assert widths[..i] == [widths[0]] + widths[1..][..i - 1] && widths[..i + 1] == [widths[0]] + widths[1..][..i];
    }
  }

  /** Where a field of the header lies. */
  predicate Lies(i: nat, from: nat, width: nat) {
    i < |WIDTHS| == 16 && Sum(WIDTHS[..i]) == from && WIDTHS[i] == width && from + width <= HEADER
  }

  lemma {:induction false} LiesNext(i: nat, from: nat, width: nat, next: nat)
    requires Lies(i, from, width) && i + 1 < 16 && WIDTHS[i + 1] == next && from + width + next <= HEADER
    ensures Lies(i + 1, from + width, next)
  {
    SumNext(WIDTHS, i);
  }

  lemma {:induction false} Layout()
    ensures Lies(0, 0, 8) && Lies(1, 8, 4) && Lies(2, 12, 32) && Lies(3, 44, 32) && Lies(4, 76, 4) && Lies(5, 80, 8) && Lies(6, 88, 16)
    ensures Lies(7, 104, 8) && Lies(8, 112, 8) && Lies(9, 120, 8) && Lies(10, 128, 8) && Lies(11, 136, 8) && Lies(12, 144, 8)
    ensures Lies(13, 152, 32) && Lies(14, 184, 1) && Lies(15, 185, 1)
  {
    assert WIDTHS[..0] == [];
    assert Lies(0, 0, 8);
    hide Lies;
    LiesNext(0, 0, 8, 4);
    LiesNext(1, 8, 4, 32);
    LiesNext(2, 12, 32, 32);
    LiesNext(3, 44, 32, 4);
    LiesNext(4, 76, 4, 8);
    LiesNext(5, 80, 8, 16);
    LiesNext(6, 88, 16, 8);
    LiesNext(7, 104, 8, 8);
    LiesNext(8, 112, 8, 8);
    LiesNext(9, 120, 8, 8);
    LiesNext(10, 128, 8, 8);
    LiesNext(11, 136, 8, 8);
    LiesNext(12, 144, 8, 32);
    LiesNext(13, 152, 32, 1);
    LiesNext(14, 184, 1, 1);
  }

  lemma {:induction false} PrefixSlice(s: Bytes, widths: seq<nat>, i: nat)
    requires Sum(widths) <= |s| && i < |widths|
    ensures var from := Sum(widths[..i]);
      from + widths[i] <= Sum(widths) && Split(s[..Sum(widths)], widths)[i] == s[from..from + widths[i]]
  {
    SplitSlice(s[..Sum(widths)], widths, i);
    var from := Sum(widths[..i]);
    assert s[..Sum(widths)][from..from + widths[i]] == s[from..from + widths[i]];
  }

  lemma {:induction false} HeaderIs(s: Bytes)
    requires HEADER <= |s|
    ensures Sum(WIDTHS) == HEADER && Header(s) == Split(s[..Sum(WIDTHS)], WIDTHS)
  {
    WidthsSum();
    hide Sum, Split, Widths;
  }

  /** A field of the header is the slice where it lies. */
  lemma {:induction false} FieldAt(s: Bytes, i: nat, from: nat, width: nat)
    requires HEADER <= |s| && Lies(i, from, width)
    ensures from + width <= HEADER && Header(s)[i] == s[from..from + width]
  {
    hide Header, Split, Sum, Widths;
    HeaderIs(s);
    PrefixSlice(s, WIDTHS, i);
  }

  function Get16(b: Bytes): nat
    requires |b| == 2
  {
    b[0] as nat * 0x100 + b[1]
  }

  function Get32(b: Bytes): nat
    requires |b| == 4
  {
    b[0] as nat * 0x100_0000 + b[1] as nat * 0x1_0000 + b[2] as nat * 0x100 + b[3]
  }

  function Get64(b: Bytes): nat
    requires |b| == 8
  {
    Get32(b[..4]) * WORD + Get32(b[4..])
  }

  lemma {:induction false} OneMore(b: Bytes)
    requires b != []
    ensures Value(b) == Value(b[..|b| - 1]) * 0x100 + b[|b| - 1]
  {}

  lemma {:induction false} Value2(b: Bytes)
    requires |b| == 2
    ensures Get16(b) == Value(b)
  {
    assert b[..1][..0] == [];
    OneMore(b[..1]);
  }

  lemma {:induction false} Value4(b: Bytes)
    requires |b| == 4
    ensures Get32(b) == Value(b)
  {
    assert b[..3][..2] == b[..2];
    Value2(b[..2]);
    OneMore(b[..3]);
    OneMore(b);
  }

  lemma {:induction false} Value8(b: Bytes)
    requires |b| == 8
    ensures Get64(b) == Value(b)
  {
    Value4(b[..4]);
    assert b[..5][..4] == b[..4] && b[..6][..5] == b[..5] && b[..7][..6] == b[..6];
    OneMore(b[..5]);
    OneMore(b[..6]);
    OneMore(b[..7]);
    OneMore(b);
  }

  /** What one positioned read does: it is interrupted, it fails or ends, or it brings bytes. */
  datatype Pread = Interrupted | Stopped | Took(count: nat)

  /** The reads bring the whole file from this offset on. */
  predicate Completes(answers: seq<Pread>, missing: nat)
    decreases |answers|
  {
    missing == 0 || (answers != [] && match answers[0]
                                      case Interrupted => Completes(answers[1..], missing)
                                      case Stopped => false
                                      case Took(count) => count != 0 && Completes(answers[1..], if count < missing then missing - count else 0))
  }

  /** Arguments lie one after the other. */
  lemma {:induction false} RoomUpTo(arguments: seq<Bytes>, i: nat)
    requires i < |arguments|
    ensures Room(arguments[..i]) + |arguments[i]| + 1 == Room(arguments[..i + 1])
  {
    if i == 0 {
      assert arguments[..1][1..] == [];
    } else {
      RoomUpTo(arguments[1..], i - 1);
      assert arguments[1..][..i - 1] == arguments[..i][1..] && arguments[1..][..i] == arguments[..i + 1][1..];
    }
  }

  /** No two arguments share storage. */
  lemma {:induction false} ArgumentsAreDisjoint(arguments: seq<Bytes>, i: nat, j: nat)
    requires i < j < |arguments|
    ensures Room(arguments[..i]) + |arguments[i]| + 1 <= Room(arguments[..j])
    decreases j
  {
    RoomUpTo(arguments, i);
    if i + 1 < j {
      ArgumentsAreDisjoint(arguments, i, j - 1);
      RoomUpTo(arguments, j - 1);
    }
  }

  /** Reading at a place of the buffer. */
  function TextAt(s: Bytes, from: nat, width: nat): Bytes
    requires from + width <= |s|
  {
    s[from..from + width]
  }

  function WordAt(s: Bytes, from: nat): nat
    requires from + 4 <= |s|
  {
    Get32(s[from..from + 4])
  }

  function LongAt(s: Bytes, from: nat): nat
    requires from + 8 <= |s|
  {
    Get64(s[from..from + 8])
  }

  function ByteAt(s: Bytes, from: nat): nat
    requires from < |s|
  {
    s[from]
  }

  lemma {:induction false} ReadByte(s: Bytes, i: nat, from: nat)
    requires HEADER <= |s| && Lies(i, from, 1)
    ensures from < HEADER && Value(Header(s)[i]) == ByteAt(s, from)
  {
    hide Header, Lies;
    FieldAt(s, i, from, 1);
    var b := s[from..from + 1];
    assert b == [s[from]];
    OneMore(b);
  }

  lemma {:induction false} ReadWord(s: Bytes, i: nat, from: nat)
    requires HEADER <= |s| && Lies(i, from, 4)
    ensures from + 4 <= HEADER && Value(Header(s)[i]) == WordAt(s, from)
  {
    hide Header, Lies, Get32, Value;
    FieldAt(s, i, from, 4);
    Value4(s[from..from + 4]);
  }

  lemma {:induction false} ReadLong(s: Bytes, i: nat, from: nat)
    requires HEADER <= |s| && Lies(i, from, 8)
    ensures from + 8 <= HEADER && Value(Header(s)[i]) == LongAt(s, from)
  {
    hide Header, Lies, Get64, Value;
    FieldAt(s, i, from, 8);
    Value8(s[from..from + 8]);
  }

  lemma {:induction false} ReadText(s: Bytes, i: nat, from: nat, width: nat)
    requires HEADER <= |s| && Lies(i, from, width)
    ensures from + width <= HEADER && Header(s)[i] == TextAt(s, from, width)
  {
    hide Header, Lies;
    FieldAt(s, i, from, width);
  }

  /** Texts and numbers of the header stand where they are read. */
  ghost predicate Stands(f: seq<Bytes>, s: Bytes) {
    && |f| == 16 && HEADER <= |s|
    && f[0] == TextAt(s, 0, 8) && f[2] == TextAt(s, 12, 32) && f[3] == TextAt(s, 44, 32) && f[6] == TextAt(s, 88, 16)
    && f[13] == TextAt(s, 152, 32)
    && Value(f[1]) == WordAt(s, 8) && Value(f[4]) == WordAt(s, 76) && Value(f[5]) == LongAt(s, 80)
    && Value(f[7]) == LongAt(s, 104) && Value(f[8]) == LongAt(s, 112) && Value(f[9]) == LongAt(s, 120)
    && Value(f[10]) == LongAt(s, 128) && Value(f[11]) == LongAt(s, 136) && Value(f[12]) == LongAt(s, 144)
    && Value(f[14]) == ByteAt(s, 184) && Value(f[15]) == ByteAt(s, 185)
  }

  lemma {:induction false} HeaderStands(s: Bytes)
    requires HEADER <= |s|
    ensures Stands(Header(s), s)
  {
    Layout();
    hide Lies, Header, Value, TextAt, WordAt, LongAt, ByteAt, Widths;
    ReadText(s, 0, 0, 8);
    ReadText(s, 2, 12, 32);
    ReadText(s, 3, 44, 32);
    ReadText(s, 6, 88, 16);
    ReadText(s, 13, 152, 32);
    ReadWord(s, 1, 8);
    ReadWord(s, 4, 76);
    ReadLong(s, 5, 80);
    ReadLong(s, 7, 104);
    ReadLong(s, 8, 112);
    ReadLong(s, 9, 120);
    ReadLong(s, 10, 128);
    ReadLong(s, 11, 136);
    ReadLong(s, 12, 144);
    ReadByte(s, 14, 184);
    ReadByte(s, 15, 185);
  }

  /** The header read straight from the buffer. */
  function HeadOf(s: Bytes): Intent
    requires HEADER <= |s|
  {
    Intent(TextAt(s, 12, 32), TextAt(s, 44, 32), WordAt(s, 76), LongAt(s, 80), TextAt(s, 88, 16), LongAt(s, 104), LongAt(s, 112),
           LongAt(s, 120), LongAt(s, 128), LongAt(s, 136), LongAt(s, 144), TextAt(s, 152, 32), ByteAt(s, 184), [])
  }

  predicate Magic(s: Bytes)
    requires HEADER <= |s|
  {
    TextAt(s, 0, 8) == MAGIC
  }

  predicate Passes(s: Bytes)
    requires HEADER <= |s|
  {
    && Magic(s) && WordAt(s, 8) == 1
    && WordAt(s, 76) != 0 && LongAt(s, 80) != 0 && LongAt(s, 104) != 0 && 1 <= ByteAt(s, 184) <= 10 && 1 <= ByteAt(s, 185) <= MAX_ARGUMENTS
  }

  lemma {:induction false} MagicRead(f: seq<Bytes>, s: Bytes)
    requires Stands(f, s)
    ensures Magic(s) == (f[0] == MAGIC)
  {
    hide Value, TextAt, WordAt, LongAt, ByteAt;
  }

  lemma {:induction false} PassesRead(f: seq<Bytes>, s: Bytes)
    requires Stands(f, s)
    ensures Passes(s) == Acceptable(f)
  {
    MagicRead(f, s);
    hide Value, TextAt, WordAt, LongAt, ByteAt, Magic;
  }

  /** Reading straight from the buffer reads the fields of the layout. */
  lemma {:induction false} HeaderRead(s: Bytes)
    requires HEADER <= |s|
    ensures Passes(s) == Acceptable(Header(s)) && HeadOf(s) == FromFields(Header(s), []) && Value(Header(s)[15]) == ByteAt(s, 185)
  {
    hide Passes, Acceptable, HeadOf, FromFields, Header, Value, ByteAt, Stands;
    HeaderStands(s);
    HeadRead(Header(s), s);
    PassesRead(Header(s), s);
  }

  lemma {:induction false} HeadRead(f: seq<Bytes>, s: Bytes)
    requires Stands(f, s)
    ensures HeadOf(s) == FromFields(f, []) && Value(f[15]) == ByteAt(s, 185)
  {
    hide Value, TextAt, WordAt, LongAt, ByteAt;
  }

  /** One argument at its pointer, behind the room of those before it. */
  ghost predicate At(arguments: seq<Bytes>, i: nat, argv: seq<Option<nat>>, storage: Bytes)
    requires i < |arguments| && i < |argv|
  {
    var at := Room(arguments[..i]);
    && argv[i] == Some(at) && at + |arguments[i]| < |storage|
    && storage[at..at + |arguments[i]|] == arguments[i] && storage[at + |arguments[i]|] == 0
  }

  /** Arguments lie in the storage one after the other, each at its pointer and closed by NUL; a null pointer ends them. */
  ghost predicate LaidOut(arguments: seq<Bytes>, count: nat, argv: seq<Option<nat>>, storage: Bytes) {
    && count <= |arguments| && Room(arguments[..count]) <= |storage| && count <= |argv|
    && forall i :: 0 <= i < count ==> At(arguments, i, argv, storage)
  }

  lemma {:induction false} RoomAppend(arguments: seq<Bytes>, a: Bytes)
    ensures Room(arguments + [a]) == Room(arguments) + |a| + 1
  {
    var all := arguments + [a];
    RoomUpTo(all, |arguments|);
    assert all[..|arguments|] == arguments && all[..|arguments| + 1] == all;
  }

  lemma {:induction false} EndsBefore(arguments: seq<Bytes>, i: nat)
    requires i < |arguments|
    ensures Room(arguments[..i]) + |arguments[i]| + 1 <= Room(arguments)
  {
    RoomUpTo(arguments, |arguments| - 1);
    assert arguments[..|arguments|] == arguments;
    if i < |arguments| - 1 { ArgumentsAreDisjoint(arguments, i, |arguments| - 1); }
  }

  /** The next argument goes behind the others, which stay as they are. */
  lemma {:induction false} LaidOutNext(arguments: seq<Bytes>, a: Bytes, argv: seq<Option<nat>>, storage: Bytes,
                                       argv2: seq<Option<nat>>, storage2: Bytes)
    requires LaidOut(arguments, |arguments|, argv, storage)
    requires |arguments| < |argv| && argv2 == argv[|arguments| := Some(Room(arguments))]
    requires |storage2| == |storage| && Room(arguments) + |a| + 1 <= |storage| && storage2[..Room(arguments)] == storage[..Room(arguments)]
    requires storage2[Room(arguments)..Room(arguments) + |a|] == a && storage2[Room(arguments) + |a|] == 0
    ensures LaidOut(arguments + [a], |arguments| + 1, argv2, storage2)
  {
    var all, n := arguments + [a], |arguments|;
    RoomAppend(arguments, a);
    assert all[..n + 1] == all && all[..n] == arguments;
    forall i | 0 <= i < n ensures At(all, i, argv2, storage2) {
      StaysLaidOut(arguments, argv, storage, storage2, i, a);
      assert argv2[i] == argv[i] && all[i] == arguments[i];
    }
    assert At(all, n, argv2, storage2);
  }

  lemma {:induction false} StaysLaidOut(arguments: seq<Bytes>, argv: seq<Option<nat>>, storage: Bytes, storage2: Bytes, i: nat, a: Bytes)
    requires LaidOut(arguments, |arguments|, argv, storage) && i < |arguments|
    requires |storage2| == |storage| && Room(arguments) <= |storage| && storage2[..Room(arguments)] == storage[..Room(arguments)]
    ensures At(arguments + [a], i, argv, storage2)
  {
    assert At(arguments, i, argv, storage);
    assert (arguments + [a])[..i] == arguments[..i];
    EndsBefore(arguments, i);
    var at, to := Room(arguments[..i]), Room(arguments[..i]) + |arguments[i]|;
    assert storage2[at..to] == storage2[..Room(arguments)][at..to];
    assert storage[at..to] == storage[..Room(arguments)][at..to];
    assert storage2[to] == storage2[..Room(arguments)][to] && storage[to] == storage[..Room(arguments)][to];
  }

  /** Arguments already read, and then those to come. */
  function After(arguments: seq<Bytes>, more: Option<seq<Bytes>>): Option<seq<Bytes>> {
    if more.None? then None else Some(arguments + more.value)
  }

  lemma {:induction false} AfterNone(more: Option<seq<Bytes>>)
    ensures After([], more) == more
  {
    if more.Some? { assert [] + more.value == more.value; }
  }

  lemma {:induction false} PointerBehind(arguments: seq<Bytes>, count: nat, argv: seq<Option<nat>>, argv2: seq<Option<nat>>, storage: Bytes)
    requires LaidOut(arguments, count, argv, storage) && count < |argv| && argv2 == argv[count := None]
    ensures LaidOut(arguments, count, argv2, storage)
  {
    forall i | 0 <= i < count ensures At(arguments, i, argv2, storage) { assert At(arguments, i, argv, storage) && argv2[i] == argv[i]; }
  }

  lemma {:induction false} PassesCount(s: Bytes)
    requires HEADER <= |s| && Passes(s)
    ensures 1 <= ByteAt(s, 185) <= MAX_ARGUMENTS
  {}

  lemma {:induction false} StopsAfter(arguments: seq<Bytes>)
    ensures After(arguments, None) == None
  {}

  lemma {:induction false} ArgumentsEnd(p: Bytes, offset: nat, room: nat, arguments: seq<Bytes>)
    requires offset <= |p|
    ensures After(arguments, ParseArguments(p[offset..], 0, room)) == if offset == |p| then Some(arguments) else None
  {
    if offset == |p| { assert arguments + [] == arguments; }
  }

  lemma {:induction false} NothingPlaced(argv: seq<Option<nat>>, storage: Bytes)
    ensures Room([]) == 0 && LaidOut([], 0, argv, storage)
  {}

  lemma {:induction false} AfterAfter(arguments: seq<Bytes>, a: Bytes, more: Option<seq<Bytes>>)
    ensures After(arguments, After([a], more)) == After(arguments + [a], more)
  {
    if more.Some? { assert arguments + ([a] + more.value) == (arguments + [a]) + more.value; }
  }

  /** What parsing does at an offset. */
  lemma {:induction false} ArgumentNext(p: Bytes, offset: nat, count: nat, room: nat)
    requires offset <= |p| && count > 0
    ensures ParseArguments(p[offset..], count, room) ==
      if offset + 2 > |p| then None
      else
        var length := Get16(p[offset..offset + 2]);
        var from := offset + 2;
        if length == 0 || length > MAX_ARGUMENT || from + length > |p| || 0 in p[from..from + length] || length + 1 > room then None
        else After([p[from..from + length]], ParseArguments(p[from + length..], count - 1, room - (length + 1)))
  {
    var s := p[offset..];
    if offset + 2 <= |p| {
      assert s[..2] == p[offset..offset + 2];
      Value2(s[..2]);
      var length, from := Value(s[..2]), offset + 2;
      if from + length <= |p| {
        assert s[2..2 + length] == p[from..from + length] && s[2 + length..] == p[from + length..];
      }
    }
  }

  class Gate {
    var head: Intent
    var argc: nat
    const argv: array<Option<nat>>
    const storage: array<Byte>
    const data: array<Byte>

    ghost predicate Valid() { argv.Length == MAX_ARGUMENTS + 1 && storage.Length == STORAGE && data.Length == MAX_SIZE }

    constructor ()
      ensures Valid() && fresh(argv) && fresh(storage) && fresh(data)
    {
      argv := new Option<nat>[MAX_ARGUMENTS + 1](_ => None);
      storage := new Byte[STORAGE](_ => 0);
      data := new Byte[MAX_SIZE](_ => 0);
      head, argc := Intent([], [], 0, 0, [], 0, 0, 0, 0, 0, 0, [], 0, []), 0;
    }

    /** The capsule is in place: its header, and its arguments in the storage. */
    ghost predicate Holds(c: Intent)
      reads this, argv, storage
    {
      && head == c.(arguments := []) && argc == |c.arguments| < argv.Length
      && LaidOut(c.arguments, argc, argv[..], storage[..]) && argv[argc].None?
    }

    /** Brings the whole file into the buffer, however the reads divide it. */
    method Load(file: Bytes, answers: seq<Pread>) returns (ok: bool)
      requires Valid() && |file| <= MAX_SIZE
      modifies data
      ensures ok <==> Completes(answers, |file|)
      ensures ok ==> data[..|file|] == file
    {
      var offset, k := 0, 0;
      while offset < |file| && k < |answers|
        invariant 0 <= offset <= |file| && 0 <= k <= |answers| && data[..offset] == file[..offset]
        invariant Completes(answers, |file|) == Completes(answers[k..], |file| - offset)
        decreases |answers| - k
      {
        assert answers[k..][0] == answers[k] && answers[k..][1..] == answers[k + 1..];
        match answers[k] {
          case Interrupted => k := k + 1;
          case Stopped => return false;
          case Took(count) =>
            if count == 0 {
              return false;
            }
            var n := if count < |file| - offset then count else |file| - offset;
            forall i | offset <= i < offset + n {
              data[i] := file[i];
            }
            offset := offset + n;
            k := k + 1;
        }
      }
      assert k == |answers| ==> answers[k..] == [];
      ok := offset == |file|;
    }

    method ReadHeader(p: Bytes) returns (ok: bool)
      requires HEADER <= |p|
      modifies this
      ensures ok <==> Passes(p)
      ensures ok ==> head == HeadOf(p) && argc == ByteAt(p, 185)
    {
      hide TextAt, WordAt, LongAt, ByteAt, Magic;
      if !Magic(p) || WordAt(p, 8) != 1 {
        return false;
      }
      head := Intent(TextAt(p, 12, 32), TextAt(p, 44, 32), WordAt(p, 76), LongAt(p, 80), TextAt(p, 88, 16), LongAt(p, 104),
                     LongAt(p, 112), LongAt(p, 120), LongAt(p, 128), LongAt(p, 136), LongAt(p, 144), TextAt(p, 152, 32),
                     ByteAt(p, 184), []);
      argc := ByteAt(p, 185);
      ok := head.parentPid != 0 && head.parentStart != 0 && head.deadline != 0 && 1 <= head.operation <= 10 &&
            1 <= argc <= MAX_ARGUMENTS;
    }

    /** Puts one argument with its terminator behind the others. */
    method PlaceArgument(i: nat, stored: nat, a: Bytes, ghost arguments: seq<Bytes>)
      requires Valid() && i == |arguments| < MAX_ARGUMENTS && stored == Room(arguments) && stored + |a| + 1 <= STORAGE
      requires LaidOut(arguments, i, argv[..], storage[..])
      modifies argv, storage
      ensures LaidOut(arguments + [a], i + 1, argv[..], storage[..]) && Room(arguments + [a]) == stored + |a| + 1
    {
      ghost var pointers, bytes := argv[..], storage[..];
      argv[i] := Some(stored);
      forall k | 0 <= k < |a| {
        storage[stored + k] := a[k];
      }
      storage[stored + |a|] := 0;
      assert storage[..][stored..stored + |a|] == a && storage[..][..stored] == bytes[..stored];
      LaidOutNext(arguments, a, pointers, bytes, argv[..], storage[..]);
      RoomAppend(arguments, a);
    }

    /** Copies the arguments into the storage, each with its terminator. */
    method ReadArguments(p: Bytes) returns (ok: bool, ghost arguments: seq<Bytes>)
      requires Valid() && HEADER <= |p| && argc <= MAX_ARGUMENTS
      modifies argv, storage
      ensures ok <==> ParseArguments(p[HEADER..], argc, STORAGE).Some?
      ensures ok ==> arguments == ParseArguments(p[HEADER..], argc, STORAGE).value && |arguments| == argc
      ensures ok ==> LaidOut(arguments, argc, argv[..], storage[..])
    {
      hide ParseArguments, After, Room, LaidOut, Get16;
      arguments := [];
      var offset, stored, i := HEADER, 0, 0;
      NothingPlaced(argv[..], storage[..]);
      AfterNone(ParseArguments(p[HEADER..], argc, STORAGE));
      while i < argc
        invariant HEADER <= offset && 0 <= i <= argc && |arguments| == i && offset <= |p| && stored == Room(arguments) <= STORAGE
        invariant ParseArguments(p[HEADER..], argc, STORAGE) == After(arguments, ParseArguments(p[offset..], argc - i, STORAGE - stored))
        invariant LaidOut(arguments, i, argv[..], storage[..])
      {
        ArgumentNext(p, offset, argc - i, STORAGE - stored);
        StopsAfter(arguments);
        if offset + 2 > |p| {
          return false, arguments;
        }
        var length := Get16(p[offset..offset + 2]);
        var from := offset + 2;
        if length == 0 || length > MAX_ARGUMENT || from + length > |p| || 0 in p[from..from + length] || stored + length + 1 > STORAGE {
          return false, arguments;
        }
        var a := p[from..from + length];
        PlaceArgument(i, stored, a, arguments);
        AfterAfter(arguments, a, ParseArguments(p[from + length..], argc - i - 1, STORAGE - stored - (length + 1)));
        arguments := arguments + [a];
        offset := from + length;
        stored := stored + (length + 1);
        i := i + 1;
      }
      ok := offset == |p|;
      ArgumentsEnd(p, offset, STORAGE - stored, arguments);
    }

    /** Accepts exactly a sealed file of permitted size that holds an encoded capsule, which is then in place. */
    method ReadCapsule(sealed: bool, file: Bytes, answers: seq<Pread>) returns (ok: bool)
      requires Valid()
      modifies this, argv, storage, data
      ensures ok <==> sealed && HEADER <= |file| <= MAX_SIZE && Completes(answers, |file|) && Parse(file).Some?
      ensures ok ==> Holds(Parse(file).value)
    {
      hide Passes, Acceptable, HeadOf, Header, Value, ByteAt, ParseArguments, LaidOut, Room, Completes;
      if !sealed || |file| < HEADER || |file| > MAX_SIZE {
        return false;
      }
      ok := Load(file, answers);
      if !ok {
        return;
      }
      var p := data[..|file|];
      HeaderRead(p);
      ok := ReadHeader(p);
      if !ok {
        return;
      }
      PassesCount(p);
      ghost var arguments;
      ok, arguments := ReadArguments(p);
      if ok {
        ghost var pointers := argv[..];
        argv[argc] := None;
        PointerBehind(arguments, argc, pointers, argv[..], storage[..]);
      }
    }
  }
}
