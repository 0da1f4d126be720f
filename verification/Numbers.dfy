/** Unsigned numbers of a fixed width, most significant byte first, and their order. */
module Numbers {
  import opened Wire
  import opened Ordering

  function Value(b: Bytes): nat {
    if b == [] then 0 else Value(b[..|b| - 1]) * 0x100 + b[|b| - 1]
  }

  function Digits(width: nat, value: nat): (b: Bytes)
    ensures |b| == width
  {
    if width == 0 then [] else Digits(width - 1, value / 0x100) + [value % 0x100]
  }

  function Limit(width: nat): nat { if width == 0 then 1 else Limit(width - 1) * 0x100 }

  lemma {:induction false} ValueDigits(width: nat, value: nat)
    requires value < Limit(width)
    ensures Value(Digits(width, value)) == value
  {
    if width > 0 {
      ValueDigits(width - 1, value / 0x100);
      assert Digits(width, value)[..width - 1] == Digits(width - 1, value / 0x100);
    }
  }

  lemma {:induction false} DigitsValue(b: Bytes)
    ensures Digits(|b|, Value(b)) == b && Value(b) < Limit(|b|)
    decreases |b|
  {
    if b != [] {
      DigitsValue(b[..|b| - 1]);
      assert Value(b) / 0x100 == Value(b[..|b| - 1]) && Value(b) % 0x100 == b[|b| - 1];
    }
  }

  lemma {:induction false} Limits()
    ensures Limit(1) == 0x100 && Limit(2) == 0x1_0000 && Limit(4) == WORD && Limit(8) == LONG
  {
    assert Limit(1) == 0x100 && Limit(2) == 0x1_0000 && Limit(3) == 0x100_0000;
    assert Limit(4) == WORD && Limit(5) == WORD * 0x100 && Limit(6) == WORD * 0x1_0000 && Limit(7) == WORD * 0x100_0000;
  }

  lemma {:induction false} BelowAppend(x: Bytes, y: Bytes, p: Byte, q: Byte)
    requires |x| == |y|
    ensures Below(x + [p], y + [q]) <==> Below(x, y) || (x == y && p < q)
    decreases |x|
  {
    if x == [] {
      assert x + [p] == [p] && y + [q] == [q];
      assert [p][1..] == [] && [q][1..] == [];
    } else {
      assert (x + [p])[1..] == x[1..] + [p] && (y + [q])[1..] == y[1..] + [q];
      BelowAppend(x[1..], y[1..], p, q);
      assert x == [x[0]] + x[1..] && y == [y[0]] + y[1..];
      if x == y { BelowIrreflexive(x[1..]); }
    }
  }

  /** Numbers of one width are ordered as their bytes. */
  lemma {:induction false} DigitsOrder(width: nat, a: nat, b: nat)
    requires a < Limit(width) && b < Limit(width)
    ensures Below(Digits(width, a), Digits(width, b)) <==> a < b
  {
    if width > 0 {
      DigitsOrder(width - 1, a / 0x100, b / 0x100);
      BelowAppend(Digits(width - 1, a / 0x100), Digits(width - 1, b / 0x100), a % 0x100, b % 0x100);
      ValueDigits(width - 1, a / 0x100);
      ValueDigits(width - 1, b / 0x100);
    }
  }
}
