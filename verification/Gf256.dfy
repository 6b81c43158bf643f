/** The field GF(2^8) of FIPS 197, section 4.2: the doubling and multiplication macros of the
    library, and the field product they are meant to compute. */
module Gf256 {
  type Byte = bv8

  // ---------------------------------------------------------------- the library's arithmetic

  /** Multiplication by the polynomial x, as the library's shift and conditional XOR. */
  function Xtime(x: Byte): Byte {
    (x << 1) ^ (((x >> 7) & 1) * 0x1b)
  }

  /** The sum of two bytes in the field, the XOR of the source. */
  function Add(a: Byte, b: Byte): Byte {
    a ^ b
  }

  /** The product of a bit and a byte: the bit selects the byte. */
  function Gated(b: bool, x: Byte): Byte {
    if b then x else 0
  }

  /** The library's multiplication macro; it looks at the five low bits of y only. */
  function Multiply(x: Byte, y: Byte): Byte {
    Add(Add(Add(Add(Gated(y & 1 != 0, x),
      Gated((y >> 1) & 1 != 0, Xtime(x))),
      Gated((y >> 2) & 1 != 0, Xtime(Xtime(x)))),
      Gated((y >> 3) & 1 != 0, Xtime(Xtime(Xtime(x))))),
      Gated((y >> 4) & 1 != 0, Xtime(Xtime(Xtime(Xtime(x))))))
  }

  // ---------------------------------------------------------------- the field

  /** Multiplication by x: a shift, and one subtraction of the modulus when degree 8 appears. */
  function Double(x: Byte): Byte {
    if x & 0x80 == 0 then x << 1 else (x << 1) ^ 0x1b
  }

  /** The product modulo x^8+x^4+x^3+x+1: one doubling of x for each coefficient of y. */
  function FieldMul(x: Byte, y: Byte): Byte
    decreases y
  {
    if y == 0 then 0 else Add(Gated(y & 1 != 0, x), FieldMul(Double(x), y >> 1))
  }

  /** The library's doubling is the field's. */
  lemma {:induction false} XtimeIsDouble(x: Byte)
    ensures Xtime(x) == Double(x)
  {
  }

  lemma {:induction false} XtimeAdditive(a: Byte, b: Byte)
    ensures Xtime(Add(a, b)) == Add(Xtime(a), Xtime(b))
  {
  }

  lemma {:induction false} DoubleAdditive(a: Byte, b: Byte)
    ensures Double(Add(a, b)) == Add(Double(a), Double(b))
  {
    XtimeIsDouble(a);
    XtimeIsDouble(b);
    XtimeIsDouble(Add(a, b));
    XtimeAdditive(a, b);
  }

  lemma {:induction false} AddAssociates(a: Byte, b: Byte, c: Byte)
    ensures Add(Add(a, b), c) == Add(a, Add(b, c))
  {
  }

  lemma {:induction false} AddCommutes(a: Byte, b: Byte)
    ensures Add(a, b) == Add(b, a)
  {
  }

  lemma {:induction false} AddInterchange(a: Byte, b: Byte, c: Byte, d: Byte)
    ensures Add(Add(a, b), Add(c, d)) == Add(Add(a, c), Add(b, d))
  {
    AddAssociates(a, b, Add(c, d));
    AddAssociates(b, c, d);
    AddCommutes(b, c);
    AddAssociates(c, b, d);
    AddAssociates(a, c, Add(b, d));
  }

  lemma {:induction false} AddZero(a: Byte)
    ensures Add(a, 0) == a && Add(0, a) == a && Add(a, a) == 0
  {
  }

  /** The recursion, also valid at y == 0; odd is the constant term of y. */
  lemma {:induction false} FieldMulUnfold(x: Byte, y: Byte, odd: bool)
    requires odd == (y & 1 != 0)
    ensures FieldMul(x, y) == Add(Gated(odd, x), FieldMul(Double(x), y >> 1))
  {
    if y == 0 {
      ZeroParts(y);
      AddZero(0);
    }
  }

  lemma {:induction false} ZeroParts(y: Byte)
    requires y == 0
    ensures y >> 1 == 0 && y & 1 == 0
  {
  }

  // ------------------------------------------------------------ both distributive laws

  lemma {:induction false} GatedAdditive(g: bool, a: Byte, b: Byte, p: Byte, q: Byte)
    ensures Add(Gated(g, Add(a, b)), Add(p, q)) == Add(Add(Gated(g, a), p), Add(Gated(g, b), q))
  {
    if g {
      AddInterchange(a, b, p, q);
    } else {
      AddZero(0);
      AddInterchange(0, 0, p, q);
    }
  }

  lemma {:induction false} FieldMulAdditive(a: Byte, b: Byte, y: Byte)
    ensures FieldMul(Add(a, b), y) == Add(FieldMul(a, y), FieldMul(b, y))
    decreases y
  {
    if y == 0 {
      AddZero(0);
    } else {
      var odd := y & 1 != 0;
      DoubleAdditive(a, b);
      FieldMulAdditive(Double(a), Double(b), y >> 1);
      FieldMulUnfold(Add(a, b), y, odd);
      FieldMulUnfold(a, y, odd);
      FieldMulUnfold(b, y, odd);
      GatedAdditive(odd, a, b, FieldMul(Double(a), y >> 1), FieldMul(Double(b), y >> 1));
    }
  }

  lemma {:induction false} HalvesOfSum(y: Byte, z: Byte)
    ensures Add(y, z) >> 1 == Add(y >> 1, z >> 1)
    ensures (Add(y, z) & 1 != 0) == ((y & 1 != 0) != (z & 1 != 0))
  {
  }

  lemma {:induction false} GatedXor(x: Byte, g: bool, h: bool, p: Byte, q: Byte)
    ensures Add(Gated(g != h, x), Add(p, q)) == Add(Add(Gated(g, x), p), Add(Gated(h, x), q))
  {
    AddZero(x);
    AddZero(0);
    AddInterchange(Gated(g, x), Gated(h, x), p, q);
  }

  lemma {:induction false} FieldMulAdditiveRight(x: Byte, y: Byte, z: Byte)
    ensures FieldMul(x, Add(y, z)) == Add(FieldMul(x, y), FieldMul(x, z))
    decreases y, z
  {
    if y == 0 {
      AddZero(z);
      AddZero(FieldMul(x, z));
    } else {
      FieldMulAdditiveRight(Double(x), y >> 1, z >> 1);
      FieldMulSumStep(x, y, z, y & 1 != 0, z & 1 != 0);
    }
  }

  lemma {:induction false} FieldMulSumStep(x: Byte, y: Byte, z: Byte, g: bool, h: bool)
    requires g == (y & 1 != 0) && h == (z & 1 != 0)
    requires FieldMul(Double(x), Add(y >> 1, z >> 1)) == Add(FieldMul(Double(x), y >> 1), FieldMul(Double(x), z >> 1))
    ensures FieldMul(x, Add(y, z)) == Add(FieldMul(x, y), FieldMul(x, z))
  {
    HalvesOfSum(y, z);
    FieldMulUnfold(x, Add(y, z), g != h);
    FieldMulUnfold(x, y, g);
    FieldMulUnfold(x, z, h);
    GatedXor(x, g, h, FieldMul(Double(x), y >> 1), FieldMul(Double(x), z >> 1));
  }

  // ------------------------------------------------------------ unit, commutativity, associativity

  lemma {:induction false} DoubleGated(g: bool, x: Byte)
    ensures Double(Gated(g, x)) == Gated(g, Double(x))
  {
  }

  lemma {:induction false} FieldMulDouble(x: Byte, y: Byte)
    ensures FieldMul(Double(x), y) == Double(FieldMul(x, y))
    decreases y
  {
    if y != 0 {
      FieldMulDouble(Double(x), y >> 1);
      DoubleGated(y & 1 != 0, x);
      DoubleAdditive(Gated(y & 1 != 0, x), FieldMul(Double(x), y >> 1));
    } else {
      DoubleGated(false, x);
    }
  }

  /** Every polynomial is its constant term plus the double of the rest. */
  lemma {:induction false} LowBitAndRest(y: Byte)
    ensures y == Add(Gated(y & 1 != 0, 1), Double(y >> 1))
  {
  }

  lemma {:induction false} FieldMulOne(y: Byte)
    ensures FieldMul(1, y) == y
    decreases y
  {
    if y != 0 {
      FieldMulOne(y >> 1);
      FieldMulDouble(1, y >> 1);
      LowBitAndRest(y);
    }
  }

  lemma {:induction false} FieldMulZero(y: Byte)
    ensures FieldMul(0, y) == 0
    decreases y
  {
    if y != 0 {
      FieldMulZero(y >> 1);
      DoubleGated(false, 0);
      AddZero(0);
    }
  }

  /** y times z, opened at the constant term of the first factor. */
  lemma {:induction false} FieldMulUnfoldLeft(y: Byte, z: Byte)
    ensures FieldMul(y, z) == Add(Gated(y & 1 != 0, z), Double(FieldMul(y >> 1, z)))
  {
    LowBitAndRest(y);
    FieldMulAdditive(Gated(y & 1 != 0, 1), Double(y >> 1), z);
    FieldMulDouble(y >> 1, z);
    FieldMulOne(z);
    FieldMulZero(z);
  }

  lemma {:induction false} FieldMulCommutes(x: Byte, y: Byte)
    ensures FieldMul(x, y) == FieldMul(y, x)
    decreases y
  {
    if y == 0 {
      FieldMulZero(x);
    } else {
      FieldMulCommutes(x, y >> 1);
      FieldMulDouble(x, y >> 1);
      FieldMulUnfoldLeft(y, x);
    }
  }

  lemma {:induction false} FieldMulAssociates(a: Byte, b: Byte, c: Byte)
    ensures FieldMul(FieldMul(a, b), c) == FieldMul(a, FieldMul(b, c))
    decreases b
  {
    if b == 0 {
      FieldMulZero(c);
    } else {
      var g, w := b & 1 != 0, FieldMul(b >> 1, c);
      FieldMulAssociates(Double(a), b >> 1, c);
      FieldMulAdditive(Gated(g, a), FieldMul(Double(a), b >> 1), c);
      FieldMulUnfoldLeft(b, c);
      FieldMulAdditiveRight(a, Gated(g, c), Double(w));
      FieldMulDoubleRight(a, w);
      FieldMulZero(c);
    }
  }

  lemma {:induction false} FieldMulDoubleRight(a: Byte, w: Byte)
    ensures FieldMul(a, Double(w)) == FieldMul(Double(a), w)
  {
    FieldMulCommutes(a, Double(w));
    FieldMulDouble(w, a);
    FieldMulDouble(a, w);
    FieldMulCommutes(w, a);
  }

  // ------------------------------------------------------------ the macro

  lemma {:induction false} ShiftsCompose(y: Byte)
    ensures y >> 1 >> 1 == y >> 2 && y >> 2 >> 1 == y >> 3 && y >> 2 >> 2 == y >> 4
  {
  }

  lemma {:induction false} FieldMulUnfoldTwo(x: Byte, y: Byte, b0: bool, b1: bool)
    requires b0 == (y & 1 != 0) && b1 == ((y >> 1) & 1 != 0)
    ensures FieldMul(x, y) == Add(Gated(b0, x), Add(Gated(b1, Double(x)), FieldMul(Double(Double(x)), y >> 2)))
  {
    ShiftsCompose(y);
    FieldMulUnfold(x, y, b0);
    FieldMulUnfold(Double(x), y >> 1, b1);
  }

  lemma {:induction false} FieldMulUnfoldFour(x: Byte, y: Byte, b0: bool, b1: bool, b2: bool, b3: bool)
    requires b0 == (y & 1 != 0) && b1 == ((y >> 1) & 1 != 0) && b2 == ((y >> 2) & 1 != 0) && b3 == ((y >> 3) & 1 != 0)
    ensures
      var x1 := Double(x);
      var x2 := Double(x1);
      var x3 := Double(x2);
      FieldMul(x, y) ==
      Add(Gated(b0, x), Add(Gated(b1, x1), Add(Gated(b2, x2), Add(Gated(b3, x3), FieldMul(Double(x3), y >> 4)))))
  {
    ShiftsCompose(y);
    FieldMulUnfoldTwo(x, y, b0, b1);
    FieldMulUnfoldTwo(Double(Double(x)), y >> 2, b2, b3);
  }

  lemma {:induction false} FifthBitIsLast(y: Byte)
    requires y < 32
    ensures (y >> 4) >> 1 == 0 && (y >> 4) & 1 == y >> 4
  {
  }

  lemma {:induction false} AddReassociate(a: Byte, b: Byte, c: Byte, d: Byte, e: Byte)
    ensures Add(Add(Add(Add(a, b), c), d), e) == Add(a, Add(b, Add(c, Add(d, e))))
  {
    AddAssociates(a, b, Add(c, Add(d, e)));
    AddAssociates(Add(a, b), c, Add(d, e));
    AddAssociates(Add(Add(a, b), c), d, e);
  }

  /** The macro on doublings x1..x4 of x, for bits b0..b4 of y. */
  lemma {:induction false} MacroIsSum(x: Byte, y: Byte, x1: Byte, x2: Byte, x3: Byte, x4: Byte)
    requires x1 == Xtime(x) && x2 == Xtime(x1) && x3 == Xtime(x2) && x4 == Xtime(x3)
    ensures Multiply(x, y) ==
      Add(Gated(y & 1 != 0, x), Add(Gated((y >> 1) & 1 != 0, x1), Add(Gated((y >> 2) & 1 != 0, x2),
      Add(Gated((y >> 3) & 1 != 0, x3), Gated((y >> 4) & 1 != 0, x4)))))
  {
    AddReassociate(Gated(y & 1 != 0, x), Gated((y >> 1) & 1 != 0, x1), Gated((y >> 2) & 1 != 0, x2),
      Gated((y >> 3) & 1 != 0, x3), Gated((y >> 4) & 1 != 0, x4));
  }

  lemma {:induction false} FieldMulOfBit(x: Byte, b: Byte)
    requires b >> 1 == 0
    ensures FieldMul(x, b) == Gated(b & 1 != 0, x)
  {
    FieldMulUnfold(x, b, b & 1 != 0);
    AddZero(Gated(b & 1 != 0, x));
  }

  /** The macro is field multiplication for every multiplier below 32. */
  lemma {:induction false} MultiplyIsFieldMul(x: Byte, y: Byte)
    requires y < 32
    ensures Multiply(x, y) == FieldMul(x, y)
  {
    var x1 := Double(x);
    var x2 := Double(x1);
    var x3 := Double(x2);
    var x4 := Double(x3);
    XtimeIsDouble(x);
    XtimeIsDouble(x1);
    XtimeIsDouble(x2);
    XtimeIsDouble(x3);
    FifthBitIsLast(y);
    MacroIsSum(x, y, x1, x2, x3, x4);
    FieldMulUnfoldFour(x, y, y & 1 != 0, (y >> 1) & 1 != 0, (y >> 2) & 1 != 0, (y >> 3) & 1 != 0);
    FieldMulOfBit(x4, y >> 4);
  }
}
