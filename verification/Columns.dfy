/** One column of the AES state: the library's mixing code, and the matrix products of
    FIPS 197, sections 5.1.3 and 5.3.3. */
module Columns {
  import opened Gf256

  datatype Column = Column(b0: Byte, b1: Byte, b2: Byte, b3: Byte)

  // ---------------------------------------------------------------- the library's code

  /** The running-XOR form: each byte absorbs the doubled sum of itself and its successor, and
      the sum of the column; t is the first byte as it was before the column changed. */
  function MixColumn(k: Column): Column {
    var t := k.b0;
    var tmp := Add(Add(Add(k.b0, k.b1), k.b2), k.b3);
    var b0 := Add(k.b0, Add(Xtime(Add(k.b0, k.b1)), tmp));
    var b1 := Add(k.b1, Add(Xtime(Add(k.b1, k.b2)), tmp));
    var b2 := Add(k.b2, Add(Xtime(Add(k.b2, k.b3)), tmp));
    var b3 := Add(k.b3, Add(Xtime(Add(k.b3, t)), tmp));
    Column(b0, b1, b2, b3)
  }

  function Sum(a: Byte, b: Byte, c: Byte, d: Byte): Byte {
    Add(Add(Add(a, b), c), d)
  }

  function InvMixColumn(k: Column): Column {
    var (a, b, c, d) := (k.b0, k.b1, k.b2, k.b3);
    Column(Sum(Multiply(a, 0x0e), Multiply(b, 0x0b), Multiply(c, 0x0d), Multiply(d, 0x09)),
           Sum(Multiply(a, 0x09), Multiply(b, 0x0e), Multiply(c, 0x0b), Multiply(d, 0x0d)),
           Sum(Multiply(a, 0x0d), Multiply(b, 0x09), Multiply(c, 0x0e), Multiply(d, 0x0b)),
           Sum(Multiply(a, 0x0b), Multiply(b, 0x0d), Multiply(c, 0x09), Multiply(d, 0x0e)))
  }

  // ---------------------------------------------------------------- the matrix products

  /** The product of the circulant matrix whose first row is m0 m1 m2 m3 and a column. */
  function Circulant(mul: (Byte, Byte) -> Byte, m0: Byte, m1: Byte, m2: Byte, m3: Byte, k: Column): Column {
    Column(Sum(mul(k.b0, m0), mul(k.b1, m1), mul(k.b2, m2), mul(k.b3, m3)),
           Sum(mul(k.b0, m3), mul(k.b1, m0), mul(k.b2, m1), mul(k.b3, m2)),
           Sum(mul(k.b0, m2), mul(k.b1, m3), mul(k.b2, m0), mul(k.b3, m1)),
           Sum(mul(k.b0, m1), mul(k.b1, m2), mul(k.b2, m3), mul(k.b3, m0)))
  }

  function FieldMix(k: Column): Column {
    Circulant(FieldMul, 0x02, 0x03, 0x01, 0x01, k)
  }

  function FieldInvMix(k: Column): Column {
    Circulant(FieldMul, 0x0e, 0x0b, 0x0d, 0x09, k)
  }

  // ---------------------------------------------------------------- the code computes them

  lemma {:induction false} TimesOneTwoThree(x: Byte)
    ensures FieldMul(x, 1) == x
    ensures FieldMul(x, 2) == Xtime(x)
    ensures FieldMul(x, 3) == Add(x, Xtime(x))
  {
    FieldMulCommutes(x, 1);
    FieldMulOne(x);
    TwoAndThree();
    FieldMulDoubleRight(x, 1);
    XtimeIsDouble(x);
    FieldMulCommutes(Double(x), 1);
    FieldMulOne(Double(x));
    FieldMulAdditiveRight(x, 1, 2);
  }

  lemma {:induction false} TwoAndThree()
    ensures Double(1) == 2 && Add(1, 2) == 3
  {
  }

  lemma {:induction false} SumRotates(a: Byte, b: Byte, c: Byte, d: Byte)
    ensures Sum(a, b, c, d) == Add(a, Add(Add(b, c), d)) == Sum(b, c, d, a)
  {
    AddAssociates(a, b, c);
    AddAssociates(a, Add(b, c), d);
    AddCommutes(a, Add(Add(b, c), d));
  }

  lemma {:induction false} Absorb(x: Byte, p: Byte, r: Byte)
    ensures Add(x, Add(p, Add(x, r))) == Add(p, r)
  {
  }

  /** One row of the running-XOR form, x1 and y1 the doublings of x and y. */
  lemma {:induction false} RunningXorRow(x: Byte, y: Byte, z: Byte, w: Byte, x1: Byte, y1: Byte)
    ensures Add(x, Add(Add(x1, y1), Sum(x, y, z, w))) == Sum(x1, Add(y, y1), z, w)
  {
    SumRotates(x, y, z, w);
    Absorb(x, Add(x1, y1), Add(Add(y, z), w));
    AddAssociates(y, z, w);
    AddAssociates(Add(x1, y1), y, Add(z, w));
    AddAssociates(x1, y1, y);
    AddCommutes(y1, y);
    AddAssociates(Add(x1, Add(y, y1)), z, w);
  }

  /** MixColumns' running-XOR form is the matrix product over the field. */
  lemma {:induction false} MixColumnIsMatrix(k: Column)
    ensures MixColumn(k) == FieldMix(k)
  {
    TimesOneTwoThree(k.b0);
    TimesOneTwoThree(k.b1);
    TimesOneTwoThree(k.b2);
    TimesOneTwoThree(k.b3);
    XtimeAdditive(k.b0, k.b1);
    XtimeAdditive(k.b1, k.b2);
    XtimeAdditive(k.b2, k.b3);
    XtimeAdditive(k.b3, k.b0);
    var (a, b, c, d) := (k.b0, k.b1, k.b2, k.b3);
    var (a1, b1, c1, d1) := (Xtime(a), Xtime(b), Xtime(c), Xtime(d));
    RunningXorRow(a, b, c, d, a1, b1);
    RunningXorRow(b, c, d, a, b1, c1);
    RunningXorRow(c, d, a, b, c1, d1);
    RunningXorRow(d, a, b, c, d1, a1);
    SumRotates(a, b, c, d);
    SumRotates(b, c, d, a);
    SumRotates(c, d, a, b);
    SumRotates(a, b1, Add(c, c1), d);
    SumRotates(a, b, c1, Add(d, d1));
    SumRotates(b, c1, Add(d, d1), a);
    SumRotates(d1, Add(a, a1), b, c);
  }

  lemma {:induction false} InvMixColumnIsMatrix(k: Column)
    ensures InvMixColumn(k) == FieldInvMix(k)
  {
    MacroOnConstants(k.b0);
    MacroOnConstants(k.b1);
    MacroOnConstants(k.b2);
    MacroOnConstants(k.b3);
  }

  lemma {:induction false} MacroOnConstants(x: Byte)
    ensures Multiply(x, 0x0e) == FieldMul(x, 0x0e) && Multiply(x, 0x0b) == FieldMul(x, 0x0b)
    ensures Multiply(x, 0x0d) == FieldMul(x, 0x0d) && Multiply(x, 0x09) == FieldMul(x, 0x09)
  {
    MultiplyIsFieldMul(x, 0x0e);
    MultiplyIsFieldMul(x, 0x0b);
    MultiplyIsFieldMul(x, 0x0d);
    MultiplyIsFieldMul(x, 0x09);
  }

  // ---------------------------------------------------------------- circulant matrices compose

  lemma {:induction false} SumTimes(a: Byte, b: Byte, c: Byte, d: Byte, m: Byte)
    ensures FieldMul(Sum(a, b, c, d), m) == Sum(FieldMul(a, m), FieldMul(b, m), FieldMul(c, m), FieldMul(d, m))
  {
    FieldMulAdditive(a, b, m);
    FieldMulAdditive(Add(a, b), c, m);
    FieldMulAdditive(Add(Add(a, b), c), d, m);
  }

  lemma {:induction false} TimesSum(v: Byte, a: Byte, b: Byte, c: Byte, d: Byte)
    ensures FieldMul(v, Sum(a, b, c, d)) == Sum(FieldMul(v, a), FieldMul(v, b), FieldMul(v, c), FieldMul(v, d))
  {
    FieldMulAdditiveRight(v, a, b);
    FieldMulAdditiveRight(v, Add(a, b), c);
    FieldMulAdditiveRight(v, Add(Add(a, b), c), d);
  }

  lemma {:induction false} AddOfSums(p: Column, q: Column)
    ensures Add(Sum(p.b0, p.b1, p.b2, p.b3), Sum(q.b0, q.b1, q.b2, q.b3)) ==
            Sum(Add(p.b0, q.b0), Add(p.b1, q.b1), Add(p.b2, q.b2), Add(p.b3, q.b3))
  {
    AddInterchange(p.b0, p.b1, q.b0, q.b1);
    AddInterchange(Add(p.b0, p.b1), p.b2, Add(q.b0, q.b1), q.b2);
    AddInterchange(Add(Add(p.b0, p.b1), p.b2), p.b3, Add(Add(q.b0, q.b1), q.b2), q.b3);
  }

  function AddColumns(p: Column, q: Column): Column {
    Column(Add(p.b0, q.b0), Add(p.b1, q.b1), Add(p.b2, q.b2), Add(p.b3, q.b3))
  }

  function Total(p: Column): Byte {
    Sum(p.b0, p.b1, p.b2, p.b3)
  }

  /** Summing four columns by rows or by columns gives the same byte. */
  lemma {:induction false} SumTransposes(p: Column, q: Column, r: Column, s: Column)
    ensures Sum(Total(p), Total(q), Total(r), Total(s)) ==
            Sum(Sum(p.b0, q.b0, r.b0, s.b0), Sum(p.b1, q.b1, r.b1, s.b1), Sum(p.b2, q.b2, r.b2, s.b2),
              Sum(p.b3, q.b3, r.b3, s.b3))
  {
    var pq := AddColumns(p, q);
    var pqr := AddColumns(pq, r);
    AddOfSums(p, q);
    AddOfSums(pq, r);
    AddOfSums(pqr, s);
  }

  /** The row (c0 c1 c2 c3) applied after a circulant matrix is a row of convolution sums. */
  lemma {:induction false} RowAfterCirculant(n0: Byte, n1: Byte, n2: Byte, n3: Byte, c0: Byte, c1: Byte, c2: Byte,
      c3: Byte, k: Column)
    ensures
      var i := Circulant(FieldMul, n0, n1, n2, n3, k);
      Sum(FieldMul(i.b0, c0), FieldMul(i.b1, c1), FieldMul(i.b2, c2), FieldMul(i.b3, c3)) ==
      Sum(FieldMul(k.b0, Sum(FieldMul(n0, c0), FieldMul(n3, c1), FieldMul(n2, c2), FieldMul(n1, c3))),
          FieldMul(k.b1, Sum(FieldMul(n1, c0), FieldMul(n0, c1), FieldMul(n3, c2), FieldMul(n2, c3))),
          FieldMul(k.b2, Sum(FieldMul(n2, c0), FieldMul(n1, c1), FieldMul(n0, c2), FieldMul(n3, c3))),
          FieldMul(k.b3, Sum(FieldMul(n3, c0), FieldMul(n2, c1), FieldMul(n1, c2), FieldMul(n0, c3))))
  {
    var p := RowTerms(n0, n1, n2, n3, c0, k);
    var q := RowTerms(n3, n0, n1, n2, c1, k);
    var r := RowTerms(n2, n3, n0, n1, c2, k);
    var s := RowTerms(n1, n2, n3, n0, c3, k);
    RowTimes(n0, n1, n2, n3, c0, k);
    RowTimes(n3, n0, n1, n2, c1, k);
    RowTimes(n2, n3, n0, n1, c2, k);
    RowTimes(n1, n2, n3, n0, c3, k);
    SumTransposes(p, q, r, s);
    TimesSum(k.b0, FieldMul(n0, c0), FieldMul(n3, c1), FieldMul(n2, c2), FieldMul(n1, c3));
    TimesSum(k.b1, FieldMul(n1, c0), FieldMul(n0, c1), FieldMul(n3, c2), FieldMul(n2, c3));
    TimesSum(k.b2, FieldMul(n2, c0), FieldMul(n1, c1), FieldMul(n0, c2), FieldMul(n3, c3));
    TimesSum(k.b3, FieldMul(n3, c0), FieldMul(n2, c1), FieldMul(n1, c2), FieldMul(n0, c3));
  }

  function RowTerms(n0: Byte, n1: Byte, n2: Byte, n3: Byte, c: Byte, k: Column): Column {
    Column(FieldMul(k.b0, FieldMul(n0, c)), FieldMul(k.b1, FieldMul(n1, c)),
           FieldMul(k.b2, FieldMul(n2, c)), FieldMul(k.b3, FieldMul(n3, c)))
  }

  lemma {:induction false} RowTimes(n0: Byte, n1: Byte, n2: Byte, n3: Byte, c: Byte, k: Column)
    ensures FieldMul(Sum(FieldMul(k.b0, n0), FieldMul(k.b1, n1), FieldMul(k.b2, n2), FieldMul(k.b3, n3)), c)
         == Total(RowTerms(n0, n1, n2, n3, c, k))
  {
    SumTimes(FieldMul(k.b0, n0), FieldMul(k.b1, n1), FieldMul(k.b2, n2), FieldMul(k.b3, n3), c);
    FieldMulAssociates(k.b0, n0, c);
    FieldMulAssociates(k.b1, n1, c);
    FieldMulAssociates(k.b2, n2, c);
    FieldMulAssociates(k.b3, n3, c);
  }

  /** Circulant matrices compose by circular convolution of their first rows. */
  lemma {:induction false} CirculantsCompose(m0: Byte, m1: Byte, m2: Byte, m3: Byte, n0: Byte, n1: Byte, n2: Byte,
      n3: Byte, k: Column)
    ensures
      Circulant(FieldMul, m0, m1, m2, m3, Circulant(FieldMul, n0, n1, n2, n3, k)) ==
      Circulant(FieldMul,
        Sum(FieldMul(n0, m0), FieldMul(n3, m1), FieldMul(n2, m2), FieldMul(n1, m3)),
        Sum(FieldMul(n1, m0), FieldMul(n0, m1), FieldMul(n3, m2), FieldMul(n2, m3)),
        Sum(FieldMul(n2, m0), FieldMul(n1, m1), FieldMul(n0, m2), FieldMul(n3, m3)),
        Sum(FieldMul(n3, m0), FieldMul(n2, m1), FieldMul(n1, m2), FieldMul(n0, m3)), k)
  {
    SumRotations(FieldMul(n0, m0), FieldMul(n3, m1), FieldMul(n2, m2), FieldMul(n1, m3));
    SumRotations(FieldMul(n1, m0), FieldMul(n0, m1), FieldMul(n3, m2), FieldMul(n2, m3));
    SumRotations(FieldMul(n2, m0), FieldMul(n1, m1), FieldMul(n0, m2), FieldMul(n3, m3));
    SumRotations(FieldMul(n3, m0), FieldMul(n2, m1), FieldMul(n1, m2), FieldMul(n0, m3));
    RowAfterCirculant(n0, n1, n2, n3, m0, m1, m2, m3, k);
    RowAfterCirculant(n0, n1, n2, n3, m3, m0, m1, m2, k);
    RowAfterCirculant(n0, n1, n2, n3, m2, m3, m0, m1, k);
    RowAfterCirculant(n0, n1, n2, n3, m1, m2, m3, m0, k);
  }

  lemma {:induction false} SumRotations(a: Byte, b: Byte, c: Byte, d: Byte)
    ensures Sum(a, b, c, d) == Sum(b, c, d, a) == Sum(c, d, a, b) == Sum(d, a, b, c)
  {
    SumRotates(a, b, c, d);
    SumRotates(b, c, d, a);
    SumRotates(c, d, a, b);
  }

  // ---------------------------------------------------------------- the two mixings are inverse

  lemma {:induction false} IdentityCirculant(k: Column)
    ensures Circulant(FieldMul, 1, 0, 0, 0, k) == k
  {
    TimesUnits(k.b0);
    TimesUnits(k.b1);
    TimesUnits(k.b2);
    TimesUnits(k.b3);
    AddZero(0);
    AddZero(k.b0);
    AddZero(k.b1);
    AddZero(k.b2);
    AddZero(k.b3);
  }

  lemma {:induction false} TimesUnits(x: Byte)
    ensures FieldMul(x, 0) == 0 && FieldMul(x, 1) == x
  {
    FieldMulCommutes(x, 1);
    FieldMulOne(x);
  }

  /** The products of the entries of the two matrices. */
  lemma {:induction false} MatrixEntries()
    ensures Sum(FieldMul(0x02, 0x0e), FieldMul(0x01, 0x0b), FieldMul(0x01, 0x0d), FieldMul(0x03, 0x09)) == 1
    ensures Sum(FieldMul(0x03, 0x0e), FieldMul(0x02, 0x0b), FieldMul(0x01, 0x0d), FieldMul(0x01, 0x09)) == 0
    ensures Sum(FieldMul(0x01, 0x0e), FieldMul(0x03, 0x0b), FieldMul(0x02, 0x0d), FieldMul(0x01, 0x09)) == 0
    ensures Sum(FieldMul(0x01, 0x0e), FieldMul(0x01, 0x0b), FieldMul(0x03, 0x0d), FieldMul(0x02, 0x09)) == 0
  {
    MacroOnConstants(1);
    MacroOnConstants(2);
    MacroOnConstants(3);
  }

  lemma {:induction false} MatrixEntriesSwapped()
    ensures Sum(FieldMul(0x0e, 0x02), FieldMul(0x09, 0x03), FieldMul(0x0d, 0x01), FieldMul(0x0b, 0x01)) == 1
    ensures Sum(FieldMul(0x0b, 0x02), FieldMul(0x0e, 0x03), FieldMul(0x09, 0x01), FieldMul(0x0d, 0x01)) == 0
    ensures Sum(FieldMul(0x0d, 0x02), FieldMul(0x0b, 0x03), FieldMul(0x0e, 0x01), FieldMul(0x09, 0x01)) == 0
    ensures Sum(FieldMul(0x09, 0x02), FieldMul(0x0d, 0x03), FieldMul(0x0b, 0x01), FieldMul(0x0e, 0x01)) == 0
  {
    TimesOneTwoThree(0x0e);
    TimesOneTwoThree(0x0b);
    TimesOneTwoThree(0x0d);
    TimesOneTwoThree(0x09);
  }

  /** InvMixColumns undoes MixColumns on every column. */
  lemma {:induction false} InvMixColumnUndoesMixColumn(k: Column)
    ensures InvMixColumn(MixColumn(k)) == k
  {
    MixColumnIsMatrix(k);
    InvMixColumnIsMatrix(MixColumn(k));
    MatrixEntries();
    CirculantsCompose(0x0e, 0x0b, 0x0d, 0x09, 0x02, 0x03, 0x01, 0x01, k);
    IdentityCirculant(k);
  }

  /** ... and MixColumns undoes InvMixColumns. */
  lemma {:induction false} MixColumnUndoesInvMixColumn(k: Column)
    ensures MixColumn(InvMixColumn(k)) == k
  {
    InvMixColumnIsMatrix(k);
    MixColumnIsMatrix(InvMixColumn(k));
    MatrixEntriesSwapped();
    CirculantsCompose(0x02, 0x03, 0x01, 0x01, 0x0e, 0x0b, 0x0d, 0x09, k);
    IdentityCirculant(k);
  }
}
