/** The cipher byte by byte, as section 5.1 of FIPS 197 defines its rounds: substituted bytes, taken from
    rotated rows, multiplied by the matrix and added to the round key. The library's cipher is exactly this. */
module AesStandard {
  import opened Locks
  import opened Gf256
  import opened SboxTables
  import opened Columns
  import opened AesCipher

  // ---------------------------------------------------------------- the standard's rounds

  /** The byte that a round puts at row j of column c before it mixes: from the row j of column c + j. */
  function Moved(sub: Byte -> Byte, s: Block, c: nat, j: nat): Byte
    requires c < 4 && j < 4
  {
    sub(s[4 * ((c + j) % 4) + j])
  }

  /** Row i of the matrix times a column. */
  function MatrixRow(i: nat, a: Byte, b: Byte, c: Byte, d: Byte): Byte {
    if i == 0 then Sum(FieldMul(a, 2), FieldMul(b, 3), FieldMul(c, 1), FieldMul(d, 1))
    else if i == 1 then Sum(FieldMul(a, 1), FieldMul(b, 2), FieldMul(c, 3), FieldMul(d, 1))
    else if i == 2 then Sum(FieldMul(a, 1), FieldMul(b, 1), FieldMul(c, 2), FieldMul(d, 3))
    else Sum(FieldMul(a, 3), FieldMul(b, 1), FieldMul(c, 1), FieldMul(d, 2))
  }

  /** Any product of the rows of a matrix and a column. */
  type Product = (nat, Byte, Byte, Byte, Byte) -> Byte

  /** t is b plus the first round key. */
  predicate Whitened(b: Block, w: seq<Byte>, t: Block)
    requires 16 <= |w|
  {
    forall k | 0 <= k < 16 :: t[k] == Add(b[k], w[k])
  }

  /** Row i of column c of t, the result of round r on s. */
  predicate MixedByte(sub: Byte -> Byte, row: Product, s: Block, w: seq<Byte>, r: nat, t: Block, c: nat, i: nat)
    requires 16 * r + 16 <= |w| && c < 4 && i < 4
  {
    t[4 * c + i] ==
    Add(row(i, Moved(sub, s, c, 0), Moved(sub, s, c, 1), Moved(sub, s, c, 2), Moved(sub, s, c, 3)),
      w[16 * r + 4 * c + i])
  }

  predicate Mixed(sub: Byte -> Byte, row: Product, s: Block, w: seq<Byte>, r: nat, t: Block)
    requires 16 * r + 16 <= |w|
  {
    forall c: nat, i: nat | c < 4 && i < 4 :: MixedByte(sub, row, s, w, r, t, c, i)
  }

  /** The same of the last round, which does not mix. */
  predicate LastByte(sub: Byte -> Byte, s: Block, w: seq<Byte>, r: nat, t: Block, c: nat, i: nat)
    requires 16 * r + 16 <= |w| && c < 4 && i < 4
  {
    t[4 * c + i] == Add(Moved(sub, s, c, i), w[16 * r + 4 * c + i])
  }

  predicate Last(sub: Byte -> Byte, s: Block, w: seq<Byte>, r: nat, t: Block)
    requires 16 * r + 16 <= |w|
  {
    forall c: nat, i: nat | c < 4 && i < 4 :: LastByte(sub, s, w, r, t, c, i)
  }

  /** Each of the states st[r0 + 1] to st[nr] is the result of its round on the one before. */
  ghost predicate RoundsOf(sub: Byte -> Byte, row: Product, st: seq<Block>, w: seq<Byte>, r0: nat, nr: nat)
    requires r0 < nr && |st| == nr + 1 && |w| == 16 * (nr + 1)
  {
    && (forall r | r0 < r < nr :: Mixed(sub, row, st[r - 1], w, r, st[r]))
    && Last(sub, st[nr - 1], w, nr, st[nr])
  }

  /** c is the standard's encryption of b: there are states st[0] to st[nr], each made from the one before. */
  ghost predicate Enciphers(b: Block, w: seq<Byte>, nr: nat, c: Block)
    requires 1 <= nr && |w| == 16 * (nr + 1)
  {
    exists st: seq<Block> | |st| == nr + 1 ::
      Whitened(b, w, st[0]) && RoundsOf(Sbox, MatrixRow, st, w, 0, nr) && st[nr] == c
  }

  // ---------------------------------------------------------------- one round of the library

  /** The layers of a, in terms of a byte and a column function: facts that Unlock releases where they are needed. */
  ghost predicate MadeOf(a: Layers, sub: Byte -> Byte, mix: Column -> Column) {
    forall k: int :: Unlock(k) ==>
      && (forall s: Block :: a.substitute(s) == ShiftRows(MapBytes(sub, s)))
      && (forall s: Block :: a.mix(s) == MapColumns(mix, s))
  }

  ghost predicate IsMatrix(mix: Column -> Column, row: Product) {
    forall k: int :: Unlock(k) ==>
      forall m: Column, i: nat | i < 4 :: ByteOf(mix(m), i) == row(i, m.b0, m.b1, m.b2, m.b3)
  }

  lemma {:induction false} MovedByte(a: Layers, sub: Byte -> Byte, mix: Column -> Column, s: Block, c: nat, j: nat)
    requires c < 4 && j < 4 && MadeOf(a, sub, mix)
    ensures a.substitute(s)[4 * c + j] == Moved(sub, s, c, j)
  {
    assert Unlock(0);
    ShiftRowsRotates(MapBytes(sub, s), c, j);
  }

  lemma {:induction false} ColumnIs(u: Block, c: nat, i: nat)
    requires c < 4 && i < 4
    ensures ColumnAround(u, 4 * c + i) == Column(u[4 * c], u[4 * c + 1], u[4 * c + 2], u[4 * c + 3])
  {
    assert 4 * c + i - (4 * c + i) % 4 == 4 * c;
  }

  lemma {:induction false} MixedRow(mix: Column -> Column, row: Product, m: Column, i: nat)
    requires i < 4 && IsMatrix(mix, row)
    ensures ByteOf(mix(m), i) == row(i, m.b0, m.b1, m.b2, m.b3)
  {
    assert Unlock(0);
  }

  lemma {:induction false} MixedAt(a: Layers, sub: Byte -> Byte, mix: Column -> Column, u: Block, c: nat, i: nat)
    requires c < 4 && i < 4 && MadeOf(a, sub, mix)
    ensures a.mix(u)[4 * c + i] == ByteOf(mix(ColumnAround(u, 4 * c + i)), i)
  {
    assert Unlock(0);
  }

  lemma {:induction false} KeyAdded(v: Block, w: seq<Byte>, r: nat, k: nat)
    requires 16 * r + 16 <= |w| && k < 16
    ensures AddRoundKey(v, w, r)[k] == Add(v[k], w[16 * r + k])
  {
  }

  lemma {:induction false} MixedValue(a: Layers, sub: Byte -> Byte, mix: Column -> Column, row: Product, u: Block,
      c: nat, i: nat)
    requires c < 4 && i < 4 && MadeOf(a, sub, mix) && IsMatrix(mix, row)
    ensures a.mix(u)[4 * c + i] == row(i, u[4 * c], u[4 * c + 1], u[4 * c + 2], u[4 * c + 3])
  {
    ColumnIs(u, c, i);
    MixedAt(a, sub, mix, u, c, i);
    MixedRow(mix, row, ColumnAround(u, 4 * c + i), i);
  }

  /** What the library's round puts at row i of column c. */
  lemma {:induction false} LibraryByte(a: Layers, sub: Byte -> Byte, mix: Column -> Column, row: Product, s: Block,
      w: seq<Byte>, r: nat, c: nat, i: nat)
    requires 16 * r + 16 <= |w| && c < 4 && i < 4 && MadeOf(a, sub, mix) && IsMatrix(mix, row)
    ensures MixedByte(sub, row, s, w, r, AddRoundKey(a.mix(a.substitute(s)), w, r), c, i)
  {
    var u := a.substitute(s);
    MovedByte(a, sub, mix, s, c, 0);
    MovedByte(a, sub, mix, s, c, 1);
    MovedByte(a, sub, mix, s, c, 2);
    MovedByte(a, sub, mix, s, c, 3);
    MixedValue(a, sub, mix, row, u, c, i);
    KeyAdded(a.mix(u), w, r, 4 * c + i);
  }

  lemma {:induction false} LibraryLastByte(a: Layers, sub: Byte -> Byte, mix: Column -> Column, s: Block, w: seq<Byte>,
      r: nat, c: nat, i: nat)
    requires 16 * r + 16 <= |w| && c < 4 && i < 4 && MadeOf(a, sub, mix)
    ensures LastByte(sub, s, w, r, AddRoundKey(a.substitute(s), w, r), c, i)
  {
    MovedByte(a, sub, mix, s, c, i);
    KeyAdded(a.substitute(s), w, r, 4 * c + i);
  }

  lemma {:induction false} OneMixed(sub: Byte -> Byte, row: Product, s: Block, w: seq<Byte>, r: nat, t: Block, u: Block)
    requires 16 * r + 16 <= |w| && Mixed(sub, row, s, w, r, t) && Mixed(sub, row, s, w, r, u)
    ensures t == u
  {
    forall k | 0 <= k < 16 ensures t[k] == u[k] {
      assert MixedByte(sub, row, s, w, r, t, k / 4, k % 4) && MixedByte(sub, row, s, w, r, u, k / 4, k % 4);
    }
  }

  lemma {:induction false} OneLast(sub: Byte -> Byte, s: Block, w: seq<Byte>, r: nat, t: Block, u: Block)
    requires 16 * r + 16 <= |w| && Last(sub, s, w, r, t) && Last(sub, s, w, r, u)
    ensures t == u
  {
    forall k | 0 <= k < 16 ensures t[k] == u[k] {
      assert LastByte(sub, s, w, r, t, k / 4, k % 4) && LastByte(sub, s, w, r, u, k / 4, k % 4);
    }
  }

  /** The library's round is the only result that the standard allows. */
  lemma {:induction false} MixedIff(a: Layers, sub: Byte -> Byte, mix: Column -> Column, row: Product, s: Block,
      w: seq<Byte>,
      r: nat, t: Block)
    requires 16 * r + 16 <= |w| && MadeOf(a, sub, mix) && IsMatrix(mix, row)
    ensures Mixed(sub, row, s, w, r, t) <==> t == AddRoundKey(a.mix(a.substitute(s)), w, r)
  {
    var u := AddRoundKey(a.mix(a.substitute(s)), w, r);
    forall c: nat, i: nat | c < 4 && i < 4 ensures MixedByte(sub, row, s, w, r, u, c, i) {
      LibraryByte(a, sub, mix, row, s, w, r, c, i);
    }
    if Mixed(sub, row, s, w, r, t) {
      OneMixed(sub, row, s, w, r, t, u);
    }
  }

  lemma {:induction false} LastIff(a: Layers, sub: Byte -> Byte, mix: Column -> Column, s: Block, w: seq<Byte>, r: nat,
      t: Block)
    requires 16 * r + 16 <= |w| && MadeOf(a, sub, mix)
    ensures Last(sub, s, w, r, t) <==> t == AddRoundKey(a.substitute(s), w, r)
  {
    var u := AddRoundKey(a.substitute(s), w, r);
    forall c: nat, i: nat | c < 4 && i < 4 ensures LastByte(sub, s, w, r, u, c, i) {
      LibraryLastByte(a, sub, mix, s, w, r, c, i);
    }
    if Last(sub, s, w, r, t) {
      OneLast(sub, s, w, r, t, u);
    }
  }

  // ---------------------------------------------------------------- all rounds

  lemma {:induction false} RoundsAreStandard(a: Layers, sub: Byte -> Byte, mix: Column -> Column, row: Product,
      st: seq<Block>,
      w: seq<Byte>, r: nat, nr: nat)
    requires MadeOf(a, sub, mix) && IsMatrix(mix, row)
    requires r < nr && |st| == nr + 1 && |w| == 16 * (nr + 1) && RoundsOf(sub, row, st, w, r, nr)
    ensures st[nr] == Rounds(a, st[r], w, r + 1, nr)
    decreases nr - r
  {
    if r + 1 == nr {
      LastIff(a, sub, mix, st[r], w, nr, st[nr]);
    } else {
      assert Mixed(sub, row, st[r + 1 - 1], w, r + 1, st[r + 1]);
      MixedIff(a, sub, mix, row, st[r], w, r + 1, st[r + 1]);
      RoundsAreStandard(a, sub, mix, row, st, w, r + 1, nr);
    }
  }

  /** The states of the library's rounds, on from s in front of round |before| + 1. */
  lemma {:induction false} StatesOf(a: Layers, sub: Byte -> Byte, mix: Column -> Column, row: Product,
      before: seq<Block>, s: Block,
      w: seq<Byte>, nr: nat)
      returns (st: seq<Block>)
    requires MadeOf(a, sub, mix) && IsMatrix(mix, row)
    requires |before| < nr && |w| == 16 * (nr + 1)
    ensures |st| == nr + 1 && st[..|before|] == before && st[|before|] == s && RoundsOf(sub, row, st, w, |before|, nr)
    decreases nr - |before|
  {
    var r, u := |before|, a.substitute(s);
    if r + 1 == nr {
      st := before + [s, AddRoundKey(u, w, nr)];
      LastIff(a, sub, mix, s, w, nr, st[nr]);
    } else {
      var t := AddRoundKey(a.mix(u), w, r + 1);
      st := StatesOf(a, sub, mix, row, before + [s], t, w, nr);
      assert st[..r] == st[..r + 1][..r] && st[r] == st[..r + 1][r];
      MixedIff(a, sub, mix, row, s, w, r + 1, t);
      forall q | r < q < nr ensures Mixed(sub, row, st[q - 1], w, q, st[q]) {
        if q == r + 1 {
          assert st[q - 1] == s && st[q] == t;
        }
      }
    }
  }

  lemma {:induction false} WhitenedIff(b: Block, w: seq<Byte>, t: Block)
    requires 16 <= |w|
    ensures Whitened(b, w, t) <==> t == AddRoundKey(b, w, 0)
  {
    forall k | 0 <= k < 16 ensures AddRoundKey(b, w, 0)[k] == Add(b[k], w[k]) {
      KeyAdded(b, w, 0, k);
    }
  }

  lemma {:induction false} AesMadeOf()
    ensures MadeOf(AES, Sbox, MixColumn) && IsMatrix(MixColumn, MatrixRow)
  {
    forall m: Column, i: nat | i < 4 ensures ByteOf(MixColumn(m), i) == MatrixRow(i, m.b0, m.b1, m.b2, m.b3) {
      MixColumnIsMatrix(m);
    }
  }

  lemma {:induction false} RoundsGive(a: Layers, sub: Byte -> Byte, mix: Column -> Column, row: Product, b: Block,
      w: seq<Byte>,
      nr: nat, c: Block)
    requires 1 <= nr && |w| == 16 * (nr + 1) && MadeOf(a, sub, mix) && IsMatrix(mix, row)
    ensures c == Rounds(a, AddRoundKey(b, w, 0), w, 1, nr) <==>
      exists st: seq<Block> | |st| == nr + 1 :: Whitened(b, w, st[0]) && RoundsOf(sub, row, st, w, 0, nr) && st[nr] == c
  {
    var s := AddRoundKey(b, w, 0);
    forall st: seq<Block> | |st| == nr + 1 && Whitened(b, w, st[0]) && RoundsOf(sub, row, st, w, 0, nr)
      ensures st[nr] == Rounds(a, s, w, 1, nr)
    {
      WhitenedIff(b, w, st[0]);
      RoundsAreStandard(a, sub, mix, row, st, w, 0, nr);
    }
    var st := StatesOf(a, sub, mix, row, [], s, w, nr);
    WhitenedIff(b, w, s);
    assert Whitened(b, w, st[0]) && RoundsOf(sub, row, st, w, 0, nr);
  }

  /** For every block, every round-key array and every number of rounds: the library's cipher gives the standard's
      encryption, and nothing else is one. */
  lemma {:induction false} CipherIsStandard(b: Block, w: seq<Byte>, nr: nat, c: Block)
    requires 1 <= nr && |w| == 16 * (nr + 1)
    ensures Enciphers(b, w, nr, c) <==> c == Cipher(b, w, nr)
  {
    AesMadeOf();
    RoundsGive(AES, Sbox, MixColumn, MatrixRow, b, w, nr, c);
  }

  /** The inverse cipher gives the one block whose standard encryption is c. */
  lemma {:induction false} InvCipherIsStandard(c: Block, w: seq<Byte>, nr: nat, b: Block)
    requires 1 <= nr && |w| == 16 * (nr + 1)
    ensures Enciphers(b, w, nr, c) <==> b == InvCipher(c, w, nr)
  {
    CipherIsStandard(b, w, nr, c);
    InvCipherUndoesCipher(b, w, nr);
    CipherUndoesInvCipher(c, w, nr);
  }
}
