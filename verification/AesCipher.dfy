/** The AES transformations on one block, as functions: what each in-place routine of the library
    computes. The source's state byte (i, j) is byte 4*i + j of the block. */
module AesCipher {
  import opened Gf256
  import opened SboxTables
  import opened Columns

  type Block = b: seq<Byte> | |b| == 16 witness seq(16, _ => 0)

  // ---------------------------------------------------------------- layers

  /** f applied to every byte. */
  function MapBytes(f: Byte -> Byte, s: Block): Block {
    seq(16, k requires 0 <= k < 16 => f(s[k]))
  }

  function SubBytes(b: Block): Block {
    MapBytes(Sbox, b)
  }

  function InvSubBytes(b: Block): Block {
    MapBytes(InvSbox, b)
  }

  /** The byte that ShiftRows moves to place k. */
  function ShiftSource(k: nat): (i: nat)
    requires k < 16
    ensures i < 16
  {
    match k
    case 0 => 0 case 1 => 5 case 2 => 10 case 3 => 15
    case 4 => 4 case 5 => 9 case 6 => 14 case 7 => 3
    case 8 => 8 case 9 => 13 case 10 => 2 case 11 => 7
    case 12 => 12 case 13 => 1 case 14 => 6 case _ => 11
  }

  /** The byte that InvShiftRows moves to place k. */
  function InvShiftSource(k: nat): (i: nat)
    requires k < 16
    ensures i < 16
  {
    match k
    case 0 => 0 case 1 => 13 case 2 => 10 case 3 => 7
    case 4 => 4 case 5 => 1 case 6 => 14 case 7 => 11
    case 8 => 8 case 9 => 5 case 10 => 2 case 11 => 15
    case 12 => 12 case 13 => 9 case 14 => 6 case _ => 3
  }

  function ShiftRows(b: Block): Block {
    seq(16, k requires 0 <= k < 16 => b[ShiftSource(k)])
  }

  function InvShiftRows(b: Block): Block {
    seq(16, k requires 0 <= k < 16 => b[InvShiftSource(k)])
  }

  /** The column that holds byte k. */
  function ColumnAround(s: Block, k: nat): Column
    requires k < 16
  {
    var i := k - k % 4;
    Column(s[i], s[i + 1], s[i + 2], s[i + 3])
  }

  function ByteOf(k: Column, r: nat): Byte {
    if r == 0 then k.b0 else if r == 1 then k.b1 else if r == 2 then k.b2 else k.b3
  }

  /** f applied to every column. */
  function MapColumns(f: Column -> Column, s: Block): Block {
    seq(16, k requires 0 <= k < 16 => ByteOf(f(ColumnAround(s, k)), k % 4))
  }

  function MixColumns(b: Block): Block {
    MapColumns(MixColumn, b)
  }

  function InvMixColumns(b: Block): Block {
    MapColumns(InvMixColumn, b)
  }

  function XorBlocks(a: Block, b: Block): Block {
    seq(16, k requires 0 <= k < 16 => Add(a[k], b[k]))
  }

  function RoundKeyOf(w: seq<Byte>, round: nat): Block
    requires 16 * round + 16 <= |w|
  {
    w[16 * round..16 * round + 16]
  }

  function AddRoundKey(b: Block, w: seq<Byte>, round: nat): Block
    requires 16 * round + 16 <= |w|
  {
    XorBlocks(b, RoundKeyOf(w, round))
  }

  // ---------------------------------------------------------------- the two ciphers

  /** The keyless layers of a round and their inverses. */
  datatype Layers = Layers(substitute: Block -> Block, mix: Block -> Block,
                           unsubstitute: Block -> Block, unmix: Block -> Block)

  function Substitute(b: Block): Block {
    ShiftRows(SubBytes(b))
  }

  function Unsubstitute(b: Block): Block {
    InvSubBytes(InvShiftRows(b))
  }

  const AES := Layers(Substitute, MixColumns, Unsubstitute, InvMixColumns)

  /** Rounds r to nr of the cipher; the last one does not mix. */
  function Rounds(a: Layers, b: Block, w: seq<Byte>, r: nat, nr: nat): Block
    requires 1 <= r <= nr && |w| == 16 * (nr + 1)
    decreases nr - r
  {
    var s := a.substitute(b);
    if r == nr then AddRoundKey(s, w, nr) else Rounds(a, AddRoundKey(a.mix(s), w, r), w, r + 1, nr)
  }

  function Cipher(b: Block, w: seq<Byte>, nr: nat): Block
    requires 1 <= nr && |w| == 16 * (nr + 1)
  {
    Rounds(AES, AddRoundKey(b, w, 0), w, 1, nr)
  }

  /** Rounds r down to 0 of the inverse cipher. */
  function InvRounds(a: Layers, b: Block, w: seq<Byte>, r: nat): Block
    requires 16 * (r + 1) <= |w|
    decreases r
  {
    var s := AddRoundKey(a.unsubstitute(b), w, r);
    if r == 0 then s else InvRounds(a, a.unmix(s), w, r - 1)
  }

  function InvCipher(b: Block, w: seq<Byte>, nr: nat): Block
    requires 1 <= nr && |w| == 16 * (nr + 1)
  {
    InvRounds(AES, AddRoundKey(b, w, nr), w, nr - 1)
  }

  /** The cipher under a fixed round-key array, as the modes of operation take it. */
  function Encryptor(w: seq<Byte>, nr: nat): Block -> Block
    requires 1 <= nr && |w| == 16 * (nr + 1)
  {
    (b: Block) => Cipher(b, w, nr)
  }

  function Decryptor(w: seq<Byte>, nr: nat): Block -> Block
    requires 1 <= nr && |w| == 16 * (nr + 1)
  {
    (b: Block) => InvCipher(b, w, nr)
  }

  // ---------------------------------------------------------------- every layer has an inverse

  lemma {:induction false} MapBytesInverse(f: Byte -> Byte, g: Byte -> Byte, s: Block)
    requires forall x: Byte :: g(f(x)) == x
    ensures MapBytes(g, MapBytes(f, s)) == s
  {
    forall k | 0 <= k < 16 ensures MapBytes(g, MapBytes(f, s))[k] == s[k] {
      assert MapBytes(f, s)[k] == f(s[k]);
    }
  }

  lemma {:induction false} SubBytesInverse(b: Block)
    ensures InvSubBytes(SubBytes(b)) == b
    ensures SubBytes(InvSubBytes(b)) == b
  {
    forall x: Byte ensures InvSbox(Sbox(x)) == x && Sbox(InvSbox(x)) == x {
      InvSboxSbox(x);
      SboxInvSbox(x);
    }
    MapBytesInverse(Sbox, InvSbox, b);
    MapBytesInverse(InvSbox, Sbox, b);
  }

  /** ShiftRows rotates row r of the state left by r columns; InvShiftRows rotates it right. */
  lemma {:induction false} ShiftRowsRotates(b: Block, c: nat, r: nat)
    requires c < 4 && r < 4
    ensures ShiftRows(b)[4 * c + r] == b[4 * ((c + r) % 4) + r]
    ensures InvShiftRows(b)[4 * ((c + r) % 4) + r] == b[4 * c + r]
  {
    ShiftSourceRotates(c, r);
  }

  lemma {:induction false} ShiftSourceRotates(c: nat, r: nat)
    requires c < 4 && r < 4
    ensures ShiftSource(4 * c + r) == 4 * ((c + r) % 4) + r
    ensures InvShiftSource(4 * ((c + r) % 4) + r) == 4 * c + r
  {
  }

  lemma {:induction false} ShiftSourceInverse(k: nat)
    requires k < 16
    ensures ShiftSource(InvShiftSource(k)) == k && InvShiftSource(ShiftSource(k)) == k
  {
  }

  lemma {:induction false} ShiftRowsInverse(b: Block)
    ensures InvShiftRows(ShiftRows(b)) == b
    ensures ShiftRows(InvShiftRows(b)) == b
  {
    forall k | 0 <= k < 16
      ensures InvShiftRows(ShiftRows(b))[k] == b[k] && ShiftRows(InvShiftRows(b))[k] == b[k]
    {
      ShiftSourceInverse(k);
    }
  }

  lemma {:induction false} MapColumnsAt(f: Column -> Column, s: Block, k: nat)
    requires k < 16
    ensures ColumnAround(MapColumns(f, s), k) == f(ColumnAround(s, k))
  {
    var i := k - k % 4;
    assert ColumnAround(s, i) == ColumnAround(s, i + 1) == ColumnAround(s, i + 2) == ColumnAround(s, i + 3);
  }

  lemma {:induction false} MapColumnsInverse(f: Column -> Column, g: Column -> Column, s: Block)
    requires forall k: Column :: g(f(k)) == k
    ensures MapColumns(g, MapColumns(f, s)) == s
  {
    forall k | 0 <= k < 16 ensures MapColumns(g, MapColumns(f, s))[k] == s[k] {
      MapColumnsAt(f, s, k);
    }
  }

  lemma {:induction false} MixColumnsInverse(b: Block)
    ensures InvMixColumns(MixColumns(b)) == b
    ensures MixColumns(InvMixColumns(b)) == b
  {
    forall k: Column ensures InvMixColumn(MixColumn(k)) == k && MixColumn(InvMixColumn(k)) == k {
      InvMixColumnUndoesMixColumn(k);
      MixColumnUndoesInvMixColumn(k);
    }
    MapColumnsInverse(MixColumn, InvMixColumn, b);
    MapColumnsInverse(InvMixColumn, MixColumn, b);
  }

  lemma {:induction false} AddTwice(a: Byte, b: Byte)
    ensures Add(Add(a, b), b) == a
  {
  }

  lemma {:induction false} XorTwice(a: Block, b: Block)
    ensures XorBlocks(XorBlocks(a, b), b) == a
  {
    forall k | 0 <= k < 16 ensures XorBlocks(XorBlocks(a, b), b)[k] == a[k] {
      AddTwice(a[k], b[k]);
    }
  }

  // ---------------------------------------------------------------- the ciphers are inverse

  ghost predicate Invertible(a: Layers) {
    && (forall b: Block :: a.unsubstitute(a.substitute(b)) == b)
    && (forall b: Block :: a.substitute(a.unsubstitute(b)) == b)
    && (forall b: Block :: a.unmix(a.mix(b)) == b)
    && (forall b: Block :: a.mix(a.unmix(b)) == b)
  }

  lemma {:induction false} AesInvertible()
    ensures Invertible(AES)
  {
    forall b: Block ensures AES.unsubstitute(AES.substitute(b)) == b {
      ShiftRowsInverse(SubBytes(b));
      SubBytesInverse(b);
    }
    forall b: Block ensures AES.substitute(AES.unsubstitute(b)) == b {
      SubBytesInverse(InvShiftRows(b));
      ShiftRowsInverse(b);
    }
    forall b: Block ensures AES.unmix(AES.mix(b)) == b {
      MixColumnsInverse(b);
    }
    forall b: Block ensures AES.mix(AES.unmix(b)) == b {
      MixColumnsInverse(b);
    }
  }

  /** Undoing rounds nr down to r of a ciphertext leaves the substituted input of round r. */
  lemma {:induction false} UndoRounds(a: Layers, s: Block, w: seq<Byte>, r: nat, nr: nat)
    requires Invertible(a) && 1 <= r <= nr && |w| == 16 * (nr + 1)
    ensures InvRounds(a, AddRoundKey(Rounds(a, s, w, r, nr), w, nr), w, nr - 1)
      == InvRounds(a, a.substitute(s), w, r - 1)
    decreases nr - r
  {
    var t := a.substitute(s);
    if r == nr {
      XorTwice(t, RoundKeyOf(w, nr));
    } else {
      UndoRounds(a, AddRoundKey(a.mix(t), w, r), w, r + 1, nr);
      XorTwice(a.mix(t), RoundKeyOf(w, r));
    }
  }

  /** Redoing rounds 1 to r+1 of what InvRounds produced arrives at round r+1 with its input. */
  lemma {:induction false} RedoRounds(a: Layers, t: Block, w: seq<Byte>, r: nat, nr: nat)
    requires Invertible(a) && r < nr && |w| == 16 * (nr + 1)
    ensures Rounds(a, AddRoundKey(InvRounds(a, t, w, r), w, 0), w, 1, nr) == Rounds(a, a.unsubstitute(t), w, r + 1, nr)
    decreases r
  {
    var u := a.unsubstitute(t);
    XorTwice(u, RoundKeyOf(w, r));
    if r > 0 {
      RedoRounds(a, a.unmix(AddRoundKey(u, w, r)), w, r - 1, nr);
    }
  }

  lemma {:induction false} InverseCipherOf(a: Layers, b: Block, w: seq<Byte>, nr: nat)
    requires Invertible(a) && 1 <= nr && |w| == 16 * (nr + 1)
    ensures InvRounds(a, AddRoundKey(Rounds(a, AddRoundKey(b, w, 0), w, 1, nr), w, nr), w, nr - 1) == b
    ensures Rounds(a, AddRoundKey(InvRounds(a, AddRoundKey(b, w, nr), w, nr - 1), w, 0), w, 1, nr) == b
  {
    UndoRounds(a, AddRoundKey(b, w, 0), w, 1, nr);
    XorTwice(b, RoundKeyOf(w, 0));
    RedoRounds(a, AddRoundKey(b, w, nr), w, nr - 1, nr);
    XorTwice(b, RoundKeyOf(w, nr));
  }

  /** InvCipher undoes Cipher, for every round-key array and every number of rounds. */
  lemma {:induction false} InvCipherUndoesCipher(b: Block, w: seq<Byte>, nr: nat)
    requires 1 <= nr && |w| == 16 * (nr + 1)
    ensures InvCipher(Cipher(b, w, nr), w, nr) == b
  {
    AesInvertible();
    InverseCipherOf(AES, b, w, nr);
  }

  /** Cipher undoes InvCipher, for every round-key array and every number of rounds. */
  lemma {:induction false} CipherUndoesInvCipher(b: Block, w: seq<Byte>, nr: nat)
    requires 1 <= nr && |w| == 16 * (nr + 1)
    ensures Cipher(InvCipher(b, w, nr), w, nr) == b
  {
    AesInvertible();
    InverseCipherOf(AES, b, w, nr);
  }
}
