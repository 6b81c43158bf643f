/** The two substitution tables of the AES library, row by row as in the source: the high nibble
    of the argument selects a row, the low nibble one of its sixteen bytes. */
module SboxTables {
  import opened Gf256

  type TableRow = bv128

  function Row(x: Byte, r0: TableRow, r1: TableRow, r2: TableRow, r3: TableRow, r4: TableRow, r5: TableRow,
      r6: TableRow, r7: TableRow, r8: TableRow, r9: TableRow, rA: TableRow, rB: TableRow, rC: TableRow,
      rD: TableRow, rE: TableRow, rF: TableRow): TableRow
  {
    if x & 0x80 == 0 then
      if x & 0x40 == 0 then
        if x & 0x20 == 0 then (if x & 0x10 == 0 then r0 else r1) else (if x & 0x10 == 0 then r2 else r3)
      else
        if x & 0x20 == 0 then (if x & 0x10 == 0 then r4 else r5) else (if x & 0x10 == 0 then r6 else r7)
    else
      if x & 0x40 == 0 then
        if x & 0x20 == 0 then (if x & 0x10 == 0 then r8 else r9) else (if x & 0x10 == 0 then rA else rB)
      else
        if x & 0x20 == 0 then (if x & 0x10 == 0 then rC else rD) else (if x & 0x10 == 0 then rE else rF)
  }

  /** The byte of a row that the low nibble of x names, the first byte being the most significant. */
  function Entry(row: TableRow, x: Byte): Byte {
    var half := if x & 8 == 0 then row >> 64 else row;
    var word := if x & 4 == 0 then half >> 32 else half;
    var pair := if x & 2 == 0 then word >> 16 else word;
    var byte := if x & 1 == 0 then pair >> 8 else pair;
    (byte & 0xff) as Byte
  }

  /** The forward table. */
  function Sbox(x: Byte): Byte {
    Entry(Row(x,
        0x637c777b_f26b6fc5_3001672b_fed7ab76,
        0xca82c97d_fa5947f0_add4a2af_9ca472c0,
        0xb7fd9326_363ff7cc_34a5e5f1_71d83115,
        0x04c723c3_1896059a_071280e2_eb27b275,
        0x09832c1a_1b6e5aa0_523bd6b3_29e32f84,
        0x53d100ed_20fcb15b_6acbbe39_4a4c58cf,
        0xd0efaafb_434d3385_45f9027f_503c9fa8,
        0x51a3408f_929d38f5_bcb6da21_10fff3d2,
        0xcd0c13ec_5f974417_c4a77e3d_645d1973,
        0x60814fdc_222a9088_46eeb814_de5e0bdb,
        0xe0323a0a_4906245c_c2d3ac62_9195e479,
        0xe7c8376d_8dd54ea9_6c56f4ea_657aae08,
        0xba78252e_1ca6b4c6_e8dd741f_4bbd8b8a,
        0x703eb566_4803f60e_613557b9_86c11d9e,
        0xe1f89811_69d98e94_9b1e87e9_ce5528df,
        0x8ca1890d_bfe64268_41992d0f_b054bb16), x)
  }

  /** The inverse table. */
  function InvSbox(x: Byte): Byte {
    Entry(Row(x,
        0x52096ad5_3036a538_bf40a39e_81f3d7fb,
        0x7ce33982_9b2fff87_348e4344_c4dee9cb,
        0x547b9432_a6c2233d_ee4c950b_42fac34e,
        0x082ea166_28d924b2_765ba249_6d8bd125,
        0x72f8f664_86689816_d4a45ccc_5d65b692,
        0x6c704850_fdedb9da_5e154657_a78d9d84,
        0x90d8ab00_8cbcd30a_f7e45805_b8b34506,
        0xd02c1e8f_ca3f0f02_c1afbd03_01138a6b,
        0x3a911141_4f67dcea_97f2cfce_f0b4e673,
        0x96ac7422_e7ad3585_e2f937e8_1c75df6e,
        0x47f11a71_1d29c589_6fb7620e_aa18be1b,
        0xfc563e4b_c6d27920_9adbc0fe_78cd5af4,
        0x1fdda833_8807c731_b1121059_2780ec5f,
        0x60517fa9_19b54a0d_2de57a9f_93c99cef,
        0xa0e03b4d_ae2af5b0_c8ebbb3c_83539961,
        0x172b047e_ba77d626_e1691463_55210c7d), x)
  }

  lemma {:induction false} InvSboxSbox(x: Byte)
    ensures InvSbox(Sbox(x)) == x
  {
  }

  lemma {:induction false} SboxInvSbox(x: Byte)
    ensures Sbox(InvSbox(x)) == x
  {
  }

  // ------------------------------------------------------------ what the entries are

  /** The affine map of FIPS 197, section 5.1.1: the XOR of five rotations and the constant 0x63. */
  function Affine(b: Byte): Byte {
    b ^ ((b << 1) | (b >> 7)) ^ ((b << 2) | (b >> 6)) ^ ((b << 3) | (b >> 5)) ^ ((b << 4) | (b >> 4)) ^ 0x63
  }

  function InvAffine(s: Byte): Byte {
    ((s << 1) | (s >> 7)) ^ ((s << 3) | (s >> 5)) ^ ((s << 6) | (s >> 2)) ^ 0x05
  }

  lemma {:induction false} AffineInvAffine(s: Byte)
    ensures Affine(InvAffine(s)) == s
  {
  }

  /** Every nonzero byte has a multiplicative inverse, and the forward table holds it. */
  lemma {:induction false} TableHoldsInverse(x: Byte)
    requires x != 0
    ensures FieldMul(x, InvAffine(Sbox(x))) == 1
  {
    var v := InvAffine(Sbox(x));
    var x4 := Double(Double(Double(Double(x))));
    FieldMulUnfoldFour(x, v, v & 1 != 0, (v >> 1) & 1 != 0, (v >> 2) & 1 != 0, (v >> 3) & 1 != 0);
    FieldMulUnfoldFour(x4, v >> 4, (v >> 4) & 1 != 0, (v >> 5) & 1 != 0, (v >> 6) & 1 != 0, (v >> 7) & 1 != 0);
  }

  /** The forward table is the affine image of the field inverse, zero standing for its own. */
  lemma {:induction false} SboxIsAffineOfInverse(x: Byte, y: Byte)
    requires FieldMul(x, y) == 1 || (x == 0 && y == 0)
    ensures Sbox(x) == Affine(y)
  {
    if x != 0 {
      var v := InvAffine(Sbox(x));
      TableHoldsInverse(x);
      FieldMulCommutes(x, v);
      FieldMulAssociates(v, x, y);
      FieldMulOne(y);
      FieldMulCommutes(v, 1);
      FieldMulOne(v);
      AffineInvAffine(Sbox(x));
    } else {
      FieldMulZero(y);
    }
  }
}
