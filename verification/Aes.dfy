/** The AES library as it runs: states, round keys, buffers and IVs are arrays overwritten in place.
    A pointer into a buffer is the buffer and an offset; a state is the sixteen bytes from there. */
module Aes {
  import opened Locks
  import opened Gf256
  import opened SboxTables
  import opened Columns
  import S = AesCipher
  import AesStandard
  import M = AesModes
  import K = KeySchedule

  function BlockAt(s: seq<Byte>, off: nat): S.Block
    requires off + 16 <= |s|
  {
    s[off..off + 16]
  }

  /** Nothing but the block at off differs. */
  ghost predicate SameOutside(s: seq<Byte>, t: seq<Byte>, off: nat) {
    |s| == |t| && forall k | 0 <= k < |s| && !(off <= k < off + 16) :: t[k] == s[k]
  }

  /** Byte k of the state at off. */
  function At(a: array<Byte>, off: nat, k: nat): Byte
    requires off + k < a.Length
    reads a
  {
    a[off + k]
  }

  // ---------------------------------------------------------------- one round's routines

  method AddRoundKey(round: nat, state: array<Byte>, off: nat, roundKey: array<Byte>)
    requires off + 16 <= state.Length && 16 * round + 16 <= roundKey.Length && state != roundKey
    modifies state
    ensures BlockAt(state[..], off) == S.AddRoundKey(old(BlockAt(state[..], off)), roundKey[..], round)
    ensures SameOutside(old(state[..]), state[..], off)
  {
    ghost var was, key := BlockAt(state[..], off), S.RoundKeyOf(roundKey[..], round);
    for i := 0 to 4
      invariant forall k | 0 <= k < 16 :: At(state, off, k) == if k < 4 * i then Add(was[k], key[k]) else was[k]
      invariant SameOutside(old(state[..]), state[..], off)
    {
      for j := 0 to 4
        invariant forall k | 0 <= k < 16 :: At(state, off, k) == if k < 4 * i + j then Add(was[k], key[k]) else was[k]
        invariant SameOutside(old(state[..]), state[..], off)
      {
        assert At(state, off, 4 * i + j) == was[4 * i + j];
        state[off + 4 * i + j] := Add(state[off + 4 * i + j], roundKey[round * 4 * 4 + i * 4 + j]);
      }
    }
    assert forall k | 0 <= k < 16 :: BlockAt(state[..], off)[k] == At(state, off, k);
  }

  method SubBytes(state: array<Byte>, off: nat)
    requires off + 16 <= state.Length
    modifies state
    ensures BlockAt(state[..], off) == S.SubBytes(old(BlockAt(state[..], off)))
    ensures SameOutside(old(state[..]), state[..], off)
  {
    ghost var was := BlockAt(state[..], off);
    for i := 0 to 4
      invariant forall k | 0 <= k < 16 :: At(state, off, k) == if k % 4 < i then Sbox(was[k]) else was[k]
      invariant SameOutside(old(state[..]), state[..], off)
    {
      for j := 0 to 4
        invariant forall k | 0 <= k < 16 ::
          At(state, off, k) == if k % 4 < i || (k % 4 == i && k / 4 < j) then Sbox(was[k]) else was[k]
        invariant SameOutside(old(state[..]), state[..], off)
      {
        assert At(state, off, 4 * j + i) == was[4 * j + i];
        state[off + 4 * j + i] := Sbox(state[off + 4 * j + i]);
      }
    }
    assert forall k | 0 <= k < 16 :: BlockAt(state[..], off)[k] == At(state, off, k);
  }

  method InvSubBytes(state: array<Byte>, off: nat)
    requires off + 16 <= state.Length
    modifies state
    ensures BlockAt(state[..], off) == S.InvSubBytes(old(BlockAt(state[..], off)))
    ensures SameOutside(old(state[..]), state[..], off)
  {
    ghost var was := BlockAt(state[..], off);
    for i := 0 to 4
      invariant forall k | 0 <= k < 16 :: At(state, off, k) == if k % 4 < i then InvSbox(was[k]) else was[k]
      invariant SameOutside(old(state[..]), state[..], off)
    {
      for j := 0 to 4
        invariant forall k | 0 <= k < 16 ::
          At(state, off, k) == if k % 4 < i || (k % 4 == i && k / 4 < j) then InvSbox(was[k]) else was[k]
        invariant SameOutside(old(state[..]), state[..], off)
      {
        assert At(state, off, 4 * j + i) == was[4 * j + i];
        state[off + 4 * j + i] := InvSbox(state[off + 4 * j + i]);
      }
    }
    assert forall k | 0 <= k < 16 :: BlockAt(state[..], off)[k] == At(state, off, k);
  }

  lemma {:induction false} ByteSet(s: seq<Byte>, off: nat, i: nat, v: Byte)
    requires off + 16 <= |s| && i < 16
    ensures BlockAt(s[off + i := v], off) == BlockAt(s, off)[i := v]
  {
  }

  /** Four bytes of the state at off, set one after the other. */
  function FourSet(s: seq<Byte>, off: nat, i: nat, vi: Byte, j: nat, vj: Byte, k: nat, vk: Byte, l: nat,
      vl: Byte): seq<Byte>
    requires off + 16 <= |s| && i < 16 && j < 16 && k < 16 && l < 16
  {
    s[off + i := vi][off + j := vj][off + k := vk][off + l := vl]
  }

  lemma {:induction false} FourBytes(s: seq<Byte>, off: nat, i: nat, vi: Byte, j: nat, vj: Byte, k: nat, vk: Byte,
      l: nat, vl: Byte)
    requires off + 16 <= |s| && i < 16 && j < 16 && k < 16 && l < 16
    ensures BlockAt(FourSet(s, off, i, vi, j, vj, k, vk, l, vl), off)
      == BlockAt(s, off)[i := vi][j := vj][k := vk][l := vl]
    ensures SameOutside(s, FourSet(s, off, i, vi, j, vj, k, vk, l, vl), off)
  {
    ByteSet(s, off, i, vi);
    ByteSet(s[off + i := vi], off, j, vj);
    ByteSet(s[off + i := vi][off + j := vj], off, k, vk);
    ByteSet(s[off + i := vi][off + j := vj][off + k := vk], off, l, vl);
  }

  /** Row 1, one column to the left. */
  method RotateRow1Left(state: array<Byte>, off: nat)
    requires off + 16 <= state.Length
    modifies state
    ensures var b := old(BlockAt(state[..], off));
      BlockAt(state[..], off) == b[1 := b[5]][5 := b[9]][9 := b[13]][13 := b[1]]
    ensures SameOutside(old(state[..]), state[..], off)
  {
    ghost var s, b := state[..], BlockAt(state[..], off);
    var temp := state[off + 1];
    state[off + 1] := state[off + 5];
    state[off + 5] := state[off + 9];
    state[off + 9] := state[off + 13];
    state[off + 13] := temp;
    assert state[..] == FourSet(s, off, 1, b[5], 5, b[9], 9, b[13], 13, b[1]);
    FourBytes(s, off, 1, b[5], 5, b[9], 9, b[13], 13, b[1]);
  }

  /** Row 2, two columns, either way. */
  method RotateRow2(state: array<Byte>, off: nat)
    requires off + 16 <= state.Length
    modifies state
    ensures var b := old(BlockAt(state[..], off));
      BlockAt(state[..], off) == b[2 := b[10]][6 := b[14]][10 := b[2]][14 := b[6]]
    ensures SameOutside(old(state[..]), state[..], off)
  {
    ghost var s, b := state[..], BlockAt(state[..], off);
    var temp := state[off + 2];
    state[off + 2] := state[off + 10];
    state[off + 10] := temp;
    temp := state[off + 6];
    state[off + 6] := state[off + 14];
    state[off + 14] := temp;
    assert state[..] == FourSet(s, off, 2, b[10], 6, b[14], 10, b[2], 14, b[6]);
    FourBytes(s, off, 2, b[10], 6, b[14], 10, b[2], 14, b[6]);
  }

  /** Row 3, three columns to the left. */
  method RotateRow3Left(state: array<Byte>, off: nat)
    requires off + 16 <= state.Length
    modifies state
    ensures var b := old(BlockAt(state[..], off));
      BlockAt(state[..], off) == b[3 := b[15]][7 := b[3]][11 := b[7]][15 := b[11]]
    ensures SameOutside(old(state[..]), state[..], off)
  {
    ghost var s, b := state[..], BlockAt(state[..], off);
    var temp := state[off + 3];
    state[off + 3] := state[off + 15];
    state[off + 15] := state[off + 11];
    state[off + 11] := state[off + 7];
    state[off + 7] := temp;
    assert state[..] == FourSet(s, off, 3, b[15], 7, b[3], 11, b[7], 15, b[11]);
    FourBytes(s, off, 3, b[15], 7, b[3], 11, b[7], 15, b[11]);
  }

  /** Row 1, one column to the right. */
  method RotateRow1Right(state: array<Byte>, off: nat)
    requires off + 16 <= state.Length
    modifies state
    ensures var b := old(BlockAt(state[..], off));
      BlockAt(state[..], off) == b[1 := b[13]][5 := b[1]][9 := b[5]][13 := b[9]]
    ensures SameOutside(old(state[..]), state[..], off)
  {
    ghost var s, b := state[..], BlockAt(state[..], off);
    var temp := state[off + 13];
    state[off + 13] := state[off + 9];
    state[off + 9] := state[off + 5];
    state[off + 5] := state[off + 1];
    state[off + 1] := temp;
    assert state[..] == FourSet(s, off, 1, b[13], 5, b[1], 9, b[5], 13, b[9]);
    FourBytes(s, off, 1, b[13], 5, b[1], 9, b[5], 13, b[9]);
  }

  /** Row 3, three columns to the right. */
  method RotateRow3Right(state: array<Byte>, off: nat)
    requires off + 16 <= state.Length
    modifies state
    ensures var b := old(BlockAt(state[..], off));
      BlockAt(state[..], off) == b[3 := b[7]][7 := b[11]][11 := b[15]][15 := b[3]]
    ensures SameOutside(old(state[..]), state[..], off)
  {
    ghost var s, b := state[..], BlockAt(state[..], off);
    var temp := state[off + 3];
    state[off + 3] := state[off + 7];
    state[off + 7] := state[off + 11];
    state[off + 11] := state[off + 15];
    state[off + 15] := temp;
    assert state[..] == FourSet(s, off, 3, b[7], 7, b[11], 11, b[15], 15, b[3]);
    FourBytes(s, off, 3, b[7], 7, b[11], 11, b[15], 15, b[3]);
  }

  method ShiftRows(state: array<Byte>, off: nat)
    requires off + 16 <= state.Length
    modifies state
    ensures BlockAt(state[..], off) == S.ShiftRows(old(BlockAt(state[..], off)))
    ensures SameOutside(old(state[..]), state[..], off)
  {
    RotateRow1Left(state, off);
    RotateRow2(state, off);
    RotateRow3Left(state, off);
  }

  method InvShiftRows(state: array<Byte>, off: nat)
    requires off + 16 <= state.Length
    modifies state
    ensures BlockAt(state[..], off) == S.InvShiftRows(old(BlockAt(state[..], off)))
    ensures SameOutside(old(state[..]), state[..], off)
  {
    RotateRow1Right(state, off);
    RotateRow2(state, off);
    RotateRow3Right(state, off);
  }

  function StateColumn(state: array<Byte>, off: nat, c: nat): Column
    requires c < 4 && off + 16 <= state.Length
    reads state
  {
    var p := off + 4 * c;
    Column(state[p], state[p + 1], state[p + 2], state[p + 3])
  }

  function BlockColumn(b: S.Block, c: nat): Column
    requires c < 4
  {
    Column(b[4 * c], b[4 * c + 1], b[4 * c + 2], b[4 * c + 3])
  }

  lemma {:induction false} BlockFromColumns(f: Column -> Column, was: S.Block, now: S.Block)
    requires forall c | 0 <= c < 4 :: BlockColumn(now, c) == f(BlockColumn(was, c))
    ensures now == S.MapColumns(f, was)
  {
    forall k | 0 <= k < 16 ensures now[k] == S.MapColumns(f, was)[k] {
      var c := k / 4;
      assert S.ColumnAround(was, k) == BlockColumn(was, c);
      assert now[k] == S.ByteOf(BlockColumn(now, c), k % 4);
    }
  }

  /** mix is MixColumn, a fact that Unlock releases where it is needed. */
  ghost predicate IsMixColumn(mix: Column -> Column) {
    forall k: int :: Unlock(k) ==> mix == MixColumn
  }

  method MixColumns(state: array<Byte>, off: nat)
    requires off + 16 <= state.Length
    modifies state
    ensures BlockAt(state[..], off) == S.MixColumns(old(BlockAt(state[..], off)))
    ensures SameOutside(old(state[..]), state[..], off)
  {
    MixColumnsLoop(state, off, MixColumn);
  }

  method MixColumnsLoop(state: array<Byte>, off: nat, ghost mix: Column -> Column)
    requires off + 16 <= state.Length && IsMixColumn(mix)
    modifies state
    ensures BlockAt(state[..], off) == S.MapColumns(mix, old(BlockAt(state[..], off)))
    ensures SameOutside(old(state[..]), state[..], off)
  {
    ghost var was := BlockAt(state[..], off);
    for i := 0 to 4
      invariant MixedTo(state, off, mix, was, i)
      invariant SameOutside(old(state[..]), state[..], off)
    {
      MixNextColumn(state, off, i, mix, was);
    }
    forall c | 0 <= c < 4 ensures BlockColumn(BlockAt(state[..], off), c) == mix(BlockColumn(was, c)) {
      assert StateColumn(state, off, c) == mix(BlockColumn(was, c));
    }
    BlockFromColumns(mix, was, BlockAt(state[..], off));
  }

  /** The columns before i are mixed, the others as they were. */
  ghost predicate MixedTo(state: array<Byte>, off: nat, mix: Column -> Column, was: S.Block, i: nat)
    requires off + 16 <= state.Length
    reads state
  {
    forall c | 0 <= c < 4 ::
      StateColumn(state, off, c) == if c < i then mix(BlockColumn(was, c)) else BlockColumn(was, c)
  }

  method MixNextColumn(state: array<Byte>, off: nat, i: nat, ghost mix: Column -> Column, ghost was: S.Block)
    requires off + 16 <= state.Length && i < 4 && IsMixColumn(mix) && MixedTo(state, off, mix, was, i)
    modifies state
    ensures MixedTo(state, off, mix, was, i + 1)
    ensures SameOutside(old(state[..]), state[..], off)
  {
    assert StateColumn(state, off, i) == BlockColumn(was, i);
    ghost var before := state[..];
    MixOneColumn(state, off + 4 * i, mix);
    forall c | 0 <= c < 4 && c != i ensures StateColumn(state, off, c) == old(StateColumn(state, off, c)) {
      var p := off + 4 * c;
      assert state[p] == before[p] && state[p + 1] == before[p + 1];
      assert state[p + 2] == before[p + 2] && state[p + 3] == before[p + 3];
    }
  }

  method MixOneColumn(state: array<Byte>, p: nat, ghost mix: Column -> Column)
    requires p + 4 <= state.Length && IsMixColumn(mix)
    modifies state
    ensures Column(state[p], state[p + 1], state[p + 2], state[p + 3]) ==
            mix(old(Column(state[p], state[p + 1], state[p + 2], state[p + 3])))
    ensures forall k | 0 <= k < state.Length && !(p <= k < p + 4) :: state[k] == old(state[k])
  {
    var t := state[p];
    var tmp := Add(Add(Add(state[p], state[p + 1]), state[p + 2]), state[p + 3]);
    var tm := Xtime(Add(state[p], state[p + 1]));
    state[p] := Add(state[p], Add(tm, tmp));
    tm := Xtime(Add(state[p + 1], state[p + 2]));
    state[p + 1] := Add(state[p + 1], Add(tm, tmp));
    tm := Xtime(Add(state[p + 2], state[p + 3]));
    state[p + 2] := Add(state[p + 2], Add(tm, tmp));
    tm := Xtime(Add(state[p + 3], t));
    state[p + 3] := Add(state[p + 3], Add(tm, tmp));
    assert Unlock(0);
  }

  method InvMixColumns(state: array<Byte>, off: nat)
    requires off + 16 <= state.Length
    modifies state
    ensures BlockAt(state[..], off) == S.InvMixColumns(old(BlockAt(state[..], off)))
    ensures SameOutside(old(state[..]), state[..], off)
  {
    InvMixColumnsLoop(state, off, MixColumn);
    S.MixColumnsInverse(BlockAt(state[..], off));
  }

  /** The block that the loop leaves is the one that mixing takes back to the old one. */
  method InvMixColumnsLoop(state: array<Byte>, off: nat, ghost mix: Column -> Column)
    requires off + 16 <= state.Length && IsMixColumn(mix)
    modifies state
    ensures S.MapColumns(mix, BlockAt(state[..], off)) == old(BlockAt(state[..], off))
    ensures SameOutside(old(state[..]), state[..], off)
  {
    ghost var was := BlockAt(state[..], off);
    for i := 0 to 4
      invariant UnmixedTo(state, off, mix, was, i)
      invariant SameOutside(old(state[..]), state[..], off)
    {
      UnmixNextColumn(state, off, i, mix, was);
    }
    ghost var now := BlockAt(state[..], off);
    forall c | 0 <= c < 4 ensures BlockColumn(was, c) == mix(BlockColumn(now, c)) {
      assert mix(StateColumn(state, off, c)) == BlockColumn(was, c);
    }
    BlockFromColumns(mix, now, was);
  }

  /** Mixing takes the columns before i back to what they were; the others still are. */
  ghost predicate UnmixedTo(state: array<Byte>, off: nat, mix: Column -> Column, was: S.Block, i: nat)
    requires off + 16 <= state.Length
    reads state
  {
    forall c | 0 <= c < 4 ::
      (if c < i then mix(StateColumn(state, off, c)) else StateColumn(state, off, c)) == BlockColumn(was, c)
  }

  method UnmixNextColumn(state: array<Byte>, off: nat, i: nat, ghost mix: Column -> Column, ghost was: S.Block)
    requires off + 16 <= state.Length && i < 4 && IsMixColumn(mix) && UnmixedTo(state, off, mix, was, i)
    modifies state
    ensures UnmixedTo(state, off, mix, was, i + 1)
    ensures SameOutside(old(state[..]), state[..], off)
  {
    assert StateColumn(state, off, i) == BlockColumn(was, i);
    ghost var before := state[..];
    InvMixOneColumn(state, off + 4 * i, mix);
    forall c | 0 <= c < 4 && c != i ensures StateColumn(state, off, c) == old(StateColumn(state, off, c)) {
      var p := off + 4 * c;
      assert state[p] == before[p] && state[p + 1] == before[p + 1];
      assert state[p + 2] == before[p + 2] && state[p + 3] == before[p + 3];
    }
  }

  /** The column that the code computes is the one that MixColumns takes back to the old one. */
  method InvMixOneColumn(state: array<Byte>, p: nat, ghost mix: Column -> Column)
    requires p + 4 <= state.Length && IsMixColumn(mix)
    modifies state
    ensures mix(Column(state[p], state[p + 1], state[p + 2], state[p + 3])) ==
            old(Column(state[p], state[p + 1], state[p + 2], state[p + 3]))
    ensures forall k | 0 <= k < state.Length && !(p <= k < p + 4) :: state[k] == old(state[k])
  {
    var a, b, c, d := state[p], state[p + 1], state[p + 2], state[p + 3];
    state[p] := Sum(Multiply(a, 0x0e), Multiply(b, 0x0b), Multiply(c, 0x0d), Multiply(d, 0x09));
    state[p + 1] := Sum(Multiply(a, 0x09), Multiply(b, 0x0e), Multiply(c, 0x0b), Multiply(d, 0x0d));
    state[p + 2] := Sum(Multiply(a, 0x0d), Multiply(b, 0x09), Multiply(c, 0x0e), Multiply(d, 0x0b));
    state[p + 3] := Sum(Multiply(a, 0x0b), Multiply(b, 0x0d), Multiply(c, 0x09), Multiply(d, 0x0e));
    MixColumnUndoesInvMixColumn(Column(a, b, c, d));
    assert Unlock(0);
  }

  // ---------------------------------------------------------------- the two ciphers

  method Cipher(state: array<Byte>, off: nat, roundKey: array<Byte>, nr: nat)
    requires off + 16 <= state.Length && 1 <= nr && roundKey.Length == 16 * (nr + 1) && state != roundKey
    modifies state
    ensures BlockAt(state[..], off) == S.Cipher(old(BlockAt(state[..], off)), roundKey[..], nr)
    ensures AesStandard.Enciphers(old(BlockAt(state[..], off)), roundKey[..], nr, BlockAt(state[..], off))
    ensures SameOutside(old(state[..]), state[..], off)
  {
    ghost var w := roundKey[..];
    ghost var target := S.Cipher(BlockAt(state[..], off), w, nr);
    AddRoundKey(0, state, off, roundKey);
    var round := 1;
    while true
      invariant 1 <= round <= nr && roundKey[..] == w
      invariant S.Rounds(S.AES, BlockAt(state[..], off), w, round, nr) == target
      invariant SameOutside(old(state[..]), state[..], off)
      decreases nr - round
    {
      SubBytes(state, off);
      ShiftRows(state, off);
      if round == nr {
        break;
      }
      MixColumns(state, off);
      AddRoundKey(round, state, off, roundKey);
      round := round + 1;
    }
    AddRoundKey(nr, state, off, roundKey);
    AesStandard.CipherIsStandard(old(BlockAt(state[..], off)), w, nr, BlockAt(state[..], off));
  }

  /** The part of a round of the inverse cipher before the exit test. */
  method InvRound(round: nat, state: array<Byte>, off: nat, roundKey: array<Byte>)
    requires off + 16 <= state.Length && 16 * round + 16 <= roundKey.Length && state != roundKey
    modifies state
    ensures BlockAt(state[..], off) ==
            S.AddRoundKey(S.AES.unsubstitute(old(BlockAt(state[..], off))), roundKey[..], round)
    ensures SameOutside(old(state[..]), state[..], off)
  {
    InvShiftRows(state, off);
    InvSubBytes(state, off);
    AddRoundKey(round, state, off, roundKey);
  }

  method InvCipher(state: array<Byte>, off: nat, roundKey: array<Byte>, nr: nat)
    requires off + 16 <= state.Length && 1 <= nr && roundKey.Length == 16 * (nr + 1) && state != roundKey
    modifies state
    ensures BlockAt(state[..], off) == S.InvCipher(old(BlockAt(state[..], off)), roundKey[..], nr)
    ensures AesStandard.Enciphers(BlockAt(state[..], off), roundKey[..], nr, old(BlockAt(state[..], off)))
    ensures SameOutside(old(state[..]), state[..], off)
  {
    AddRoundKey(nr, state, off, roundKey);
    InvRoundLoop(nr - 1, state, off, roundKey);
    AesStandard.InvCipherIsStandard(old(BlockAt(state[..], off)), roundKey[..], nr, BlockAt(state[..], off));
  }

  /** The loop of the inverse cipher, from round first down to round 0. */
  method InvRoundLoop(first: nat, state: array<Byte>, off: nat, roundKey: array<Byte>)
    requires off + 16 <= state.Length && 16 * first + 16 <= roundKey.Length && state != roundKey
    modifies state
    ensures BlockAt(state[..], off) == S.InvRounds(S.AES, old(BlockAt(state[..], off)), roundKey[..], first)
    ensures SameOutside(old(state[..]), state[..], off)
  {
    ghost var w := roundKey[..];
    ghost var target := S.InvRounds(S.AES, BlockAt(state[..], off), w, first);
    assert Leads(BlockAt(state[..], off), w, first, target);
    var round := first;
    while true
      invariant 0 <= round <= first && roundKey[..] == w
      invariant Leads(BlockAt(state[..], off), w, round, target)
      invariant SameOutside(old(state[..]), state[..], off)
      decreases round
    {
      InvRoundTowards(round, state, off, roundKey, target);
      if round == 0 {
        break;
      }
      InvMixColumns(state, off);
      round := round - 1;
    }
  }

  /** The rest of the inverse cipher makes target of b: a fact that Unlock releases where it is needed. */
  ghost predicate Leads(b: S.Block, w: seq<Byte>, round: nat, target: S.Block)
    requires 16 * (round + 1) <= |w|
  {
    forall k: int :: Unlock(k) ==> S.InvRounds(S.AES, b, w, round) == target
  }

  /** One round, with what the rest of the loop is to make of the block. */
  method InvRoundTowards(round: nat, state: array<Byte>, off: nat, roundKey: array<Byte>, ghost target: S.Block)
    requires off + 16 <= state.Length && 16 * round + 16 <= roundKey.Length && state != roundKey
    requires Leads(BlockAt(state[..], off), roundKey[..], round, target)
    modifies state
    ensures var b := BlockAt(state[..], off);
      if round == 0 then b == target else Leads(S.InvMixColumns(b), roundKey[..], round - 1, target)
    ensures SameOutside(old(state[..]), state[..], off)
  {
    ghost var b := BlockAt(state[..], off);
    InvRound(round, state, off, roundKey);
    InvRoundsStep(S.AES, b, roundKey[..], round, BlockAt(state[..], off));
    assert Unlock(0);
  }

  lemma {:induction false} InvRoundsStep(a: S.Layers, b: S.Block, w: seq<Byte>, r: nat, s: S.Block)
    requires 16 * (r + 1) <= |w| && s == S.AddRoundKey(a.unsubstitute(b), w, r)
    ensures S.InvRounds(a, b, w, r) == if r == 0 then s else S.InvRounds(a, a.unmix(s), w, r - 1)
  {
  }
}
