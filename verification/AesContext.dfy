/** The public interface of the AES library: the context with its round keys and IV, key expansion,
    and the two chaining modes over buffers of any length, all in place. */
module AesContext {
  import opened Locks
  import opened Gf256
  import opened SboxTables
  import S = AesCipher
  import M = AesModes
  import K = KeySchedule
  import opened Aes

  // ---------------------------------------------------------------- key expansion

  /** Key expansion with the library's table as getSBoxValue. */
  method KeyExpansion(roundKey: array<Byte>, key: array<Byte>, nk: nat)
    requires K.KeyWords(nk) && key.Length == 4 * nk && roundKey.Length == 4 * K.ScheduleWords(nk) && key != roundKey
    modifies roundKey
    ensures roundKey[..] == K.Schedule(Sbox, key[..], nk, K.ScheduleWords(nk))
    ensures K.Expanded(Sbox, key[..], nk, roundKey[..])
  {
    CopyKey(Sbox, roundKey, key, nk);
    ExpandKey(Sbox, roundKey, key[..], nk);
    K.ScheduleIsStandard(Sbox, key[..], nk, K.ScheduleWords(nk), roundKey[..]);
  }

  method CopyKey(getSBoxValue: Byte -> Byte, roundKey: array<Byte>, key: array<Byte>, nk: nat)
    requires K.KeyWords(nk) && key.Length == 4 * nk <= roundKey.Length && key != roundKey
    modifies roundKey
    ensures roundKey[..4 * nk] == K.Schedule(getSBoxValue, key[..], nk, nk)
  {
    ghost var k0 := key[..];
    for i := 0 to nk
      invariant key[..] == k0
      invariant roundKey[..4 * i] == K.Schedule(getSBoxValue, k0, nk, i)
    {
      CopyKeyWord(roundKey, key, i);
      KeyWordStep(getSBoxValue, k0, nk, i);
    }
  }

  method CopyKeyWord(roundKey: array<Byte>, key: array<Byte>, i: nat)
    requires 4 * i + 4 <= key.Length && 4 * i + 4 <= roundKey.Length && key != roundKey
    modifies roundKey
    ensures roundKey[..4 * (i + 1)] == old(roundKey[..4 * i]) + key[4 * i..4 * i + 4]
  {
    WriteWord(roundKey, i, [key[i * 4], key[i * 4 + 1], key[i * 4 + 2], key[i * 4 + 3]]);
  }

  lemma {:induction false} KeyWordStep(sub: Byte -> Byte, key: seq<Byte>, nk: nat, i: nat)
    requires K.KeyWords(nk) && |key| == 4 * nk && i < nk
    ensures K.Schedule(sub, key, nk, i + 1) == K.Schedule(sub, key, nk, i) + key[4 * i..4 * i + 4]
  {
  }

  /** All words from the nk-th on. */
  method ExpandKey(getSBoxValue: Byte -> Byte, roundKey: array<Byte>, ghost key: seq<Byte>, nk: nat)
    requires K.KeyWords(nk) && |key| == 4 * nk && roundKey.Length == 4 * K.ScheduleWords(nk)
    requires roundKey[..4 * nk] == K.Schedule(getSBoxValue, key, nk, nk)
    modifies roundKey
    ensures roundKey[..] == K.Schedule(getSBoxValue, key, nk, K.ScheduleWords(nk))
  {
    for i := nk to K.ScheduleWords(nk)
      invariant roundKey[..4 * i] == K.Schedule(getSBoxValue, key, nk, i)
    {
      ExpandWord(getSBoxValue, roundKey, key, nk, i);
    }
    assert roundKey[..4 * K.ScheduleWords(nk)] == roundKey[..];
  }

  /** One iteration: word i from the words before it. */
  method ExpandWord(getSBoxValue: Byte -> Byte, roundKey: array<Byte>, ghost key: seq<Byte>, nk: nat, i: nat)
    requires K.KeyWords(nk) && |key| == 4 * nk && nk <= i < K.ScheduleWords(nk)
    requires 4 * i + 4 <= roundKey.Length && roundKey[..4 * i] == K.Schedule(getSBoxValue, key, nk, i)
    modifies roundKey
    ensures roundKey[..4 * (i + 1)] == K.Schedule(getSBoxValue, key, nk, i + 1)
  {
    var tempa := ReadWord(roundKey, i - 1, i);
    var before := ReadWord(roundKey, i - nk, i);
    K.ScheduleAt(getSBoxValue, key, nk, i, i - 1);
    K.ScheduleAt(getSBoxValue, key, nk, i, i - nk);
    var word := TransformWord(getSBoxValue, tempa, nk, i);
    WriteWord(roundKey, i,
      [Add(before[0], word[0]), Add(before[1], word[1]), Add(before[2], word[2]), Add(before[3], word[3])]);
    ScheduleStep(getSBoxValue, key, nk, i, before, tempa, word);
  }

  lemma {:induction false} ScheduleStep(sub: Byte -> Byte, key: seq<Byte>, nk: nat, i: nat, before: K.Word,
      last: K.Word, word: K.Word)
    requires K.KeyWords(nk) && |key| == 4 * nk && nk <= i
    requires before == K.ScheduleWord(sub, key, nk, i - nk) && last == K.ScheduleWord(sub, key, nk, i - 1)
    requires word == K.Transformed(sub, last, nk, i)
    ensures K.Schedule(sub, key, nk, i + 1) == K.Schedule(sub, key, nk, i) +
            [Add(before[0], word[0]), Add(before[1], word[1]), Add(before[2], word[2]), Add(before[3], word[3])]
  {
  }

  /** Word i, one of the n words written so far. */
  method ReadWord(roundKey: array<Byte>, i: nat, ghost n: nat) returns (w: K.Word)
    requires i < n && 4 * n <= roundKey.Length
    ensures w == K.WordAt(roundKey[..4 * n], i)
  {
    var k := i * 4;
    w := [roundKey[k], roundKey[k + 1], roundKey[k + 2], roundKey[k + 3]];
  }

  method WriteWord(roundKey: array<Byte>, i: nat, w: K.Word)
    requires 4 * i + 4 <= roundKey.Length
    modifies roundKey
    ensures roundKey[..4 * (i + 1)] == old(roundKey[..4 * i]) + w
  {
    var j := i * 4;
    roundKey[j] := w[0];
    roundKey[j + 1] := w[1];
    roundKey[j + 2] := w[2];
    roundKey[j + 3] := w[3];
  }

  /** The rotation, substitution and round constant that words at multiples of nk go through. */
  method TransformWord(getSBoxValue: Byte -> Byte, word: K.Word, nk: nat, i: nat) returns (t: K.Word)
    requires K.KeyWords(nk) && nk <= i < K.ScheduleWords(nk)
    ensures t == K.Transformed(getSBoxValue, word, nk, i)
  {
    t := word;
    if i % nk == 0 {
      t := [t[1], t[2], t[3], t[0]];
      t := [getSBoxValue(t[0]), getSBoxValue(t[1]), getSBoxValue(t[2]), getSBoxValue(t[3])];
      K.RconUsed(nk, i);
      AddZero(t[1]);
      AddZero(t[2]);
      AddZero(t[3]);
      t := t[0 := Add(t[0], K.RCON[i / nk])];
    }
    if nk == 8 && i % nk == 4 {
      t := [getSBoxValue(t[0]), getSBoxValue(t[1]), getSBoxValue(t[2]), getSBoxValue(t[3])];
    }
  }

  // ---------------------------------------------------------------- chaining

  /** length rounded up to whole blocks: what a loop that steps by 16 processes. */
  function Padded(length: nat): (n: nat)
    ensures n % 16 == 0 && length <= n < length + 16
  {
    16 * M.CountersUsed(length)
  }

  lemma {:induction false} PaddedReached(i: nat, length: nat)
    requires i % 16 == 0 && length <= i <= Padded(length)
    ensures i == Padded(length)
  {
  }

  lemma {:induction false} StepWithinPadded(i: nat, length: nat)
    requires i % 16 == 0 && i < length
    ensures (i + 16) % 16 == 0 && i + 16 <= Padded(length)
  {
  }

  /** XORs the 16 bytes at (iv, ivOff) into the block at off; they may lie in the buffer itself,
      in an earlier block. */
  method XorWithIv(buf: array<Byte>, off: nat, iv: array<Byte>, ivOff: nat)
    requires off + 16 <= buf.Length && ivOff + 16 <= iv.Length
    requires iv == buf ==> ivOff + 16 <= off
    modifies buf
    ensures BlockAt(buf[..], off) == S.XorBlocks(old(BlockAt(buf[..], off)), old(BlockAt(iv[..], ivOff)))
    ensures SameOutside(old(buf[..]), buf[..], off)
  {
    ghost var was, v := BlockAt(buf[..], off), BlockAt(iv[..], ivOff);
    for i := 0 to 16
      invariant forall k | 0 <= k < 16 :: At(buf, off, k) == if k < i then Add(was[k], v[k]) else was[k]
      invariant SameOutside(old(buf[..]), buf[..], off)
      invariant BlockAt(iv[..], ivOff) == v
    {
      assert At(buf, off, i) == was[i] && v[i] == iv[ivOff + i];
      buf[off + i] := Add(buf[off + i], iv[ivOff + i]);
    }
    assert forall k | 0 <= k < 16 :: BlockAt(buf[..], off)[k] == At(buf, off, k);
  }

  method CopyBlock(dst: array<Byte>, src: array<Byte>, off: nat)
    requires dst.Length == 16 && off + 16 <= src.Length
    modifies dst
    ensures dst[..] == old(BlockAt(src[..], off))
  {
    ghost var v := BlockAt(src[..], off);
    if dst == src {
      assert off == 0;
    } else {
      for k := 0 to 16
        invariant src[..] == old(src[..])
        invariant dst[..k] == v[..k]
      {
        dst[k] := src[off + k];
      }
    }
  }

  /** The context: round keys for a key of nk words, and the IV that carries over between calls. */
  class AesCtx {
    const nk: nat
    const roundKey: array<Byte>
    const iv: array<Byte>

    ghost predicate Valid() {
      && K.KeyWords(nk)
      && roundKey.Length == 16 * (K.RoundCount(nk) + 1)
      && iv.Length == 16
      && roundKey != iv
    }

    ghost function Enc(): S.Block -> S.Block
      requires Valid()
      reads roundKey
    {
      S.Encryptor(roundKey[..], K.RoundCount(nk))
    }

    ghost function Dec(): S.Block -> S.Block
      requires Valid()
      reads roundKey
    {
      S.Decryptor(roundKey[..], K.RoundCount(nk))
    }

    ghost function Iv(): S.Block
      requires Valid()
      reads iv
    {
      iv[..]
    }

    constructor (key: array<Byte>, iv0: array<Byte>, words: nat)
      requires K.KeyWords(words) && key.Length == 4 * words && iv0.Length == 16
      ensures Valid() && nk == words && fresh(roundKey) && fresh(iv)
      ensures roundKey.Length == if words == 4 then 176 else if words == 6 then 208 else 240
      ensures roundKey[..] == K.Schedule(Sbox, key[..], words, K.ScheduleWords(words))
      ensures Iv() == iv0[..]
    {
      nk := words;
      roundKey := new Byte[4 * K.ScheduleWords(words)];
      iv := new Byte[16];
      new;
      KeyExpansion(roundKey, key, words);
      CopyBlock(iv, iv0, 0);
    }

    /** enc is Enc(), a fact that Unlock releases where it is needed. */
    ghost predicate IsEnc(enc: S.Block -> S.Block)
      requires Valid()
      reads roundKey
    {
      forall k: int :: Unlock(k) ==> enc == Enc()
    }

    ghost predicate IsDec(dec: S.Block -> S.Block)
      requires Valid()
      reads roundKey
    {
      forall k: int :: Unlock(k) ==> dec == Dec()
    }

    // ------------------------------------------------------------ CBC

    method CbcEncryptBuffer(buf: array<Byte>, length: nat)
      requires Valid() && buf != roundKey && buf != iv && Padded(length) <= buf.Length
      modifies buf, iv
      ensures buf[..Padded(length)] == M.CbcEncrypt(old(Enc()), old(Iv()), old(buf[..Padded(length)]))
      ensures buf[Padded(length)..] == old(buf[Padded(length)..])
      ensures Iv() == M.NextIv(old(Iv()), buf[..Padded(length)])
      ensures M.Chains(old(Enc()), old(Iv()), old(buf[..Padded(length)]), buf[..Padded(length)])
    {
      CbcEncryptLoop(buf, length, Enc());
      M.CbcEncryptIsStandard(old(Enc()), old(Iv()), old(buf[..Padded(length)]), buf[..Padded(length)]);
    }

    method CbcEncryptLoop(buf: array<Byte>, length: nat, ghost enc: S.Block -> S.Block)
      requires Valid() && buf != roundKey && buf != iv && Padded(length) <= buf.Length && IsEnc(enc)
      modifies buf, iv
      ensures CbcEncrypted(enc, old(Iv()), old(buf[..]), buf[..], Padded(length))
      ensures Iv() == M.NextIv(old(Iv()), buf[..Padded(length)])
    {
      ghost var b0, v0 := buf[..], Iv();
      var ivp, ivOff := iv, 0;
      var i := 0;
      while i < length
        invariant i % 16 == 0 && i <= Padded(length)
        invariant if i == 0 then ivp == iv && ivOff == 0 else ivp == buf && ivOff == i - 16
        invariant Iv() == v0 && IsEnc(enc)
        invariant CbcEncrypted(enc, v0, b0, buf[..], i)
        invariant BlockAt(ivp[..], ivOff) == M.NextIv(v0, buf[..i])
      {
        ghost var before := buf[..];
        StepWithinPadded(i, length);
        ChainAndEncrypt(buf, i, ivp, ivOff, enc);
        CbcEncryptStep(enc, v0, b0, before, buf[..], i);
        ivp, ivOff := buf, i;
        i := i + 16;
      }
      PaddedReached(i, length);
      CopyBlock(iv, ivp, ivOff);
    }

    /** One iteration: the block at off, chained with the 16 bytes at (ivp, ivOff). */
    method ChainAndEncrypt(buf: array<Byte>, off: nat, ivp: array<Byte>, ivOff: nat, ghost enc: S.Block -> S.Block)
      requires Valid() && buf != roundKey && buf != iv && off + 16 <= buf.Length && ivOff + 16 <= ivp.Length
      requires IsEnc(enc) && (ivp == buf ==> ivOff + 16 <= off)
      modifies buf
      ensures BlockAt(buf[..], off) == enc(S.XorBlocks(old(BlockAt(buf[..], off)), old(BlockAt(ivp[..], ivOff))))
      ensures SameOutside(old(buf[..]), buf[..], off)
    {
      XorWithIv(buf, off, ivp, ivOff);
      Cipher(buf, off, roundKey, K.RoundCount(nk));
      assert Unlock(0);
    }

    method CbcDecryptBuffer(buf: array<Byte>, length: nat)
      requires Valid() && buf != roundKey && buf != iv && Padded(length) <= buf.Length
      modifies buf, iv
      ensures buf[..Padded(length)] == M.CbcDecrypt(old(Dec()), old(Iv()), old(buf[..Padded(length)]))
      ensures buf[Padded(length)..] == old(buf[Padded(length)..])
      ensures Iv() == M.NextIv(old(Iv()), old(buf[..Padded(length)]))
      ensures M.Unchains(old(Dec()), old(Iv()), old(buf[..Padded(length)]), buf[..Padded(length)])
    {
      CbcDecryptLoop(buf, length, Dec());
      M.CbcDecryptIsStandard(old(Dec()), old(Iv()), old(buf[..Padded(length)]), buf[..Padded(length)]);
    }

    method CbcDecryptLoop(buf: array<Byte>, length: nat, ghost dec: S.Block -> S.Block)
      requires Valid() && buf != roundKey && buf != iv && Padded(length) <= buf.Length && IsDec(dec)
      modifies buf, iv
      ensures CbcDecrypted(dec, old(Iv()), old(buf[..]), buf[..], Padded(length))
      ensures Iv() == M.NextIv(old(Iv()), old(buf[..Padded(length)]))
    {
      ghost var b0, v0 := buf[..], Iv();
      var i := 0;
      while i < length
        invariant i % 16 == 0 && i <= Padded(length)
        invariant IsDec(dec)
        invariant CbcDecrypted(dec, v0, b0, buf[..], i)
        invariant Iv() == M.NextIv(v0, b0[..i])
      {
        ghost var before := buf[..];
        StepWithinPadded(i, length);
        DecryptAndChain(buf, i, dec);
        CbcDecryptStep(dec, v0, b0, before, buf[..], i);
        i := i + 16;
      }
      PaddedReached(i, length);
    }

    /** One iteration: the ciphertext block is kept aside, and becomes the IV. */
    method DecryptAndChain(buf: array<Byte>, off: nat, ghost dec: S.Block -> S.Block)
      requires Valid() && buf != roundKey && buf != iv && off + 16 <= buf.Length && IsDec(dec)
      modifies buf, iv
      ensures BlockAt(buf[..], off) == S.XorBlocks(dec(old(BlockAt(buf[..], off))), old(Iv()))
      ensures SameOutside(old(buf[..]), buf[..], off)
      ensures Iv() == old(BlockAt(buf[..], off))
    {
      var storeNextIv := new Byte[16];
      CopyBlock(storeNextIv, buf, off);
      InvCipher(buf, off, roundKey, K.RoundCount(nk));
      XorWithIv(buf, off, iv, 0);
      CopyBlock(iv, storeNextIv, 0);
      assert Unlock(0);
    }

    // ------------------------------------------------------------ CTR

    method CtrXcryptBuffer(buf: array<Byte>, length: nat)
      requires Valid() && buf != roundKey && buf != iv && length <= buf.Length
      modifies buf, iv
      ensures buf[..length] == M.Ctr(old(Enc()), M.IncrementBlock, old(Iv()), old(buf[..length]))
      ensures buf[length..] == old(buf[length..])
      ensures Iv() == M.Iterate(M.IncrementBlock, old(Iv()), M.CountersUsed(length))
      ensures M.CountsUp(old(Enc()), old(Iv()), old(buf[..length]), buf[..length])
      ensures M.CounterBlock(old(Iv()), M.CountersUsed(length), Iv())
    {
      ghost var enc, v0, p := Enc(), Iv(), buf[..length];
      CtrLoop(buf, length, enc, M.IncrementBlock);
      M.CtrCountsUp(enc, v0, p);
      M.CounterBlockIs(v0, M.CountersUsed(length), Iv());
    }

    method CtrLoop(buf: array<Byte>, length: nat, ghost enc: S.Block -> S.Block, ghost step: S.Block -> S.Block)
      requires Valid() && buf != roundKey && buf != iv && length <= buf.Length && IsEnc(enc) && IsStep(step)
      modifies buf, iv
      ensures CtrMasked(enc, step, old(Iv()), old(buf[..]), buf[..], length)
      ensures Iv() == M.Iterate(step, old(Iv()), M.CountersUsed(length))
    {
      ghost var b0, v0 := buf[..], Iv();
      var buffer := new Byte[16];
      ghost var n := 0;
      var bi := 16;
      for i := 0 to length
        invariant 0 < bi <= 16 && Position(i, n, bi) && IsEnc(enc)
        invariant Counting(buffer, enc, step, v0, n)
        invariant CtrMasked(enc, step, v0, b0, buf[..], i)
      {
        if bi == 16 {
          NextMask(buffer, enc, step, v0, n);
          bi, n := 0, n + 1;
        }
        MaskByte(buf, i, buffer, bi, enc, step, v0, b0, n);
        bi := bi + 1;
      }
      CountersAfter(length, n, bi);
    }

    /** n counters are spent, the last of them on the mask in the buffer. */
    ghost predicate Counting(buffer: array<Byte>, enc: S.Block -> S.Block, step: S.Block -> S.Block, v0: S.Block,
        n: nat)
      requires Valid()
      reads iv, buffer
    {
      && Iv() == M.Iterate(step, v0, n)
      && (n > 0 ==> buffer[..] == enc(M.Iterate(step, v0, n - 1)))
    }

    method MaskByte(buf: array<Byte>, i: nat, buffer: array<Byte>, bi: nat,
        ghost enc: S.Block -> S.Block, ghost step: S.Block -> S.Block, ghost v0: S.Block, ghost b0: seq<Byte>,
          ghost n: nat)
      requires Valid() && buf != buffer && buffer.Length == 16 && i < buf.Length && bi < 16
      requires n > 0 && Position(i, n, bi) && Counting(buffer, enc, step, v0, n)
      requires CtrMasked(enc, step, v0, b0, buf[..], i)
      modifies buf
      ensures Position(i + 1, n, bi + 1)
      ensures CtrMasked(enc, step, v0, b0, buf[..], i + 1)
    {
      ghost var before := buf[..];
      assert buffer[bi] == buffer[..][bi];
      buf[i] := Add(buf[i], buffer[bi]);
      CtrStep(enc, step, v0, b0, before, buf[..], i, n, bi);
    }

    /** The counter is encrypted into the mask buffer and stepped. */
    method NextMask(buffer: array<Byte>, ghost enc: S.Block -> S.Block, ghost step: S.Block -> S.Block,
        ghost v0: S.Block, ghost n: nat)
      requires Valid() && buffer.Length == 16 && buffer != roundKey && buffer != iv && IsEnc(enc) && IsStep(step)
      requires Iv() == M.Iterate(step, v0, n)
      modifies buffer, iv
      ensures Counting(buffer, enc, step, v0, n + 1)
    {
      EncryptIv(buffer, enc);
      IncrementIv();
      StepIs(step, old(Iv()));
    }

    method EncryptIv(buffer: array<Byte>, ghost enc: S.Block -> S.Block)
      requires Valid() && buffer.Length == 16 && buffer != roundKey && buffer != iv && IsEnc(enc)
      modifies buffer
      ensures buffer[..] == enc(Iv())
    {
      CopyBlock(buffer, iv, 0);
      WholeBlock(iv[..]);
      EncryptBlock(buffer, enc);
    }

    method EncryptBlock(buffer: array<Byte>, ghost enc: S.Block -> S.Block)
      requires Valid() && buffer.Length == 16 && buffer != roundKey && IsEnc(enc)
      modifies buffer
      ensures buffer[..] == enc(old(buffer[..]))
    {
      WholeBlock(buffer[..]);
      Cipher(buffer, 0, roundKey, K.RoundCount(nk));
      WholeBlock(buffer[..]);
      assert Unlock(0);
    }

    /** The carry loop over the IV, from its last byte. */
    method IncrementIv()
      requires Valid()
      modifies iv
      ensures Iv() == M.IncrementBlock(old(Iv()))
    {
      ghost var target := M.Increment(iv[..]);
      var bi := 15;
      assert iv[..] == iv[..16] && iv[..] == iv[..] + iv[16..];
      while bi >= 0
        invariant -1 <= bi < 16
        invariant CarryAt(iv[..], bi + 1, target)
      {
        ghost var was := iv[..];
        if iv[bi] == 255 {
          iv[bi] := 0;
          CarryOn(was, iv[..], bi, target);
          bi := bi - 1;
          continue;
        }
        iv[bi] := iv[bi] + 1;
        CarryStops(was, iv[..], bi, target);
        return;
      }
      assert iv[..] == [] + iv[0..];
    }
  }

  /** With the first n bytes incremented, s is the counter to come. */
  ghost predicate CarryAt(s: seq<Byte>, n: nat, target: seq<Byte>)
    requires n <= |s|
  {
    M.Increment(s[..n]) + s[n..] == target
  }

  lemma {:induction false} CarryOn(was: seq<Byte>, now: seq<Byte>, i: nat, target: seq<Byte>)
    requires i < |was| && was[i] == 255 && now == was[i := 0] && CarryAt(was, i + 1, target)
    ensures CarryAt(now, i, target)
  {
    assert was[..i + 1][..i] == was[..i] == now[..i];
    assert now[i..] == [0] + was[i + 1..];
  }

  lemma {:induction false} CarryStops(was: seq<Byte>, now: seq<Byte>, i: nat, target: seq<Byte>)
    requires i < |was| && was[i] != 255 && now == was[i := was[i] + 1] && CarryAt(was, i + 1, target)
    ensures now == target
  {
    assert was[..i + 1][..i] == was[..i];
    assert now == was[..i] + [was[i] + 1] + was[i + 1..];
  }

  ghost predicate IsStep(step: S.Block -> S.Block) {
    forall k: int :: Unlock(k) ==> step == M.IncrementBlock
  }

  lemma {:induction false} WholeBlock(s: seq<Byte>)
    requires |s| == 16
    ensures BlockAt(s, 0) == s
  {
  }

  lemma {:induction false} StepIs(step: S.Block -> S.Block, b: S.Block)
    requires IsStep(step)
    ensures step(b) == M.IncrementBlock(b)
  {
    assert Unlock(0);
  }

  /** The first i bytes are encrypted, the rest is as it was. */
  ghost predicate CbcEncrypted(enc: S.Block -> S.Block, v0: S.Block, b0: seq<Byte>, now: seq<Byte>, i: nat) {
    && i % 16 == 0 && i <= |b0| == |now|
    && now[..i] == M.CbcEncrypt(enc, v0, b0[..i])
    && now[i..] == b0[i..]
  }

  lemma {:induction false} CbcEncryptStep(enc: S.Block -> S.Block, v0: S.Block, b0: seq<Byte>, before: seq<Byte>,
      now: seq<Byte>, i: nat)
    requires i + 16 <= |b0| && CbcEncrypted(enc, v0, b0, before, i) && SameOutside(before, now, i)
    requires BlockAt(now, i) == enc(S.XorBlocks(BlockAt(before, i), M.NextIv(v0, before[..i])))
    ensures CbcEncrypted(enc, v0, b0, now, i + 16)
    ensures M.NextIv(v0, now[..i + 16]) == BlockAt(now, i)
  {
    SplitAtBlock(before, now, i);
    assert BlockAt(before, i) == before[i..][..16] == b0[i..][..16] == BlockAt(b0, i);
    M.CbcEncryptSplits(enc, v0, b0[..i], BlockAt(b0, i));
    M.CbcEncryptOne(enc, M.NextIv(v0, before[..i]), BlockAt(b0, i));
    assert b0[..i + 16] == b0[..i] + BlockAt(b0, i);
    assert now[i + 16..] == before[i..][16..] == b0[i..][16..] == b0[i + 16..];
  }

  lemma {:induction false} SplitAtBlock(before: seq<Byte>, now: seq<Byte>, i: nat)
    requires i + 16 <= |before| && SameOutside(before, now, i)
    ensures now[..i + 16] == before[..i] + BlockAt(now, i)
    ensures now[i + 16..] == before[i + 16..]
  {
  }

  ghost predicate CbcDecrypted(dec: S.Block -> S.Block, v0: S.Block, b0: seq<Byte>, now: seq<Byte>, i: nat) {
    && i % 16 == 0 && i <= |b0| == |now|
    && now[..i] == M.CbcDecrypt(dec, v0, b0[..i])
    && now[i..] == b0[i..]
  }

  lemma {:induction false} CbcDecryptStep(dec: S.Block -> S.Block, v0: S.Block, b0: seq<Byte>, before: seq<Byte>,
      now: seq<Byte>, i: nat)
    requires i + 16 <= |b0| && CbcDecrypted(dec, v0, b0, before, i) && SameOutside(before, now, i)
    requires BlockAt(now, i) == S.XorBlocks(dec(BlockAt(before, i)), M.NextIv(v0, b0[..i]))
    ensures CbcDecrypted(dec, v0, b0, now, i + 16)
    ensures M.NextIv(v0, b0[..i + 16]) == BlockAt(b0, i) == BlockAt(before, i)
  {
    SplitAtBlock(before, now, i);
    assert BlockAt(before, i) == before[i..][..16] == b0[i..][..16] == BlockAt(b0, i);
    M.CbcDecryptSplits(dec, v0, b0[..i], BlockAt(b0, i));
    M.CbcDecryptOne(dec, M.NextIv(v0, b0[..i]), BlockAt(b0, i));
    assert b0[..i + 16] == b0[..i] + BlockAt(b0, i);
    assert now[i + 16..] == before[i..][16..] == b0[i..][16..] == b0[i + 16..];
  }

  ghost predicate CtrMasked(enc: S.Block -> S.Block, step: S.Block -> S.Block, v0: S.Block, b0: seq<Byte>,
      now: seq<Byte>, i: nat) {
    && i <= |b0| == |now|
    && now[..i] == M.Ctr(enc, step, v0, b0[..i])
    && now[i..] == b0[i..]
  }

  /** Byte i is byte bi of block n - 1; bi == 16 asks for the next block. */
  predicate Position(i: nat, n: nat, bi: nat) {
    i == 16 * n - 16 + bi
  }

  lemma {:induction false} CountersAfter(i: nat, n: nat, bi: nat)
    requires 0 < bi <= 16 && Position(i, n, bi)
    ensures M.CountersUsed(i) == n
  {
  }

  lemma {:induction false} CtrStep(enc: S.Block -> S.Block, step: S.Block -> S.Block, v0: S.Block, b0: seq<Byte>,
      before: seq<Byte>, now: seq<Byte>,
      i: nat, n: nat, bi: nat)
    requires n > 0 && bi < 16 && Position(i, n, bi) && i < |b0|
    requires CtrMasked(enc, step, v0, b0, before, i)
    requires now == before[i := Add(before[i], enc(M.Iterate(step, v0, n - 1))[bi])]
    ensures CtrMasked(enc, step, v0, b0, now, i + 1)
  {
    assert i / 16 == n - 1 && i % 16 == bi;
    assert before[i] == before[i..][0] == b0[i..][0] == b0[i];
    var c := M.Ctr(enc, step, v0, b0[..i + 1]);
    forall k | 0 <= k < i ensures c[k] == now[k] {
      assert now[k] == before[k] == before[..i][k] == M.Ctr(enc, step, v0, b0[..i])[k];
    }
    assert c[i] == Add(b0[i], enc(M.Iterate(step, v0, i / 16))[i % 16]);
    assert now[..i + 1] == c;
    assert now[i + 1..] == before[i..][1..] == b0[i..][1..] == b0[i + 1..];
  }

  // ---------------------------------------------------------------- what the modes are for

  lemma {:induction false} EncryptorInverse(w: seq<Byte>, nr: nat)
    requires 1 <= nr && |w| == 16 * (nr + 1)
    ensures forall b: S.Block :: S.Decryptor(w, nr)(S.Encryptor(w, nr)(b)) == b
    ensures forall b: S.Block :: S.Encryptor(w, nr)(S.Decryptor(w, nr)(b)) == b
  {
    forall b: S.Block
      ensures S.Decryptor(w, nr)(S.Encryptor(w, nr)(b)) == b && S.Encryptor(w, nr)(S.Decryptor(w, nr)(b)) == b
    {
      S.InvCipherUndoesCipher(b, w, nr);
      S.CipherUndoesInvCipher(b, w, nr);
    }
  }

  /** CBC under AES: from the same IV each call undoes the other, and both leave the same IV. */
  lemma {:induction false} CbcRoundTrip(w: seq<Byte>, nr: nat, iv: S.Block, p: M.Blocks)
    requires 1 <= nr && |w| == 16 * (nr + 1)
    ensures
      var enc, dec := S.Encryptor(w, nr), S.Decryptor(w, nr);
      && M.CbcDecrypt(dec, iv, M.CbcEncrypt(enc, iv, p)) == p
      && M.CbcEncrypt(enc, iv, M.CbcDecrypt(dec, iv, p)) == p
  {
    EncryptorInverse(w, nr);
    M.CbcDecryptUndoesEncrypt(S.Encryptor(w, nr), S.Decryptor(w, nr), iv, p);
    M.CbcEncryptUndoesDecrypt(S.Encryptor(w, nr), S.Decryptor(w, nr), iv, p);
  }
}
