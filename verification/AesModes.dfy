/** The CBC and CTR modes of NIST SP 800-38A, sections 6.2 and 6.5, over any block cipher, and the
    big-endian counter of the library. */
module AesModes {
  import opened Locks
  import opened Gf256
  import opened AesCipher

  /** Whole blocks. */
  type Blocks = s: seq<Byte> | |s| % 16 == 0 witness []

  // ---------------------------------------------------------------- CBC

  function CbcEncrypt(enc: Block -> Block, iv: Block, p: Blocks): (c: Blocks)
    ensures |c| == |p|
    decreases |p|
  {
    if p == [] then []
    else
      var c0 := enc(XorBlocks(p[..16], iv));
      c0 + CbcEncrypt(enc, c0, p[16..])
  }

  function CbcDecrypt(dec: Block -> Block, iv: Block, c: Blocks): (p: Blocks)
    ensures |p| == |c|
    decreases |c|
  {
    if c == [] then []
    else XorBlocks(dec(c[..16]), iv) + CbcDecrypt(dec, c[..16], c[16..])
  }

  /** The last ciphertext block, the chaining value of a following call. */
  function NextIv(iv: Block, c: Blocks): Block {
    if c == [] then iv else c[|c| - 16..]
  }

  /** Decrypting what was encrypted from the same IV restores the buffer. */
  lemma {:induction false} CbcDecryptUndoesEncrypt(enc: Block -> Block, dec: Block -> Block, iv: Block, p: Blocks)
    requires forall b: Block :: dec(enc(b)) == b
    ensures CbcDecrypt(dec, iv, CbcEncrypt(enc, iv, p)) == p
    decreases |p|
  {
    if p == [] {
    } else {
      var c0 := enc(XorBlocks(p[..16], iv));
      var c := CbcEncrypt(enc, iv, p);
      assert c[..16] == c0 && c[16..] == CbcEncrypt(enc, c0, p[16..]);
      CbcDecryptUndoesEncrypt(enc, dec, c0, p[16..]);
      XorTwice(p[..16], iv);
    }
  }

  /** ... and encrypting what was decrypted. */
  lemma {:induction false} CbcEncryptUndoesDecrypt(enc: Block -> Block, dec: Block -> Block, iv: Block, c: Blocks)
    requires forall b: Block :: enc(dec(b)) == b
    ensures CbcEncrypt(enc, iv, CbcDecrypt(dec, iv, c)) == c
    decreases |c|
  {
    if c == [] {
    } else {
      var p := CbcDecrypt(dec, iv, c);
      assert p[..16] == XorBlocks(dec(c[..16]), iv) && p[16..] == CbcDecrypt(dec, c[..16], c[16..]);
      CbcEncryptUndoesDecrypt(enc, dec, c[..16], c[16..]);
      XorTwice(dec(c[..16]), iv);
    }
  }

  /** Two encryption calls, the second from the chaining value of the first, are one call. */
  lemma {:induction false} CbcEncryptSplits(enc: Block -> Block, iv: Block, p: Blocks, q: Blocks)
    ensures CbcEncrypt(enc, iv, p + q) ==
            CbcEncrypt(enc, iv, p) + CbcEncrypt(enc, NextIv(iv, CbcEncrypt(enc, iv, p)), q)
    decreases |p|
  {
    if p == [] {
      assert p + q == q;
    } else {
      var c0 := enc(XorBlocks(p[..16], iv));
      assert (p + q)[..16] == p[..16] && (p + q)[16..] == p[16..] + q;
      CbcEncryptSplits(enc, c0, p[16..], q);
      NextIvOfSplit(iv, c0, CbcEncrypt(enc, c0, p[16..]));
    }
  }

  lemma {:induction false} CbcEncryptOne(enc: Block -> Block, iv: Block, b: Block)
    ensures CbcEncrypt(enc, iv, b) == enc(XorBlocks(b, iv))
  {
    assert b[..16] == b && b[16..] == [];
  }

  lemma {:induction false} CbcDecryptOne(dec: Block -> Block, iv: Block, b: Block)
    ensures CbcDecrypt(dec, iv, b) == XorBlocks(dec(b), iv)
  {
    assert b[..16] == b && b[16..] == [];
  }

  lemma {:induction false} NextIvOfSplit(iv: Block, c0: Block, c: Blocks)
    ensures NextIv(iv, c0 + c) == NextIv(c0, c)
  {
  }

  lemma {:induction false} NextIvComposes(iv: Block, c: Blocks, d: Blocks)
    ensures NextIv(iv, c + d) == NextIv(NextIv(iv, c), d)
  {
    if d == [] {
      assert c + d == c;
    } else {
      assert (c + d)[|c| + |d| - 16..] == d[|d| - 16..];
    }
  }

  lemma {:induction false} CbcDecryptCons(dec: Block -> Block, iv: Block, c0: Block, c: Blocks)
    ensures CbcDecrypt(dec, iv, c0 + c) == XorBlocks(dec(c0), iv) + CbcDecrypt(dec, c0, c)
  {
    assert (c0 + c)[..16] == c0 && (c0 + c)[16..] == c;
  }

  lemma {:induction false} CbcDecryptSplits(dec: Block -> Block, iv: Block, c: Blocks, d: Blocks)
    ensures CbcDecrypt(dec, iv, c + d) == CbcDecrypt(dec, iv, c) + CbcDecrypt(dec, NextIv(iv, c), d)
    decreases |c|
  {
    if c == [] {
      assert c + d == d;
    } else {
      var c0: Block, rest: Blocks := c[..16], c[16..];
      assert c == c0 + rest && c + d == c0 + (rest + d);
      CbcDecryptSplits(dec, c0, rest, d);
      CbcDecryptCons(dec, iv, c0, rest);
      CbcDecryptCons(dec, iv, c0, rest + d);
      NextIvOfSplit(iv, c0, rest);
      Regroup(XorBlocks(dec(c0), iv), CbcDecrypt(dec, c0, rest), CbcDecrypt(dec, NextIv(c0, rest), d));
    }
  }

  lemma {:induction false} Regroup(a: seq<Byte>, b: seq<Byte>, c: seq<Byte>)
    ensures a + (b + c) == (a + b) + c
  {
  }

  // ---------------------------------------------------------------- CBC, block by block

  /** x is a plus b. */
  predicate Sums(x: Block, a: Block, b: Block) {
    forall k | 0 <= k < 16 :: x[k] == Add(a[k], b[k])
  }

  function BlockOf(s: Blocks, j: nat): Block
    requires 16 * j + 16 <= |s|
  {
    s[16 * j..16 * j + 16]
  }

  /** What block j is chained with: the ciphertext block before it, or the IV. */
  function ChainedWith(iv: Block, c: Blocks, j: nat): Block
    requires 16 * j + 16 <= |c|
  {
    if j == 0 then iv else BlockOf(c, j - 1)
  }

  /** Each ciphertext block is the encryption of the plaintext block plus the ciphertext block before it. */
  ghost predicate Chains(enc: Block -> Block, iv: Block, p: Blocks, c: Blocks) {
    && |c| == |p|
    && (forall j: nat, x: Block | 16 * j + 16 <= |c| && Sums(x, BlockOf(p, j), ChainedWith(iv, c, j)) ::
         BlockOf(c, j) == enc(x))
  }

  /** Each plaintext block is the decryption of the ciphertext block plus the ciphertext block before it. */
  ghost predicate Unchains(dec: Block -> Block, iv: Block, c: Blocks, p: Blocks) {
    && |p| == |c|
    && (forall j: nat | 16 * j + 16 <= |c| :: Sums(BlockOf(p, j), dec(BlockOf(c, j)), ChainedWith(iv, c, j)))
  }

  lemma {:induction false} SumsIff(x: Block, a: Block, b: Block)
    ensures Sums(x, a, b) <==> x == XorBlocks(a, b)
  {
  }

  /** A block further on, in the rest of the sequence. */
  lemma {:induction false} BlockOfRest(s: Blocks, j: nat)
    requires 0 < j && 16 * j + 16 <= |s|
    ensures BlockOf(s, j) == BlockOf(s[16..], j - 1)
  {
  }

  lemma {:induction false} ChainedRest(iv: Block, c: Blocks, j: nat)
    requires 0 < j && 16 * j + 16 <= |c|
    ensures ChainedWith(iv, c, j) == ChainedWith(c[..16], c[16..], j - 1)
  {
    if j > 1 {
      BlockOfRest(c, j - 1);
    } else {
      assert BlockOf(c, 0) == c[..16];
    }
  }

  lemma {:induction false} EncryptedBlock(enc: Block -> Block, iv: Block, p: Blocks, j: nat)
    requires 16 * j + 16 <= |p|
    ensures var c := CbcEncrypt(enc, iv, p); BlockOf(c, j) == enc(XorBlocks(BlockOf(p, j), ChainedWith(iv, c, j)))
    decreases j
  {
    var c, c0 := CbcEncrypt(enc, iv, p), enc(XorBlocks(p[..16], iv));
    assert c[..16] == c0 && c[16..] == CbcEncrypt(enc, c0, p[16..]);
    if j > 0 {
      BlockOfRest(c, j);
      BlockOfRest(p, j);
      ChainedRest(iv, c, j);
      EncryptedBlock(enc, c0, p[16..], j - 1);
    } else {
      assert BlockOf(c, 0) == c[..16] && BlockOf(p, 0) == p[..16];
    }
  }

  lemma {:induction false} DecryptedBlock(dec: Block -> Block, iv: Block, c: Blocks, j: nat)
    requires 16 * j + 16 <= |c|
    ensures BlockOf(CbcDecrypt(dec, iv, c), j) == XorBlocks(dec(BlockOf(c, j)), ChainedWith(iv, c, j))
    decreases j
  {
    var p := CbcDecrypt(dec, iv, c);
    assert p[..16] == XorBlocks(dec(c[..16]), iv) && p[16..] == CbcDecrypt(dec, c[..16], c[16..]);
    if j > 0 {
      BlockOfRest(c, j);
      BlockOfRest(p, j);
      ChainedRest(iv, c, j);
      DecryptedBlock(dec, c[..16], c[16..], j - 1);
    } else {
      assert BlockOf(c, 0) == c[..16] && BlockOf(p, 0) == p[..16];
    }
  }

  lemma {:induction false} SameBlocks(s: Blocks, t: Blocks)
    requires |s| == |t| && forall j: nat | 16 * j + 16 <= |s| :: BlockOf(s, j) == BlockOf(t, j)
    ensures s == t
  {
    forall k | 0 <= k < |s| ensures s[k] == t[k] {
      assert BlockOf(s, k / 16)[k % 16] == s[k] && BlockOf(t, k / 16)[k % 16] == t[k];
    }
  }

  lemma {:induction false} OneChain(enc: Block -> Block, iv: Block, p: Blocks, c: Blocks, d: Blocks, j: nat)
    requires Chains(enc, iv, p, c) && Chains(enc, iv, p, d) && 16 * j + 16 <= |p|
    ensures BlockOf(c, j) == BlockOf(d, j)
    decreases j
  {
    if j > 0 {
      OneChain(enc, iv, p, c, d, j - 1);
    }
    var x, before := XorBlocks(BlockOf(p, j), ChainedWith(iv, c, j)), ChainedWith(iv, c, j);
    assert before == ChainedWith(iv, d, j);
    SumsIff(x, BlockOf(p, j), before);
    assert Sums(x, BlockOf(p, j), ChainedWith(iv, c, j)) && Sums(x, BlockOf(p, j), ChainedWith(iv, d, j));
    assert BlockOf(c, j) == enc(x) == BlockOf(d, j);
  }

  /** For every block function: CBC encryption is the chain of section 6.2 of the standard, and nothing else is. */
  lemma {:induction false} CbcEncryptIsStandard(enc: Block -> Block, iv: Block, p: Blocks, c: Blocks)
    ensures c == CbcEncrypt(enc, iv, p) <==> Chains(enc, iv, p, c)
  {
    var d := CbcEncrypt(enc, iv, p);
    forall j: nat, x: Block | 16 * j + 16 <= |d| && Sums(x, BlockOf(p, j), ChainedWith(iv, d, j))
      ensures BlockOf(d, j) == enc(x)
    {
      EncryptedBlock(enc, iv, p, j);
      SumsIff(x, BlockOf(p, j), ChainedWith(iv, d, j));
    }
    if Chains(enc, iv, p, c) {
      forall j: nat | 16 * j + 16 <= |c| ensures BlockOf(c, j) == BlockOf(d, j) {
        OneChain(enc, iv, p, c, d, j);
      }
      SameBlocks(c, d);
    }
  }

  /** ... and CBC decryption. */
  lemma {:induction false} CbcDecryptIsStandard(dec: Block -> Block, iv: Block, c: Blocks, p: Blocks)
    ensures p == CbcDecrypt(dec, iv, c) <==> Unchains(dec, iv, c, p)
  {
    var q := CbcDecrypt(dec, iv, c);
    forall j: nat | 16 * j + 16 <= |c| ensures BlockOf(q, j) == XorBlocks(dec(BlockOf(c, j)), ChainedWith(iv, c, j)) {
      DecryptedBlock(dec, iv, c, j);
    }
    forall j: nat | 16 * j + 16 <= |c| ensures Sums(BlockOf(q, j), dec(BlockOf(c, j)), ChainedWith(iv, c, j)) {
      SumsIff(BlockOf(q, j), dec(BlockOf(c, j)), ChainedWith(iv, c, j));
    }
    if Unchains(dec, iv, c, p) {
      forall j: nat | 16 * j + 16 <= |c| ensures BlockOf(p, j) == BlockOf(q, j) {
        SumsIff(BlockOf(p, j), dec(BlockOf(c, j)), ChainedWith(iv, c, j));
      }
      SameBlocks(p, q);
    }
  }

  // ---------------------------------------------------------------- the counter

  /** A counter read as a big-endian number. */
  function BigEndian(s: seq<Byte>): nat {
    if s == [] then 0 else BigEndian(s[..|s| - 1]) * 256 + s[|s| - 1] as nat
  }

  function Power256(n: nat): (p: nat)
    ensures p > 0
  {
    if n == 0 then 1 else Power256(n - 1) * 256
  }

  /** One step of the counter: the last byte grows, and a byte that overflows carries. */
  function Increment(s: seq<Byte>): (r: seq<Byte>)
    ensures |r| == |s|
  {
    if s == [] then []
    else if s[|s| - 1] == 255 then Increment(s[..|s| - 1]) + [0]
    else s[..|s| - 1] + [s[|s| - 1] + 1]
  }

  /** A 128-bit counter step. */
  function IncrementBlock(b: Block): Block {
    Increment(b)
  }

  function Iterate(step: Block -> Block, b: Block, n: nat): Block {
    if n == 0 then b else step(Iterate(step, b, n - 1))
  }

  lemma {:induction false} ByteSuccessor(x: Byte)
    requires x != 255
    ensures (x + 1) as nat == x as nat + 1
  {
  }

  lemma {:induction false} BigEndianBounded(s: seq<Byte>)
    ensures BigEndian(s) < Power256(|s|)
  {
    if s != [] {
      BigEndianBounded(s[..|s| - 1]);
    }
  }

  lemma {:induction false} IncrementWraps(s: seq<Byte>)
    ensures BigEndian(Increment(s)) == if BigEndian(s) + 1 == Power256(|s|) then 0 else BigEndian(s) + 1
  {
    if s == [] {
    } else {
      var t, x, r := s[..|s| - 1], s[|s| - 1], Increment(s);
      BigEndianBounded(t);
      if x == 255 {
        IncrementWraps(t);
        assert r[..|r| - 1] == Increment(t);
      } else {
        ByteSuccessor(x);
        assert r[..|r| - 1] == t;
      }
    }
  }

  lemma {:induction false} SuccessorModulo(x: nat, m: nat)
    requires m > 0
    ensures (x + 1) % m == if x % m + 1 == m then 0 else x % m + 1
  {
    SuccessorOf(x, x / m, x % m, m);
  }

  lemma {:induction false} SuccessorOf(x: nat, q: nat, r: nat, m: nat)
    requires r < m && x == q * m + r
    ensures (x + 1) % m == if r + 1 == m then 0 else r + 1
  {
    if r + 1 == m {
      assert x + 1 == (q + 1) * m + 0;
      ModuloOf(q + 1, 0, m);
    } else {
      ModuloOf(q, r + 1, m);
    }
  }

  lemma {:induction false} ModuloOf(q: nat, r: nat, m: nat)
    requires r < m
    ensures (q * m + r) % m == r
  {
    var d, e := (q * m + r) / m, (q * m + r) % m;
    QuotientUnique(d, e, q, r, m);
  }

  lemma {:induction false} QuotientUnique(d: int, e: nat, q: int, r: nat, m: nat)
    requires d * m + e == q * m + r && e < m && r < m
    ensures e == r
  {
    assert (d - q) * m == r - e;
    if d > q {
      AtLeastOnce(d - q, m);
    } else if d < q {
      AtLeastOnce(q - d, m);
    }
  }

  lemma {:induction false} AtLeastOnce(k: nat, m: nat)
    requires k >= 1
    ensures k * m >= m
  {
  }

  /** The successor of x among the numbers below m. */
  function Successor(x: nat, m: nat): nat {
    if x + 1 == m then 0 else x + 1
  }

  lemma {:induction false} WrapIsModulo(x: nat, m: nat)
    requires x < m
    ensures x % m == x
    ensures (x + 1) % m == if x + 1 == m then 0 else x + 1
  {
    ModuloOf(0, x, m);
    SuccessorModulo(x, m);
  }

  lemma {:induction false} ModuloOnce(x: nat, m: nat)
    requires m > 0
    ensures Successor(x % m, m) == (x + 1) % m
  {
    SuccessorModulo(x, m);
  }

  function Advanced(x: nat, n: nat, m: nat): nat {
    if n == 0 then x else Successor(Advanced(x, n - 1, m), m)
  }

  lemma {:induction false} AdvancedIsModulo(x: nat, n: nat, m: nat)
    requires x < m
    ensures Advanced(x, n, m) == (x + n) % m
  {
    if n == 0 {
      WrapIsModulo(x, m);
    } else {
      AdvancedIsModulo(x, n - 1, m);
      ModuloOnce(x + n - 1, m);
    }
  }

  /** Incrementing adds one modulo 2^128: the carry loop is 128-bit addition. */
  lemma {:induction false} IncrementAddsOne(b: Block)
    ensures BigEndian(IncrementBlock(b)) == (BigEndian(b) + 1) % Power256(16)
  {
    CounterAdvances(b, 1);
    assert Iterate(IncrementBlock, b, 1) == IncrementBlock(Iterate(IncrementBlock, b, 0));
  }

  /** After n steps the counter has advanced by n modulo 2^128. */
  lemma {:induction false} CounterAdvances(b: Block, n: nat)
    ensures BigEndian(Iterate(IncrementBlock, b, n)) == (BigEndian(b) + n) % Power256(16)
  {
    BigEndianBounded(b);
    IncrementCounts();
    AdvancesModulo(IncrementBlock, b, n, Power256(16));
  }

  lemma {:induction false} AdvancesModulo(step: Block -> Block, b: Block, n: nat, m: nat)
    requires CountsModulo(step, m) && BigEndian(b) < m
    ensures BigEndian(Iterate(step, b, n)) == (BigEndian(b) + n) % m
  {
    IterateAdvances(step, b, n, m);
    AdvancedIsModulo(BigEndian(b), n, m);
  }

  /** step adds one modulo m: a fact that Unlock releases where it is needed. */
  ghost predicate CountsModulo(step: Block -> Block, m: nat) {
    forall k: int :: Unlock(k) ==> forall c: Block :: BigEndian(step(c)) == Successor(BigEndian(c), m)
  }

  lemma {:induction false} IncrementCounts()
    ensures CountsModulo(IncrementBlock, Power256(16))
  {
    forall c: Block ensures BigEndian(IncrementBlock(c)) == Successor(BigEndian(c), Power256(16)) {
      IncrementWraps(c);
    }
  }

  lemma {:induction false} StepCounts(step: Block -> Block, c: Block, m: nat)
    requires CountsModulo(step, m)
    ensures BigEndian(step(c)) == Successor(BigEndian(c), m)
  {
    assert Unlock(0);
  }

  lemma {:induction false} IterateAdvances(step: Block -> Block, b: Block, n: nat, m: nat)
    requires CountsModulo(step, m)
    ensures BigEndian(Iterate(step, b, n)) == Advanced(BigEndian(b), n, m)
  {
    if n > 0 {
      IterateAdvances(step, b, n - 1, m);
      StepCounts(step, Iterate(step, b, n - 1), m);
    }
  }

  /** A counter is determined by its number, so the numbers say all there is to say. */
  lemma {:induction false} BigEndianInjective(s: seq<Byte>, t: seq<Byte>)
    requires |s| == |t| && BigEndian(s) == BigEndian(t)
    ensures s == t
  {
    if s != [] {
      var x, y := s[|s| - 1], t[|t| - 1];
      DigitsEqual(BigEndian(s[..|s| - 1]), x as nat, BigEndian(t[..|t| - 1]), y as nat);
      BytesEqual(x, y);
      BigEndianInjective(s[..|s| - 1], t[..|t| - 1]);
    }
  }

  lemma {:induction false} DigitsEqual(a: nat, x: nat, b: nat, y: nat)
    requires a * 256 + x == b * 256 + y && x < 256 && y < 256
    ensures a == b && x == y
  {
  }

  lemma {:induction false} BytesEqual(x: Byte, y: Byte)
    requires x as nat == y as nat
    ensures x == y
  {
  }

  lemma {:induction false} IterateTwice(step: Block -> Block, b: Block, m: nat, n: nat)
    ensures Iterate(step, Iterate(step, b, m), n) == Iterate(step, b, m + n)
  {
    if n > 0 {
      IterateTwice(step, b, m, n - 1);
    }
  }

  // ---------------------------------------------------------------- CTR

  /** Byte i is masked with byte i mod 16 of the encrypted counter number i / 16. */
  function Ctr(enc: Block -> Block, step: Block -> Block, iv: Block, p: seq<Byte>): (c: seq<Byte>)
    ensures |c| == |p|
  {
    seq(|p|, i requires 0 <= i < |p| => Add(p[i], enc(Iterate(step, iv, i / 16))[i % 16]))
  }

  /** The counters that a buffer of this length consumes. */
  function CountersUsed(length: nat): nat {
    (length + 15) / 16
  }

  /** t is the block whose number is k more than that of iv, modulo 2^128. */
  predicate CounterBlock(iv: Block, k: nat, t: Block) {
    BigEndian(t) == (BigEndian(iv) + k) % Power256(16)
  }

  /** There is exactly one such block, the one that k increments make. */
  lemma {:induction false} CounterBlockIs(iv: Block, k: nat, t: Block)
    ensures CounterBlock(iv, k, t) <==> t == Iterate(IncrementBlock, iv, k)
  {
    CounterAdvances(iv, k);
    OnlyOneBlock(t, Iterate(IncrementBlock, iv, k), (BigEndian(iv) + k) % Power256(16));
  }

  lemma {:induction false} OnlyOneBlock(t: Block, u: Block, x: nat)
    requires BigEndian(u) == x
    ensures BigEndian(t) == x <==> t == u
  {
    if BigEndian(t) == x {
      BigEndianInjective(t, u);
    }
  }

  /** The mode in the terms of its standard, without the increment: byte i is masked with byte i mod 16 of the
      encryption of the block whose number is i / 16 more than that of iv. */
  ghost predicate CountsUp(enc: Block -> Block, iv: Block, p: seq<Byte>, c: seq<Byte>) {
    && |c| == |p|
    && (forall i, t: Block | 0 <= i < |p| && CounterBlock(iv, i / 16, t) :: c[i] == Add(p[i], enc(t)[i % 16]))
  }

  lemma {:induction false} CtrCountsUp(enc: Block -> Block, iv: Block, p: seq<Byte>)
    ensures CountsUp(enc, iv, p, Ctr(enc, IncrementBlock, iv, p))
  {
    forall i, t: Block | 0 <= i < |p| && CounterBlock(iv, i / 16, t)
      ensures Ctr(enc, IncrementBlock, iv, p)[i] == Add(p[i], enc(t)[i % 16])
    {
      CounterBlockIs(iv, i / 16, t);
    }
  }

  /** Applying the mode twice from the same counter is the identity. */
  lemma {:induction false} CtrTwice(enc: Block -> Block, step: Block -> Block, iv: Block, p: seq<Byte>)
    ensures Ctr(enc, step, iv, Ctr(enc, step, iv, p)) == p
  {
    forall i | 0 <= i < |p| ensures Ctr(enc, step, iv, Ctr(enc, step, iv, p))[i] == p[i] {
      AddTwice(p[i], enc(Iterate(step, iv, i / 16))[i % 16]);
    }
  }

  lemma {:induction false} BlockOffset(n: nat, i: nat)
    ensures (16 * n + i) / 16 == n + i / 16 && (16 * n + i) % 16 == i % 16
    ensures CountersUsed(16 * n) == n && CountersUsed(16 * n + i) == n + CountersUsed(i)
  {
  }

  /** Two calls split at a block boundary compose to one, and so do the counters they leave. */
  lemma {:induction false} CtrSplits(enc: Block -> Block, step: Block -> Block, iv: Block, p: Blocks, q: seq<Byte>)
    ensures
      var next := Iterate(step, iv, CountersUsed(|p|));
      && Ctr(enc, step, iv, p + q) == Ctr(enc, step, iv, p) + Ctr(enc, step, next, q)
      && Iterate(step, iv, CountersUsed(|p| + |q|)) == Iterate(step, next, CountersUsed(|q|))
  {
    var n := |p| / 16;
    assert |p| == 16 * n;
    BlockOffset(n, |q|);
    var next := Iterate(step, iv, n);
    forall i | 0 <= i < |q|
      ensures Ctr(enc, step, iv, p + q)[|p| + i] == Ctr(enc, step, next, q)[i]
    {
      BlockOffset(n, i);
      IterateTwice(step, iv, n, i / 16);
    }
    IterateTwice(step, iv, n, CountersUsed(|q|));
  }
}
