/** A 32-bit core as its assembly sees it: registers, control registers and word memory, changed in
    place by one instruction at a time. */
module Processor {
  type Word = w: int | 0 <= w < 0x1_0000_0000

  /** Addresses and sums wrap around. */
  function Wrap(a: int): Word {
    if 0 <= a < 0x1_0000_0000 then a else a % 0x1_0000_0000
  }

  type Reg = i: nat | i < 32

  /** x0 is never a destination. */
  type Dest = i: nat | 0 < i < 32 witness 1

  type Regs = x: seq<Word> | |x| == 32 && x[0] == 0 witness seq(32, i => 0)

  const RA: Dest := 1
  const SP: Dest := 2
  const GP: Dest := 3
  const TP: Dest := 4
  const T0: Dest := 5
  const T1: Dest := 6
  const T2: Dest := 7
  const S0: Dest := 8
  const S1: Dest := 9
  const A0: Dest := 10
  const A1: Dest := 11
  const A2: Dest := 12
  const A3: Dest := 13
  const A4: Dest := 14
  const A5: Dest := 15
  const A6: Dest := 16
  const A7: Dest := 17
  const S2: Dest := 18
  const S3: Dest := 19
  const S4: Dest := 20
  const S5: Dest := 21
  const S6: Dest := 22
  const S7: Dest := 23
  const S8: Dest := 24
  const S9: Dest := 25
  const S10: Dest := 26
  const S11: Dest := 27
  const T3: Dest := 28
  const T4: Dest := 29
  const T5: Dest := 30
  const T6: Dest := 31

  /** The control registers that the safety software touches. */
  type CsrName = i: nat | i < 6

  type Csrs = c: seq<Word> | |c| == 6 witness seq(6, i => 0)

  const MSTATUS: CsrName := 0
  const MIE: CsrName := 1
  const MTVEC: CsrName := 2
  const MEPC: CsrName := 3
  const MTVAL: CsrName := 4
  const DPC: CsrName := 5

  // ---------------------------------------------------------------- memory

  /** Words at word-aligned byte addresses; a word that was never written reads as 0. */
  type Memory = map<Word, Word>

  function Load(m: Memory, a: Word): Word {
    if a in m then m[a] else 0
  }

  /** Word k of the block at base. */
  function WordAt(m: Memory, base: int, k: int): Word {
    Load(m, Wrap(base + 4 * k))
  }

  /** The n words of the block at base are ws. */
  ghost predicate Holds(m: Memory, base: Word, ws: seq<Word>, n: nat)
    requires n <= |ws|
  {
    forall k | 0 <= k < n :: WordAt(m, base, k) == ws[k]
  }

  /** Nothing changed outside [lo, hi). */
  ghost predicate SameOutside(m: Memory, m': Memory, lo: int, hi: int) {
    forall a: Word | a < lo || hi <= a :: Load(m', a) == Load(m, a)
  }

  /** An address below the end of memory, or the end itself. */
  predicate InRange(a: int) {
    0 <= a <= 0x1_0000_0000
  }

  /** Two ranges of addresses without a common one. */
  predicate Apart(a: int, n: int, b: int, m: int) {
    a + n <= b || b + m <= a
  }

  // ---------------------------------------------------------------- one core

  class Core {
    var x: Regs
    var csr: Csrs
    var mem: Memory

    /** Register i as a number. */
    function R(i: Reg): int
      reads this`x
    {
      x[i]
    }

    method Li(rd: Dest, imm: Word)
      modifies this`x
      ensures x == old(x)[rd := imm]
    {
      x := x[rd := imm];
    }

    method Addi(rd: Dest, rs: Reg, imm: int)
      modifies this`x
      ensures x == old(x)[rd := Wrap(old(x)[rs] + imm)]
    {
      x := x[rd := Wrap(x[rs] + imm)];
    }

    method Lw(rd: Dest, offset: int, rs: Reg)
      requires Wrap(x[rs] + offset) % 4 == 0
      modifies this`x
      ensures x == old(x)[rd := Load(mem, Wrap(old(x)[rs] + offset))]
    {
      x := x[rd := Load(mem, Wrap(x[rs] + offset))];
    }

    method Sw(rs: Reg, offset: int, base: Reg)
      requires Wrap(x[base] + offset) % 4 == 0
      modifies this`mem
      ensures mem == old(mem)[Wrap(x[base] + offset) := x[rs]]
    {
      mem := mem[Wrap(x[base] + offset) := x[rs]];
    }

    method Csrr(rd: Dest, c: CsrName)
      modifies this`x
      ensures x == old(x)[rd := csr[c]]
    {
      x := x[rd := csr[c]];
    }

    method Csrw(c: CsrName, rs: Reg)
      modifies this`csr
      ensures csr == old(csr)[c := x[rs]]
    {
      csr := csr[c := x[rs]];
    }
  }
}
