/** The software repair of the triple mode: handler_tmr_recoverysync pushes every register of three cores
    through the voter onto one stack, and pops it back into all of them. */
module Resync {
  import opened Locks
  import opened Harts
  import opened Processor
  import TmrVoter

  // ---------------------------------------------------------------- voted words

  /** The voter on words as numbers: the majority of each bit. */
  function VoteBits(a: nat, b: nat, c: nat): nat {
    if a == 0 && b == 0 && c == 0 then 0
    else 2 * VoteBits(a / 2, b / 2, c / 2) + (if TmrVoter.Majority(a % 2 == 1, b % 2 == 1, c % 2 == 1) then 1 else 0)
  }

  predicate Bit(x: nat, k: nat) {
    if k == 0 then x % 2 == 1 else Bit(x / 2, k - 1)
  }

  /** The law that the voter obeys on bit vectors, here on numbers. */
  lemma {:induction false} VotePerBit(a: nat, b: nat, c: nat, k: nat)
    ensures Bit(VoteBits(a, b, c), k) == TmrVoter.Majority(Bit(a, k), Bit(b, k), Bit(c, k))
  {
    VoteHalves(a, b, c, VoteBits(a, b, c));
    if k > 0 {
      VotePerBit(a / 2, b / 2, c / 2, k - 1);
    }
  }

  lemma {:induction false} VoteHalves(a: nat, b: nat, c: nat, v: nat)
    requires v == VoteBits(a, b, c)
    ensures v / 2 == VoteBits(a / 2, b / 2, c / 2)
    ensures v % 2 == 1 <==> TmrVoter.Majority(a % 2 == 1, b % 2 == 1, c % 2 == 1)
  {
  }

  lemma {:induction false} TwoNumbersWin(v: nat, w: nat)
    ensures VoteBits(v, v, w) == v && VoteBits(v, w, v) == v && VoteBits(w, v, v) == v
    decreases v + w
  {
    if v + w > 0 {
      TwoNumbersWin(v / 2, w / 2);
    }
  }

  function Pow2(n: nat): nat {
    if n == 0 then 1 else 2 * Pow2(n - 1)
  }

  lemma {:induction false} VoteFits(a: nat, b: nat, c: nat, n: nat)
    requires a < Pow2(n) && b < Pow2(n) && c < Pow2(n)
    ensures VoteBits(a, b, c) < Pow2(n)
  {
    if n > 0 {
      VoteFits(a / 2, b / 2, c / 2, n - 1);
    }
  }

  lemma {:induction false} WordBits()
    ensures Pow2(32) == 0x1_0000_0000
  {
    assert Pow2(8) == 256;
    assert Pow2(16) == 65536;
    assert Pow2(24) == 16777216;
  }

  function VoteWord(a: Word, b: Word, c: Word): Word {
    WordBits();
    VoteFits(a, b, c, 32);
    VoteBits(a, b, c)
  }

  lemma {:induction false} TwoWordsWin(v: Word, w: Word)
    ensures VoteWord(v, v, w) == v && VoteWord(v, w, v) == v && VoteWord(w, v, v) == v
  {
    TwoNumbersWin(v, w);
  }

  lemma {:induction false} TwoOfThree(a: Word, b: Word, c: Word, v: Word)
    requires (a == v && b == v) || (a == v && c == v) || (b == v && c == v)
    ensures VoteWord(a, b, c) == v
  {
    TwoWordsWin(v, if a != v then a else if b != v then b else c);
  }

  /** The majority of register i of the three cores. */
  function Voted(x: Three<Regs>, i: Reg): Word {
    VoteWord(x.h0[i], x.h1[i], x.h2[i])
  }

  function VotedCsr(c: Three<Csrs>, k: CsrName): Word {
    VoteWord(c.h0[k], c.h1[k], c.h2[k])
  }

  /** At least two cores have v in register i. */
  predicate TwoHave(x: Three<Regs>, i: Reg, v: Word) {
    (x.h0[i] == v && x.h1[i] == v) || (x.h0[i] == v && x.h2[i] == v) || (x.h1[i] == v && x.h2[i] == v)
  }

  /** The address of an access relative to register i. */
  function VotedAddress(x: Three<Regs>, i: Reg, offset: int): Word {
    VoteWord(Wrap(x.h0[i] as int + offset), Wrap(x.h1[i] as int + offset), Wrap(x.h2[i] as int + offset))
  }

  lemma {:induction false} AgreedAddress(x: Three<Regs>, i: Reg, v: Word, offset: int)
    requires TwoHave(x, i, v)
    ensures VotedAddress(x, i, offset) == Wrap(v as int + offset)
  {
    TwoOfThree(Wrap(x.h0[i] as int + offset), Wrap(x.h1[i] as int + offset), Wrap(x.h2[i] as int + offset),
      Wrap(v as int + offset));
  }

  // ---------------------------------------------------------------- three cores on one voted bus

  /** Register i of the three cores set to three values. */
  function Set(x: Three<Regs>, i: Dest, a: Word, b: Word, c: Word): Three<Regs> {
    var x0: Regs, x1: Regs, x2: Regs := x.h0[i := a], x.h1[i := b], x.h2[i := c];
    Three(x0, x1, x2)
  }

  function SetCsr(c: Three<Csrs>, k: CsrName, x: Three<Regs>, rs: Reg): Three<Csrs> {
    var c0: Csrs, c1: Csrs, c2: Csrs := c.h0[k := x.h0[rs]], c.h1[k := x.h1[rs]], c.h2[k := x.h2[rs]];
    Three(c0, c1, c2)
  }

  /** Three cores in lockstep: each instruction changes their own registers, but a load or store is one
      access to one memory, whose address and data are voted separately and whose answer all cores get. */
  class Cluster {
    var x: Three<Regs>
    var csr: Three<Csrs>
    var mem: Memory

    method Li(rd: Dest, imm: Word)
      modifies this`x
      ensures x == Set(old(x), rd, imm, imm, imm)
    {
      x := Set(x, rd, imm, imm, imm);
    }

    method Addi(rd: Dest, rs: Reg, imm: int)
      modifies this`x
      ensures x == Set(old(x), rd, Wrap(old(x).h0[rs] as int + imm), Wrap(old(x).h1[rs] as int + imm),
        Wrap(old(x).h2[rs] as int + imm))
    {
      x := Set(x, rd, Wrap(x.h0[rs] as int + imm), Wrap(x.h1[rs] as int + imm), Wrap(x.h2[rs] as int + imm));
    }

    method Csrr(rd: Dest, c: CsrName)
      modifies this`x
      ensures x == Set(old(x), rd, csr.h0[c], csr.h1[c], csr.h2[c])
    {
      x := Set(x, rd, csr.h0[c], csr.h1[c], csr.h2[c]);
    }

    method Csrw(c: CsrName, rs: Reg)
      modifies this`csr
      ensures csr == SetCsr(old(csr), c, x, rs)
    {
      csr := SetCsr(csr, c, x, rs);
    }

    method Lw(rd: Dest, offset: int, rs: Reg)
      requires VotedAddress(x, rs, offset) % 4 == 0
      modifies this`x
      ensures var v := Load(mem, VotedAddress(old(x), rs, offset)); x == Set(old(x), rd, v, v, v)
    {
      var v := Load(mem, VotedAddress(x, rs, offset));
      x := Set(x, rd, v, v, v);
    }

    method Sw(rs: Reg, offset: int, base: Reg)
      requires VotedAddress(x, base, offset) % 4 == 0
      modifies this`mem
      ensures mem == old(mem)[VotedAddress(x, base, offset) := Voted(x, rs)]
    {
      mem := mem[VotedAddress(x, base, offset) := Voted(x, rs)];
    }
  }

  // ---------------------------------------------------------------- the handler

  /** Word k below base. */
  function Below(m: Memory, base: Word, k: nat): Word {
    Load(m, Wrap(base as int - 4 * k - 4))
  }

  /** The first n of the words ws are on the stack, and nothing else has changed since m0: a fact that Unlock
      releases where it is needed. */
  ghost predicate Pushed(m0: Memory, m: Memory, base: Word, ws: seq<Word>, n: nat)
    requires n <= |ws|
  {
    forall k: int :: Unlock(k) ==>
      && (forall j: nat | j < n :: Below(m, base, j) == ws[j])
      && SameOutside(m0, m, base - 4 * |ws|, base)
  }

  lemma {:induction false} PushedMeans(m0: Memory, m: Memory, base: Word, ws: seq<Word>, n: nat)
    requires n <= |ws|
    ensures Pushed(m0, m, base, ws, n) <==>
      (forall j: nat | j < n :: Below(m, base, j) == ws[j]) && SameOutside(m0, m, base - 4 * |ws|, base)
  {
    assert Unlock(0);
  }

  /** What the handler pushes: x1 to x31, then the five control registers. */
  predicate Wanted(ws: seq<Word>, x: Three<Regs>, csr: Three<Csrs>) {
    && |ws| == 36
    && (forall i: Dest :: ws[i - 1] == Voted(x, i))
    && (forall k: CsrName | k != DPC :: ws[31 + k] == VotedCsr(csr, k))
  }

  predicate StackPlace(base: Word) {
    base % 4 == 0 && base >= 144
  }

  /** A store relative to sp, which two cores have right, goes to the right place. */
  method Store(c: Cluster, rs: Dest, offset: int, ghost base: Word)
    requires TwoHave(c.x, SP, base) && Wrap(base as int + offset) % 4 == 0
    modifies c`mem
    ensures c.mem == old(c.mem)[Wrap(base as int + offset) := Voted(c.x, rs)]
  {
    AgreedAddress(c.x, SP, base, offset);
    c.Sw(rs, offset, SP);
  }

  method Fetch(c: Cluster, rd: Dest, offset: int, ghost base: Word)
    requires TwoHave(c.x, SP, base) && Wrap(base as int + offset) % 4 == 0
    modifies c`x
    ensures var v := Load(c.mem, Wrap(base as int + offset)); c.x == Set(old(c.x), rd, v, v, v)
  {
    AgreedAddress(c.x, SP, base, offset);
    c.Lw(rd, offset, SP);
  }

  /** A store relative to sp of the next word. */
  method Push(c: Cluster, rs: Dest, offset: int, ghost m0: Memory, ghost base: Word, ghost ws: seq<Word>, ghost n: nat)
    requires n < |ws| == 36 && offset == -4 * n - 4 && StackPlace(base) && TwoHave(c.x, SP, base)
    requires ws[n] == Voted(c.x, rs) && Pushed(m0, c.mem, base, ws, n)
    modifies c`mem
    ensures Pushed(m0, c.mem, base, ws, n + 1)
  {
    PushOne(m0, c.mem, base, ws, n);
    Store(c, rs, offset, base);
  }

  lemma {:induction false} PushOne(m0: Memory, m: Memory, base: Word, ws: seq<Word>, n: nat)
    requires n < |ws| == 36 && StackPlace(base) && Pushed(m0, m, base, ws, n)
    ensures Pushed(m0, m[Wrap(base as int - 4 * n - 4) := ws[n]], base, ws, n + 1)
  {
    PushedMeans(m0, m, base, ws, n);
    PushedMeans(m0, m[Wrap(base as int - 4 * n - 4) := ws[n]], base, ws, n + 1);
  }

  /** x(n+1), the register whose turn it is. */
  method PushReg(c: Cluster, rs: Dest, offset: int, ghost m0: Memory, ghost base: Word, ghost ws: seq<Word>,
      ghost csr: Three<Csrs>)
    requires offset == -4 * rs && StackPlace(base) && TwoHave(c.x, SP, base)
    requires Wanted(ws, c.x, csr) && Pushed(m0, c.mem, base, ws, rs - 1)
    modifies c`mem
    ensures Pushed(m0, c.mem, base, ws, rs)
  {
    Push(c, rs, offset, m0, base, ws, rs - 1);
  }

  method PushCsr(c: Cluster, name: CsrName, offset: int, ghost m0: Memory, ghost base: Word, ghost ws: seq<Word>)
    requires name != DPC && offset == -128 - 4 * name && StackPlace(base) && TwoHave(c.x, SP, base)
    requires |ws| == 36 && ws[31 + name] == VotedCsr(c.csr, name) && Pushed(m0, c.mem, base, ws, 31 + name)
    modifies c`x, c`mem
    ensures Pushed(m0, c.mem, base, ws, 32 + name)
    ensures TwoHave(c.x, SP, base)
  {
    c.Csrr(T6, name);
    Push(c, T6, offset, m0, base, ws, 31 + name);
  }

  method PushLower(c: Cluster, ghost m0: Memory, ghost base: Word, ghost ws: seq<Word>)
    requires StackPlace(base) && TwoHave(c.x, SP, base) && Wanted(ws, c.x, c.csr) && Pushed(m0, c.mem, base, ws, 0)
    modifies c`mem
    ensures Pushed(m0, c.mem, base, ws, 16)
  {
    PushReg(c, RA, -4, m0, base, ws, c.csr);
    PushReg(c, SP, -8, m0, base, ws, c.csr);
    PushReg(c, GP, -12, m0, base, ws, c.csr);
    PushReg(c, TP, -16, m0, base, ws, c.csr);
    PushReg(c, T0, -20, m0, base, ws, c.csr);
    PushReg(c, T1, -24, m0, base, ws, c.csr);
    PushReg(c, T2, -28, m0, base, ws, c.csr);
    PushReg(c, S0, -32, m0, base, ws, c.csr);
    PushReg(c, S1, -36, m0, base, ws, c.csr);
    PushReg(c, A0, -40, m0, base, ws, c.csr);
    PushReg(c, A1, -44, m0, base, ws, c.csr);
    PushReg(c, A2, -48, m0, base, ws, c.csr);
    PushReg(c, A3, -52, m0, base, ws, c.csr);
    PushReg(c, A4, -56, m0, base, ws, c.csr);
    PushReg(c, A5, -60, m0, base, ws, c.csr);
    PushReg(c, A6, -64, m0, base, ws, c.csr);
  }

  method PushUpper(c: Cluster, ghost m0: Memory, ghost base: Word, ghost ws: seq<Word>)
    requires StackPlace(base) && TwoHave(c.x, SP, base) && Wanted(ws, c.x, c.csr) && Pushed(m0, c.mem, base, ws, 16)
    modifies c`mem
    ensures Pushed(m0, c.mem, base, ws, 31)
  {
    PushReg(c, A7, -68, m0, base, ws, c.csr);
    PushReg(c, S2, -72, m0, base, ws, c.csr);
    PushReg(c, S3, -76, m0, base, ws, c.csr);
    PushReg(c, S4, -80, m0, base, ws, c.csr);
    PushReg(c, S5, -84, m0, base, ws, c.csr);
    PushReg(c, S6, -88, m0, base, ws, c.csr);
    PushReg(c, S7, -92, m0, base, ws, c.csr);
    PushReg(c, S8, -96, m0, base, ws, c.csr);
    PushReg(c, S9, -100, m0, base, ws, c.csr);
    PushReg(c, S10, -104, m0, base, ws, c.csr);
    PushReg(c, S11, -108, m0, base, ws, c.csr);
    PushReg(c, T3, -112, m0, base, ws, c.csr);
    PushReg(c, T4, -116, m0, base, ws, c.csr);
    PushReg(c, T5, -120, m0, base, ws, c.csr);
    PushReg(c, T6, -124, m0, base, ws, c.csr);
  }

  method PushCsrs(c: Cluster, ghost m0: Memory, ghost base: Word, ghost ws: seq<Word>)
    requires |ws| == 36 && StackPlace(base) && TwoHave(c.x, SP, base) && Pushed(m0, c.mem, base, ws, 31)
    requires forall k: CsrName | k != DPC :: ws[31 + k] == VotedCsr(c.csr, k)
    modifies c`x, c`mem
    ensures Pushed(m0, c.mem, base, ws, 36) && TwoHave(c.x, SP, base)
  {
    PushCsr(c, MSTATUS, -128, m0, base, ws);
    PushCsr(c, MIE, -132, m0, base, ws);
    PushCsr(c, MTVEC, -136, m0, base, ws);
    PushCsr(c, MEPC, -140, m0, base, ws);
    PushCsr(c, MTVAL, -144, m0, base, ws);
  }

  /** A load relative to sp of one of the words on the stack. */
  method Pop(c: Cluster, rd: Dest, offset: int, ghost m0: Memory, ghost base: Word, ghost ws: seq<Word>, ghost n: nat)
    requires n < |ws| == 36 && offset == -4 * n - 4 && StackPlace(base) && TwoHave(c.x, SP, base)
    requires Pushed(m0, c.mem, base, ws, 36)
    modifies c`x
    ensures c.x == Set(old(c.x), rd, ws[n], ws[n], ws[n])
  {
    PushedMeans(m0, c.mem, base, ws, 36);
    assert Below(c.mem, base, n) == ws[n];
    Fetch(c, rd, offset, base);
  }

  method PopCsr(c: Cluster, name: CsrName, offset: int, ghost m0: Memory, ghost base: Word, ghost ws: seq<Word>)
    requires |ws| == 36 && name != DPC && offset == -128 - 4 * name && StackPlace(base) && TwoHave(c.x, SP, base)
    requires Pushed(m0, c.mem, base, ws, 36)
    modifies c`x, c`csr
    ensures TwoHave(c.x, SP, base)
    ensures forall h: Hart :: c.csr.At(h) == old(c.csr).At(h)[name := ws[31 + name]]
  {
    Pop(c, T6, offset, m0, base, ws, 31 + name);
    c.Csrw(name, T6);
  }

  method PopCsrs(c: Cluster, ghost m0: Memory, ghost base: Word, ghost ws: seq<Word>)
    requires |ws| == 36 && StackPlace(base) && TwoHave(c.x, SP, base) && Pushed(m0, c.mem, base, ws, 36)
    modifies c`x, c`csr
    ensures TwoHave(c.x, SP, base)
    ensures forall h: Hart, k: CsrName | k != DPC :: c.csr.At(h)[k] == ws[31 + k]
  {
    PopCsr(c, MSTATUS, -128, m0, base, ws);
    PopCsr(c, MIE, -132, m0, base, ws);
    PopCsr(c, MTVEC, -136, m0, base, ws);
    PopCsr(c, MEPC, -140, m0, base, ws);
    PopCsr(c, MTVAL, -144, m0, base, ws);
  }

  /** All cores have x1 to xn from the stack: a fact that Unlock releases where it is needed. */
  ghost predicate Popped(x: Three<Regs>, ws: seq<Word>, n: nat)
    requires n < 32 && |ws| == 36
  {
    forall k: int :: Unlock(k) ==>
      forall i: Dest | i <= n :: x.h0[i] == ws[i - 1] && x.h1[i] == ws[i - 1] && x.h2[i] == ws[i - 1]
  }

  lemma {:induction false} PoppedMeans(x: Three<Regs>, ws: seq<Word>, n: nat)
    requires n < 32 && |ws| == 36
    ensures Popped(x, ws, n) <==>
      (forall i: Dest | i <= n :: x.h0[i] == ws[i - 1] && x.h1[i] == ws[i - 1] && x.h2[i] == ws[i - 1])
  {
    assert Unlock(0);
  }

  /** The next register; sp itself is one of them. */
  method PopReg(c: Cluster, rd: Dest, offset: int, ghost m0: Memory, ghost base: Word, ghost ws: seq<Word>)
    requires |ws| == 36 && ws[1] == base && offset == -4 * rd && StackPlace(base) && TwoHave(c.x, SP, base)
    requires Pushed(m0, c.mem, base, ws, 36) && Popped(c.x, ws, rd - 1)
    modifies c`x
    ensures TwoHave(c.x, SP, base) && Popped(c.x, ws, rd)
  {
    PoppedMeans(c.x, ws, rd - 1);
    Pop(c, rd, offset, m0, base, ws, rd - 1);
    PoppedMeans(c.x, ws, rd);
  }

  method PopLower(c: Cluster, ghost m0: Memory, ghost base: Word, ghost ws: seq<Word>)
    requires |ws| == 36 && ws[1] == base && StackPlace(base) && TwoHave(c.x, SP, base)
      && Pushed(m0, c.mem, base, ws, 36)
    modifies c`x
    ensures TwoHave(c.x, SP, base) && Popped(c.x, ws, 16)
  {
    PoppedMeans(c.x, ws, 0);
    PopReg(c, RA, -4, m0, base, ws);
    PopReg(c, SP, -8, m0, base, ws);
    PopReg(c, GP, -12, m0, base, ws);
    PopReg(c, TP, -16, m0, base, ws);
    PopReg(c, T0, -20, m0, base, ws);
    PopReg(c, T1, -24, m0, base, ws);
    PopReg(c, T2, -28, m0, base, ws);
    PopReg(c, S0, -32, m0, base, ws);
    PopReg(c, S1, -36, m0, base, ws);
    PopReg(c, A0, -40, m0, base, ws);
    PopReg(c, A1, -44, m0, base, ws);
    PopReg(c, A2, -48, m0, base, ws);
    PopReg(c, A3, -52, m0, base, ws);
    PopReg(c, A4, -56, m0, base, ws);
    PopReg(c, A5, -60, m0, base, ws);
    PopReg(c, A6, -64, m0, base, ws);
  }

  method PopUpper(c: Cluster, ghost m0: Memory, ghost base: Word, ghost ws: seq<Word>)
    requires |ws| == 36 && ws[1] == base && StackPlace(base) && TwoHave(c.x, SP, base)
      && Pushed(m0, c.mem, base, ws, 36)
    requires Popped(c.x, ws, 16)
    modifies c`x
    ensures Popped(c.x, ws, 31)
  {
    PopReg(c, A7, -68, m0, base, ws);
    PopReg(c, S2, -72, m0, base, ws);
    PopReg(c, S3, -76, m0, base, ws);
    PopReg(c, S4, -80, m0, base, ws);
    PopReg(c, S5, -84, m0, base, ws);
    PopReg(c, S6, -88, m0, base, ws);
    PopReg(c, S7, -92, m0, base, ws);
    PopReg(c, S8, -96, m0, base, ws);
    PopReg(c, S9, -100, m0, base, ws);
    PopReg(c, S10, -104, m0, base, ws);
    PopReg(c, S11, -108, m0, base, ws);
    PopReg(c, T3, -112, m0, base, ws);
    PopReg(c, T4, -116, m0, base, ws);
    PopReg(c, T5, -120, m0, base, ws);
    PopReg(c, T6, -124, m0, base, ws);
  }

  /** The first instructions: room on the stack, and a4 and a5 voted on the way through it. In between the
      two registers address a private acknowledge register of each core, which is no access to memory. */
  method Enter(c: Cluster, acknowledge: Word, ghost s: Word)
    requires TwoHave(c.x, SP, s) && s % 4 == 0 && s >= 160
    modifies c`x, c`mem
    ensures TwoHave(c.x, SP, s - 16)
    ensures c.x == EnteredRegs(old(c.x))
    ensures Load(c.mem, s - 8) == Voted(old(c.x), A5)
    ensures SameOutside(old(c.mem), c.mem, s - 16, s)
  {
    ghost var x0 := c.x;
    EnterRoom(c, s);
    ghost var y := c.x;
    EnterStore(c, s - 16);
    c.Li(A4, 1);
    c.Li(A5, acknowledge);
    EnterLoad(c, s - 16);
    Overwrites(y, 1, acknowledge, Voted(x0, A4), Voted(x0, A5));
  }

  method EnterRoom(c: Cluster, ghost s: Word)
    requires TwoHave(c.x, SP, s) && s >= 160
    modifies c`x
    ensures TwoHave(c.x, SP, s - 16) && c.x == RoomRegs(old(c.x))
    ensures Voted(c.x, A4) == Voted(old(c.x), A4) && Voted(c.x, A5) == Voted(old(c.x), A5)
  {
    c.Addi(SP, SP, -16);
  }

  method EnterStore(c: Cluster, ghost base: Word)
    requires TwoHave(c.x, SP, base) && base % 4 == 0 && InRange(base as int + 16)
    modifies c`mem
    ensures Load(c.mem, base + 12) == Voted(c.x, A4) && Load(c.mem, base + 8) == Voted(c.x, A5)
    ensures SameOutside(old(c.mem), c.mem, base, base + 16)
  {
    Store(c, A4, 12, base);
    Store(c, A5, 8, base);
  }

  method EnterLoad(c: Cluster, ghost base: Word)
    requires TwoHave(c.x, SP, base) && base % 4 == 0 && InRange(base as int + 16)
    modifies c`x
    ensures var v, w := Load(c.mem, base + 12), Load(c.mem, base + 8);
      c.x == Set(Set(old(c.x), A4, v, v, v), A5, w, w, w)
  {
    Fetch(c, A4, 12, base);
    Fetch(c, A5, 8, base);
  }

  lemma {:induction false} Overwrites(y: Three<Regs>, a: Word, b: Word, v: Word, w: Word)
    ensures Set(Set(Set(Set(y, A4, a, a, a), A5, b, b, b), A4, v, v, v), A5, w, w, w)
      == Set(Set(y, A4, v, v, v), A5, w, w, w)
  {
    var l, r := Set(Set(Set(Set(y, A4, a, a, a), A5, b, b, b), A4, v, v, v), A5, w, w, w),
      Set(Set(y, A4, v, v, v), A5, w, w, w);
    assert l.h0 == r.h0 && l.h1 == r.h1 && l.h2 == r.h2;
  }

  function RoomRegs(x: Three<Regs>): Three<Regs> {
    Set(x, SP, Wrap(x.h0[SP] as int - 16), Wrap(x.h1[SP] as int - 16), Wrap(x.h2[SP] as int - 16))
  }

  function EnteredRegs(x: Three<Regs>): Three<Regs> {
    var a4, a5 := Voted(x, A4), Voted(x, A5);
    Set(Set(RoomRegs(x), A4, a4, a4, a4), A5, a5, a5, a5)
  }

  /** What the repair promises: every register and control register of every core is the majority of the
      three it had, and memory at and above the interrupted stack pointer is untouched. */
  ghost predicate Healed(x: Three<Regs>, csr: Three<Csrs>, m: Memory, x': Three<Regs>, csr': Three<Csrs>, m': Memory) {
    && (forall h: Hart, i: Dest :: x'.At(h)[i] == Voted(x, i))
    && (forall h: Hart, k: CsrName | k != DPC :: csr'.At(h)[k] == VotedCsr(csr, k))
    && SameOutside(m, m', Voted(x, SP) - 160, Voted(x, SP))
  }

  /** The words that the handler will push, when it has just entered. */
  ghost function WantedOf(x: Three<Regs>, csr: Three<Csrs>): (ws: seq<Word>)
    ensures Wanted(ws, x, csr)
  {
    seq(31, i requires 0 <= i < 31 => Voted(x, i + 1)) + seq(5, k requires 0 <= k < 5 => VotedCsr(csr, k))
  }

  method HandlerTmrRecoverySync(c: Cluster, acknowledge: Word, ghost s: Word)
    requires TwoHave(c.x, SP, s) && s % 4 == 0 && s >= 160
    modifies c`x, c`csr, c`mem
    ensures Healed(old(c.x), old(c.csr), old(c.mem), c.x, c.csr, c.mem)
  {
    ghost var x0, m0 := c.x, c.mem;
    Enter(c, acknowledge, s);
    ghost var m1, ws := c.mem, WantedOf(c.x, c.csr);
    EnteredWords(x0, s, c.csr, ws);
    Transfer(c, s - 16, ws);
    Leave(c, acknowledge, s, m1, ws);
    Heal(x0, c.x, s, m0, m1, c.mem, ws);
  }

  /** Push everything, pop everything. */
  method Transfer(c: Cluster, ghost base: Word, ghost ws: seq<Word>)
    requires StackPlace(base) && TwoHave(c.x, SP, base) && Wanted(ws, c.x, c.csr) && ws[1] == base
    modifies c`x, c`csr, c`mem
    ensures Popped(c.x, ws, 31)
    ensures forall h: Hart, k: CsrName | k != DPC :: c.csr.At(h)[k] == VotedCsr(old(c.csr), k)
    ensures SameOutside(old(c.mem), c.mem, base - 144, base)
  {
    ghost var m0 := c.mem;
    PushedMeans(m0, c.mem, base, ws, 0);
    PushLower(c, m0, base, ws);
    PushUpper(c, m0, base, ws);
    PushCsrs(c, m0, base, ws);
    PopCsrs(c, m0, base, ws);
    PopLower(c, m0, base, ws);
    PopUpper(c, m0, base, ws);
    PushedMeans(m0, c.mem, base, ws, 36);
  }

  /** Entering has changed no vote but that of sp. */
  lemma {:induction false} EnteredWords(x: Three<Regs>, s: Word, csr: Three<Csrs>, ws: seq<Word>)
    requires TwoHave(x, SP, s) && s >= 160 && Wanted(ws, EnteredRegs(x), csr)
    ensures ws[1] == s - 16 && Voted(x, SP) == s
    ensures forall i: Dest | i != SP :: ws[i - 1] == Voted(x, i)
  {
    var y := EnteredRegs(x);
    TwoOfThree(x.h0[SP], x.h1[SP], x.h2[SP], s);
    assert ws[SP - 1] == Voted(y, SP);
    TwoOfThree(y.h0[SP], y.h1[SP], y.h2[SP], s - 16);
    TwoWordsWin(Voted(x, A4), 0);
    TwoOfThree(y.h0[A4], y.h1[A4], y.h2[A4], Voted(x, A4));
    TwoOfThree(y.h0[A5], y.h1[A5], y.h2[A5], Voted(x, A5));
    forall i: Dest | i != SP ensures ws[i - 1] == Voted(x, i) {
      assert ws[i - 1] == Voted(y, i);
    }
  }

  /** The last instructions: a5 addresses the acknowledge register once more, and comes back from the stack. */
  method Leave(c: Cluster, acknowledge: Word, ghost s: Word, ghost m1: Memory, ghost ws: seq<Word>)
    requires |ws| == 36 && s >= 160 && s % 4 == 0 && ws[1] == s - 16 && Popped(c.x, ws, 31)
    requires Load(m1, s - 8) == ws[A5 - 1] && SameOutside(m1, c.mem, s - 160, s - 16)
    modifies c`x
    ensures forall h: Hart, i: Dest | i != SP :: c.x.At(h)[i] == ws[i - 1]
    ensures forall h: Hart :: c.x.At(h)[SP] == s
  {
    PoppedMeans(c.x, ws, 31);
    assert TwoHave(c.x, SP, s - 16);
    c.Li(A5, acknowledge);
    Fetch(c, A5, 8, s - 16);
    c.Addi(SP, SP, 16);
  }

  lemma {:induction false} Heal(x: Three<Regs>, x': Three<Regs>, s: Word, m0: Memory, m1: Memory, m2: Memory,
      ws: seq<Word>)
    requires |ws| == 36 && s >= 160 && Voted(x, SP) == s
    requires forall i: Dest | i != SP :: ws[i - 1] == Voted(x, i)
    requires forall h: Hart, i: Dest | i != SP :: x'.At(h)[i] == ws[i - 1]
    requires forall h: Hart :: x'.At(h)[SP] == s
    requires SameOutside(m0, m1, s - 16, s) && SameOutside(m1, m2, s - 160, s - 16)
    ensures forall h: Hart, i: Dest :: x'.At(h)[i] == Voted(x, i)
    ensures SameOutside(m0, m2, Voted(x, SP) - 160, Voted(x, SP))
  {
  }
}
