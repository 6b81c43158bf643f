/** Checkpoint and rollback: Store_Checkpoint copies the stack and the context of a core to a safe place,
    and the boot ROM's halt_boot brings them back. */
module Checkpoint {
  import opened Locks
  import opened Processor

  // ---------------------------------------------------------------- the layout

  /** The wrapper's registers that hold the two addresses and the rollback request. */
  const SAFE_WRAPPER: Word := 0x20000000
  const SAFE_COPY_ADDRESS := 0x28
  const DMR_REC := 0x34
  const INITIAL_STACK_ADDR := 0x38

  const FRAME_BYTES := 148

  function CopyAddress(m: Memory): Word {
    Load(m, SAFE_WRAPPER + SAFE_COPY_ADDRESS)
  }

  function InitialStack(m: Memory): Word {
    Load(m, SAFE_WRAPPER + INITIAL_STACK_ADDR)
  }

  /** The saved words: five control registers, x1 to x31, and where to resume. */
  function FrameOf(x: Regs, csr: Csrs, pc: Word): (f: seq<Word>)
    ensures |f| == 37 && f[36] == pc
    ensures forall k | 0 <= k < 5 :: f[k] == csr[k]
    ensures forall i | 0 < i < 32 :: f[i + 4] == x[i]
  {
    csr[..5] + x[1..] + [pc]
  }

  /** The size of the copy area: the frame, and behind it the stack from sp up to and including the word at
      top, unless the stack is empty. */
  function CopyBytes(sp: Word, top: Word): int {
    if sp == top then FRAME_BYTES else FRAME_BYTES + (top - sp) + 4
  }

  /** A word-aligned stack that grows down from top, and a copy area beside it; neither of them contains the
      wrapper's registers. scratch is the room used below sp. */
  predicate Layout(sp: Word, top: Word, copy: Word, scratch: nat) {
    && sp % 4 == 0 && top % 4 == 0 && copy % 4 == 0
    && scratch <= sp <= top && InRange(top + 4) && InRange(copy + CopyBytes(sp, top))
    && Apart(copy, CopyBytes(sp, top), sp - scratch, top + 4 - sp + scratch)
    && Apart(copy, CopyBytes(sp, top), SAFE_WRAPPER, 0x40)
    && Apart(sp - scratch, top + 4 - sp + scratch, SAFE_WRAPPER, 0x40)
  }

  /** How many words above the one at sp the stack has. */
  function Words(sp: Word, top: Word): int {
    (top - sp) / 4
  }

  /** What the copy loops need, to copy one word more than words. */
  predicate LoopFits(from: int, dest: int, words: nat) {
    && from % 4 == 0 && dest % 4 == 0
    && InRange(from + 4 * words + 4) && InRange(dest + 4 * words + 4)
    && Apart(from, 4 * words + 4, dest, 4 * words + 4)
  }

  lemma {:induction false} LayoutFits(sp: Word, top: Word, copy: Word, scratch: nat)
    requires Layout(sp, top, copy, scratch) && sp != top
    ensures Words(sp, top) > 0 && top - sp == 4 * Words(sp, top)
    ensures LoopFits(sp, copy + FRAME_BYTES, Words(sp, top)) && LoopFits(copy + FRAME_BYTES, sp, Words(sp, top))
    ensures FramePlace(copy) && Apart(copy, FRAME_BYTES, sp, top + 4 - sp)
  {
  }

  // ---------------------------------------------------------------- Store_Checkpoint

  /** The five registers that Store_Checkpoint borrows, in the words below sp. */
  predicate Spilled(m: Memory, sp: Word, x: Regs)
    requires sp >= 28
  {
    && Load(m, sp - 4) == x[T2] && Load(m, sp - 8) == x[T3] && Load(m, sp - 12) == x[T4]
    && Load(m, sp - 16) == x[T5] && Load(m, sp - 20) == x[T6]
  }

  method Spill(c: Core)
    requires c.x[SP] >= 28 && c.x[SP] % 4 == 0
    modifies c`x, c`mem
    ensures c.x == old(c.x)[SP := old(c.x)[SP] - 28]
    ensures Spilled(c.mem, old(c.x)[SP], old(c.x))
    ensures SameOutside(old(c.mem), c.mem, old(c.x)[SP] - 28, old(c.x)[SP])
  {
    c.Addi(SP, SP, -28);
    c.Sw(T2, 24, SP);
    c.Sw(T3, 20, SP);
    c.Sw(T4, 16, SP);
    c.Sw(T5, 12, SP);
    c.Sw(T6, 8, SP);
  }

  /** Loads the two addresses, and puts sp back and into t2. */
  method LoadAddresses(c: Core)
    requires InRange(c.R(SP) + 29)
    modifies c`x
    ensures c.x == old(c.x)[T4 := InitialStack(c.mem)][T5 := CopyAddress(c.mem)][SP := old(c.x)[SP]
      + 28][T2 := old(c.x)[SP] + 28]
  {
    c.Li(T5, SAFE_WRAPPER);
    c.Lw(T4, INITIAL_STACK_ADDR, T5);
    c.Lw(T5, SAFE_COPY_ADDRESS, T5);
    c.Addi(SP, SP, 28);
    c.Addi(T2, SP, 0);
  }

  /** The first n words at from have been copied to dest, and nothing else has changed. */
  ghost predicate Copied(m0: Memory, m: Memory, from: Word, dest: Word, n: nat) {
    && (forall k | 0 <= k < n :: WordAt(m, dest, k) == WordAt(m0, from, k))
    && SameOutside(m0, m, dest, dest + 4 * n)
  }

  /** One load and one store in terms of CopyOne. */
  lemma {:induction false} CopyOneAt(m0: Memory, m: Memory, from: Word, dest: Word, n: nat, words: nat, p: int, q: int)
    requires LoopFits(from, dest, words) && n <= words && Copied(m0, m, from, dest, n)
    requires p == from as int + 4 * n && q == dest as int + 4 * n
    ensures 0 <= p < 0x1_0000_0000 && p % 4 == 0 && 0 <= q < 0x1_0000_0000 && q % 4 == 0
    ensures Copied(m0, m[q := Load(m, p)], from, dest, n + 1)
  {
    StaysAligned(from, n, p);
    StaysAligned(dest, n, q);
    CopyOne(m0, m, from, dest, n);
    assert Wrap(q) == q && WordAt(m, from, n) == Load(m, p);
  }

  lemma {:induction false} StaysAligned(from: int, n: nat, p: int)
    requires from % 4 == 0 && p == from + 4 * n
    ensures p % 4 == 0
  {
  }

  lemma {:induction false} CopyOne(m0: Memory, m: Memory, from: Word, dest: Word, n: nat)
    requires Copied(m0, m, from, dest, n)
    requires InRange(from + 4 * n + 4) && InRange(dest + 4 * n + 4)
    requires Apart(from, 4 * n + 4, dest, 4 * n + 4)
    ensures Copied(m0, m[Wrap(dest + 4 * n) := WordAt(m, from, n)], from, dest, n + 1)
  {
    assert WordAt(m, from, n) == WordAt(m0, from, n);
  }

  /** From the label _checkpoint_store_stack: both pointers move up until t2 meets t4. It is the only exit, and
      it is reached because the distance is a multiple of four. */
  method CopyStack(c: Core, ghost words: nat)
    requires LoopFits(c.R(T2), c.R(T3), words) && c.R(T4) == c.R(T2) + 4 * words
    modifies c`x, c`mem
    ensures SameBut(old(c.x), c.x, {T2, T3, T6})
    ensures Copied(old(c.mem), c.mem, old(c.x)[T2], old(c.x)[T3], words + 1)
  {
    ghost var n, x0, m0 := 0, c.x, c.mem;
    while true
      invariant Copying(x0, c.x, n, words) && Copied(m0, c.mem, x0[T2], x0[T3], n)
      decreases words - n
    {
      CopyWord(c, m0, x0, n, words);
      if c.x[T2] == c.x[T4] {
        break;
      }
      MoveUp(c, x0, n, words);
      n := n + 1;
    }
  }

  /** Both pointers have moved by n of words words, and only scratch registers have changed. */
  ghost predicate Copying(x0: Regs, x: Regs, n: nat, words: nat) {
    && n <= words && SameBut(x0, x, {T2, T3, T6})
    && LoopFits(x0[T2], x0[T3], words) && x0[T4] as int == x0[T2] as int + 4 * words
    && x[T2] as int == x0[T2] as int + 4 * n && x[T3] as int == x0[T3] as int + 4 * n
  }

  method MoveUp(c: Core, ghost x0: Regs, ghost n: nat, ghost words: nat)
    requires Copying(x0, c.x, n, words) && n < words
    modifies c`x
    ensures Copying(x0, c.x, n + 1, words)
  {
    c.Addi(T3, T3, 4);
    c.Addi(T2, T2, 4);
  }

  /** All registers but those in changed are as before. */
  ghost predicate SameBut(x: Regs, x': Regs, changed: set<Reg>) {
    forall i: Reg | i !in changed :: x'[i] == x[i]
  }

  method CopyWord(c: Core, ghost m0: Memory, ghost x0: Regs, ghost n: nat, ghost words: nat)
    requires Copying(x0, c.x, n, words) && Copied(m0, c.mem, x0[T2], x0[T3], n)
    modifies c`x, c`mem
    ensures Copying(x0, c.x, n, words) && c.x == old(c.x)[T6 := c.x[T6]]
    ensures Copied(m0, c.mem, x0[T2], x0[T3], n + 1)
  {
    CopyOneAt(m0, c.mem, x0[T2], x0[T3], n, words, c.R(T2), c.R(T3));
    c.Lw(T6, 0, T2);
    c.Sw(T6, 0, T3);
  }

  /** The first n words of the frame are saved, and only the frame's place has changed since m0: a fact that
      Unlock releases where it is needed. */
  ghost predicate Saving(m0: Memory, m: Memory, copy: Word, frame: seq<Word>, n: nat)
    requires n <= |frame| == 37
  {
    forall k: int :: Unlock(k) ==> Holds(m, copy, frame, n) && SameOutside(m0, m, copy, copy + FRAME_BYTES)
  }

  lemma {:induction false} SavingMeans(m0: Memory, m: Memory, copy: Word, frame: seq<Word>, n: nat)
    requires n <= |frame| == 37
    ensures Saving(m0, m, copy, frame, n) <==> Holds(m, copy, frame, n) && SameOutside(m0, m, copy, copy + FRAME_BYTES)
  {
    assert Unlock(0);
  }

  predicate FramePlace(copy: Word) {
    copy % 4 == 0 && InRange(copy + FRAME_BYTES)
  }

  /** The next word of the frame: a store relative to t5. */
  method SaveWord(c: Core, rs: Reg, offset: int, ghost m0: Memory, ghost frame: seq<Word>, ghost n: nat)
    requires |frame| == 37 && n < 37 && offset == 4 * n && FramePlace(c.x[T5])
    requires c.x[rs] == frame[n] && Saving(m0, c.mem, c.x[T5], frame, n)
    modifies c`mem
    ensures Saving(m0, c.mem, c.x[T5], frame, n + 1)
    ensures n < 36 ==> WordAt(c.mem, c.x[T5], 36) == old(WordAt(c.mem, c.x[T5], 36))
  {
    SavingMeans(m0, c.mem, c.x[T5], frame, n);
    c.Sw(rs, offset, T5);
    SavingMeans(m0, c.mem, c.x[T5], frame, n + 1);
  }

  method SaveCsrs(c: Core, ghost m0: Memory, ghost frame: seq<Word>)
    requires |frame| == 37 && FramePlace(c.x[T5]) && Saving(m0, c.mem, c.x[T5], frame, 0)
    requires forall k | 0 <= k < 5 :: frame[k] == c.csr[k]
    modifies c`x, c`mem
    ensures SameBut(old(c.x), c.x, {T6})
    ensures Saving(m0, c.mem, c.x[T5], frame, 5)
  {
    c.Csrr(T6, MSTATUS);
    SaveWord(c, T6, 0, m0, frame, 0);
    c.Csrr(T6, MIE);
    SaveWord(c, T6, 4, m0, frame, 1);
    c.Csrr(T6, MTVEC);
    SaveWord(c, T6, 8, m0, frame, 2);
    c.Csrr(T6, MEPC);
    SaveWord(c, T6, 12, m0, frame, 3);
    c.Csrr(T6, MTVAL);
    SaveWord(c, T6, 16, m0, frame, 4);
  }

  /** The frame wants the registers in x. */
  ghost predicate FrameRegs(frame: seq<Word>, x: Regs) {
    |frame| == 37 && forall i: Dest :: frame[i + 4] == x[i]
  }

  /** A register that holds what the frame wants of it. */
  method SaveReg(c: Core, rs: Dest, offset: int, ghost m0: Memory, ghost frame: seq<Word>, ghost x0: Regs)
    requires FrameRegs(frame, x0) && offset == 4 * rs + 16 && FramePlace(c.x[T5])
    requires c.x[rs] == x0[rs] && Saving(m0, c.mem, c.x[T5], frame, rs + 4)
    modifies c`mem
    ensures Saving(m0, c.mem, c.x[T5], frame, rs + 5)
  {
    SaveWord(c, rs, offset, m0, frame, rs + 4);
  }

  /** x1 to x6: sp is stored as it was on entry. */
  method SaveFirst(c: Core, ghost m0: Memory, ghost frame: seq<Word>, ghost x0: Regs)
    requires FrameRegs(frame, x0) && FramePlace(c.x[T5]) && Saving(m0, c.mem, c.x[T5], frame, 5) && c.x[SP] >= 28
    requires SameBut(x0, c.x, {T2, T3, T4, T5, T6})
    modifies c`x, c`mem
    ensures c.x == old(c.x)[SP := old(c.x)[SP] - 28]
    ensures Saving(m0, c.mem, c.x[T5], frame, 11)
  {
    SaveReg(c, RA, 20, m0, frame, x0);
    SaveReg(c, SP, 24, m0, frame, x0);
    c.Addi(SP, SP, -28);
    SaveReg(c, GP, 28, m0, frame, x0);
    SaveReg(c, TP, 32, m0, frame, x0);
    SaveReg(c, T0, 36, m0, frame, x0);
    SaveReg(c, T1, 40, m0, frame, x0);
  }

  /** x8 to x17. */
  method SaveMiddle(c: Core, ghost m0: Memory, ghost frame: seq<Word>, ghost x0: Regs)
    requires FrameRegs(frame, x0) && FramePlace(c.x[T5]) && Saving(m0, c.mem, c.x[T5], frame, 12)
    requires forall i: Reg | 8 <= i < 28 :: c.x[i] == x0[i]
    modifies c`mem
    ensures Saving(m0, c.mem, c.x[T5], frame, 22)
  {
    SaveReg(c, S0, 48, m0, frame, x0);
    SaveReg(c, S1, 52, m0, frame, x0);
    SaveReg(c, A0, 56, m0, frame, x0);
    SaveReg(c, A1, 60, m0, frame, x0);
    SaveReg(c, A2, 64, m0, frame, x0);
    SaveReg(c, A3, 68, m0, frame, x0);
    SaveReg(c, A4, 72, m0, frame, x0);
    SaveReg(c, A5, 76, m0, frame, x0);
    SaveReg(c, A6, 80, m0, frame, x0);
    SaveReg(c, A7, 84, m0, frame, x0);
  }

  /** x18 to x27. */
  method SaveLast(c: Core, ghost m0: Memory, ghost frame: seq<Word>, ghost x0: Regs)
    requires FrameRegs(frame, x0) && FramePlace(c.x[T5]) && Saving(m0, c.mem, c.x[T5], frame, 22)
    requires forall i: Reg | 8 <= i < 28 :: c.x[i] == x0[i]
    modifies c`mem
    ensures Saving(m0, c.mem, c.x[T5], frame, 32)
  {
    SaveReg(c, S2, 88, m0, frame, x0);
    SaveReg(c, S3, 92, m0, frame, x0);
    SaveReg(c, S4, 96, m0, frame, x0);
    SaveReg(c, S5, 100, m0, frame, x0);
    SaveReg(c, S6, 104, m0, frame, x0);
    SaveReg(c, S7, 108, m0, frame, x0);
    SaveReg(c, S8, 112, m0, frame, x0);
    SaveReg(c, S9, 116, m0, frame, x0);
    SaveReg(c, S10, 120, m0, frame, x0);
    SaveReg(c, S11, 124, m0, frame, x0);
  }

  /** What the context is saved under: the borrowed registers below sp0, away from the frame. */
  ghost predicate Borrowed(m0: Memory, copy: Word, sp0: Word, x0: Regs) {
    sp0 >= 28 && sp0 % 4 == 0 && Spilled(m0, sp0, x0) && FramePlace(copy) && Apart(copy, FRAME_BYTES, sp0 - 28, 28)
  }

  /** A load relative to sp, from the words below the old sp. */
  method Reload(c: Core, rd: Dest, offset: int, ghost m0: Memory, ghost copy: Word, ghost frame: seq<Word>,
      ghost n: nat, ghost sp0: Word, ghost x0: Regs)
    requires |frame| == 37 && n <= 37 && Borrowed(m0, copy, sp0, x0) && Saving(m0, c.mem, copy, frame, n)
    requires 0 <= offset < 28 && offset % 4 == 0 && c.R(SP) == sp0 as int - 28
    modifies c`x
    ensures c.x == old(c.x)[rd := Load(m0, Wrap(sp0 as int - 28 + offset))]
  {
    SavingMeans(m0, c.mem, copy, frame, n);
    c.Lw(rd, offset, SP);
  }

  /** x7, which was borrowed. */
  method SaveT2(c: Core, ghost m0: Memory, ghost copy: Word, ghost frame: seq<Word>, ghost sp0: Word, ghost x0: Regs)
    requires FrameRegs(frame, x0) && Borrowed(m0, copy, sp0, x0) && Saving(m0, c.mem, copy, frame, 11)
    requires c.x[T5] == copy && c.R(SP) == sp0 as int - 28
    modifies c`x, c`mem
    ensures c.x == old(c.x)[T2 := x0[T2]] && Saving(m0, c.mem, copy, frame, 12)
  {
    Reload(c, T2, 24, m0, copy, frame, 11, sp0, x0);
    SaveReg(c, T2, 44, m0, frame, x0);
  }

  /** The other borrowed registers, and the address to resume at. */
  method SaveBorrowed(c: Core, exit: Word, ghost m0: Memory, ghost copy: Word, ghost frame: seq<Word>, ghost sp0: Word,
      ghost x0: Regs)
    requires FrameRegs(frame, x0) && frame[36] == exit && Borrowed(m0, copy, sp0, x0)
      && Saving(m0, c.mem, copy, frame, 32)
    requires c.x[T5] == copy && c.R(SP) == sp0 as int - 28
    modifies c`x, c`mem
    ensures c.x == old(c.x)[T3 := x0[T3]][T4 := x0[T4]][T6 := x0[T6]] && Saving(m0, c.mem, copy, frame, 37)
  {
    Reload(c, T3, 20, m0, copy, frame, 32, sp0, x0);
    SaveReg(c, T3, 128, m0, frame, x0);
    Reload(c, T4, 16, m0, copy, frame, 33, sp0, x0);
    SaveReg(c, T4, 132, m0, frame, x0);
    SaveExit(c, exit, m0, frame);
    Reload(c, T6, 12, m0, copy, frame, 34, sp0, x0);
    SaveWord(c, T6, 136, m0, frame, 34);
    Reload(c, T6, 8, m0, copy, frame, 35, sp0, x0);
    SaveWord(c, T6, 140, m0, frame, 35);
    SavingMeans(m0, c.mem, copy, frame, 36);
    SavingMeans(m0, c.mem, copy, frame, 37);
  }

  /** The last word of the frame is stored before x30 and x31 are. */
  method SaveExit(c: Core, exit: Word, ghost m0: Memory, ghost frame: seq<Word>)
    requires |frame| == 37 && frame[36] == exit && FramePlace(c.x[T5]) && Saving(m0, c.mem, c.x[T5], frame, 34)
    modifies c`x, c`mem
    ensures c.x == old(c.x)[T6 := exit] && Saving(m0, c.mem, c.x[T5], frame, 34)
    ensures WordAt(c.mem, c.x[T5], 36) == frame[36]
  {
    SavingMeans(m0, c.mem, c.x[T5], frame, 34);
    c.Li(T6, exit);
    c.Sw(T6, 144, T5);
    SavingMeans(m0, c.mem, c.x[T5], frame, 34);
  }

  method ReloadBorrowed(c: Core, ghost m0: Memory, ghost copy: Word, ghost frame: seq<Word>, ghost sp0: Word,
      ghost x0: Regs)
    requires |frame| == 37 && Borrowed(m0, copy, sp0, x0) && Saving(m0, c.mem, copy, frame, 37)
      && c.R(SP) == sp0 as int - 28
    modifies c`x
    ensures c.x == old(c.x)[T2 := x0[T2]][T3 := x0[T3]][T4 := x0[T4]][T5 := x0[T5]][T6 := x0[T6]][SP := sp0]
  {
    Reload(c, T2, 24, m0, copy, frame, 37, sp0, x0);
    Reload(c, T3, 20, m0, copy, frame, 37, sp0, x0);
    Reload(c, T4, 16, m0, copy, frame, 37, sp0, x0);
    Reload(c, T5, 12, m0, copy, frame, 37, sp0, x0);
    Reload(c, T6, 8, m0, copy, frame, 37, sp0, x0);
    c.Addi(SP, SP, 28);
  }

  /** From the label _checkpoint_store_reg to the end: the context, borrowed registers included, goes to the
      frame, and every register is as it was. */
  method SaveContext(c: Core, exit: Word, ghost x0: Regs)
    requires x0[SP] == c.x[SP] && SameBut(x0, c.x, {T2, T3, T4, T5, T6}) && Borrowed(c.mem, c.x[T5], x0[SP], x0)
    modifies c`x, c`mem
    ensures c.x == x0
    ensures Holds(c.mem, old(c.x)[T5], FrameOf(x0, c.csr, exit), 37)
    ensures SameOutside(old(c.mem), c.mem, old(c.x)[T5], old(c.x)[T5] + FRAME_BYTES)
  {
    ghost var m0, copy, frame := c.mem, c.x[T5], FrameOf(x0, c.csr, exit);
    SavingMeans(m0, c.mem, copy, frame, 0);
    SaveCsrs(c, m0, frame);
    SaveFirst(c, m0, frame, x0);
    SaveT2(c, m0, copy, frame, x0[SP], x0);
    SaveMiddle(c, m0, frame, x0);
    SaveLast(c, m0, frame, x0);
    SaveBorrowed(c, exit, m0, copy, frame, x0[SP], x0);
    ReloadBorrowed(c, m0, copy, frame, x0[SP], x0);
    SavingMeans(m0, c.mem, copy, frame, 37);
  }

  /** The state of one core with its memory. */
  datatype State = State(x: Regs, csr: Csrs, mem: Memory)

  /** s' is s with a checkpoint of itself in the copy area. */
  ghost predicate Checkpointed(s: State, s': State, exit: Word) {
    var sp, top, copy := s.x[SP], InitialStack(s.mem), CopyAddress(s.mem);
    && s'.x == s.x && s'.csr == s.csr
    && Holds(s'.mem, copy, FrameOf(s.x, s.csr, exit), 37)
    && StackStored(sp, top, copy, s.mem, s'.mem)
  }

  method StoreCheckpoint(c: Core, exit: Word)
    requires Layout(c.x[SP], InitialStack(c.mem), CopyAddress(c.mem), 28)
    modifies c`x, c`mem
    ensures Checkpointed(State(old(c.x), old(c.csr), old(c.mem)), State(c.x, c.csr, c.mem), exit)
  {
    ghost var x0, m0 := c.x, c.mem;
    Begin(c);
    StoreStack(c, x0, m0);
    ghost var m1 := c.mem;
    LayoutBorrows(m1, x0[SP], InitialStack(m0), CopyAddress(m0), x0);
    SaveContext(c, exit, x0);
    ContextLast(State(x0, c.csr, m0), m1, c.mem, exit);
  }

  /** Up to the stack copy: registers borrowed, addresses loaded. */
  method Begin(c: Core)
    requires Layout(c.x[SP], InitialStack(c.mem), CopyAddress(c.mem), 28)
    modifies c`x, c`mem
    ensures Begun(old(c.x), old(c.mem), c.x, c.mem)
  {
    Spill(c);
    LoadAddresses(c);
  }

  ghost predicate Begun(x0: Regs, m0: Memory, x: Regs, m: Memory) {
    var sp, top, copy := x0[SP], InitialStack(m0), CopyAddress(m0);
    && sp >= 28
    && Spilled(m, sp, x0) && SameOutside(m0, m, sp - 28, sp)
    && x == x0[T4 := top][T5 := copy][SP := sp][T2 := sp]
  }

  /** The stack is in its place in the copy, and nothing else outside the copy and the borrowed words has
      changed since m0. */
  ghost predicate StackStored(sp: Word, top: Word, copy: Word, m0: Memory, m: Memory) {
    && (sp != top ==> forall k | 0 <= k <= Words(sp, top) :: WordAt(m, copy + FRAME_BYTES, k) == WordAt(m0, sp, k))
    && (forall a: Word | (a < sp - 28 || sp <= a) && (a < copy || copy + CopyBytes(sp, top) <= a) ::
      Load(m, a) == Load(m0, a))
  }

  lemma {:induction false} ContextLast(s: State, m1: Memory, m2: Memory, exit: Word)
    requires var sp, top, copy := s.x[SP], InitialStack(s.mem), CopyAddress(s.mem);
      && Layout(sp, top, copy, 28) && StackStored(sp, top, copy, s.mem, m1)
      && Holds(m2, copy, FrameOf(s.x, s.csr, exit), 37) && SameOutside(m1, m2, copy, copy + FRAME_BYTES)
    ensures Checkpointed(s, s.(mem := m2), exit)
  {
    var sp, top, copy := s.x[SP], InitialStack(s.mem), CopyAddress(s.mem);
    if sp != top {
      forall k | 0 <= k <= Words(sp, top) ensures WordAt(m2, copy + FRAME_BYTES, k) == WordAt(s.mem, sp, k) {
        assert WordAt(m2, copy + FRAME_BYTES, k) == WordAt(m1, copy + FRAME_BYTES, k);
      }
    }
  }

  method StoreStack(c: Core, ghost x0: Regs, ghost m0: Memory)
    requires Layout(x0[SP], InitialStack(m0), CopyAddress(m0), 28) && Begun(x0, m0, c.x, c.mem)
    modifies c`x, c`mem
    ensures SameBut(x0, c.x, {T2, T3, T4, T5, T6}) && c.x[T5] == CopyAddress(m0)
    ensures x0[SP] >= 28 && Spilled(c.mem, x0[SP], x0)
    ensures StackStored(x0[SP], InitialStack(m0), CopyAddress(m0), m0, c.mem)
  {
    ghost var m1, sp, top, copy := c.mem, x0[SP], InitialStack(m0), CopyAddress(m0);
    if c.x[T2] != c.x[T4] {
      LayoutFits(sp, top, copy, 28);
      CopyStackTo(c, sp, copy, Words(sp, top));
      StackCopied(x0, sp, top, copy, m0, m1, c.mem);
    } else {
      assert StackStored(sp, top, copy, m0, c.mem);
    }
  }

  lemma {:induction false} LayoutBorrows(m: Memory, sp: Word, top: Word, copy: Word, x0: Regs)
    requires Layout(sp, top, copy, 28) && Spilled(m, sp, x0)
    ensures Borrowed(m, copy, sp, x0)
  {
  }

  /** The copy of words + 1 words from t2 on, up to the one at t4, behind the frame at t5. */
  method CopyStackTo(c: Core, ghost sp: Word, ghost copy: Word, ghost words: nat)
    requires c.x[T2] == sp && c.x[T5] == copy && c.R(T4) == sp as int + 4 * words
    requires LoopFits(sp, copy + FRAME_BYTES, words)
    modifies c`x, c`mem
    ensures SameBut(old(c.x), c.x, {T2, T3, T6})
    ensures Copied(old(c.mem), c.mem, sp, copy + FRAME_BYTES, words + 1)
  {
    c.Addi(T3, T5, 148);
    CopyStack(c, words);
  }

  lemma {:induction false} StackCopied(x0: Regs, sp: Word, top: Word, copy: Word, m0: Memory, m1: Memory, m2: Memory)
    requires Layout(sp, top, copy, 28) && sp != top && Spilled(m1, sp, x0) && SameOutside(m0, m1, sp - 28, sp)
    requires Copied(m1, m2, sp, copy + FRAME_BYTES, Words(sp, top) + 1)
    ensures StackStored(sp, top, copy, m0, m2) && Spilled(m2, sp, x0)
  {
  }

  // ---------------------------------------------------------------- halt_boot

  /** Where the saved stack pointer is. */
  function SavedSp(m: Memory): Word {
    WordAt(m, CopyAddress(m), 6)
  }

  predicate RollsBack(m: Memory) {
    Load(m, SAFE_WRAPPER + DMR_REC) != 0
  }

  method RestoreCsr(c: Core, name: CsrName, offset: int)
    requires 0 <= offset <= 144 && offset % 4 == 0 && FramePlace(c.x[T5])
    modifies c`x, c`csr
    ensures c.csr == old(c.csr)[name := WordAt(c.mem, c.x[T5], offset / 4)]
    ensures c.x == old(c.x)[T6 := c.x[T6]]
  {
    c.Lw(T6, offset, T5);
    c.Csrw(name, T6);
  }

  method RestoreCsrs(c: Core)
    requires FramePlace(c.x[T5])
    modifies c`x, c`csr
    ensures c.x == old(c.x)[T6 := c.x[T6]]
    ensures |c.csr| == 6 && c.csr[DPC] == old(c.csr)[DPC]
    ensures forall k: CsrName | k != DPC :: c.csr[k] == WordAt(c.mem, c.x[T5], k)
  {
    RestoreCsr(c, MSTATUS, 0);
    RestoreCsr(c, MIE, 4);
    RestoreCsr(c, MTVEC, 8);
    RestoreCsr(c, MEPC, 12);
    RestoreCsr(c, MTVAL, 16);
  }

  /** x1 to x(n-1) have their saved values: a fact that Unlock releases where it is needed. */
  ghost predicate Loaded(x: Regs, m: Memory, copy: Word, n: nat)
    requires n <= 32
  {
    forall k: int :: Unlock(k) ==> forall i: Dest | i < n :: x[i] == WordAt(m, copy, i + 4)
  }

  lemma {:induction false} LoadedMeans(x: Regs, m: Memory, copy: Word, n: nat)
    requires n <= 32
    ensures Loaded(x, m, copy, n) <==> forall i: Dest | i < n :: x[i] == WordAt(m, copy, i + 4)
  {
    assert Unlock(0);
  }

  /** A load relative to t5, of the next register. */
  method LoadReg(c: Core, rd: Dest, offset: int, ghost copy: Word)
    requires rd < T5 && offset == 4 * rd + 16 && c.x[T5] == copy && FramePlace(copy) && Loaded(c.x, c.mem, copy, rd)
    modifies c`x
    ensures c.x[T5] == copy && Loaded(c.x, c.mem, copy, rd + 1)
    ensures c.x[rd] == WordAt(c.mem, copy, rd + 4)
  {
    LoadedMeans(c.x, c.mem, copy, rd);
    c.Lw(rd, offset, T5);
    LoadedMeans(c.x, c.mem, copy, rd + 1);
  }

  /** The label load_register. */
  method LoadRegisters(c: Core, ghost copy: Word)
    requires c.x[T5] == copy && FramePlace(copy) && Loaded(c.x, c.mem, copy, T0)
    modifies c`x, c`csr
    ensures forall i: Dest :: c.x[i] == WordAt(c.mem, copy, i + 4)
    ensures c.csr == old(c.csr)[DPC := WordAt(c.mem, copy, 36)]
  {
    LoadReg(c, T0, 36, copy);
    LoadReg(c, T1, 40, copy);
    LoadReg(c, T2, 44, copy);
    LoadReg(c, S0, 48, copy);
    LoadReg(c, S1, 52, copy);
    LoadReg(c, A0, 56, copy);
    LoadReg(c, A1, 60, copy);
    LoadReg(c, A2, 64, copy);
    LoadReg(c, A3, 68, copy);
    LoadReg(c, A4, 72, copy);
    LoadReg(c, A5, 76, copy);
    LoadReg(c, A6, 80, copy);
    LoadReg(c, A7, 84, copy);
    LoadUpper(c, copy);
    LoadedMeans(c.x, c.mem, copy, T5);
    LoadLast(c, copy);
  }

  method LoadUpper(c: Core, ghost copy: Word)
    requires c.x[T5] == copy && FramePlace(copy) && Loaded(c.x, c.mem, copy, S2)
    modifies c`x
    ensures c.x[T5] == copy && Loaded(c.x, c.mem, copy, T5)
  {
    LoadReg(c, S2, 88, copy);
    LoadReg(c, S3, 92, copy);
    LoadReg(c, S4, 96, copy);
    LoadReg(c, S5, 100, copy);
    LoadReg(c, S6, 104, copy);
    LoadReg(c, S7, 108, copy);
    LoadReg(c, S8, 112, copy);
    LoadReg(c, S9, 116, copy);
    LoadReg(c, S10, 120, copy);
    LoadReg(c, S11, 124, copy);
    LoadReg(c, T3, 128, copy);
    LoadReg(c, T4, 132, copy);
  }

  method LoadLast(c: Core, ghost copy: Word)
    requires c.x[T5] == copy && FramePlace(copy) && forall i: Dest | i < T5 :: c.x[i] == WordAt(c.mem, copy, i + 4)
    modifies c`x, c`csr
    ensures forall i: Dest :: c.x[i] == WordAt(c.mem, copy, i + 4)
    ensures c.csr == old(c.csr)[DPC := WordAt(c.mem, copy, 36)]
  {
    c.Lw(T6, 144, T5);
    c.Csrw(DPC, T6);
    c.Lw(T6, 140, T5);
    c.Lw(T5, 136, T5);
  }

  /** What halt_boot does, all in terms of the memory that it starts from. */
  ghost predicate Restored(s: State, s': State) {
    var sp, top, copy := SavedSp(s.mem), InitialStack(s.mem), CopyAddress(s.mem);
    && (forall i: Dest :: s'.x[i] == WordAt(s.mem, copy, i + 4))
    && (forall k: CsrName | k != DPC :: s'.csr[k] == WordAt(s.mem, copy, k))
    && s'.csr[DPC] == WordAt(s.mem, copy, 36)
    && (if RollsBack(s.mem) && sp != top then
          && (forall k | 0 <= k <= Words(sp, top) :: WordAt(s'.mem, sp, k) == WordAt(s.mem, copy + FRAME_BYTES, k))
          && SameOutside(s.mem, s'.mem, sp, top + 4)
        else s'.mem == s.mem)
  }

  method HaltBoot(c: Core)
    requires FramePlace(CopyAddress(c.mem))
    requires RollsBack(c.mem) ==> Layout(SavedSp(c.mem), InitialStack(c.mem), CopyAddress(c.mem), 0)
    modifies c`x, c`csr, c`mem
    ensures Restored(State(old(c.x), old(c.csr), old(c.mem)), State(c.x, c.csr, c.mem))
  {
    ghost var m0, copy := c.mem, CopyAddress(c.mem);
    c.Li(T5, SAFE_WRAPPER);
    c.Lw(T5, SAFE_COPY_ADDRESS, T5);
    RestoreCsrs(c);
    LoadPointers(c, copy);
    c.Li(T0, SAFE_WRAPPER);
    c.Lw(T1, DMR_REC, T0);
    LoadedMeans(c.x, c.mem, copy, T0);
    if c.x[T1] != 0 {
      LoadStack(c, copy);
    }
    LoadRegisters(c, copy);
  }

  method LoadPointers(c: Core, ghost copy: Word)
    requires c.x[T5] == copy && FramePlace(copy)
    modifies c`x
    ensures c.x[T5] == copy
    ensures forall i: Dest | i < T0 :: c.x[i] == WordAt(c.mem, copy, i + 4)
  {
    LoadedMeans(c.x, c.mem, copy, RA);
    LoadReg(c, RA, 20, copy);
    LoadReg(c, SP, 24, copy);
    LoadReg(c, GP, 28, copy);
    LoadReg(c, TP, 32, copy);
    LoadedMeans(c.x, c.mem, copy, T0);
  }

  /** The labels store_stack, load_stack and restore_sp. */
  method LoadStack(c: Core, ghost copy: Word)
    requires copy == CopyAddress(c.mem) && c.x[T5] == copy && c.x[T0] == SAFE_WRAPPER && c.x[SP] == SavedSp(c.mem)
    requires Layout(c.x[SP], InitialStack(c.mem), copy, 0) && Loaded(c.x, c.mem, copy, T0)
    modifies c`x, c`mem
    ensures c.x[T5] == copy && Loaded(c.x, c.mem, copy, T0)
    ensures var sp, top := old(c.x)[SP], InitialStack(old(c.mem));
      && (forall k | 0 <= k < 37 :: WordAt(c.mem, copy, k) == WordAt(old(c.mem), copy, k))
      && (if sp != top then Copied(old(c.mem), c.mem, Wrap(copy + FRAME_BYTES), sp, Words(sp, top) + 1)
        else c.mem == old(c.mem))
  {
    ghost var x0, m0 := c.x, c.mem;
    LoadedMeans(c.x, c.mem, copy, T0);
    c.Lw(T1, INITIAL_STACK_ADDR, T0);
    if c.x[SP] != c.x[T1] {
      LoadWordsFrom(c, copy);
    }
    PointersKept(x0, c.x, m0, c.mem, copy);
  }

  /** The stack is not empty: sp is used as a pointer, and then loaded again. */
  method LoadWordsFrom(c: Core, ghost copy: Word)
    requires c.x[T5] == copy && c.x[SP] != c.x[T1] && Layout(c.x[SP], c.x[T1], copy, 0)
      && WordAt(c.mem, copy, 6) == c.x[SP]
    modifies c`x, c`mem
    ensures SameBut(old(c.x), c.x, {T2, T4})
    ensures Copied(old(c.mem), c.mem, Wrap(copy + FRAME_BYTES), old(c.x)[SP], Words(old(c.x)[SP], old(c.x)[T1]) + 1)
    ensures forall k | 0 <= k < 37 :: WordAt(c.mem, copy, k) == WordAt(old(c.mem), copy, k)
  {
    ghost var m0, sp, words := c.mem, c.x[SP], Words(c.x[SP], c.x[T1]);
    LayoutFits(sp, c.x[T1], copy, 0);
    LoadWordsTo(c, sp, copy, words);
    FrameKept(m0, c.mem, copy + FRAME_BYTES, sp, words + 1, copy);
    assert WordAt(c.mem, copy, 6) == sp;
    c.Lw(SP, 24, T5);
  }

  method LoadWordsTo(c: Core, ghost sp: Word, ghost copy: Word, ghost words: nat)
    requires c.x[SP] == sp && c.x[T5] == copy && c.R(T1) == sp as int + 4 * words
    requires LoopFits(copy + FRAME_BYTES, sp, words)
    modifies c`x, c`mem
    ensures SameBut(old(c.x), c.x, {SP, T2, T4})
    ensures Copied(old(c.mem), c.mem, copy + FRAME_BYTES, sp, words + 1)
  {
    c.Addi(T2, T5, 148);
    LoadWords(c, words);
  }

  lemma {:induction false} FrameKept(m0: Memory, m: Memory, from: Word, dest: Word, n: nat, copy: Word)
    requires Copied(m0, m, from, dest, n) && FramePlace(copy) && Apart(copy, FRAME_BYTES, dest, 4 * n)
    ensures forall k | 0 <= k < 37 :: WordAt(m, copy, k) == WordAt(m0, copy, k)
  {
  }

  lemma {:induction false} PointersKept(x0: Regs, x: Regs, m0: Memory, m: Memory, copy: Word)
    requires Loaded(x0, m0, copy, T0) && forall k | 0 <= k < 37 :: WordAt(m, copy, k) == WordAt(m0, copy, k)
    requires x[RA] == x0[RA] && x[SP] == x0[SP] && x[GP] == x0[GP] && x[TP] == x0[TP]
    ensures Loaded(x, m, copy, T0)
  {
    LoadedMeans(x0, m0, copy, T0);
    LoadedMeans(x, m, copy, T0);
  }

  /** From the label load_stack: sp itself is the pointer that moves up to t1. */
  method LoadWords(c: Core, ghost words: nat)
    requires LoopFits(c.R(T2), c.R(SP), words) && c.R(T1) == c.R(SP) + 4 * words
    modifies c`x, c`mem
    ensures SameBut(old(c.x), c.x, {SP, T2, T4})
    ensures Copied(old(c.mem), c.mem, old(c.x)[T2], old(c.x)[SP], words + 1)
  {
    ghost var n, x0, m0 := 0, c.x, c.mem;
    while true
      invariant Loading(x0, c.x, n, words) && Copied(m0, c.mem, x0[T2], x0[SP], n)
      decreases words - n
    {
      LoadWord(c, m0, x0, n, words);
      if c.x[SP] == c.x[T1] {
        break;
      }
      MoveBack(c, x0, n, words);
      n := n + 1;
    }
  }

  /** Both pointers have moved by n of words words, and only scratch registers have changed. */
  ghost predicate Loading(x0: Regs, x: Regs, n: nat, words: nat) {
    && n <= words && SameBut(x0, x, {SP, T2, T4})
    && LoopFits(x0[T2], x0[SP], words) && x0[T1] as int == x0[SP] as int + 4 * words
    && x[T2] as int == x0[T2] as int + 4 * n && x[SP] as int == x0[SP] as int + 4 * n
  }

  method MoveBack(c: Core, ghost x0: Regs, ghost n: nat, ghost words: nat)
    requires Loading(x0, c.x, n, words) && n < words
    modifies c`x
    ensures Loading(x0, c.x, n + 1, words)
  {
    c.Addi(T2, T2, 4);
    c.Addi(SP, SP, 4);
  }

  method LoadWord(c: Core, ghost m0: Memory, ghost x0: Regs, ghost n: nat, ghost words: nat)
    requires Loading(x0, c.x, n, words) && Copied(m0, c.mem, x0[T2], x0[SP], n)
    modifies c`x, c`mem
    ensures Loading(x0, c.x, n, words) && c.x == old(c.x)[T4 := c.x[T4]]
    ensures Copied(m0, c.mem, x0[T2], x0[SP], n + 1)
  {
    CopyOneAt(m0, c.mem, x0[T2], x0[SP], n, words, c.R(T2), c.R(SP));
    c.Lw(T4, 0, T2);
    c.Sw(T4, 0, SP);
  }

  // ---------------------------------------------------------------- the round trip

  /** One step of an execution, from memory m to m', that leaves the two address registers and the copy that
      was made at sp alone. */
  ghost predicate LeavesCopyAlone(m: Memory, m': Memory, sp: Word) {
    var top, copy := InitialStack(m), CopyAddress(m);
    && InitialStack(m') == top && CopyAddress(m') == copy
    && (forall a: Word | copy <= a < copy + CopyBytes(sp, top) :: Load(m', a) == Load(m, a))
  }

  /** Any execution, as the memories that it goes through. */
  ghost predicate Execution(ms: seq<Memory>, m: Memory, m': Memory, sp: Word) {
    && ms != [] && ms[0] == m && ms[|ms| - 1] == m'
    && (forall i | 0 <= i < |ms| - 1 :: LeavesCopyAlone(ms[i], ms[i + 1], sp))
  }

  lemma {:induction false} ExecutionLeavesCopyAlone(ms: seq<Memory>, m: Memory, m': Memory, sp: Word)
    requires Execution(ms, m, m', sp)
    ensures LeavesCopyAlone(m, m', sp)
  {
    if |ms| > 1 {
      var n := |ms| - 1;
      assert LeavesCopyAlone(ms[n - 1], ms[n - 1 + 1], sp);
      ExecutionLeavesCopyAlone(ms[..n], m, ms[n - 1], sp);
    }
  }

  /** The addresses and the frame survive from the checkpoint (s0 to s1) to the rollback (from m2). */
  lemma {:induction false} FrameSurvives(s0: State, s1: State, m2: Memory, exit: Word)
    requires Layout(s0.x[SP], InitialStack(s0.mem), CopyAddress(s0.mem), 28)
    requires Checkpointed(s0, s1, exit) && LeavesCopyAlone(s1.mem, m2, s0.x[SP])
    ensures CopyAddress(m2) == CopyAddress(s0.mem) && InitialStack(m2) == InitialStack(s0.mem)
    ensures Holds(m2, CopyAddress(s0.mem), FrameOf(s0.x, s0.csr, exit), 37)
    ensures SavedSp(m2) == s0.x[SP]
    ensures Layout(SavedSp(m2), InitialStack(m2), CopyAddress(m2), 0)
  {
  }

  /** Checkpoint (s0 to s1), any execution that leaves the copy alone, and rollback (s2 to s3): all registers,
      the five control registers and every word of the stack are back, and the core resumes behind the
      checkpoint. Memory outside the stack is not rolled back, and neither is the stack when it is empty. */
  lemma {:induction false} CheckpointRoundTrip(s0: State, s1: State, ms: seq<Memory>, s2: State, s3: State, exit: Word)
    requires Layout(s0.x[SP], InitialStack(s0.mem), CopyAddress(s0.mem), 28)
    requires Checkpointed(s0, s1, exit) && Execution(ms, s1.mem, s2.mem, s0.x[SP]) && RollsBack(s2.mem)
      && Restored(s2, s3)
    ensures s3.x == s0.x && s3.csr == s0.csr[DPC := exit]
    ensures var sp, top := s0.x[SP], InitialStack(s0.mem);
      if sp != top then
        (forall k | 0 <= k <= Words(sp, top) :: WordAt(s3.mem, sp, k) == WordAt(s0.mem, sp, k))
          && SameOutside(s2.mem, s3.mem, sp, top + 4)
      else s3.mem == s2.mem
  {
    ExecutionLeavesCopyAlone(ms, s1.mem, s2.mem, s0.x[SP]);
    FrameSurvives(s0, s1, s2.mem, exit);
  }

  /** A pointer that moves in steps of four, around the end of memory if need be, meets top if and only if it
      starts at a multiple of four from it. */
  lemma {:induction false} PointerMeetsIff(p: Word, top: Word)
    ensures (exists n: nat :: Moved(p, n) == top) <==> (top - p) % 4 == 0
  {
    if (top - p) % 4 == 0 {
      var n: nat := if p <= top then (top - p) / 4 else (top - p + 0x1_0000_0000) / 4;
      assert Moved(p, n) == top;
    }
    forall n: nat | Moved(p, n) == top ensures (top - p) % 4 == 0 {
    }
  }

  function Moved(p: Word, n: nat): Word {
    Wrap(p + 4 * n)
  }
}
