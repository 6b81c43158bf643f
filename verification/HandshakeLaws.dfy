/** The ways into the triple mode and out of an error, over runs of any length: acknowledgements may take any
    number of cycles and come in any order. */
module HandshakeLaws {
  import opened Harts
  import opened SafeFsm
  import opened LatchLaws
  import ModeLaws

  lemma {:induction false} RunSplits(s: State, xs: seq<Inputs>, ys: seq<Inputs>)
    ensures Run(s, xs + ys) == Run(Run(s, xs), ys)
  {
    if ys == [] {
      assert xs + ys == xs;
    } else {
      assert (xs + ys)[..|xs + ys| - 1] == xs + ys[..|ys| - 1];
      RunSplits(s, xs, ys[..|ys| - 1]);
    }
  }

  lemma {:induction false} RunOne(s: State, x: Inputs)
    ensures Run(s, [x]) == Next(s, x)
  {
    assert [x][..0] == [];
  }

  // ---------------------------------------------------------------- halting

  predicate Halting(t: Tmr) {
    t == TmrShHalt || t == TmrWaitSh
  }

  /** In the triple mode each machine asks its core to halt, or waits since it has. */
  predicate HaltPhase(s: State) {
    s.general == TmrMode && Halting(s.tmr.h0) && Halting(s.tmr.h1) && Halting(s.tmr.h2)
  }

  /** What machine i waits for: the master's for two acknowledgements, each other one for its own. */
  predicate Acknowledged(x: Inputs, i: Hart) {
    if x.master.At(i) then TwoOf(x.haltAck) else x.haltAck.At(i)
  }

  predicate TwoOf(t: Three<bool>) {
    (t.h0 && t.h1) || (t.h1 && t.h2) || (t.h0 && t.h2)
  }

  /** All cores asleep while one machine already waits, which moves that one on without the others. */
  predicate SleepsEarly(s: State, x: Inputs) {
    All3(x.wfi) && ModeLaws.AnyTmr(s, TmrWaitSh)
  }

  /** The single machine has been released, or will be in the first cycle of the phase. */
  predicate Releasing(s: State) {
    s.single == SingleIdle || (s.single == SingleToTmr && Together(s, TmrShHalt))
  }

  /** The single machine waits for three machines that ask to halt, of which one has gone on already. */
  predicate Hung(s: State) {
    s.single == SingleToTmr && ModeLaws.AnyTmr(s, TmrWaitSh)
  }

  lemma {:induction false} HaltStep(s: State, x: Inputs)
    requires HaltPhase(s)
    ensures HaltPhase(Next(s, x)) <==> !SleepsEarly(s, x)
    ensures HaltPhase(Next(s, x)) ==>
      forall i: Hart :: Next(s, x).tmr.At(i) == TmrWaitSh <==> s.tmr.At(i) == TmrWaitSh || Acknowledged(x, i)
    ensures Releasing(s) ==> Next(s, x).single == SingleIdle
    ensures Hung(s) && HaltPhase(Next(s, x)) ==> Hung(Next(s, x))
  {
  }

  ghost predicate AlwaysHalting(s: State, xs: seq<Inputs>) {
    HaltPhase(Run(s, xs)) && (xs != [] ==> AlwaysHalting(s, xs[..|xs| - 1]))
  }

  ghost predicate NeverSleepsEarly(s: State, xs: seq<Inputs>) {
    xs != [] ==> NeverSleepsEarly(s, xs[..|xs| - 1]) && !SleepsEarly(Run(s, xs[..|xs| - 1]), xs[|xs| - 1])
  }

  /** Machine i has been acknowledged in some cycle. */
  ghost predicate EverAcknowledged(xs: seq<Inputs>, i: Hart) {
    xs != [] && (EverAcknowledged(xs[..|xs| - 1], i) || Acknowledged(xs[|xs| - 1], i))
  }

  /** For every run and every order of acknowledgements: no machine passes TmrWaitSh if and only if the cores
      are never all asleep while one machine waits there; and then a machine waits if and only if it did or has
      been acknowledged, and the single machine is released, unless one machine had gone on too early. */
  lemma {:induction false} HaltingIff(s: State, xs: seq<Inputs>)
    requires HaltPhase(s)
    ensures AlwaysHalting(s, xs) <==> NeverSleepsEarly(s, xs)
    ensures AlwaysHalting(s, xs) ==>
      forall i: Hart :: Run(s, xs).tmr.At(i) == TmrWaitSh <==> s.tmr.At(i) == TmrWaitSh || EverAcknowledged(xs, i)
    ensures AlwaysHalting(s, xs) && Releasing(s) ==>
      Releasing(Run(s, xs)) && (xs != [] ==> Run(s, xs).single == SingleIdle)
    ensures AlwaysHalting(s, xs) && Hung(s) ==> Hung(Run(s, xs))
  {
    if xs != [] {
      var p, x := xs[..|xs| - 1], xs[|xs| - 1];
      HaltingIff(s, p);
      if HaltPhase(Run(s, p)) {
        HaltStep(Run(s, p), x);
      }
    }
  }

  /** So once every machine has been acknowledged, the three are aligned. */
  lemma {:induction false} HaltedTogether(s: State, xs: seq<Inputs>)
    requires HaltPhase(s) && NeverSleepsEarly(s, xs)
    requires forall i: Hart :: s.tmr.At(i) == TmrWaitSh || EverAcknowledged(xs, i)
    ensures Together(Run(s, xs), TmrWaitSh) && Run(s, xs).general == TmrMode
    ensures Releasing(s) && xs != [] ==> Run(s, xs).single == SingleIdle
    ensures Hung(s) ==> Run(s, xs).single == SingleToTmr
  {
    HaltingIff(s, xs);
    var t := Run(s, xs).tmr;
    assert s.tmr.At(0) == TmrWaitSh || EverAcknowledged(xs, 0);
    assert t.At(0) == t.h0 && t.At(1) == t.h1 && t.At(2) == t.h2;
  }

  // ---------------------------------------------------------------- waiting together

  /** What moves three aligned machines out of t. */
  predicate Goes(x: Inputs, t: Tmr) {
    || (t == TmrWaitSh && All3(x.wfi))
    || ((t == TmrMsIntrSync || t == TmrSyncIntc) && All3(x.intcAck))
    || (t == TmrSwSync && !Any3(x.intcAck))
  }

  predicate Waiting(t: Tmr) {
    t == TmrWaitSh || t == TmrMsIntrSync || t == TmrSyncIntc || t == TmrSwSync
  }

  function After(t: Tmr): Tmr {
    match t
    case TmrWaitSh => TmrMsIntrSync
    case TmrSyncIntc => TmrSwSync
    case _ => TmrSync
  }

  /** The single machine has no part in the triple mode, or hangs on its way into it. */
  predicate SingleRests(s: State) {
    s.single == SingleIdle || s.single == SingleToTmr
  }

  lemma {:induction false} WaitingStep(s: State, x: Inputs, t: Tmr)
    requires Together(s, t) && Waiting(t)
    ensures Together(Next(s, x), if Goes(x, t) then After(t) else t)
    ensures Goes(x, t) && After(t) == TmrSync ==> Next(s, x).latch == Latch(false, false)
    ensures s.general == TmrMode ==>
      Next(s, x).general == TmrMode && (SingleRests(s) ==> Next(s, x).single == s.single)
  {
  }

  /** Any number of cycles ws without the signal, and then the signal. */
  lemma {:induction false} WaitsAndGoes(s: State, ws: seq<Inputs>, x: Inputs, t: Tmr)
    requires Together(s, t) && Waiting(t) && Goes(x, t) && forall k | 0 <= k < |ws| :: !Goes(ws[k], t)
    ensures Together(Run(s, ws), t) && Together(Run(s, ws + [x]), After(t))
    ensures After(t) == TmrSync ==> Run(s, ws + [x]).latch == Latch(false, false)
    ensures s.general == TmrMode ==>
      Run(s, ws + [x]).general == TmrMode && (SingleRests(s) ==> Run(s, ws + [x]).single == s.single)
  {
    Waits(s, ws, t);
    WaitingStep(Run(s, ws), x, t);
    assert (ws + [x])[..|ws + [x]| - 1] == ws;
  }

  lemma {:induction false} Waits(s: State, ws: seq<Inputs>, t: Tmr)
    requires Together(s, t) && Waiting(t) && forall k | 0 <= k < |ws| :: !Goes(ws[k], t)
    ensures Together(Run(s, ws), t)
    ensures s.general == TmrMode ==>
      Run(s, ws).general == TmrMode && (SingleRests(s) ==> Run(s, ws).single == s.single)
  {
    if ws != [] {
      Waits(s, ws[..|ws| - 1], t);
      WaitingStep(Run(s, ws[..|ws| - 1]), ws[|ws| - 1], t);
    }
  }

  // ---------------------------------------------------------------- from the single mode into the vote

  function Only(m: Hart): Three<bool> {
    Three(m == 0, m == 1, m == 2)
  }

  /** Machine m in state a, the other two in state b. */
  function MasterAnd(m: Hart, a: Tmr, b: Tmr): Three<Tmr> {
    Three(if m == 0 then a else b, if m == 1 then a else b, if m == 2 then a else b)
  }

  /** On the way from single: machine m in state a, the others in b, and no dual machine asking for a halt. */
  predicate Joining(s: State, m: Hart, a: Tmr, b: Tmr) {
    && s.general == TmrMode && s.single == SingleToTmr && s.tmr == MasterAnd(m, a, b)
    && !ModeLaws.AnyDmr(s, DmrShHalt)
  }

  predicate Mastered(x: Inputs, m: Hart) {
    x.master == Only(m) && x.start
  }

  /** The master's core sleeps and has been told to synchronize. */
  predicate Called(x: Inputs, m: Hart) {
    x.wfi.At(m) && x.syncMaster
  }

  /** All machines idle until the master is called, which then asks the others. */
  lemma {:induction false} CallStep(s: State, x: Inputs, m: Hart)
    requires Joining(s, m, TmrIdle, TmrIdle) && Mastered(x, m)
    ensures Joining(Next(s, x), m, if Called(x, m) then TmrShHalt else TmrIdle, TmrIdle)
  {
  }

  /** The others follow in the next cycle; the master is still asking then, if and only if there are not two
      acknowledgements yet. */
  lemma {:induction false} FollowStep(s: State, x: Inputs, m: Hart)
    requires Joining(s, m, TmrShHalt, TmrIdle) && Mastered(x, m)
    ensures Joining(Next(s, x), m, if TwoOf(x.haltAck) then TmrWaitSh else TmrShHalt, TmrShHalt)
  {
  }

  lemma {:induction false} IdlesUntilCalled(s: State, ws: seq<Inputs>, m: Hart)
    requires Joining(s, m, TmrIdle, TmrIdle) && forall k | 0 <= k < |ws| :: Mastered(ws[k], m) && !Called(ws[k], m)
    ensures Joining(Run(s, ws), m, TmrIdle, TmrIdle)
  {
    if ws != [] {
      IdlesUntilCalled(s, ws[..|ws| - 1], m);
      CallStep(Run(s, ws[..|ws| - 1]), ws[|ws| - 1], m);
    }
  }

  /** The master called after any wait, and the others following. */
  lemma {:induction false} HaltingBegins(s: State, m: Hart, ws: seq<Inputs>, x0: Inputs, x1: Inputs)
    requires Joining(s, m, TmrIdle, TmrIdle) && forall k | 0 <= k < |ws| :: Mastered(ws[k], m) && !Called(ws[k], m)
    requires Mastered(x0, m) && Called(x0, m) && Mastered(x1, m)
    ensures Joining(Run(s, ws + [x0] + [x1]), m, if TwoOf(x1.haltAck) then TmrWaitSh else TmrShHalt, TmrShHalt)
  {
    IdlesUntilCalled(s, ws, m);
    CallStep(Run(s, ws), x0, m);
    RunSplits(s, ws, [x0]);
    RunOne(Run(s, ws), x0);
    FollowStep(Run(s, ws + [x0]), x1, m);
    RunSplits(s, ws + [x0], [x1]);
    RunOne(Run(s, ws + [x0]), x1);
  }

  /** The whole way, for any master: it waits (ws) and is called (x0), the others follow (x1); each core halts in
      its own time (hs), then all sleep (x2); after any wait (vs) all are interrupted (x3). Then the three are
      synchronous together and vote, with nothing pending. The single machine is released if and only if there
      were not two acknowledgements yet when the others followed; else it still waits in SingleToTmr. */
  lemma {:induction false} TripleModeIsEntered(s: State, m: Hart, ws: seq<Inputs>, x0: Inputs, x1: Inputs,
      hs: seq<Inputs>, x2: Inputs, vs: seq<Inputs>, x3: Inputs)
    requires Joining(s, m, TmrIdle, TmrIdle) && forall k | 0 <= k < |ws| :: Mastered(ws[k], m) && !Called(ws[k], m)
    requires Mastered(x0, m) && Called(x0, m) && Mastered(x1, m)
    requires NeverSleepsEarly(Run(s, ws + [x0] + [x1]), hs)
    requires forall i: Hart :: (i == m && TwoOf(x1.haltAck)) || EverAcknowledged(hs, i)
    requires All3(x2.wfi) && (forall k | 0 <= k < |vs| :: !All3(vs[k].intcAck)) && All3(x3.intcAck)
    ensures var s' := Run(s, (ws + [x0] + [x1]) + hs + [x2] + (vs + [x3]));
      && Together(s', TmrSync) && s'.latch == Latch(false, false) && s'.general == TmrMode && VoterEnabled(s')
      && s'.single == if TwoOf(x1.haltAck) then SingleToTmr else SingleIdle
  {
    var begin, halted := ws + [x0] + [x1], (ws + [x0] + [x1]) + hs;
    var u := if TwoOf(x1.haltAck) then SingleToTmr else SingleIdle;
    HaltingBegins(s, m, ws, x0, x1);
    HaltingEnds(s, m, begin, hs, TwoOf(x1.haltAck));
    FallAsleep(s, halted, x2, u);
    AllInterrupted(s, halted + [x2], vs, x3, u);
  }

  /** The machines are aligned in t, with the single machine in state u. */
  predicate Joined(s: State, t: Tmr, u: Single) {
    s.general == TmrMode && s.single == u && Together(s, t)
  }

  lemma {:induction false} HaltingEnds(s: State, m: Hart, xs: seq<Inputs>, hs: seq<Inputs>, early: bool)
    requires Joining(Run(s, xs), m, if early then TmrWaitSh else TmrShHalt, TmrShHalt)
    requires NeverSleepsEarly(Run(s, xs), hs) && forall i: Hart :: (i == m && early) || EverAcknowledged(hs, i)
    ensures Joined(Run(s, xs + hs), TmrWaitSh, if early then SingleToTmr else SingleIdle)
  {
    RunSplits(s, xs, hs);
    var i: Hart := if m == 0 then 1 else 0;
    assert EverAcknowledged(hs, i);
    HaltedTogether(Run(s, xs), hs);
  }

  lemma {:induction false} FallAsleep(s: State, xs: seq<Inputs>, x: Inputs, u: Single)
    requires Joined(Run(s, xs), TmrWaitSh, u) && (u == SingleIdle || u == SingleToTmr) && All3(x.wfi)
    ensures Joined(Run(s, xs + [x]), TmrMsIntrSync, u)
  {
    RunSplits(s, xs, [x]);
    RunOne(Run(s, xs), x);
    AllSleep(Run(s, xs), x, u);
  }

  lemma {:induction false} AllSleep(s: State, x: Inputs, u: Single)
    requires Joined(s, TmrWaitSh, u) && (u == SingleIdle || u == SingleToTmr) && All3(x.wfi)
    ensures Joined(Next(s, x), TmrMsIntrSync, u)
  {
    WaitingStep(s, x, TmrWaitSh);
  }

  lemma {:induction false} AllInterrupted(s: State, xs: seq<Inputs>, ws: seq<Inputs>, x: Inputs, u: Single)
    requires Joined(Run(s, xs), TmrMsIntrSync, u) && (u == SingleIdle || u == SingleToTmr)
    requires (forall k | 0 <= k < |ws| :: !All3(ws[k].intcAck)) && All3(x.intcAck)
    ensures var s' := Run(s, xs + (ws + [x]));
      Joined(s', TmrSync, u) && s'.latch == Latch(false, false) && VoterEnabled(s')
  {
    RunSplits(s, xs, ws + [x]);
    WaitsAndGoes(Run(s, xs), ws, x, TmrMsIntrSync);
  }

  /** A single machine that hangs does so until the mode ends: as long as one machine m that has gone on is
      neither idle again nor ending the mode, it is not released. */
  lemma {:induction false} HangsUntilTheEnd(s: State, m: Hart, xs: seq<Inputs>)
    requires s.single == SingleToTmr && Shared(s.tmr.At(m))
    requires forall k | 0 < k < |xs| ::
      Run(s, xs[..k]).tmr.At(m) != TmrIdle && Run(s, xs[..k]).tmr.At(m) != TmrEndSync
    ensures Run(s, xs).single == SingleToTmr
    ensures var t := Run(s, xs).tmr.At(m); Shared(t) || t == TmrIdle || t == TmrEndSync
  {
    if xs != [] {
      var p := xs[..|xs| - 1];
      forall k | 0 < k < |p|
        ensures Run(s, p[..k]).tmr.At(m) != TmrIdle && Run(s, p[..k]).tmr.At(m) != TmrEndSync
      {
        assert p[..k] == xs[..k];
      }
      HangsUntilTheEnd(s, m, p);
      HangStep(Run(s, p), m, xs[|xs| - 1]);
    }
  }

  lemma {:induction false} HangStep(s: State, m: Hart, x: Inputs)
    requires s.single == SingleToTmr && Shared(s.tmr.At(m))
    ensures Next(s, x).single == SingleToTmr
    ensures var t := Next(s, x).tmr.At(m); Shared(t) || t == TmrIdle || t == TmrEndSync
  {
  }

  // ---------------------------------------------------------------- repair

  /** An error that is due (x0) interrupts all three cores; after any wait (ws) all have taken the interrupt (y),
      and after any wait (us) all have left it (z): they are synchronous again, with nothing pending. */
  lemma {:induction false} RepairReturns(s: State, x0: Inputs, ws: seq<Inputs>, y: Inputs, us: seq<Inputs>, z: Inputs)
    requires Together(s, TmrSync) && !Leaves(x0) && TmrErrorDue(s.latch, x0)
    requires (forall k | 0 <= k < |ws| :: !All3(ws[k].intcAck)) && All3(y.intcAck)
    requires (forall k | 0 <= k < |us| :: Any3(us[k].intcAck)) && !Any3(z.intcAck)
    ensures Together(Run(s, [x0] + ws), TmrSyncIntc)
    ensures Together(Run(s, [x0] + (ws + [y]) + us), TmrSwSync)
    ensures var s' := Run(s, [x0] + (ws + [y]) + (us + [z])); Together(s', TmrSync) && s'.latch == Latch(false, false)
  {
    ErrorInterrupts(s, x0);
    TakesInterrupt(s, [x0], ws, y);
    LeavesInterrupt(s, [x0] + (ws + [y]), us, z);
  }

  lemma {:induction false} ErrorInterrupts(s: State, x: Inputs)
    requires Together(s, TmrSync) && !Leaves(x) && TmrErrorDue(s.latch, x)
    ensures Together(Run(s, [x]), TmrSyncIntc)
  {
    RunOne(s, x);
  }

  lemma {:induction false} TakesInterrupt(s: State, xs: seq<Inputs>, ws: seq<Inputs>, y: Inputs)
    requires Together(Run(s, xs), TmrSyncIntc) && (forall k | 0 <= k < |ws| :: !All3(ws[k].intcAck)) && All3(y.intcAck)
    ensures Together(Run(s, xs + ws), TmrSyncIntc) && Together(Run(s, xs + (ws + [y])), TmrSwSync)
  {
    WaitsAndGoes(Run(s, xs), ws, y, TmrSyncIntc);
    RunSplits(s, xs, ws);
    RunSplits(s, xs, ws + [y]);
  }

  lemma {:induction false} LeavesInterrupt(s: State, xs: seq<Inputs>, us: seq<Inputs>, z: Inputs)
    requires Together(Run(s, xs), TmrSwSync) && (forall k | 0 <= k < |us| :: Any3(us[k].intcAck)) && !Any3(z.intcAck)
    ensures Together(Run(s, xs + us), TmrSwSync)
    ensures Together(Run(s, xs + (us + [z])), TmrSync) && Run(s, xs + (us + [z])).latch == Latch(false, false)
  {
    WaitsAndGoes(Run(s, xs), us, z, TmrSwSync);
    RunSplits(s, xs, us);
    RunSplits(s, xs, us + [z]);
  }

  /** Under repair. */
  predicate Repairing(s: State) {
    Together(s, TmrSyncIntc) || Together(s, TmrSwSync)
  }

  /** For every run: repair ends only in the synchronous state with nothing pending, and the vote is never off. */
  lemma {:induction false} RepairHolds(s: State, xs: seq<Inputs>)
    requires Repairing(s) && forall k | 0 <= k < |xs| :: Repairing(Run(s, xs[..k]))
    ensures Repairing(Run(s, xs)) || (Together(Run(s, xs), TmrSync) && Run(s, xs).latch == Latch(false, false))
    ensures VoterEnabled(Run(s, xs))
  {
    if xs != [] {
      var p := xs[..|xs| - 1];
      assert Repairing(Run(s, p));
      WaitingStep(Run(s, p), xs[|xs| - 1], if Together(Run(s, p), TmrSyncIntc) then TmrSyncIntc else TmrSwSync);
    }
  }

  // ---------------------------------------------------------------- rollback of a pair

  predicate RollsBack(d: Dmr) {
    d == DmrSync || d == DmrStop || d == DmrIntcRecovery || d == DmrRecovery
  }

  /** In the dual mode, the machines of the mask are synchronous or on the way back to it. */
  predicate RollbackPhase(s: State, mask: Three<bool>) {
    && s.general == DmrMode && Any3(mask) && ModeLaws.Unmasked(s, mask)
    && (mask.h0 ==> RollsBack(s.dmr.h0)) && (mask.h1 ==> RollsBack(s.dmr.h1)) && (mask.h2 ==> RollsBack(s.dmr.h2))
  }

  /** All cores asleep while a machine is synchronous: that machine ends the mode. */
  predicate EndsEarly(s: State, x: Inputs) {
    All3(x.wfi) && ModeLaws.AnyDmr(s, DmrSync)
  }

  lemma {:induction false} RollbackMachine(s: State, x: Inputs, i: Hart)
    ensures RollsBack(s.dmr.At(i)) ==> (RollsBack(NextDmr(s, x, i)) <==> !(All3(x.wfi) && s.dmr.At(i) == DmrSync))
    ensures ModeLaws.DmrUnused(s.dmr.At(i)) && !x.mask.At(i) ==> NextDmr(s, x, i) == DmrIdle
  {
  }

  lemma {:induction false} RollbackStep(s: State, mask: Three<bool>, x: Inputs)
    requires RollbackPhase(s, mask) && x.mask == mask
    ensures RollbackPhase(Next(s, x), mask) <==> !EndsEarly(s, x)
  {
    RollbackMachine(s, x, 0);
    RollbackMachine(s, x, 1);
    RollbackMachine(s, x, 2);
    DualModeGoesOn(s, mask, x);
  }

  lemma {:induction false} DualModeGoesOn(s: State, mask: Three<bool>, x: Inputs)
    requires RollbackPhase(s, mask)
    ensures NextGeneral(s, x) == DmrMode
  {
    assert DmrToSingleSwitch(s, x) == NO_HART;
  }

  ghost predicate AlwaysRollsBack(s: State, mask: Three<bool>, xs: seq<Inputs>) {
    RollbackPhase(Run(s, xs), mask) && (xs != [] ==> AlwaysRollsBack(s, mask, xs[..|xs| - 1]))
  }

  ghost predicate NeverEndsEarly(s: State, xs: seq<Inputs>) {
    xs != [] ==> NeverEndsEarly(s, xs[..|xs| - 1]) && !EndsEarly(Run(s, xs[..|xs| - 1]), xs[|xs| - 1])
  }

  /** For every run under a fixed mask, with errors and acknowledgements in any order: the cores of the mask stay
      in the phase, and are compared, if and only if the cores are never all asleep while one of the machines is
      synchronous. */
  lemma {:induction false} RollbackIff(s: State, mask: Three<bool>, xs: seq<Inputs>)
    requires RollbackPhase(s, mask) && forall k | 0 <= k < |xs| :: xs[k].mask == mask
    ensures AlwaysRollsBack(s, mask, xs) <==> NeverEndsEarly(s, xs)
    ensures AlwaysRollsBack(s, mask, xs) ==> ComparatorEnabled(Run(s, xs))
  {
    if xs == [] {
      RollbackCompares(s, mask);
    } else {
      var p, x := xs[..|xs| - 1], xs[|xs| - 1];
      RollbackIff(s, mask, p);
      if RollbackPhase(Run(s, p), mask) {
        RollbackStep(Run(s, p), mask, x);
      }
      if RollbackPhase(Run(s, xs), mask) {
        RollbackCompares(Run(s, xs), mask);
      }
    }
  }

  lemma {:induction false} RollbackCompares(s: State, mask: Three<bool>)
    requires RollbackPhase(s, mask)
    ensures ComparatorEnabled(s)
  {
  }

  /** What moves machine i out of d, on its own. */
  predicate Moves(x: Inputs, i: Hart, d: Dmr) {
    || (d == DmrStop && All3(x.wfi))
    || (d == DmrIntcRecovery && x.haltAck.At(i))
    || (d == DmrRecovery && !x.haltAck.At(i))
  }

  function Following(d: Dmr): Dmr {
    match d
    case DmrStop => DmrIntcRecovery
    case DmrIntcRecovery => DmrRecovery
    case _ => DmrSync
  }

  lemma {:induction false} MachineStep(s: State, x: Inputs, i: Hart, d: Dmr)
    requires s.dmr.At(i) == d && (d == DmrStop || d == DmrIntcRecovery || d == DmrRecovery)
    ensures Next(s, x).dmr.At(i) == if Moves(x, i, d) then Following(d) else d
  {
  }

  lemma {:induction false} MachineWaitsAndMoves(s: State, i: Hart, d: Dmr, ws: seq<Inputs>, x: Inputs)
    requires s.dmr.At(i) == d && (d == DmrStop || d == DmrIntcRecovery || d == DmrRecovery)
    requires (forall k | 0 <= k < |ws| :: !Moves(ws[k], i, d)) && Moves(x, i, d)
    ensures Run(s, ws + [x]).dmr.At(i) == Following(d)
  {
    MachineWaits(s, i, d, ws);
    MachineStep(Run(s, ws), x, i, d);
    assert (ws + [x])[..|ws + [x]| - 1] == ws;
  }

  lemma {:induction false} MachineWaits(s: State, i: Hart, d: Dmr, ws: seq<Inputs>)
    requires s.dmr.At(i) == d && (d == DmrStop || d == DmrIntcRecovery || d == DmrRecovery)
    requires forall k | 0 <= k < |ws| :: !Moves(ws[k], i, d)
    ensures Run(s, ws).dmr.At(i) == d
  {
    if ws != [] {
      MachineWaits(s, i, d, ws[..|ws| - 1]);
      MachineStep(Run(s, ws[..|ws| - 1]), ws[|ws| - 1], i, d);
    }
  }

  /** Under master m the error of comparator m, and of no other, stops an awake synchronous machine. */
  lemma {:induction false} ErrorStops(s: State, x: Inputs, m: Hart, i: Hart)
    requires x.master == Only(m) && s.dmr.At(i) == DmrSync && !All3(x.wfi)
    ensures Next(s, x).dmr.At(i) == if x.dmrError.At(m) then DmrStop else DmrSync
  {
  }

  /** Each stopped machine returns in its own time, whatever the others do: after any wait (ws) all cores sleep
      (x1), after any wait (us) its own core is halted (x2), and after any wait (vs) released (x3). */
  lemma {:induction false} RollbackReturns(s: State, i: Hart, ws: seq<Inputs>, x1: Inputs, us: seq<Inputs>, x2: Inputs,
      vs: seq<Inputs>, x3: Inputs)
    requires s.dmr.At(i) == DmrStop
    requires (forall k | 0 <= k < |ws| :: !All3(ws[k].wfi)) && All3(x1.wfi)
    requires (forall k | 0 <= k < |us| :: !us[k].haltAck.At(i)) && x2.haltAck.At(i)
    requires (forall k | 0 <= k < |vs| :: vs[k].haltAck.At(i)) && !x3.haltAck.At(i)
    ensures Run(s, (ws + [x1]) + (us + [x2])).dmr.At(i) == DmrRecovery
    ensures Run(s, (ws + [x1]) + (us + [x2]) + (vs + [x3])).dmr.At(i) == DmrSync
  {
    MachineWaitsAndMoves(s, i, DmrStop, ws, x1);
    MachineWaitsAndMoves(Run(s, ws + [x1]), i, DmrIntcRecovery, us, x2);
    RunSplits(s, ws + [x1], us + [x2]);
    MachineWaitsAndMoves(Run(s, (ws + [x1]) + (us + [x2])), i, DmrRecovery, vs, x3);
    RunSplits(s, (ws + [x1]) + (us + [x2]), vs + [x3]);
  }
}
