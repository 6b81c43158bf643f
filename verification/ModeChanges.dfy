/** The ways in and out of the modes over whole runs, with waits of any length, and the bit that keeps the time shift
    on. */
module ModeChanges {
  import opened Harts
  import opened SafeFsm
  import opened LatchLaws
  import opened HandshakeLaws
  import ModeLaws

  // ---------------------------------------------------------------- waiting, in general

  /** While the inputs are ok, go takes p to q and anything else leaves p as it is. */
  ghost predicate Waits(p: State -> bool, ok: Inputs -> bool, go: Inputs -> bool, q: State -> bool) {
    forall s, x :: p(s) && ok(x) ==> if go(x) then q(Next(s, x)) else p(Next(s, x))
  }

  /** Any number of cycles ws without the signal, and then the signal. */
  lemma {:induction false} WaitsAndGoesOn(p: State -> bool, ok: Inputs -> bool, go: Inputs -> bool, q: State -> bool,
      s: State, ws: seq<Inputs>, x: Inputs)
    requires Waits(p, ok, go, q) && p(s) && ok(x) && go(x)
    requires forall k | 0 <= k < |ws| :: ok(ws[k]) && !go(ws[k])
    ensures p(Run(s, ws)) && q(Run(s, ws + [x]))
  {
    GoesOnWaiting(p, ok, go, q, s, ws);
    assert (ws + [x])[..|ws + [x]| - 1] == ws;
  }

  lemma {:induction false} GoesOnWaiting(p: State -> bool, ok: Inputs -> bool, go: Inputs -> bool, q: State -> bool,
      s: State, ws: seq<Inputs>)
    requires Waits(p, ok, go, q) && p(s) && forall k | 0 <= k < |ws| :: ok(ws[k]) && !go(ws[k])
    ensures p(Run(s, ws))
  {
    if ws != [] {
      GoesOnWaiting(p, ok, go, q, s, ws[..|ws| - 1]);
    }
  }

  // ---------------------------------------------------------------- the time shift

  /** The configuration with the time shift, while a dual machine compares and is not stopped. */
  predicate AsksForShift(s: State, x: Inputs) {
    x.config == 3 && exists i: Hart :: Compares(s.dmr.At(i)) && s.dmr.At(i) != DmrStop
  }

  /** All cores asleep under the configuration of the single mode. */
  predicate EndsShift(x: Inputs) {
    All3(x.wfi) && x.config == 0
  }

  lemma {:induction false} DelaySetIff(s: State, x: Inputs)
    ensures DelaySet(s, x) <==> AsksForShift(s, x)
  {
    assert s.dmr.At(0) == s.dmr.h0 && s.dmr.At(1) == s.dmr.h1 && s.dmr.At(2) == s.dmr.h2;
  }

  /** It has been asked for in cycle j, and not ended since. */
  predicate ShiftedSince(s: State, xs: seq<Inputs>, j: nat)
    requires j < |xs|
  {
    AsksForShift(Run(s, xs[..j]), xs[j]) && forall k | j <= k < |xs| :: !EndsShift(xs[k])
  }

  lemma {:induction false} ShiftedSinceGrows(s: State, p: seq<Inputs>, x: Inputs, j: nat)
    requires j < |p|
    ensures ShiftedSince(s, p + [x], j) <==> ShiftedSince(s, p, j) && !EndsShift(x)
  {
    var xs := p + [x];
    assert xs[..j] == p[..j] && xs[|p|] == x && forall k | 0 <= k < |p| :: xs[k] == p[k];
  }

  ghost predicate EverShifted(s: State, xs: seq<Inputs>) {
    exists j | 0 <= j < |xs| :: ShiftedSince(s, xs, j)
  }

  predicate NeverEnded(xs: seq<Inputs>) {
    forall k | 0 <= k < |xs| :: !EndsShift(xs[k])
  }

  lemma {:induction false} EverShiftedGrows(s: State, p: seq<Inputs>, x: Inputs)
    ensures EverShifted(s, p + [x]) <==> !EndsShift(x) && (EverShifted(s, p) || AsksForShift(Run(s, p), x))
  {
    var xs := p + [x];
    assert xs[..|p|] == p;
    assert ShiftedSince(s, xs, |p|) <==> AsksForShift(Run(s, p), x) && !EndsShift(x);
    if EverShifted(s, p) {
      var j :| 0 <= j < |p| && ShiftedSince(s, p, j);
      ShiftedSinceGrows(s, p, x, j);
    }
    if EverShifted(s, xs) {
      var j :| 0 <= j < |xs| && ShiftedSince(s, xs, j);
      if j < |p| {
        ShiftedSinceGrows(s, p, x, j);
      }
    }
  }

  lemma {:induction false} NeverEndedGrows(p: seq<Inputs>, x: Inputs)
    ensures NeverEnded(p + [x]) <==> NeverEnded(p) && !EndsShift(x)
  {
    var xs := p + [x];
    assert xs[|p|] == x && forall k | 0 <= k < |p| :: xs[k] == p[k];
  }

  /** For every run: the bit is set if and only if the shift has been asked for and not ended since, or was on at the
      start and has never been ended. */
  lemma {:induction false} ShiftIff(s: State, xs: seq<Inputs>)
    ensures Run(s, xs).delay <==> (s.delay && NeverEnded(xs)) || EverShifted(s, xs)
  {
    if xs != [] {
      var p, x := xs[..|xs| - 1], xs[|xs| - 1];
      assert p + [x] == xs;
      ShiftIff(s, p);
      DelaySetIff(Run(s, p), x);
      EverShiftedGrows(s, p, x);
      NeverEndedGrows(p, x);
    }
  }

  /** So from the first cycle in which a pair asks for it the time shift is on without a gap, through every rollback,
      until all cores sleep under the configuration of the single mode. */
  lemma {:induction false} ShiftLasts(s: State, xs: seq<Inputs>, k: nat)
    requires k < |xs| && AsksForShift(s, xs[0]) && forall j | 0 <= j < |xs| :: !EndsShift(xs[j])
    ensures Shifting(Run(s, xs[..k]), xs[k])
  {
    if k == 0 {
      assert xs[..0] == [];
      DelaySetIff(s, xs[0]);
    } else {
      var p := xs[..k];
      ShiftIff(s, p);
      assert p[..0] == [];
      assert ShiftedSince(s, p, 0);
    }
  }

  // ---------------------------------------------------------------- the single mode

  const TMR_REST := Three(TmrIdle, TmrIdle, TmrIdle)
  const DMR_REST := Three(DmrIdle, DmrIdle, DmrIdle)

  /** No redundant machine is in use. */
  predicate AtRest(s: State, general: General, single: Single) {
    s.general == general && s.single == single && s.tmr == TMR_REST && s.dmr == DMR_REST
  }

  predicate Running(x: Inputs) {
    x.start && x.config == 0
  }

  /** The program of the single mode has ended. */
  predicate Finished(x: Inputs) {
    x.endSw && All3(x.wfi)
  }

  function RestsIn(general: General, single: Single): State -> bool {
    (s: State) => AtRest(s, general, single)
  }

  predicate MasterHalted(x: Inputs) {
    x.haltAck == x.master
  }

  lemma {:induction false} SingleStarts(s: State, x0: Inputs, x1: Inputs)
    requires AtRest(s, Idle, SingleIdle) && Running(x0) && Running(x1) && !x1.endSw
    ensures AtRest(Run(s, [x0] + [x1]), SingleMode, SingleStart)
  {
    RunOne(s, x0);
    RunSplits(s, [x0], [x1]);
    RunOne(Next(s, x0), x1);
    assert AtRest(Next(s, x0), SingleMode, SingleIdle);
  }

  lemma {:induction false} SinglePhases()
    ensures Waits(RestsIn(SingleMode, SingleStart), Running, MasterHalted,
      RestsIn(SingleMode, SingleRun))
    ensures Waits(RestsIn(SingleMode, SingleRun), Running, Finished, RestsIn(SingleMode, SingleIdle))
  {
  }

  /** From idle: started (x0, x1), the single mode waits (ws) until exactly the master is halted (x2), runs (vs) until
      its program has ended and all cores sleep (x3), and is idle again once the start bit is low (x4). */
  lemma {:induction false} SingleModeRuns(s: State, x0: Inputs, x1: Inputs, ws: seq<Inputs>, x2: Inputs,
      vs: seq<Inputs>, x3: Inputs, x4: Inputs)
    requires AtRest(s, Idle, SingleIdle) && Running(x0) && Running(x1) && !x1.endSw
    requires Running(x2) && x2.haltAck == x2.master && forall k | 0 <= k < |ws| ::
      Running(ws[k]) && ws[k].haltAck != ws[k].master
    requires Running(x3) && Finished(x3) && forall k | 0 <= k < |vs| :: Running(vs[k]) && !Finished(vs[k])
    requires !x4.start
    ensures AtRest(Run(s, [x0] + [x1] + (ws + [x2])), SingleMode, SingleRun)
    ensures AtRest(Run(s, [x0] + [x1] + (ws + [x2]) + (vs + [x3])), SingleMode, SingleIdle)
    ensures AtRest(Run(s, [x0] + [x1] + (ws + [x2]) + (vs + [x3]) + [x4]), Idle, SingleIdle)
  {
    var a := [x0] + [x1];
    var b := a + (ws + [x2]);
    var c := b + (vs + [x3]);
    SingleStarts(s, x0, x1);
    SinglePhases();
    WaitsAndGoesOn(RestsIn(SingleMode, SingleStart), Running, MasterHalted,
      RestsIn(SingleMode, SingleRun), Run(s, a), ws, x2);
    RunSplits(s, a, ws + [x2]);
    WaitsAndGoesOn(RestsIn(SingleMode, SingleRun), Running, Finished, RestsIn(SingleMode, SingleIdle),
      Run(s, b), vs, x3);
    RunSplits(s, b, vs + [x3]);
    RunSplits(s, c, [x4]);
    RunOne(Run(s, c), x4);
  }

  /** The cores boot: voting, with every machine at rest. */
  function Booting(): State -> bool {
    (s: State) => AtRest(s, Boot, SingleIdle) && VoterEnabled(s) && !ComparatorEnabled(s)
  }

  lemma {:induction false} BootingPhase()
    ensures Waits(Booting(), Any, AllAsleep, RestsIn(Idle, SingleIdle))
  {
  }

  /** From reset, whatever the inputs: the cores boot under the vote (ws) until all of them sleep (x). */
  lemma {:induction false} PowersUp(x0: Inputs, ws: seq<Inputs>, x: Inputs)
    requires (forall k | 0 <= k < |ws| :: !All3(ws[k].wfi)) && All3(x.wfi)
    ensures VoterEnabled(Run(POWER, [x0] + ws)) && !ComparatorEnabled(Run(POWER, [x0] + ws))
    ensures AtRest(Run(POWER, [x0] + (ws + [x])), Idle, SingleIdle)
  {
    RunOne(POWER, x0);
    BootingPhase();
    WaitsAndGoesOn(Booting(), Any, AllAsleep, RestsIn(Idle, SingleIdle), Run(POWER, [x0]), ws, x);
    RunSplits(POWER, [x0], ws);
    RunSplits(POWER, [x0], ws + [x]);
  }

  /** A redundant mode configured while the single mode runs: it is entered by way of the handshakes, with all machines
      waiting for the master's call, if and only if no core is halted at that moment; else the single machine keeps
      running beside it. */
  lemma {:induction false} SingleModeSwitches(s: State, x: Inputs, m: Hart, slave: Hart)
    requires AtRest(s, SingleMode, SingleRun) && x.start && !Finished(x) && m != slave
    ensures x.config == 1 ==>
      AtRest(Next(s, x), TmrMode, if x.haltAck == NO_HART then SingleToTmr else SingleRun)
    ensures x.config == 1 ==> (Joining(Next(s, x), m, TmrIdle, TmrIdle) <==> x.haltAck == NO_HART)
    ensures DualConfig(x.config) ==>
      AtRest(Next(s, x), DmrMode, if x.haltAck == NO_HART then SingleToDmr else SingleRun)
    ensures DualConfig(x.config) ==> (AwaitsCall(Next(s, x), m, slave, DmrIdle) <==> x.haltAck == NO_HART)
  {
  }

  /** A stop from outside takes effect if and only if no core is halted and the program has not ended meanwhile. */
  lemma {:induction false} SingleStopsIff(s: State, x: Inputs)
    requires AtRest(s, SingleMode, SingleRun) && !x.start && x.config == 0 && !Finished(x)
    ensures AtRest(Next(s, x), SingleMode, if x.haltAck == NO_HART && !x.endSw then SingleSyncOff else SingleRun)
  {
  }

  /** Stopped from outside (x0), which takes a moment in which no core is halted, the single mode is idle again once all
      cores are awake (ws, x) and the start bit is still low (y). */
  lemma {:induction false} SingleModeStops(s: State, x0: Inputs, ws: seq<Inputs>, x: Inputs, y: Inputs)
    requires AtRest(s, SingleMode, SingleRun) && !x0.start && x0.haltAck == NO_HART && !x0.endSw
    requires forall k | 0 <= k < |ws| :: !ws[k].start && ws[k].wfi != NO_HART
    requires !x.start && x.wfi == NO_HART && !y.start
    ensures AtRest(Run(s, [x0] + (ws + [x])), SingleMode, SingleIdle)
    ensures AtRest(Run(s, [x0] + (ws + [x]) + [y]), Idle, SingleIdle)
  {
    RunOne(s, x0);
    StoppingPhase();
    WaitsAndGoesOn(RestsIn(SingleMode, SingleSyncOff), Stopped, AllAwake, RestsIn(SingleMode, SingleIdle),
      Run(s, [x0]), ws, x);
    RunSplits(s, [x0], ws + [x]);
    RunSplits(s, [x0] + (ws + [x]), [y]);
    RunOne(Run(s, [x0] + (ws + [x])), y);
  }

  predicate Stopped(x: Inputs) {
    !x.start
  }

  predicate AllAwake(x: Inputs) {
    x.wfi == NO_HART
  }

  lemma {:induction false} StoppingPhase()
    ensures Waits(RestsIn(SingleMode, SingleSyncOff), Stopped, AllAwake, RestsIn(SingleMode, SingleIdle))
  {
  }

  // ---------------------------------------------------------------- a redundant mode from idle

  /** Two cycles of configuration 01 with the start bit start all three triple machines; of configuration 10 or 11, the
      dual machines of the mask, and no other. */
  lemma {:induction false} ModesStart(s: State, x0: Inputs, x1: Inputs)
    requires AtRest(s, Idle, SingleIdle) && x0.start && x1.start
    ensures x0.config == 1 ==>
      Run(s, [x0] + [x1]).general == TmrMode && Together(Run(s, [x0] + [x1]), TmrStart)
      && Run(s, [x0] + [x1]).dmr == DMR_REST
    ensures x0.config == 2 || x0.config == 3 ==>
      Run(s, [x0] + [x1]).general == DmrMode && Run(s, [x0] + [x1]).tmr == TMR_REST
      && Run(s, [x0] + [x1]).dmr == x1.mask.Map(b => if b then DmrStart else DmrIdle)
  {
    RunOne(s, x0);
    RunSplits(s, [x0], [x1]);
    RunOne(Next(s, x0), x1);
  }

  /** Any inputs do. */
  predicate Any(x: Inputs) {
    true
  }

  predicate AllAsleep(x: Inputs) {
    All3(x.wfi)
  }

  function TripleIn(i: Hart, t: Tmr): State -> bool {
    (s: State) => s.tmr.At(i) == t
  }

  function DualIn(i: Hart, d: Dmr): State -> bool {
    (s: State) => s.dmr.At(i) == d
  }

  function Halted(i: Hart): Inputs -> bool {
    (x: Inputs) => x.haltAck.At(i)
  }

  function Released(i: Hart): Inputs -> bool {
    (x: Inputs) => !x.haltAck.At(i)
  }

  function Interrupted(i: Hart): Inputs -> bool {
    (x: Inputs) => x.intcAck.At(i)
  }

  lemma {:induction false} TripleBoots(i: Hart)
    ensures Waits(TripleIn(i, TmrStart), Any, Halted(i), TripleIn(i, TmrBoot))
    ensures Waits(TripleIn(i, TmrBoot), Any, Released(i), TripleIn(i, TmrSync))
  {
  }

  lemma {:induction false} DualBoots(i: Hart)
    ensures Waits(DualIn(i, DmrStart), Any, Halted(i), DualIn(i, DmrBoot))
    ensures Waits(DualIn(i, DmrBoot), Any, Released(i), DualIn(i, DmrSync))
  {
  }

  lemma {:induction false} OneMachineEnables(s: State, i: Hart)
    ensures Votes(s.tmr.At(i)) ==> VoterEnabled(s)
    ensures Compares(s.dmr.At(i)) ==> ComparatorEnabled(s)
  {
  }

  /** Each triple machine then boots in its own time, whatever the others do, and the vote is on meanwhile: after any
      wait (ws) its core is halted (x), and after any wait (vs) released (y). */
  lemma {:induction false} TripleMachineBoots(s: State, i: Hart, ws: seq<Inputs>, x: Inputs, vs: seq<Inputs>, y: Inputs)
    requires s.tmr.At(i) == TmrStart
    requires (forall k | 0 <= k < |ws| :: !ws[k].haltAck.At(i)) && x.haltAck.At(i)
    requires (forall k | 0 <= k < |vs| :: vs[k].haltAck.At(i)) && !y.haltAck.At(i)
    ensures VoterEnabled(Run(s, ws)) && VoterEnabled(Run(s, (ws + [x]) + vs))
    ensures Run(s, (ws + [x]) + (vs + [y])).tmr.At(i) == TmrSync
  {
    var halted := Run(s, ws + [x]);
    TripleBoots(i);
    WaitsAndGoesOn(TripleIn(i, TmrStart), Any, Halted(i), TripleIn(i, TmrBoot), s, ws, x);
    WaitsAndGoesOn(TripleIn(i, TmrBoot), Any, Released(i), TripleIn(i, TmrSync), halted, vs, y);
    RunSplits(s, ws + [x], vs);
    RunSplits(s, ws + [x], vs + [y]);
    OneMachineEnables(Run(s, ws), i);
    OneMachineEnables(Run(halted, vs), i);
  }

  /** ... and each dual machine, under the comparison. */
  lemma {:induction false} DualMachineBoots(s: State, i: Hart, ws: seq<Inputs>, x: Inputs, vs: seq<Inputs>, y: Inputs)
    requires s.dmr.At(i) == DmrStart
    requires (forall k | 0 <= k < |ws| :: !ws[k].haltAck.At(i)) && x.haltAck.At(i)
    requires (forall k | 0 <= k < |vs| :: vs[k].haltAck.At(i)) && !y.haltAck.At(i)
    ensures ComparatorEnabled(Run(s, ws)) && ComparatorEnabled(Run(s, (ws + [x]) + vs))
    ensures Run(s, (ws + [x]) + (vs + [y])).dmr.At(i) == DmrSync
  {
    var halted := Run(s, ws + [x]);
    DualBoots(i);
    WaitsAndGoesOn(DualIn(i, DmrStart), Any, Halted(i), DualIn(i, DmrBoot), s, ws, x);
    WaitsAndGoesOn(DualIn(i, DmrBoot), Any, Released(i), DualIn(i, DmrSync), halted, vs, y);
    RunSplits(s, ws + [x], vs);
    RunSplits(s, ws + [x], vs + [y]);
    OneMachineEnables(Run(s, ws), i);
    OneMachineEnables(Run(halted, vs), i);
  }

  // ---------------------------------------------------------------- a pair from the single mode

  /** What the halting machine i of a pair waits for: the master for the slave's acknowledgement and no other, the slave
      for its own. */
  predicate PairAcknowledged(x: Inputs, m: Hart, slave: Hart, i: Hart) {
    if i == m then x.haltAck == Only(slave) else x.haltAck.At(i)
  }

  predicate PairInputs(x: Inputs, m: Hart, slave: Hart) {
    m != slave && x.master == Only(m)
      && x.mask == Three(0 == m || 0 == slave, 1 == m || 1 == slave, 2 == m || 2 == slave)
  }

  function PairOf(m: Hart, slave: Hart): Inputs -> bool {
    (x: Inputs) => PairInputs(x, m, slave)
  }

  function StartedPair(m: Hart, slave: Hart): Inputs -> bool {
    (x: Inputs) => PairInputs(x, m, slave) && x.start
  }

  function PairAcked(m: Hart, slave: Hart, i: Hart): Inputs -> bool {
    (x: Inputs) => PairAcknowledged(x, m, slave, i)
  }

  function Calls(m: Hart): Inputs -> bool {
    (x: Inputs) => Called(x, m)
  }

  /** On the way from single: the master's machine in a, the slave's in b, the third unused. */
  predicate PairJoining(s: State, m: Hart, slave: Hart, a: Dmr, b: Dmr) {
    && m != slave && s.general == DmrMode && s.tmr == TMR_REST
    && s.dmr == Three(if 0 == m then a else if 0 == slave then b else DmrIdle,
                      if 1 == m then a else if 1 == slave then b else DmrIdle,
                      if 2 == m then a else if 2 == slave then b else DmrIdle)
  }

  /** The master's machine waits for its call (ws), asks for a halt (x0), and the slave's follows (x1). The single
      machine is released in the cycle after that if and only if the slave was not acknowledged, alone, as early as x1;
      else both machines are never asking together, and it hangs. */
  lemma {:induction false} PairHaltingBegins(s: State, m: Hart, slave: Hart, ws: seq<Inputs>, x0: Inputs, x1: Inputs,
      x2: Inputs)
    requires PairJoining(s, m, slave, DmrIdle, DmrIdle) && s.single == SingleToDmr
    requires forall k | 0 <= k < |ws| :: PairInputs(ws[k], m, slave) && ws[k].start && !Called(ws[k], m)
    requires PairInputs(x0, m, slave) && x0.start && Called(x0, m)
    requires PairInputs(x1, m, slave) && x1.start && PairInputs(x2, m, slave)
    ensures
      var s1 := Run(s, (ws + [x0]) + [x1]);
      var early := x1.haltAck == Only(slave);
      && PairJoining(s1, m, slave, if early then DmrWaitSh else DmrShHalt, DmrShHalt) && s1.single == SingleToDmr
      && Run(s, (ws + [x0]) + [x1] + [x2]).single == if early then SingleToDmr else SingleIdle
  {
    PairIsCalled(s, m, slave, ws, x0);
    var s0 := Run(s, ws + [x0]);
    RunSplits(s, ws + [x0], [x1]);
    RunOne(s0, x1);
    PairFollows(s0, m, slave, x1);
    RunSplits(s, (ws + [x0]) + [x1], [x2]);
    RunOne(Next(s0, x1), x2);
    PairReleases(Next(s0, x1), m, slave, x2, x1.haltAck == Only(slave));
  }

  predicate AwaitsCall(s: State, m: Hart, slave: Hart, a: Dmr) {
    PairJoining(s, m, slave, a, DmrIdle) && s.single == SingleToDmr
  }

  function CallAwaited(m: Hart, slave: Hart, a: Dmr): State -> bool {
    (s: State) => AwaitsCall(s, m, slave, a)
  }

  lemma {:induction false} PairIsCalled(s: State, m: Hart, slave: Hart, ws: seq<Inputs>, x0: Inputs)
    requires AwaitsCall(s, m, slave, DmrIdle)
    requires forall k | 0 <= k < |ws| :: PairInputs(ws[k], m, slave) && ws[k].start && !Called(ws[k], m)
    requires PairInputs(x0, m, slave) && x0.start && Called(x0, m)
    ensures AwaitsCall(Run(s, ws + [x0]), m, slave, DmrShHalt)
  {
    CallPhase(m, slave);
    WaitsAndGoesOn(CallAwaited(m, slave, DmrIdle), StartedPair(m, slave), Calls(m),
      CallAwaited(m, slave, DmrShHalt), s, ws, x0);
  }

  lemma {:induction false} CallPhase(m: Hart, slave: Hart)
    ensures Waits(CallAwaited(m, slave, DmrIdle), StartedPair(m, slave), Calls(m),
      CallAwaited(m, slave, DmrShHalt))
  {
    forall s, x | AwaitsCall(s, m, slave, DmrIdle) && PairInputs(x, m, slave) && x.start
      ensures AwaitsCall(Next(s, x), m, slave, if Called(x, m) then DmrShHalt else DmrIdle)
    {
      CallOne(s, m, slave, x);
    }
  }

  lemma {:induction false} CallOne(s: State, m: Hart, slave: Hart, x: Inputs)
    requires AwaitsCall(s, m, slave, DmrIdle) && PairInputs(x, m, slave) && x.start
    ensures AwaitsCall(Next(s, x), m, slave, if Called(x, m) then DmrShHalt else DmrIdle)
  {
  }

  lemma {:induction false} PairFollows(s: State, m: Hart, slave: Hart, x: Inputs)
    requires AwaitsCall(s, m, slave, DmrShHalt) && PairInputs(x, m, slave) && x.start
    ensures PairJoining(Next(s, x), m, slave, if x.haltAck == Only(slave) then DmrWaitSh else DmrShHalt, DmrShHalt)
    ensures Next(s, x).single == SingleToDmr
  {
  }

  lemma {:induction false} PairReleases(s: State, m: Hart, slave: Hart, x: Inputs, early: bool)
    requires PairJoining(s, m, slave, if early then DmrWaitSh else DmrShHalt, DmrShHalt) && s.single == SingleToDmr
    ensures Next(s, x).single == if early then SingleToDmr else SingleIdle
  {
  }

  lemma {:induction false} HaltingPhase(m: Hart, slave: Hart, i: Hart)
    requires i == m || i == slave
    ensures Waits(DualIn(i, DmrShHalt), PairOf(m, slave), PairAcked(m, slave, i), DualIn(i, DmrWaitSh))
  {
    forall s, x | DualIn(i, DmrShHalt)(s) && PairOf(m, slave)(x)
      ensures NextDmr(s, x, i) == if PairAcknowledged(x, m, slave, i) then DmrWaitSh else DmrShHalt
    {
      HaltingOne(s, m, slave, i, x);
    }
  }

  lemma {:induction false} HaltingOne(s: State, m: Hart, slave: Hart, i: Hart, x: Inputs)
    requires (i == m || i == slave) && s.dmr.At(i) == DmrShHalt && PairInputs(x, m, slave)
    ensures NextDmr(s, x, i) == if PairAcknowledged(x, m, slave, i) then DmrWaitSh else DmrShHalt
  {
  }

  lemma {:induction false} WakingPhases(i: Hart)
    ensures Waits(DualIn(i, DmrWaitSh), Any, AllAsleep, DualIn(i, DmrMsIntrSync))
    ensures Waits(DualIn(i, DmrMsIntrSync), Any, Interrupted(i), DualIn(i, DmrSync))
  {
  }

  /** Each machine of the pair joins in its own time: halting until acknowledged (ws, x), then until all cores sleep
      (vs, y), then until its own core is interrupted (us, z). */
  lemma {:induction false} PairMachineJoins(s: State, m: Hart, slave: Hart, i: Hart, ws: seq<Inputs>, x: Inputs,
      vs: seq<Inputs>, y: Inputs, us: seq<Inputs>, z: Inputs)
    requires s.dmr.At(i) == DmrShHalt && (i == m || i == slave)
    requires forall k | 0 <= k < |ws| :: PairInputs(ws[k], m, slave) && !PairAcknowledged(ws[k], m, slave, i)
    requires PairInputs(x, m, slave) && PairAcknowledged(x, m, slave, i)
    requires (forall k | 0 <= k < |vs| :: !All3(vs[k].wfi)) && All3(y.wfi)
    requires (forall k | 0 <= k < |us| :: !us[k].intcAck.At(i)) && z.intcAck.At(i)
    ensures Run(s, ws + [x]).dmr.At(i) == DmrWaitSh
    ensures Run(s, (ws + [x]) + (vs + [y])).dmr.At(i) == DmrMsIntrSync
    ensures Run(s, (ws + [x]) + (vs + [y]) + (us + [z])).dmr.At(i) == DmrSync
  {
    HaltingPhase(m, slave, i);
    WakingPhases(i);
    var a := ws + [x];
    var b := a + (vs + [y]);
    WaitsAndGoesOn(DualIn(i, DmrShHalt), PairOf(m, slave), PairAcked(m, slave, i),
      DualIn(i, DmrWaitSh), s, ws, x);
    WaitsAndGoesOn(DualIn(i, DmrWaitSh), Any, AllAsleep, DualIn(i, DmrMsIntrSync), Run(s, a), vs, y);
    RunSplits(s, a, vs + [y]);
    WaitsAndGoesOn(DualIn(i, DmrMsIntrSync), Any, Interrupted(i), DualIn(i, DmrSync), Run(s, b), us, z);
    RunSplits(s, b, us + [z]);
  }

  // ---------------------------------------------------------------- the end of a program

  /** Synchronous machines of either mode that all sleep when their program has ended (x0) are all idle, and with the
      start bit low (x1) so is the controller. */
  lemma {:induction false} RedundantModesFinish(s: State, m: Hart, slave: Hart, x0: Inputs, x1: Inputs)
    requires s.single == SingleIdle && Finished(x0) && !x1.start
    requires
      || (s.general == TmrMode && Together(s, TmrSync) && s.dmr == DMR_REST)
      || (PairJoining(s, m, slave, DmrSync, DmrSync) && PairInputs(x0, m, slave))
    ensures AtRest(Run(s, [x0]), s.general, SingleIdle)
    ensures AtRest(Run(s, [x0] + [x1]), Idle, SingleIdle)
  {
    RunOne(s, x0);
    RunSplits(s, [x0], [x1]);
    RunOne(Next(s, x0), x1);
    if s.general == TmrMode {
      TripleFinishes(s, x0);
    } else {
      PairFinishes(s, m, slave, x0);
    }
  }

  lemma {:induction false} TripleFinishes(s: State, x: Inputs)
    requires s.single == SingleIdle && Finished(x) && s.general == TmrMode && Together(s, TmrSync) && s.dmr == DMR_REST
    ensures AtRest(Next(s, x), TmrMode, SingleIdle)
  {
  }

  lemma {:induction false} PairFinishes(s: State, m: Hart, slave: Hart, x: Inputs)
    requires s.single == SingleIdle && Finished(x) && PairInputs(x, m, slave)
    requires PairJoining(s, m, slave, DmrSync, DmrSync)
    ensures AtRest(Next(s, x), DmrMode, SingleIdle)
  {
  }

  // ---------------------------------------------------------------- back to the single mode

  /** Synchronous machines that all cores' sleep ends (x0) are all in their last state; one cycle later (x1) the single
      mode is on, and another later (x2) the single machine goes on running if and only if the master had not taken its
      interrupt in x1 already; else it starts again from a halt. */
  lemma {:induction false} TripleModeReturns(s: State, m: Hart, x0: Inputs, x1: Inputs, x2: Inputs)
    requires Together(s, TmrSync) && s.general == TmrMode && s.single == SingleIdle && s.dmr == DMR_REST
    requires Leaves(x0) && !x0.endSw && x1.master == Only(m) && x1.start && x2.master == Only(m) && x2.start
      && !x2.endSw
    ensures Together(Run(s, [x0]), TmrEndSync)
    ensures Run(s, [x0] + [x1]).general == SingleMode && Run(s, [x0] + [x1]).single == SingleIdle
    ensures Run(s, [x0] + [x1] + [x2]).single == if x1.intcAck.At(m) then SingleStart else SingleRun
  {
    RunOne(s, x0);
    RunSplits(s, [x0], [x1]);
    RunOne(Next(s, x0), x1);
    RunSplits(s, [x0] + [x1], [x2]);
    RunOne(Next(Next(s, x0), x1), x2);
    TripleEnds(s, x0);
    TripleSwitches(Next(s, x0), m, x1);
    SingleResumes(Next(Next(s, x0), x1), m, x2);
  }

  lemma {:induction false} TripleEnds(s: State, x: Inputs)
    requires Together(s, TmrSync) && s.general == TmrMode && s.single == SingleIdle && s.dmr == DMR_REST
    requires Leaves(x) && !x.endSw
    ensures Together(Next(s, x), TmrEndSync) && Next(s, x).general == TmrMode && Next(s, x).single == SingleIdle
    ensures Next(s, x).dmr == DMR_REST
  {
  }

  lemma {:induction false} TripleSwitches(s: State, m: Hart, x: Inputs)
    requires Together(s, TmrEndSync) && s.general == TmrMode && s.single == SingleIdle && s.dmr == DMR_REST
    requires x.master == Only(m) && x.start
    ensures Next(s, x).general == SingleMode && Next(s, x).single == SingleIdle && Next(s, x).dmr == DMR_REST
    ensures Next(s, x).tmr.At(m) == if x.intcAck.At(m) then TmrIdle else TmrEndSync
  {
  }

  lemma {:induction false} SingleResumes(s: State, m: Hart, x: Inputs)
    requires s.general == SingleMode && s.single == SingleIdle && x.master == Only(m) && x.start && !x.endSw
    ensures Next(s, x).single ==
      if s.tmr.At(m) == TmrEndSync || s.dmr.At(m) == DmrEndSync then SingleRun else SingleStart
  {
  }

  /** The same of a pair, which any sleep of all cores ends. */
  lemma {:induction false} DualModeReturns(s: State, m: Hart, slave: Hart, x0: Inputs, x1: Inputs, x2: Inputs)
    requires PairJoining(s, m, slave, DmrSync, DmrSync) && s.single == SingleIdle && All3(x0.wfi) && !x0.endSw
    requires PairInputs(x0, m, slave) && PairInputs(x1, m, slave) && x1.start
    requires x2.master == Only(m) && x2.start && !x2.endSw
    ensures PairJoining(Run(s, [x0]), m, slave, DmrEndSync, DmrEndSync)
    ensures Run(s, [x0] + [x1]).general == SingleMode && Run(s, [x0] + [x1]).single == SingleIdle
    ensures Run(s, [x0] + [x1] + [x2]).single == if x1.intcAck.At(m) then SingleStart else SingleRun
  {
    RunOne(s, x0);
    RunSplits(s, [x0], [x1]);
    RunOne(Next(s, x0), x1);
    RunSplits(s, [x0] + [x1], [x2]);
    RunOne(Next(Next(s, x0), x1), x2);
    PairEnds(s, m, slave, x0);
    PairSwitches(Next(s, x0), m, slave, x1);
    SingleResumes(Next(Next(s, x0), x1), m, x2);
  }

  lemma {:induction false} PairEnds(s: State, m: Hart, slave: Hart, x: Inputs)
    requires PairJoining(s, m, slave, DmrSync, DmrSync) && s.single == SingleIdle && All3(x.wfi) && !x.endSw
    requires PairInputs(x, m, slave)
    ensures PairJoining(Next(s, x), m, slave, DmrEndSync, DmrEndSync) && Next(s, x).single == SingleIdle
  {
  }

  lemma {:induction false} PairSwitches(s: State, m: Hart, slave: Hart, x: Inputs)
    requires PairJoining(s, m, slave, DmrEndSync, DmrEndSync) && s.single == SingleIdle && PairInputs(x, m, slave)
      && x.start
    ensures Next(s, x).general == SingleMode && Next(s, x).single == SingleIdle && Next(s, x).tmr == TMR_REST
    ensures Next(s, x).dmr.At(m) == if x.intcAck.At(m) then DmrIdle else DmrEndSync
  {
  }
}
