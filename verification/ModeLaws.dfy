/** Which modes exclude each other, and on which inputs: an inductive invariant of the eight machines. */
module ModeLaws {
  import opened Locks
  import opened Harts
  import opened SafeFsm

  // ---------------------------------------------------------------- the invariant

  predicate TmrAtRest(t: Tmr) {
    t == TmrReset || t == TmrIdle || t == TmrEndSync
  }

  predicate DmrAtRest(d: Dmr) {
    d == DmrReset || d == DmrIdle || d == DmrEndSync
  }

  /** Never used, or waiting for its next use. */
  predicate DmrUnused(d: Dmr) {
    d == DmrReset || d == DmrIdle
  }

  predicate NoneOrAll(t: Three<bool>) {
    All3(t) || !Any3(t)
  }

  predicate NoneOrAllOf(t: Three<bool>, mask: Three<bool>) {
    || ((mask.h0 ==> t.h0) && (mask.h1 ==> t.h1) && (mask.h2 ==> t.h2))
    || ((mask.h0 ==> !t.h0) && (mask.h1 ==> !t.h1) && (mask.h2 ==> !t.h2))
  }

  /** Outside its mode a TMR machine rests; inside, the three leave together. */
  predicate TmrInvariant(s: State) {
    if s.general != TmrMode then TmrAtRest(s.tmr.h0) && TmrAtRest(s.tmr.h1) && TmrAtRest(s.tmr.h2)
    else NoneOrAll(Three(s.tmr.h0 == TmrEndSync, s.tmr.h1 == TmrEndSync, s.tmr.h2 == TmrEndSync))
  }

  /** The same of the DMR machines inside the mask; those outside it are unused. */
  predicate DmrInvariant(s: State, mask: Three<bool>) {
    Unmasked(s, mask) && Masked(s, mask)
  }

  predicate Unmasked(s: State, mask: Three<bool>) {
    (!mask.h0 ==> DmrUnused(s.dmr.h0)) && (!mask.h1 ==> DmrUnused(s.dmr.h1)) && (!mask.h2 ==> DmrUnused(s.dmr.h2))
  }

  predicate Masked(s: State, mask: Three<bool>) {
    if s.general != DmrMode then DmrAtRest(s.dmr.h0) && DmrAtRest(s.dmr.h1) && DmrAtRest(s.dmr.h2)
    else NoneOrAllOf(Three(s.dmr.h0 == DmrEndSync, s.dmr.h1 == DmrEndSync, s.dmr.h2 == DmrEndSync), mask)
  }

  // ---------------------------------------------------------------- what is asked of the inputs

  predicate OneHot(t: Three<bool>) {
    t == Three(true, false, false) || t == Three(false, true, false) || t == Three(false, false, true)
  }

  predicate AnyTmr(s: State, t: Tmr) {
    s.tmr.h0 == t || s.tmr.h1 == t || s.tmr.h2 == t
  }

  predicate AnyDmr(s: State, d: Dmr) {
    s.dmr.h0 == d || s.dmr.h1 == d || s.dmr.h2 == d
  }

  /** The master is one core. While a DMR machine is in use the mask does not change, and holds the master. */
  predicate StableMask(s: State, mask: Three<bool>, x: Inputs) {
    && OneHot(x.master)
    && (!DmrUnused(s.dmr.h0) || !DmrUnused(s.dmr.h1) || !DmrUnused(s.dmr.h2) ==>
        && x.mask == mask
        && ((x.master.h0 && mask.h0) || (x.master.h1 && mask.h1) || (x.master.h2 && mask.h2)))
  }

  /** A machine in its last state stays there: the master for an interrupt, the others for sleep. */
  predicate Stays(x: Inputs, i: Hart) {
    if x.master.At(i) then !x.intcAck.At(i) else !x.wfi.At(i)
  }

  function TmrLingering(s: State, x: Inputs): Three<bool> {
    Three(s.tmr.h0 == TmrEndSync && Stays(x, 0), s.tmr.h1 == TmrEndSync && Stays(x, 1),
      s.tmr.h2 == TmrEndSync && Stays(x, 2))
  }

  function DmrLingering(s: State, x: Inputs): Three<bool> {
    Three(s.dmr.h0 == DmrEndSync && Stays(x, 0), s.dmr.h1 == DmrEndSync && Stays(x, 1),
      s.dmr.h2 == DmrEndSync && Stays(x, 2))
  }

  /** A mode is started from the single mode or from idle. */
  predicate Starts(s: State, x: Inputs) {
    (s.general == Idle || s.general == SingleMode) && x.start
  }

  /** Inside the triple mode, sleep that ends it finds all machines synchronous or none; and when the mode is
      entered, none of its machines still lingers in its last state, or all do. */
  predicate TmrGuard(s: State, x: Inputs) {
    if s.general == TmrMode then
      All3(x.wfi) && !x.endSw && x.config != 1 && AnyTmr(s, TmrSync) ==> s.tmr == Three(TmrSync, TmrSync, TmrSync)
    else
      Starts(s, x) && x.config == 1 ==> NoneOrAll(TmrLingering(s, x))
  }

  /** The same of the dual mode, for the machines in the mask. */
  predicate DmrGuard(s: State, x: Inputs) {
    if s.general == DmrMode then
      All3(x.wfi) && !x.endSw && AnyDmr(s, DmrSync) ==>
        NoneOrAllOf(Three(s.dmr.h0 == DmrSync, s.dmr.h1 == DmrSync, s.dmr.h2 == DmrSync), x.mask)
    else
      Starts(s, x) && DualConfig(x.config) ==> NoneOrAllOf(DmrLingering(s, x), x.mask)
  }

  predicate Guarded(s: State, x: Inputs) {
    TmrGuard(s, x) && DmrGuard(s, x)
  }

  // ---------------------------------------------------------------- when the invariant is kept

  /** The configuration test of the dual machines never blocks: in any configuration, also a dual one, all
      cores asleep end the mode. */
  lemma {:induction false} SleepAlwaysEndsDual(s: State, x: Inputs, i: Hart)
    requires s.dmr.At(i) == DmrSync
    ensures All3(x.wfi) <==> NextDmr(s, x, i) == DmrEndSync || NextDmr(s, x, i) == DmrIdle
  {
    assert x.config != 2 || x.config != 3;
  }

  /** Exactly the guard keeps the invariant of the triple mode. */
  lemma {:induction false} TmrKeptIff(s: State, x: Inputs)
    requires TmrInvariant(s) && Any3(x.master)
    ensures TmrInvariant(Next(s, x)) <==> TmrGuard(s, x)
  {
    if s.general == TmrMode {
      TmrInside(s, x);
    } else {
      TmrOutside(s, x);
    }
  }

  lemma {:induction false} TmrInside(s: State, x: Inputs)
    requires TmrInvariant(s) && Any3(x.master) && s.general == TmrMode
    ensures TmrInvariant(Next(s, x)) <==> TmrGuard(s, x)
  {
  }

  lemma {:induction false} TmrOutside(s: State, x: Inputs)
    requires TmrInvariant(s) && s.general != TmrMode
    ensures TmrInvariant(Next(s, x)) <==> TmrGuard(s, x)
  {
  }

  /** Exactly the guard keeps the invariant of the dual mode, as long as the mask is stable. */
  lemma {:induction false} DmrKeptIff(s: State, mask: Three<bool>, x: Inputs)
    requires DmrInvariant(s, mask) && StableMask(s, mask, x)
    ensures DmrInvariant(Next(s, x), x.mask) <==> DmrGuard(s, x)
  {
    DmrUnmaskedKept(s, mask, x);
    if s.general == DmrMode {
      DmrInside(s, mask, x);
    } else {
      DmrOutside(s, mask, x);
    }
  }

  lemma {:induction false} DmrUnmaskedKept(s: State, mask: Three<bool>, x: Inputs)
    requires Unmasked(s, mask) && StableMask(s, mask, x)
    ensures Unmasked(Next(s, x), x.mask)
  {
  }

  lemma {:induction false} DmrInside(s: State, mask: Three<bool>, x: Inputs)
    requires DmrInvariant(s, mask) && StableMask(s, mask, x) && s.general == DmrMode
    ensures Masked(Next(s, x), x.mask) <==> DmrGuard(s, x)
  {
    if AnyDmr(s, DmrEndSync) {
      DmrEnding(s, mask, x);
    } else {
      DmrRunning(s, mask, x);
    }
  }

  lemma {:induction false} DmrEnding(s: State, mask: Three<bool>, x: Inputs)
    requires DmrInvariant(s, mask) && StableMask(s, mask, x) && s.general == DmrMode && AnyDmr(s, DmrEndSync)
    ensures Masked(Next(s, x), x.mask) && DmrGuard(s, x)
  {
  }

  /** Which machines end the mode in this cycle. */
  lemma {:induction false} DmrEnds(s: State, x: Inputs, i: Hart)
    requires s.dmr.At(i) != DmrEndSync
    ensures NextDmr(s, x, i) == DmrEndSync <==> All3(x.wfi) && !x.endSw && s.dmr.At(i) == DmrSync
    ensures DmrUnused(s.dmr.At(i)) && (!x.mask.At(i) || !x.start) ==> NextDmr(s, x, i) == DmrIdle
  {
  }

  lemma {:induction false} DmrRunning(s: State, mask: Three<bool>, x: Inputs)
    requires DmrInvariant(s, mask) && StableMask(s, mask, x) && s.general == DmrMode && !AnyDmr(s, DmrEndSync)
    ensures Masked(Next(s, x), x.mask) <==> DmrGuard(s, x)
  {
    DmrEnds(s, x, 0);
    DmrEnds(s, x, 1);
    DmrEnds(s, x, 2);
  }

  lemma {:induction false} DmrOutside(s: State, mask: Three<bool>, x: Inputs)
    requires DmrInvariant(s, mask) && StableMask(s, mask, x) && s.general != DmrMode
    ensures Masked(Next(s, x), x.mask) <==> DmrGuard(s, x)
  {
  }

  // ---------------------------------------------------------------- whole runs

  /** The mask of the last cycle. */
  function LastMask(xs: seq<Inputs>): Three<bool> {
    if xs == [] then NO_HART else xs[|xs| - 1].mask
  }

  /** Every cycle of a run from reset satisfies ok, given the state and the mask of the cycle before. */
  ghost predicate Throughout(ok: (State, Three<bool>, Inputs) -> bool, xs: seq<Inputs>) {
    xs != [] ==>
      Throughout(ok, xs[..|xs| - 1]) && ok(Run(POWER, xs[..|xs| - 1]), LastMask(xs[..|xs| - 1]), xs[|xs| - 1])
  }

  ghost predicate StableRun(xs: seq<Inputs>) {
    Throughout((s, mask, x) => StableMask(s, mask, x), xs)
  }

  ghost predicate GuardedRun(xs: seq<Inputs>) {
    Throughout((s, mask, x) => Guarded(s, x), xs)
  }

  predicate Disciplined(s: State, mask: Three<bool>) {
    TmrInvariant(s) && DmrInvariant(s, mask)
  }

  /** Both invariants hold from reset to the end of the run. */
  ghost predicate AlwaysDisciplined(xs: seq<Inputs>) {
    Disciplined(Run(POWER, xs), LastMask(xs)) && (xs != [] ==> AlwaysDisciplined(xs[..|xs| - 1]))
  }

  lemma {:induction false} DisciplineStepIff(s: State, mask: Three<bool>, x: Inputs)
    requires Disciplined(s, mask) && StableMask(s, mask, x)
    ensures Disciplined(Next(s, x), x.mask) <==> Guarded(s, x)
  {
    TmrKeptIff(s, x);
    DmrKeptIff(s, mask, x);
  }

  /** On every run from reset under a stable mask, of any length: the invariants hold throughout if and only if
      every cycle meets the guard. */
  lemma {:induction false} DisciplineIff(xs: seq<Inputs>)
    requires StableRun(xs)
    ensures AlwaysDisciplined(xs) <==> GuardedRun(xs)
  {
    if xs == [] {
      assert Disciplined(POWER, NO_HART);
    } else {
      var p, x := xs[..|xs| - 1], xs[|xs| - 1];
      assert StableRun(p) && StableMask(Run(POWER, p), LastMask(p), x);
      DisciplineIff(p);
      if AlwaysDisciplined(p) {
        DisciplineStepIff(Run(POWER, p), LastMask(p), x);
      }
    }
  }

  /** So on every such run the voter works only at boot or in the triple mode, the comparators only in the dual
      mode, and never both. */
  lemma {:induction false} ModesExclude(xs: seq<Inputs>)
    requires StableRun(xs) && GuardedRun(xs)
    ensures var s := Run(POWER, xs);
      && (VoterEnabled(s) ==> s.general == Boot || s.general == TmrMode)
      && (ComparatorEnabled(s) ==> s.general == DmrMode)
      && !(VoterEnabled(s) && ComparatorEnabled(s))
  {
    DisciplineIff(xs);
    InvariantExcludes(Run(POWER, xs), LastMask(xs));
  }

  lemma {:induction false} InvariantExcludes(s: State, mask: Three<bool>)
    requires Disciplined(s, mask)
    ensures VoterEnabled(s) ==> s.general == Boot || s.general == TmrMode
    ensures ComparatorEnabled(s) ==> s.general == DmrMode
  {
  }

  // ---------------------------------------------------------------- a simpler condition

  /** No new mode is configured while a machine lingers in its last state outside its own mode. */
  predicate QuietConfiguration(s: State, x: Inputs) {
    (s.general == Idle || s.general == SingleMode) && (AnyTmr(s, TmrEndSync) || AnyDmr(s, DmrEndSync)) ==> x.config == 0
  }

  /** When all cores sleep, which ends a synchronous mode, the machines of that mode are all in it. */
  predicate SleepTogether(s: State, x: Inputs) {
    All3(x.wfi) && !x.endSw ==>
      && (AnyTmr(s, TmrSync) && x.config != 1 ==> s.tmr == Three(TmrSync, TmrSync, TmrSync))
      && (AnyDmr(s, DmrSync) ==>
          && (x.mask.h0 ==> s.dmr.h0 == DmrSync)
          && (x.mask.h1 ==> s.dmr.h1 == DmrSync)
          && (x.mask.h2 ==> s.dmr.h2 == DmrSync))
  }

  predicate Orderly(s: State, mask: Three<bool>, x: Inputs) {
    StableMask(s, mask, x) && QuietConfiguration(s, x) && SleepTogether(s, x)
  }

  /** What software can promise without looking at acknowledgements is enough for the guard. */
  lemma {:induction false} OrderlyIsGuarded(s: State, mask: Three<bool>, x: Inputs)
    requires Orderly(s, mask, x)
    ensures Guarded(s, x)
  {
  }

  // ---------------------------------------------------------------- each condition is needed

  datatype Waived = WaivedMask | WaivedConfiguration | WaivedSleep

  /** All that Orderly asks, except for one of its three conditions. */
  ghost predicate OrderlyBut(w: Waived, s: State, mask: Three<bool>, x: Inputs) {
    && OneHot(x.master)
    && (w.WaivedMask? || StableMask(s, mask, x))
    && (w.WaivedConfiguration? || QuietConfiguration(s, x))
    && (w.WaivedSleep? || SleepTogether(s, x))
  }

  ghost predicate OrderlyRunBut(w: Waived, xs: seq<Inputs>) {
    Throughout((s, mask, x) => OrderlyBut(w, s, mask, x), xs)
  }

  /** Some run with one condition waived comes to s: a fact that Unlock releases where it is needed. */
  ghost predicate Reached(w: Waived, s: State, mask: Three<bool>) {
    forall k: int :: Unlock(k) ==> exists xs :: OrderlyRunBut(w, xs) && Run(POWER, xs) == s && LastMask(xs) == mask
  }

  lemma {:induction false} Extend(w: Waived, xs: seq<Inputs>, x: Inputs)
    requires OrderlyRunBut(w, xs) && OrderlyBut(w, Run(POWER, xs), LastMask(xs), x)
    ensures OrderlyRunBut(w, xs + [x]) && Run(POWER, xs + [x]) == Next(Run(POWER, xs), x)
      && LastMask(xs + [x]) == x.mask
  {
    assert (xs + [x])[..|xs + [x]| - 1] == xs;
  }

  lemma {:induction false} Move(w: Waived, s: State, mask: Three<bool>, x: Inputs, s': State)
    requires Reached(w, s, mask) && OrderlyBut(w, s, mask, x) && Next(s, x) == s'
    ensures Reached(w, s', x.mask)
  {
    assert Unlock(0);
    var xs :| OrderlyRunBut(w, xs) && Run(POWER, xs) == s && LastMask(xs) == mask;
    Extend(w, xs, x);
  }

  const EVERYBODY := Three(true, true, true)
  const FIRST_TWO := Three(true, true, false)
  const FIRST := Three(true, false, false)

  /** Core 0 is master, the mask holds cores 0 and 1, and nothing happens. */
  const QUIESCENT := Inputs(FIRST_TWO, false, 0, false, NO_HART, NO_HART, NO_HART, FIRST, false, NO_HART, false, true)

  const TRIPLE := QUIESCENT.(start := true, config := 1)
  const DUAL := QUIESCENT.(start := true, config := 2)
  const LEAVE := QUIESCENT.(start := true, wfi := EVERYBODY, endSw := false)

  function At(general: General, tmr: Three<Tmr>, dmr: Three<Dmr>): State {
    State(general, SingleIdle, tmr, dmr, Latch(false, false), false)
  }

  const TMR_IDLES := Three(TmrIdle, TmrIdle, TmrIdle)
  const DMR_IDLES := Three(DmrIdle, DmrIdle, DmrIdle)

  function TmrAt(general: General, h0: Tmr, h1: Tmr, h2: Tmr): State {
    At(general, Three(h0, h1, h2), DMR_IDLES)
  }

  function DmrAt(general: General, h0: Dmr, h1: Dmr, h2: Dmr): State {
    At(general, TMR_IDLES, Three(h0, h1, h2))
  }

  /** Core 0's machine in state first, the others starting. */
  function Mixed(general: General, first: Tmr): State {
    TmrAt(general, first, TmrStart, TmrStart)
  }

  lemma {:induction false} ComesToBoot(w: Waived)
    ensures Reached(w, At(Boot, TMR_IDLES, DMR_IDLES), FIRST_TWO)
  {
    var none: seq<Inputs> := [];
    assert OrderlyRunBut(w, none) && Run(POWER, none) == POWER && LastMask(none) == NO_HART;
    Move(w, POWER, NO_HART, QUIESCENT, At(Boot, TMR_IDLES, DMR_IDLES));
  }

  lemma {:induction false} ComesToIdle(w: Waived)
    ensures Reached(w, At(Idle, TMR_IDLES, DMR_IDLES), FIRST_TWO)
  {
    ComesToBoot(w);
    Move(w, At(Boot, TMR_IDLES, DMR_IDLES), FIRST_TWO, QUIESCENT.(wfi := EVERYBODY), At(Idle, TMR_IDLES, DMR_IDLES));
  }

  lemma {:induction false} ComesToTmrMode(w: Waived)
    ensures Reached(w, At(TmrMode, TMR_IDLES, DMR_IDLES), FIRST_TWO)
  {
    ComesToIdle(w);
    Move(w, At(Idle, TMR_IDLES, DMR_IDLES), FIRST_TWO, TRIPLE, At(TmrMode, TMR_IDLES, DMR_IDLES));
  }

  lemma {:induction false} ComesToTmrStart(w: Waived)
    ensures Reached(w, Mixed(TmrMode, TmrStart), FIRST_TWO)
  {
    ComesToTmrMode(w);
    Move(w, At(TmrMode, TMR_IDLES, DMR_IDLES), FIRST_TWO, TRIPLE, Mixed(TmrMode, TmrStart));
  }

  /** Some run with one condition waived ends with voter and comparator both at work. */
  ghost predicate Collides(w: Waived) {
    exists xs :: OrderlyRunBut(w, xs) && VoterEnabled(Run(POWER, xs)) && ComparatorEnabled(Run(POWER, xs))
  }

  lemma {:induction false} Collision(w: Waived, s: State, mask: Three<bool>)
    requires Reached(w, s, mask) && VoterEnabled(s) && ComparatorEnabled(s)
    ensures Collides(w)
  {
    assert Unlock(0);
  }

  /** TMR machines that vote while the single mode is on: the dual mode is entered beside them ... */
  lemma {:induction false} DualModeEntered(w: Waived, first: Tmr)
    requires first == TmrIdle || (first == TmrEndSync && w.WaivedConfiguration?)
    requires Reached(w, Mixed(SingleMode, first), FIRST_TWO)
    ensures Reached(w, Mixed(DmrMode, first), FIRST_TWO)
  {
    Move(w, Mixed(SingleMode, first), FIRST_TWO, DUAL, Mixed(DmrMode, first));
  }

  /** ... and its machines start. */
  lemma {:induction false} DualModeJoins(w: Waived, first: Tmr)
    requires first == TmrIdle || first == TmrEndSync
    requires Reached(w, Mixed(DmrMode, first), FIRST_TWO)
    ensures Collides(w)
  {
    var joined := At(DmrMode, Three(first, TmrStart, TmrStart), Three(DmrStart, DmrStart, DmrIdle));
    Move(w, Mixed(DmrMode, first), FIRST_TWO, DUAL, joined);
    Collision(w, joined, FIRST_TWO);
  }

  lemma {:induction false} ComesToTmrEnd(w: Waived)
    ensures Reached(w, TmrAt(TmrMode, TmrEndSync, TmrEndSync, TmrEndSync), FIRST_TWO)
  {
    var boots, syncs := TmrAt(TmrMode, TmrBoot, TmrBoot, TmrBoot), TmrAt(TmrMode, TmrSync, TmrSync, TmrSync);
    ComesToTmrStart(w);
    Move(w, Mixed(TmrMode, TmrStart), FIRST_TWO, TRIPLE.(haltAck := EVERYBODY), boots);
    Move(w, boots, FIRST_TWO, TRIPLE, syncs);
    Move(w, syncs, FIRST_TWO, LEAVE, TmrAt(TmrMode, TmrEndSync, TmrEndSync, TmrEndSync));
  }

  /** A new configuration while the master lingers in its last TMR state: the others start again, the master
      switches the mode under them, and a second mode starts. */
  lemma {:induction false} ConfigurationMatters()
    ensures Collides(WaivedConfiguration)
  {
    var w := WaivedConfiguration;
    var ends := TmrAt(TmrMode, TmrEndSync, TmrEndSync, TmrEndSync);
    var lingers := TmrAt(SingleMode, TmrEndSync, TmrIdle, TmrIdle);
    ComesToTmrEnd(w);
    Move(w, ends, FIRST_TWO, TRIPLE.(wfi := EVERYBODY), lingers);
    Move(w, lingers, FIRST_TWO, TRIPLE, lingers.(general := TmrMode));
    Move(w, lingers.(general := TmrMode), FIRST_TWO, TRIPLE, Mixed(SingleMode, TmrEndSync));
    DualModeEntered(w, TmrEndSync);
    DualModeJoins(w, TmrEndSync);
  }

  lemma {:induction false} ComesToOneSync(w: Waived)
    ensures Reached(w, Mixed(TmrMode, TmrSync), FIRST_TWO)
  {
    ComesToTmrStart(w);
    Move(w, Mixed(TmrMode, TmrStart), FIRST_TWO, TRIPLE.(haltAck := FIRST), Mixed(TmrMode, TmrBoot));
    Move(w, Mixed(TmrMode, TmrBoot), FIRST_TWO, TRIPLE, Mixed(TmrMode, TmrSync));
  }

  /** All cores asleep while one machine is synchronous and the others still start: it ends the mode alone. */
  lemma {:induction false} SleepMatters()
    ensures Collides(WaivedSleep)
  {
    var w := WaivedSleep;
    ComesToOneSync(w);
    Move(w, Mixed(TmrMode, TmrSync), FIRST_TWO, LEAVE, Mixed(TmrMode, TmrEndSync));
    Move(w, Mixed(TmrMode, TmrEndSync), FIRST_TWO, TRIPLE.(intcAck := FIRST), Mixed(SingleMode, TmrIdle));
    DualModeEntered(w, TmrIdle);
    DualModeJoins(w, TmrIdle);
  }

  lemma {:induction false} ComesToDmrMode(w: Waived)
    ensures Reached(w, At(DmrMode, TMR_IDLES, DMR_IDLES), FIRST_TWO)
  {
    ComesToIdle(w);
    Move(w, At(Idle, TMR_IDLES, DMR_IDLES), FIRST_TWO, DUAL, At(DmrMode, TMR_IDLES, DMR_IDLES));
  }

  lemma {:induction false} ComesToDmrBoot(w: Waived)
    ensures Reached(w, DmrAt(DmrMode, DmrBoot, DmrBoot, DmrIdle), FIRST_TWO)
  {
    var starts := DmrAt(DmrMode, DmrStart, DmrStart, DmrIdle);
    ComesToDmrMode(w);
    Move(w, At(DmrMode, TMR_IDLES, DMR_IDLES), FIRST_TWO, DUAL, starts);
    Move(w, starts, FIRST_TWO, DUAL.(haltAck := EVERYBODY), DmrAt(DmrMode, DmrBoot, DmrBoot, DmrIdle));
  }

  lemma {:induction false} ComesToDmrEnd(w: Waived)
    ensures Reached(w, DmrAt(DmrMode, DmrEndSync, DmrEndSync, DmrIdle), FIRST_TWO)
  {
    var syncs := DmrAt(DmrMode, DmrSync, DmrSync, DmrIdle);
    ComesToDmrBoot(w);
    Move(w, DmrAt(DmrMode, DmrBoot, DmrBoot, DmrIdle), FIRST_TWO, DUAL, syncs);
    Move(w, syncs, FIRST_TWO, LEAVE, DmrAt(DmrMode, DmrEndSync, DmrEndSync, DmrIdle));
  }

  /** A mask that changes while the dual machines end their mode: a new machine starts as the mode is left ... */
  lemma {:induction false} MachineStartsLate()
    ensures Reached(WaivedMask, DmrAt(TmrMode, DmrIdle, DmrIdle, DmrStart), FIRST_TWO)
  {
    var w, late := WaivedMask, DmrAt(SingleMode, DmrIdle, DmrIdle, DmrStart);
    var change := DUAL.(mask := EVERYBODY, intcAck := FIRST, wfi := EVERYBODY);
    ComesToDmrEnd(w);
    Move(w, DmrAt(DmrMode, DmrEndSync, DmrEndSync, DmrIdle), FIRST_TWO, change, late);
    Move(w, late, EVERYBODY, TRIPLE, late.(general := TmrMode));
  }

  /** ... and is still compared when the triple mode has started. */
  lemma {:induction false} MaskMatters()
    ensures Collides(WaivedMask)
  {
    var joined := At(TmrMode, Three(TmrStart, TmrStart, TmrStart), Three(DmrIdle, DmrIdle, DmrStart));
    MachineStartsLate();
    Move(WaivedMask, DmrAt(TmrMode, DmrIdle, DmrIdle, DmrStart), FIRST_TWO, TRIPLE, joined);
    Collision(WaivedMask, joined, FIRST_TWO);
  }
}
