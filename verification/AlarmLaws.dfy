/** The controller and the datapath together: the mode that the controller drives, and what it does in the cycle in
    which a voter or a comparator objects. */
module AlarmLaws {
  import opened Obi
  import opened Harts
  import opened DmrComparator
  import opened TmrVoter
  import opened SafeWrapper
  import opened Cores
  import opened Machines
  import opened RedundancyLaws
  import opened ShiftedLaws
  import F = SafeFsm
  import LatchLaws
  import HandshakeLaws

  // ---------------------------------------------------------------- the mode that the controller drives

  /** The control signals of the datapath; master is its own copy of the master, which changes only when all cores
      sleep. */
  function ModeOf(c: F.State, x: F.Inputs, master: Three<bool>): Mode {
    Mode(master, F.VoterEnabled(c), F.ComparatorEnabled(c), F.Shifting(c, x), F.DmrConfig(c), F.Isolating(c))
  }

  /** Machine m in state a, slave in state b, the third unused. */
  predicate PairIn(c: F.State, m: Hart, slave: Hart, a: F.Dmr, b: F.Dmr) {
    m != slave && forall i: Hart :: c.dmr.At(i) == if i == m then a else if i == slave then b else F.DmrIdle
  }

  lemma {:induction false} PairParts(c: F.State, m: Hart, slave: Hart, a: F.Dmr, b: F.Dmr)
    requires PairIn(c, m, slave, a, b)
    ensures c.dmr == Three(if 0 == m then a else if 0 == slave then b else F.DmrIdle,
        if 1 == m then a else if 1 == slave then b else F.DmrIdle,
        if 2 == m then a else if 2 == slave then b else F.DmrIdle)
  {
    assert c.dmr.At(0) == c.dmr.h0 && c.dmr.At(1) == c.dmr.h1 && c.dmr.At(2) == c.dmr.h2;
  }

  lemma {:induction false} PairSignals(c: F.State, m: Hart, slave: Hart, a: F.Dmr, b: F.Dmr)
    requires m != slave && F.Compares(a) && F.Compares(b)
    requires c.dmr == Three(if 0 == m then a else if 0 == slave then b else F.DmrIdle,
        if 1 == m then a else if 1 == slave then b else F.DmrIdle,
        if 2 == m then a else if 2 == slave then b else F.DmrIdle)
    ensures F.ComparatorEnabled(c)
    ensures F.DmrConfig(c) == Three(0 == m || 0 == slave, 1 == m || 1 == slave, 2 == m || 2 == slave)
  {
  }

  lemma {:induction false} IsolatesStopped(c: F.State, i: Hart)
    ensures F.Isolating(c).At(i) <==> c.dmr.At(i) == F.DmrStop
  {
  }

  /** Two dual machines in use, in any states in which they compare, make the datapath compare exactly their two cores:
      shifted in time if the time shift is on, cycle by cycle if not; and it isolates exactly the stopped ones. */
  lemma {:induction false} PairIsCompared(c: F.State, x: F.Inputs, m: Hart, slave: Hart, a: F.Dmr, b: F.Dmr)
    requires PairIn(c, m, slave, a, b) && F.Compares(a) && F.Compares(b) && !F.VoterEnabled(c)
    ensures var mode := ModeOf(c, x, HandshakeLaws.Only(m));
      && (forall i: Hart :: mode.wfi.At(i) <==> c.dmr.At(i) == F.DmrStop)
      && var awake := mode.(wfi := F.NO_HART);
      if F.Shifting(c, x) then ShiftedMode(awake, m, slave) else DualMode(awake, m, slave)
  {
    PairParts(c, m, slave, a, b);
    PairSignals(c, m, slave, a, b);
    forall i: Hart ensures F.Isolating(c).At(i) <==> c.dmr.At(i) == F.DmrStop {
      IsolatesStopped(c, i);
    }
    PairCounts(ModeOf(c, x, HandshakeLaws.Only(m)).(wfi := F.NO_HART), m, slave);
  }

  lemma {:induction false} PairCounts(mode: Mode, m: Hart, slave: Hart)
    requires m != slave && mode.master == HandshakeLaws.Only(m) && !mode.voter && mode.dual && NoneIsolated(mode)
    requires mode.dmrConfig == Three(0 == m || 0 == slave, 1 == m || 1 == slave, 2 == m || 2 == slave)
    ensures if mode.delayed then ShiftedMode(mode, m, slave) else DualMode(mode, m, slave)
  {
  }

  /** Three aligned triple machines make it vote over the three cores. */
  lemma {:induction false} TripleIsVoted(c: F.State, x: F.Inputs, m: Hart, t: F.Tmr)
    requires LatchLaws.Together(c, t) && LatchLaws.Shared(t) && !F.ComparatorEnabled(c) && !F.Shifting(c, x)
    requires F.Isolating(c) == F.NO_HART
    ensures TmrMode(ModeOf(c, x, HandshakeLaws.Only(m)), m)
  {
  }

  /** A stopped machine cuts its core off: it hears its isolator, whatever the datapath does. */
  lemma {:induction false} StoppedIsIsolated(c: F.State, x: F.Inputs, master: Three<bool>, i: Hart)
    ensures ResponseSource(ModeOf(c, x, master), i) == Isolated <==> c.dmr.At(i) == F.DmrStop
  {
    AsleepIffIsolated(ModeOf(c, x, master), i);
  }

  // ---------------------------------------------------------------- a comparator objects

  /** Controller inputs xs beside a trace of the datapath: the error of comparator m is the one seen, the other two
      comparators say what they like; m is the master, and the cores are not all asleep. */
  predicate Reports(m: Hart, t: seq<Visible>, xs: seq<F.Inputs>) {
    && |xs| == |t|
    && (forall k | 0 <= k < |t| ::
         xs[k].dmrError.At(m) == t[k].comparatorError && xs[k].master == HandshakeLaws.Only(m) && !F.All3(xs[k].wfi))
  }

  /** Up to the first error a synchronous machine is synchronous, and with it it stops. */
  lemma {:induction false} FirstErrorStops(m: Hart, i: Hart, t: seq<Visible>, c: F.State, xs: seq<F.Inputs>, k: nat)
    requires Reports(m, t, xs) && c.dmr.At(i) == F.DmrSync && k < |t| && All(NoComparatorError, t[..k])
    ensures F.Run(c, xs[..k]).dmr.At(i) == F.DmrSync
    ensures F.Run(c, xs[..k + 1]).dmr.At(i) == if t[k].comparatorError then F.DmrStop else F.DmrSync
  {
    if k > 0 {
      assert t[..k - 1] == t[..k][..k - 1] && !t[..k][k - 1].comparatorError;
      FirstErrorStops(m, i, t, c, xs, k - 1);
    } else {
      assert xs[..0] == [];
    }
    assert xs[..k + 1][..k] == xs[..k];
    HandshakeLaws.ErrorStops(F.Run(c, xs[..k]), xs[k], m, i);
  }

  /** Cycle by cycle: in every cycle up to the first error the bus carries what a fault-free core would request and
      both machines are synchronous; in the cycle of the error every bus is silent, and both machines stop, whatever
      the other two comparators say. */
  lemma {:induction false} DualAlarm<S, M(!new)>(core: Core<S>, mem: Memory<M>, mode: Mode, m: Hart, slave: Hart,
      f: Hart, h: Hart, s: System<S, M>, es: seq<Event>, c: F.State, xs: seq<F.Inputs>, k: nat)
    requires DualMode(mode, m, slave) && ((f == m && h == slave) || (f == slave && h == m)) && RespectsMeaning(mem)
    requires Reports(m, Trace(Redundant(core, mem, mode, m, f), s, es), xs)
    requires c.dmr.At(m) == F.DmrSync && c.dmr.At(slave) == F.DmrSync
    requires k < |es| && All(NoComparatorError, Trace(Redundant(core, mem, mode, m, f), s, es)[..k])
    ensures
      var v, c' := Trace(Redundant(core, mem, mode, m, f), s, es)[k], F.Run(c, xs[..k + 1]);
      if v.comparatorError then AllBusesSilent(v) && c'.dmr.At(m) == F.DmrStop && c'.dmr.At(slave) == F.DmrStop
      else
        && SameOnBus(v, Trace(FaultFree(core, mem, m), Golden(s.cores.At(h), s.mem), Inputs(LinesOf, es))[k])
        && c'.dmr.At(m) == F.DmrSync && c'.dmr.At(slave) == F.DmrSync
  {
    ComparisonIsFailSilent(core, mem, mode, m, slave, f, h, s, es, k);
    FirstErrorStops(m, m, Trace(Redundant(core, mem, mode, m, f), s, es), c, xs, k);
    FirstErrorStops(m, slave, Trace(Redundant(core, mem, mode, m, f), s, es), c, xs, k);
  }

  /** The same of the time-shifted pair, against the core that a healthy shadow stands for. */
  lemma {:induction false} ShiftedAlarm<S, M(!new)>(g: Setting<S, M>, s: Hart, w: Whole<S, M>, es: seq<Strike>,
      c: F.State, xs: seq<F.Inputs>, k: nat)
    requires ShiftedMode(g.mode, g.m, s) && DeepWhole(w, g.n) && !g.hit.At(s) && RespectsMeaning(g.mem)
    requires Reports(g.m, Trace(ShiftedPair(g), w, es), xs)
    requires c.dmr.At(g.m) == F.DmrSync && c.dmr.At(s) == F.DmrSync
    requires k < |es| && All(NoComparatorError, Trace(ShiftedPair(g), w, es)[..k])
    ensures
      var v, c' := Trace(ShiftedPair(g), w, es)[k], F.Run(c, xs[..k + 1]);
      if v.comparatorError then AllBusesSilent(v) && c'.dmr.At(g.m) == F.DmrStop && c'.dmr.At(s) == F.DmrStop
      else
        && SameOnBus(v, Trace(LateCore(g.core, g.mem, g.m), LateOf(w, s), Inputs(StrikeLines, es))[k])
        && c'.dmr.At(g.m) == F.DmrSync && c'.dmr.At(s) == F.DmrSync
  {
    ShiftedComparisonIsFailSilent(g, s, w, es, k);
    FirstErrorStops(g.m, g.m, Trace(ShiftedPair(g), w, es), c, xs, k);
    FirstErrorStops(g.m, s, Trace(ShiftedPair(g), w, es), c, xs, k);
  }

  // ---------------------------------------------------------------- a voter objects

  /** The error line of the three voters together. */
  predicate VoterError(mode: Mode, reqs: Three<Ports>) {
    VoterVerdict(mode, reqs, 0).error || VoterVerdict(mode, reqs, 1).error || VoterVerdict(mode, reqs, 2).error
  }

  /** What a fault can be told by: a port on which the healthy cores request, and the faulty one otherwise. */
  ghost predicate Tells(healthy: Ports, fault: Ports) {
    || (healthy.instr.req && !SameMeaning(healthy.instr, fault.instr))
    || (healthy.data.req && !SameMeaning(healthy.data, fault.data))
  }

  /** The same system, showing the error line in each cycle. */
  function ErrorLine<S, M>(core: Core<S>, mem: Memory<M>, mode: Mode, m: Hart,
      f: Hart): Machine<System<S, M>, Event, bool> {
    Machine(Redundant(core, mem, mode, m, f).next, (s, x) => VoterError(mode, Requests(core, mem, mode, f, s, x)))
  }

  lemma {:induction false} OnlyTheMastersVoter(mode: Mode, m: Hart, reqs: Three<Ports>)
    requires TmrMode(mode, m)
    ensures VoterError(mode, reqs) == Judge(reqs, true).error
  {
    OneMasterIs(mode, m);
    assert VoterInput(mode, reqs, m) == reqs;
    forall k: Hart | k != m ensures !VoterVerdict(mode, reqs, k).error {
    }
    assert VoterVerdict(mode, reqs, m) == Judge(reqs, true);
  }

  lemma {:induction false} ErrorTells<S, M>(core: Core<S>, mem: Memory<M>, mode: Mode, m: Hart, f: Hart, h: Hart,
      s: System<S, M>, x: Event)
    requires TmrMode(mode, m) && f != h && HealthyAgree(s, f, h)
    ensures VoterError(mode, Requests(core, mem, mode, f, s, x)) <==>
      Tells(GoldenBus(core, mem, m, Golden(s.cores.At(h), s.mem), x.lines).At(m), x.fault)
  {
    var reqs, healthy := Requests(core, mem, mode, f, s, x),
      core.out(s.cores.At(h), GoldenInput(mem, m, Golden(s.cores.At(h), s.mem), x.lines));
    forall i: Hart | i != f ensures reqs.At(i) == healthy {
      HealthyRequest(core, mem, mode, m, f, h, s, x, i);
    }
    assert reqs.At(f) == RequestOf(core, mem, mode, f, s, x, f);
    OneFaultTells(mode, m, f, reqs, healthy);
  }

  lemma {:induction false} OneFaultTells(mode: Mode, m: Hart, f: Hart, reqs: Three<Ports>, healthy: Ports)
    requires TmrMode(mode, m) && forall i: Hart | i != f :: reqs.At(i) == healthy
    ensures VoterError(mode, reqs) <==> Tells(healthy, reqs.At(f))
  {
    OnlyTheMastersVoter(mode, m, reqs);
    OneFaultIsOutvoted(reqs, healthy, f, true);
  }

  /** For every core, memory, master and faulty core, and every run: the error line is high exactly in the cycles in
      which the faulty core's ports differ, for a bus, from a request that the fault-free core makes then. */
  lemma {:induction false} ErrorLineTells<S, M>(core: Core<S>, mem: Memory<M>, mode: Mode, m: Hart, f: Hart, h: Hart,
      s: System<S, M>, es: seq<Event>, k: nat)
    requires TmrMode(mode, m) && f != h && HealthyAgree(s, f, h) && k < |es|
    ensures Trace(ErrorLine(core, mem, mode, m, f), s, es)[k] <==>
      Tells(Trace(FaultFree(core, mem, m), Golden(s.cores.At(h), s.mem), Inputs(LinesOf, es))[k].At(m), es[k].fault)
  {
    var line, system, golden := ErrorLine(core, mem, mode, m, f), Redundant(core, mem, mode, m, f),
      FaultFree(core, mem, m);
    var lines, g := Inputs(LinesOf, es), Golden(s.cores.At(h), s.mem);
    VoteMasksOneCore(core, mem, mode, m, f, h, s, es[..k]);
    TraceAt(line, s, es, k);
    TraceAt(golden, g, lines, k);
    SameRun(line, system, s, es[..k]);
    InputsAt(LinesOf, es, k);
    ErrorTells(core, mem, mode, m, f, h, Run(system, s, es[..k]), es[k]);
  }

  /** Controller inputs beside the error line e, outside critical sections and while the mode is not left. */
  predicate Alerts(e: seq<bool>, xs: seq<F.Inputs>) {
    && |xs| == |e|
    && (forall k | 0 <= k < |e| :: xs[k].tmrError == e[k] && !xs[k].critical && !LatchLaws.Leaves(xs[k]))
  }

  lemma {:induction false} QuietSync(c: F.State, x: F.Inputs)
    requires LatchLaws.Together(c, F.TmrSync) && c.latch == F.Latch(false, false)
    requires !x.critical && !LatchLaws.Leaves(x)
    ensures LatchLaws.Together(F.Next(c, x), if x.tmrError then F.TmrSyncIntc else F.TmrSync)
    ensures !x.tmrError ==> F.Next(c, x).latch == F.Latch(false, false)
  {
  }

  lemma {:induction false} FirstErrorInterrupts(e: seq<bool>, c: F.State, xs: seq<F.Inputs>, k: nat)
    requires Alerts(e, xs) && LatchLaws.Together(c, F.TmrSync) && c.latch == F.Latch(false, false)
    requires k < |e| && forall j | 0 <= j < k :: !e[j]
    ensures LatchLaws.Together(F.Run(c, xs[..k]), F.TmrSync) && F.Run(c, xs[..k]).latch == F.Latch(false, false)
    ensures LatchLaws.Together(F.Run(c, xs[..k + 1]), if e[k] then F.TmrSyncIntc else F.TmrSync)
  {
    if k > 0 {
      FirstErrorInterrupts(e, c, xs, k - 1);
      assert xs[..k][..k - 1] == xs[..k - 1];
      QuietSync(F.Run(c, xs[..k - 1]), xs[k - 1]);
    } else {
      assert xs[..0] == [];
    }
    assert xs[..k + 1][..k] == xs[..k];
    QuietSync(F.Run(c, xs[..k]), xs[k]);
  }

  /** So the vote calls for repair in exactly the first cycle in which the faulty core can be told from the fault-free
      one; until then all is as without a fault, and so is the bus in that cycle. */
  lemma {:induction false} FirstTellingCycleRepairs<S, M>(core: Core<S>, mem: Memory<M>, mode: Mode, m: Hart, f: Hart,
      h: Hart, s: System<S, M>, es: seq<Event>, c: F.State, xs: seq<F.Inputs>, k: nat)
    requires TmrMode(mode, m) && f != h && HealthyAgree(s, f, h) && k < |es|
    requires Alerts(Trace(ErrorLine(core, mem, mode, m, f), s, es), xs)
    requires LatchLaws.Together(c, F.TmrSync) && c.latch == F.Latch(false, false)
    requires
      var golden := Trace(FaultFree(core, mem, m), Golden(s.cores.At(h), s.mem), Inputs(LinesOf, es));
      forall j | 0 <= j < k :: !Tells(golden[j].At(m), es[j].fault)
    ensures
      var golden := Trace(FaultFree(core, mem, m), Golden(s.cores.At(h), s.mem), Inputs(LinesOf, es));
      LatchLaws.Together(F.Run(c, xs[..k + 1]),
        if Tells(golden[k].At(m), es[k].fault) then F.TmrSyncIntc else F.TmrSync)
  {
    var e := Trace(ErrorLine(core, mem, mode, m, f), s, es);
    forall j | 0 <= j <= k
      ensures e[j] <==> Tells(
        Trace(FaultFree(core, mem, m), Golden(s.cores.At(h), s.mem), Inputs(LinesOf, es))[j].At(m), es[j].fault)
    {
      ErrorLineTells(core, mem, mode, m, f, h, s, es, j);
    }
    FirstErrorInterrupts(e, c, xs, k);
  }
}
