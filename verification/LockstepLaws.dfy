/** Transparency of the time-shifted pair, for every deterministic core: the pair stays exactly as
    many cycles apart as its registers are deep, and the bus sees what one core alone would do. */
module LockstepLaws {
  import opened Obi
  import opened ObiPipeline
  import opened DmrComparator
  import opened Lockstep
  import opened Cores
  import opened Machines
  import PipelineLaws

  // ---------------------------------------------------------------- one core, alone

  /** The core on a bus that grants each request at once. */
  function Alone<S>(core: Core<S>): Machine<S, In, Ports> {
    Machine((s, x) => Solo(core, s, x), core.out)
  }

  function Solo<S>(core: Core<S>, s: S, x: In): S {
    core.next(s, x, core.out(s, x).instr.req, core.out(s, x).data.req)
  }

  /** What the bus sees of one cycle: no write strobe without a request. */
  function Shown(p: Ports): Ports {
    Ports(PipelineLaws.Normalize(p.instr), PipelineLaws.Normalize(p.data))
  }

  /** The core raises the write strobe of its instruction port only with a request. */
  predicate Quiet(p: Ports) {
    p.instr.we ==> p.instr.req
  }

  // ---------------------------------------------------------------- the pair

  /** Two cores, the lockstep registers and the delayed interrupt lines. */
  datatype Pair<S> = Pair(master: S, shadow: S, regs: Registers, irq: seq<Interrupts>)

  predicate Deep<S>(p: Pair<S>, n: nat) {
    && n > 0
    && |p.regs.instrPipe| == |p.regs.dataPipe| == |p.regs.instrReply| == |p.regs.dataReply| == |p.irq| == n
  }

  /** The inputs that the master has seen and the shadow has not, oldest first. */
  function Pending<S>(p: Pair<S>, n: nat): (q: seq<In>)
    requires Deep(p, n)
    ensures |q| == n
  {
    seq(n, k requires 0 <= k < n => In(p.regs.instrReply[n - 1 - k], p.regs.dataReply[n - 1 - k], p.irq[n - 1 - k]))
  }

  /** The comparator, between the master's delayed requests and the shadow's direct ones. */
  function Bus<S>(core: Core<S>, p: Pair<S>, n: nat, x: In): Comparison
    requires Deep(p, n)
  {
    Compare(MasterRequest(p.regs, core.out(p.master, x)), ShadowRequest(core.out(p.shadow, Pending(p, n)[0])))
  }

  /** One cycle, given what the bus grants. */
  function PairStep<S>(core: Core<S>, p: Pair<S>, n: nat, x: In, gnt: Grants): (p': Pair<S>)
    requires Deep(p, n)
    ensures Deep(p', n)
  {
    var mine := core.out(p.master, x);
    var resp := Responses(Response(gnt.instr, x.instr), Response(gnt.data, x.data));
    var toMaster, toShadow := MasterResponse(p.regs, mine, resp), ShadowResponse(p.regs, resp);
    Pair(
      core.next(p.master, In(toMaster.instr.reply, toMaster.data.reply, x.lines),
        toMaster.instr.gnt, toMaster.data.gnt),
      core.next(p.shadow, In(toShadow.instr.reply, toShadow.data.reply, p.irq[n - 1]),
        toShadow.instr.gnt, toShadow.data.gnt),
      Clocked(p.regs, true, mine, resp),
      Shifted(p.irq, x.lines))
  }

  /** The same, part by part. */
  lemma {:induction false} PairStepParts<S>(core: Core<S>, p: Pair<S>, n: nat, x: In, gnt: Grants)
    requires Deep(p, n)
    ensures
      var p', mine := PairStep(core, p, n, x, gnt), core.out(p.master, x);
      && p'.master == core.next(p.master, x,
          ChainGrant(p.regs.instrPipe, mine.instr, gnt.instr), ChainGrant(p.regs.dataPipe, mine.data, gnt.data))
      && p'.shadow == core.next(p.shadow, Pending(p, n)[0], gnt.instr, gnt.data)
      && p'.regs == Clocked(p.regs, true, mine, Responses(Response(gnt.instr, x.instr), Response(gnt.data, x.data)))
      && p'.irq == Shifted(p.irq, x.lines)
  {
  }

  /** What the bus does in a cycle: what the cores hear, and which ports it grants although nothing is
      requested on them. */
  datatype BusCycle = BusCycle(heard: In, idle: Grants)

  function HeardIn(c: BusCycle): In {
    c.heard
  }

  /** The grants of a bus that grants each presented request in the same cycle. */
  function GrantsOf(bus: Ports, idle: Grants): Grants {
    Grants(bus.instr.req || idle.instr, bus.data.req || idle.data)
  }

  /** The pair on a bus that grants in the same cycle whatever the comparator lets through. */
  function Paired<S>(core: Core<S>, n: nat): Machine<Pair<S>, BusCycle, Comparison> {
    Machine(
      (p, c: BusCycle) => if Deep(p, n)
        then PairStep(core, p, n, c.heard, GrantsOf(Bus(core, p, n, c.heard).out, c.idle)) else p,
      (p, c: BusCycle) => if Deep(p, n) then Bus(core, p, n, c.heard) else Comparison(NO_PORTS, false))
  }

  // ---------------------------------------------------------------- alignment

  /** The shadow, given the first k pending inputs. */
  function Ahead<S>(core: Core<S>, p: Pair<S>, n: nat, k: nat): S
    requires Deep(p, n) && k <= n
  {
    Run(Alone(core), p.shadow, Pending(p, n)[..k])
  }

  /** The pipe stages that hold what the shadow will request in k cycles. */
  ghost predicate StageAhead<S>(core: Core<S>, p: Pair<S>, n: nat, k: nat)
    requires Deep(p, n) && k < n
  {
    Ports(p.regs.instrPipe[n - 1 - k], p.regs.dataPipe[n - 1 - k])
      == Shown(core.out(Ahead(core, p, n, k), Pending(p, n)[k]))
  }

  /** The shadow, given all pending inputs, would be where the master is, and the requests that it is still
      to issue are the ones in the master's pipes. */
  ghost predicate Aligned<S>(core: Core<S>, p: Pair<S>, n: nat)
    requires Deep(p, n)
  {
    && p.master == Ahead(core, p, n, n)
    && (forall k | 0 <= k < n :: StageAhead(core, p, n, k))
  }

  /** In an aligned pair the comparator sees the same request twice. It objects exactly to an instruction
      write strobe without a request, which the pipe drops and the shadow shows. */
  lemma {:induction false} AlignedComparison<S>(core: Core<S>, p: Pair<S>, n: nat, x: In)
    requires Deep(p, n) && Aligned(core, p, n)
    ensures var due := core.out(p.shadow, Pending(p, n)[0]);
      && Bus(core, p, n, x).error == !Quiet(due)
      && (Quiet(due) ==> Bus(core, p, n, x) == Comparison(Shown(due), false))
      && Shown(due) == MasterRequest(p.regs, core.out(p.master, x))
  {
    assert Pending(p, n)[..0] == [];
    assert StageAhead(core, p, n, 0);
  }

  /** What is pending after a cycle does not depend on what was granted. */
  lemma {:induction false} PendingShifts<S>(core: Core<S>, p: Pair<S>, n: nat, x: In, gnt: Grants)
    requires Deep(p, n)
    ensures Pending(PairStep(core, p, n, x, gnt), n) == Pending(p, n)[1..] + [x]
  {
    var p' := PairStep(core, p, n, x, gnt);
    assert p'.regs.instrReply == Shifted(p.regs.instrReply, x.instr)
      && p'.regs.dataReply == Shifted(p.regs.dataReply, x.data);
  }

  /** The grants cover the requests that are presented. */
  predicate Covers(gnt: Grants, bus: Ports) {
    (bus.instr.req ==> gnt.instr) && (bus.data.req ==> gnt.data)
  }

  /** What the bus may grant a core: exactly what is presented, or more, if the core does not mind. */
  ghost predicate Suits<S(!new)>(core: Core<S>, gnt: Grants, bus: Ports) {
    Covers(gnt, bus) && (IgnoresIdleGrants(core) || gnt == Grants(bus.instr.req, bus.data.req))
  }

  /** Granted what both of them ask for, the cores do what one core alone would do. */
  lemma {:induction false} BothAdvance<S(!new)>(core: Core<S>, p: Pair<S>, n: nat, x: In, gnt: Grants)
    requires Deep(p, n)
    requires MasterRequest(p.regs, core.out(p.master, x)) == Shown(core.out(p.shadow, Pending(p, n)[0]))
    requires Suits(core, gnt, MasterRequest(p.regs, core.out(p.master, x)))
    ensures PairStep(core, p, n, x, gnt).master == Solo(core, p.master, x)
    ensures PairStep(core, p, n, x, gnt).shadow == Solo(core, p.shadow, Pending(p, n)[0])
  {
    var mine := core.out(p.master, x);
    PipelineLaws.GrantedAtOnce(p.regs.instrPipe, mine.instr, gnt.instr);
    PipelineLaws.GrantedAtOnce(p.regs.dataPipe, mine.data, gnt.data);
    var q := Pending(p, n)[0];
    var due := core.out(p.shadow, q);
    assert SameGrants(due, gnt.instr, gnt.data, due.instr.req, due.data.req);
  }

  /** Stage i of both pipes of r shows what was in front of it in p. */
  ghost predicate StageMoved<S>(p: Pair<S>, r: Registers, mine: Ports, i: nat) {
    && i < |r.instrPipe| <= |p.regs.instrPipe|
    && i < |r.dataPipe| <= |p.regs.dataPipe|
    && r.instrPipe[i] == PipelineLaws.Normalize(Before(p.regs.instrPipe, mine.instr, i))
    && r.dataPipe[i] == PipelineLaws.Normalize(Before(p.regs.dataPipe, mine.data, i))
  }

  lemma {:induction false} PipesShift<S>(core: Core<S>, p: Pair<S>, n: nat, x: In, gnt: Grants, i: nat)
    requires Deep(p, n) && i < n && Covers(gnt, MasterRequest(p.regs, core.out(p.master, x)))
    ensures StageMoved(p, PairStep(core, p, n, x, gnt).regs, core.out(p.master, x), i)
  {
    var mine := core.out(p.master, x);
    PipelineLaws.GrantedAtOnce(p.regs.instrPipe, mine.instr, gnt.instr);
    PipelineLaws.GrantedAtOnce(p.regs.dataPipe, mine.data, gnt.data);
  }

  /** A pair p' in which shadow, pending inputs and pipes have all moved on by one is aligned again. */
  lemma {:induction false} MovesUp<S>(core: Core<S>, p: Pair<S>, n: nat, x: In, p': Pair<S>)
    requires Deep(p, n) && Aligned(core, p, n) && Deep(p', n)
    requires Pending(p', n) == Pending(p, n)[1..] + [x]
    requires p'.shadow == Solo(core, p.shadow, Pending(p, n)[0]) && p'.master == Solo(core, p.master, x)
    requires forall i | 0 <= i < n :: StageMoved(p, p'.regs, core.out(p.master, x), i)
    ensures Aligned(core, p', n)
  {
    var q, q' := Pending(p, n), Pending(p', n);
    forall k | 0 <= k < n ensures Ahead(core, p', n, k) == Ahead(core, p, n, k + 1) {
      assert q[..k + 1][1..] == q'[..k];
    }
    assert q[..n] == q && q'[..n] == q'[..n - 1] + [x];
    RunSplits(Alone(core), p'.shadow, q'[..n - 1], [x]);
    forall k | 0 <= k < n ensures StageAhead(core, p', n, k) {
      assert StageMoved(p, p'.regs, core.out(p.master, x), n - 1 - k);
      if k < n - 1 {
        assert StageAhead(core, p, n, k + 1) && q'[k] == q[k + 1];
      } else {
        assert q'[k] == x;
      }
    }
  }

  /** Alignment survives a cycle in which the bus grants the request of both. */
  lemma {:induction false} StaysAligned<S(!new)>(core: Core<S>, p: Pair<S>, n: nat, x: In, gnt: Grants)
    requires Deep(p, n) && Aligned(core, p, n)
    requires MasterRequest(p.regs, core.out(p.master, x)) == Shown(core.out(p.shadow, Pending(p, n)[0]))
    requires Suits(core, gnt, MasterRequest(p.regs, core.out(p.master, x)))
    ensures Aligned(core, PairStep(core, p, n, x, gnt), n)
  {
    PendingShifts(core, p, n, x, gnt);
    BothAdvance(core, p, n, x, gnt);
    forall i | 0 <= i < n ensures StageMoved(p, PairStep(core, p, n, x, gnt).regs, core.out(p.master, x), i) {
      PipesShift(core, p, n, x, gnt, i);
    }
    MovesUp(core, p, n, x, PairStep(core, p, n, x, gnt));
  }

  // ---------------------------------------------------------------- whole runs

  /** A cycle without idle grants, unless the core ignores them. */
  ghost predicate Admitted<S(!new)>(core: Core<S>, c: BusCycle) {
    IgnoresIdleGrants(core) || c.idle == Grants(false, false)
  }

  /** The pair contains the core twice: the master leads, the shadow trails by the pending inputs. */
  ghost function PairLag<S(!new)>(core: Core<S>, n: nat): Lag<Pair<S>, S, BusCycle, In, Ports, Comparison> {
    Lag(
      (p: Pair<S>) => Deep(p, n) && Aligned(core, p, n),
      (p: Pair<S>) => p.master,
      (p: Pair<S>) => p.shadow,
      (p: Pair<S>) => if Deep(p, n) then Pending(p, n) else [],
      HeardIn, (c: BusCycle) => Admitted(core, c), Quiet, Unchallenged, Calm)
  }

  /** What the comparator says of a request that both cores make. */
  function Unchallenged(p: Ports): Comparison {
    Comparison(Shown(p), false)
  }

  predicate Calm(c: Comparison) {
    !c.error
  }

  lemma {:induction false} PairSteps<S(!new)>(core: Core<S>, p: Pair<S>, n: nat, c: BusCycle)
    ensures LagStep(Paired(core, n), Alone(core), PairLag(core, n), p, c)
  {
    if Deep(p, n) && Aligned(core, p, n) && Admitted(core, c) {
      AlignedComparison(core, p, n, c.heard);
      if Quiet(core.out(p.shadow, Pending(p, n)[0])) {
        var gnt := GrantsOf(Bus(core, p, n, c.heard).out, c.idle);
        PendingShifts(core, p, n, c.heard, gnt);
        BothAdvance(core, p, n, c.heard, gnt);
        StaysAligned(core, p, n, c.heard, gnt);
      }
    }
  }

  /** The inputs that the shadow sees in a run. */
  function ShadowSees<S>(p: Pair<S>, n: nat, cs: seq<BusCycle>): (xs: seq<In>)
    requires Deep(p, n)
    ensures |xs| == |cs|
  {
    (Pending(p, n) + Inputs(HeardIn, cs))[..|cs|]
  }

  /** For every core, every depth and every stream of answers and interrupts, with idle grants too for a core
      that ignores them: an aligned pair runs without a comparator error if and only if the shadow never strobes a
      write on its instruction port
      without a request; and then master, shadow and bus do what one core alone would do, the latter two
      delayed. */
  lemma {:induction false} PairIsTransparent<S(!new)>(core: Core<S>, p: Pair<S>, n: nat, cs: seq<BusCycle>)
    requires Deep(p, n) && Aligned(core, p, n) && forall k | 0 <= k < |cs| :: Admitted(core, cs[k])
    ensures
      var alone := Trace(Alone(core), p.shadow, ShadowSees(p, n, cs));
      && (All(Calm, Trace(Paired(core, n), p, cs)) <==> All(Quiet, alone))
      && (All(Quiet, alone) ==>
          && Run(Paired(core, n), p, cs).master == Run(Alone(core), p.master, Inputs(HeardIn, cs))
          && Run(Paired(core, n), p, cs).shadow == Run(Alone(core), p.shadow, ShadowSees(p, n, cs))
          && Shows(Unchallenged, alone, Trace(Paired(core, n), p, cs)))
  {
    var fast, slow, r := Paired(core, n), Alone(core), PairLag(core, n);
    forall q, x ensures LagStep(fast, slow, r, q, x) {
      PairSteps(core, q, n, x);
    }
    FollowsWithLag(fast, slow, r, p, cs);
    assert Seen(r, p, cs) == ShadowSees(p, n, cs);
  }

  /** Once the run is longer than the delay, the shadow is where the master was n cycles before. */
  lemma {:induction false} ExactlyBehind<S(!new)>(core: Core<S>, p: Pair<S>, n: nat, cs: seq<BusCycle>)
    requires Deep(p, n) && Aligned(core, p, n) && n <= |cs| && forall k | 0 <= k < |cs| :: Admitted(core, cs[k])
    requires All(Calm, Trace(Paired(core, n), p, cs))
    ensures Run(Paired(core, n), p, cs).shadow == Run(Alone(core), p.master, Inputs(HeardIn, cs)[..|cs| - n])
    ensures Run(Paired(core, n), p, cs).master == Run(Alone(core), p.master, Inputs(HeardIn, cs))
  {
    PairIsTransparent(core, p, n, cs);
    ShadowPassesMaster(core, p, n, cs);
  }

  /** What the shadow sees takes it first to where the master was. */
  lemma {:induction false} ShadowPassesMaster<S>(core: Core<S>, p: Pair<S>, n: nat, cs: seq<BusCycle>)
    requires Deep(p, n) && n <= |cs|
    ensures Run(Alone(core), p.shadow, ShadowSees(p, n, cs))
         == Run(Alone(core), Ahead(core, p, n, n), Inputs(HeardIn, cs)[..|cs| - n])
  {
    RunDelayed(Alone(core), p.shadow, Pending(p, n), Inputs(HeardIn, cs));
    assert Pending(p, n)[..n] == Pending(p, n);
  }

  // ---------------------------------------------------------------- starting up

  /** A core that sleeps through the stale inputs in the registers, showing the same idle ports. */
  ghost predicate Asleep<S>(core: Core<S>, s: S, idle: Ports, q: seq<In>) {
    forall k | 0 <= k < |q| :: Solo(core, s, q[k]) == s && Shown(core.out(s, q[k])) == idle
  }

  /** The pair as it is enabled: both cores asleep in one state, the pipes settled on their idle ports. */
  lemma {:induction false} SleepingPairIsAligned<S>(core: Core<S>, p: Pair<S>, n: nat, idle: Ports)
    requires Deep(p, n) && p.master == p.shadow && Asleep(core, p.shadow, idle, Pending(p, n))
    requires forall i | 0 <= i < n :: p.regs.instrPipe[i] == idle.instr && p.regs.dataPipe[i] == idle.data
    ensures Aligned(core, p, n)
  {
    forall k | 0 <= k <= n ensures Ahead(core, p, n, k) == p.shadow {
      SleepsOn(core, p.shadow, idle, Pending(p, n)[..k]);
    }
    forall k | 0 <= k < n ensures StageAhead(core, p, n, k) {
      assert Shown(core.out(p.shadow, Pending(p, n)[k])) == idle;
    }
  }

  lemma {:induction false} SleepsOn<S>(core: Core<S>, s: S, idle: Ports, q: seq<In>)
    requires Asleep(core, s, idle, q)
    ensures Run(Alone(core), s, q) == s
    decreases |q|
  {
    if q != [] {
      assert Solo(core, s, q[0]) == s;
      forall k | 0 <= k < |q| - 1 ensures Solo(core, s, q[1..][k]) == s && Shown(core.out(s, q[1..][k])) == idle {
        assert q[1..][k] == q[k + 1];
      }
      SleepsOn(core, s, idle, q[1..]);
    }
  }

  /** The pipes of a disabled pair, in front of a core that idles. */
  function RunDisabled(st: seq<Request>, idle: Request, gnts: seq<bool>): (r: seq<Request>)
    ensures |r| == |st|
    decreases |gnts|
  {
    if gnts == [] then st else Step(RunDisabled(st, idle, gnts[..|gnts| - 1]), true, idle, gnts[|gnts| - 1])
  }

  /** After as many disabled cycles as there are stages the pipes have settled on the idle request, whatever
      the bus grants and whatever they held. */
  lemma {:induction false} DisabledPipesSettle(st: seq<Request>, idle: Request, gnts: seq<bool>, i: nat)
    requires !idle.req && !idle.we && i < |st| && i < |gnts|
    ensures RunDisabled(st, idle, gnts)[i] == idle
    decreases |gnts|
  {
    PipelineLaws.ClearShifts(RunDisabled(st, idle, gnts[..|gnts| - 1]), idle, gnts[|gnts| - 1]);
    if i > 0 {
      DisabledPipesSettle(st, idle, gnts[..|gnts| - 1], i - 1);
    }
  }

  /** All registers of a disabled pair. */
  function RunDisabledRegisters(r: Registers, idle: Ports, resps: seq<Responses>): (q: Registers)
    requires r.instrReply != [] && r.dataReply != []
    ensures q.instrReply != [] && q.dataReply != []
    decreases |resps|
  {
    if resps == [] then r
    else Clocked(RunDisabledRegisters(r, idle, resps[..|resps| - 1]), false, idle, resps[|resps| - 1])
  }

  function InstrGrants(resps: seq<Responses>): (gnts: seq<bool>)
    ensures |gnts| == |resps|
  {
    seq(|resps|, k requires 0 <= k < |resps| => resps[k].instr.gnt)
  }

  function DataGrants(resps: seq<Responses>): (gnts: seq<bool>)
    ensures |gnts| == |resps|
  {
    seq(|resps|, k requires 0 <= k < |resps| => resps[k].data.gnt)
  }

  lemma {:induction false} DisabledParts(r: Registers, idle: Ports, resps: seq<Responses>)
    requires r.instrReply != [] && r.dataReply != []
    ensures var q := RunDisabledRegisters(r, idle, resps);
      && q.instrPipe == RunDisabled(r.instrPipe, idle.instr, InstrGrants(resps))
      && q.dataPipe == RunDisabled(r.dataPipe, idle.data, DataGrants(resps))
      && q.instrReply == r.instrReply && q.dataReply == r.dataReply
    decreases |resps|
  {
    if resps != [] {
      var p := resps[..|resps| - 1];
      DisabledParts(r, idle, p);
      assert InstrGrants(resps)[..|resps| - 1] == InstrGrants(p) && DataGrants(resps)[..|resps| - 1] == DataGrants(p);
    }
  }

  /** While a pair is disabled its pipes empty themselves, and its delayed answers stay what they were when it was
      disabled, whatever the bus answers meanwhile. */
  lemma {:induction false} DisabledRegisters(r: Registers, idle: Ports, resps: seq<Responses>)
    requires r.instrReply != [] && r.dataReply != []
    requires !idle.instr.req && !idle.instr.we && !idle.data.req && !idle.data.we
    requires |r.instrPipe| <= |resps| && |r.dataPipe| <= |resps|
    ensures var q := RunDisabledRegisters(r, idle, resps);
      && |q.instrPipe| == |r.instrPipe| && (forall i | 0 <= i < |q.instrPipe| :: q.instrPipe[i] == idle.instr)
      && |q.dataPipe| == |r.dataPipe| && (forall i | 0 <= i < |q.dataPipe| :: q.dataPipe[i] == idle.data)
      && q.instrReply == r.instrReply && q.dataReply == r.dataReply
  {
    DisabledParts(r, idle, resps);
    forall i | 0 <= i < |r.instrPipe| ensures RunDisabled(r.instrPipe, idle.instr, InstrGrants(resps))[i]
      == idle.instr {
      DisabledPipesSettle(r.instrPipe, idle.instr, InstrGrants(resps), i);
    }
    forall i | 0 <= i < |r.dataPipe| ensures RunDisabled(r.dataPipe, idle.data, DataGrants(resps))[i] == idle.data {
      DisabledPipesSettle(r.dataPipe, idle.data, DataGrants(resps), i);
    }
  }
}
