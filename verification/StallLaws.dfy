/** The time-shifted pair on buses that keep a request waiting: what that does to two healthy cores, for every
    depth, and so which buses suit every core. */
module StallLaws {
  import opened Obi
  import opened ObiPipeline
  import opened DmrComparator
  import opened Lockstep
  import opened Cores
  import opened Machines
  import opened LockstepLaws
  import PipelineLaws

  // ---------------------------------------------------------------- any grants

  /** A cycle in which the bus grants as it likes. */
  datatype FreeCycle = FreeCycle(heard: In, gnt: Grants)

  function Scheduled<S>(core: Core<S>, n: nat): Machine<Pair<S>, FreeCycle, Comparison> {
    Machine(
      (p, c: FreeCycle) => if Deep(p, n) then PairStep(core, p, n, c.heard, c.gnt) else p,
      (p, c: FreeCycle) => if Deep(p, n) then Bus(core, p, n, c.heard) else Comparison(NO_PORTS, false))
  }

  /** Every request that is presented before the last cycle is granted at once. */
  ghost predicate Punctual(cs: seq<FreeCycle>, t: seq<Comparison>) {
    |t| == |cs| && forall k | 0 <= k < |cs| - 1 :: Covers(cs[k].gnt, t[k].out)
  }

  /** A core that never strobes an instruction write without a request, and ignores idle grants. */
  ghost predicate WellBehaved<S(!new)>(core: Core<S>) {
    IgnoresIdleGrants(core) && forall s, x :: Quiet(core.out(s, x))
  }

  lemma {:induction false} PunctualCons(cs: seq<FreeCycle>, t: seq<Comparison>)
    requires |cs| == |t| > 1
    ensures Punctual(cs, t) <==> Covers(cs[0].gnt, t[0].out) && Punctual(cs[1..], t[1..])
  {
    assert forall k | 0 < k < |cs| :: cs[k] == cs[1..][k - 1] && t[k] == t[1..][k - 1];
  }

  /** A cycle in which all that is presented is granted keeps a pair of a well-behaved core aligned. */
  lemma {:induction false} AlignedStep<S(!new)>(core: Core<S>, p: Pair<S>, n: nat, c: FreeCycle)
    requires WellBehaved(core) && Deep(p, n) && Aligned(core, p, n)
    ensures Bus(core, p, n, c.heard) == Unchallenged(core.out(p.shadow, Pending(p, n)[0]))
    ensures Covers(c.gnt, Bus(core, p, n, c.heard).out) ==>
      Aligned(core, PairStep(core, p, n, c.heard, c.gnt), n)
      && PairStep(core, p, n, c.heard, c.gnt).shadow == Solo(core, p.shadow, Pending(p, n)[0])
  {
    AlignedComparison(core, p, n, c.heard);
    if Covers(c.gnt, Bus(core, p, n, c.heard).out) {
      StaysAligned(core, p, n, c.heard, c.gnt);
      BothAdvance(core, p, n, c.heard, c.gnt);
    }
  }

  /** The same cycle for a bus that grants what is presented, and idle ports besides. */
  function Granting(c: FreeCycle): BusCycle {
    BusCycle(c.heard, c.gnt)
  }

  lemma {:induction false} PunctualIsPaired<S>(core: Core<S>, p: Pair<S>, n: nat, cs: seq<FreeCycle>)
    requires Deep(p, n) && Punctual(cs, Trace(Scheduled(core, n), p, cs))
    ensures Trace(Scheduled(core, n), p, cs) == Trace(Paired(core, n), p, Inputs(Granting, cs))
    decreases |cs|
  {
    if |cs| > 1 {
      var t, gnt := Trace(Scheduled(core, n), p, cs), cs[0].gnt;
      PunctualCons(cs, t);
      assert GrantsOf(t[0].out, gnt) == gnt;
      PunctualIsPaired(core, PairStep(core, p, n, cs[0].heard, gnt), n, cs[1..]);
    } else if cs != [] {
      assert cs[1..] == [];
    }
  }

  /** For every such core and depth: a bus that grants each presented request at once runs an aligned pair without
      an error, and sees what one core alone would do. */
  lemma {:induction false} PunctualIsTransparent<S(!new)>(core: Core<S>, p: Pair<S>, n: nat, cs: seq<FreeCycle>)
    requires WellBehaved(core) && Deep(p, n) && Aligned(core, p, n)
    requires Punctual(cs, Trace(Scheduled(core, n), p, cs))
    ensures
      var t, seen := Trace(Scheduled(core, n), p, cs), ShadowSees(p, n, Inputs(Granting, cs));
      All(Calm, t) && Shows(Unchallenged, Trace(Alone(core), p.shadow, seen), t)
  {
    PunctualIsPaired(core, p, n, cs);
    PairIsTransparent(core, p, n, Inputs(Granting, cs));
    AllOutputs(Alone(core), p.shadow, ShadowSees(p, n, Inputs(Granting, cs)), Quiet);
  }

  /** All is granted in every cycle but the last, whether or not it is asked for. */
  predicate AlwaysReady(cs: seq<FreeCycle>) {
    forall k | 0 <= k < |cs| - 1 :: cs[k].gnt == Grants(true, true)
  }

  lemma {:induction false} ReadySuitsEveryCore<S(!new)>(core: Core<S>, p: Pair<S>, n: nat, cs: seq<FreeCycle>)
    requires WellBehaved(core) && Deep(p, n) && Aligned(core, p, n) && AlwaysReady(cs)
    ensures All(Calm, Trace(Scheduled(core, n), p, cs))
  {
    PunctualIsTransparent(core, p, n, cs);
  }

  // ---------------------------------------------------------------- two cores that take turns

  const FETCH := Request(true, false, 0xf, 0, 0)

  function Asked(idle: bool): Request {
    if idle then NO_REQUEST else FETCH
  }

  function Fetches(idle: bool, x: In): Ports {
    Ports(Asked(idle), NO_REQUEST)
  }

  function FetchesOrLoads(loads: bool, x: In): Ports {
    Ports(Asked(loads), Asked(!loads))
  }

  /** It fetches, and then idles for a cycle. */
  const EVERY_OTHER: Core<bool> := Core(Fetches, (idle: bool, x: In, i: bool, d: bool) => !idle && i)

  /** It asks on its instruction and its data port in turn. */
  const ALTERNATING: Core<bool> :=
    Core(FetchesOrLoads, (loads: bool, x: In, i: bool, d: bool) => if loads then !d else i)

  /** What both of them have in common: granted at once, they change state in each cycle. */
  ghost predicate TakesTurns(core: Core<bool>) {
    && WellBehaved(core)
    && (forall s, x :: Solo(core, s, x) == !s)
    && (forall s, x, y :: core.out(s, x) == core.out(s, y) == Shown(core.out(s, x)))
  }

  /** A request stays as it is until it is granted. */
  ghost predicate KeepsRequests<S(!new)>(core: Core<S>) {
    forall s, x, i, d, y :: Kept(core.out(s, x), Grants(i, d), core.out(core.next(s, x, i, d), y))
  }

  predicate Kept(was: Ports, gnt: Grants, now: Ports) {
    && (was.instr.req && !gnt.instr ==> now.instr == was.instr)
    && (was.data.req && !gnt.data ==> now.data == was.data)
  }

  lemma {:induction false} BothTakeTurns()
    ensures TakesTurns(EVERY_OTHER) && TakesTurns(ALTERNATING)
  {
  }

  lemma {:induction false} BothKeepRequests()
    ensures KeepsRequests(EVERY_OTHER) && KeepsRequests(ALTERNATING)
  {
  }

  lemma {:induction false} AheadTurns(core: Core<bool>, p: Pair<bool>, n: nat, k: nat)
    requires TakesTurns(core) && Deep(p, n) && k <= n
    ensures Ahead(core, p, n, k) == (p.shadow != (k % 2 == 1))
  {
    var q := Pending(p, n);
    assert q[..0] == [];
    if k > 0 {
      AheadTurns(core, p, n, k - 1);
      assert q[..k] == q[..k - 1] + [q[k - 1]];
      RunSplits(Alone(core), p.shadow, q[..k - 1], [q[k - 1]]);
      assert [q[k - 1]][1..] == [];
    }
  }

  /** A pair whose master is n turns ahead of its shadow. */
  function Staggered(core: Core<bool>, n: nat, turn: bool, x: In): (p: Pair<bool>)
    ensures n > 0 ==> Deep(p, n)
  {
    Pair(turn != (n % 2 == 1), turn,
      Registers(
        seq(n, i requires 0 <= i < n => core.out(turn != ((n - 1 - i) % 2 == 1), x).instr),
        seq(n, i requires 0 <= i < n => core.out(turn != ((n - 1 - i) % 2 == 1), x).data),
        seq(n, i => x.instr), seq(n, i => x.data)),
      seq(n, i => x.lines))
  }

  lemma {:induction false} StaggeredIsAligned(core: Core<bool>, n: nat, turn: bool, x: In)
    requires TakesTurns(core) && n > 0
    ensures Aligned(core, Staggered(core, n, turn, x), n)
  {
    var p := Staggered(core, n, turn, x);
    AheadTurns(core, p, n, n);
    forall k | 0 <= k < n ensures StageAhead(core, p, n, k) {
      AheadTurns(core, p, n, k);
    }
  }

  // ---------------------------------------------------------------- a core that is never idle

  /** The output stage after a cycle: held while its request waits, else filled from behind. */
  lemma {:induction false} OutputStage(st: seq<Request>, input: Request, gnt: bool)
    requires st != []
    ensures Step(st, false, input, gnt)[|st| - 1] ==
      if st[|st| - 1].req && !gnt then st[|st| - 1] else PipelineLaws.Normalize(Before(st, input, |st| - 1))
  {
    StepAt(st, false, input, gnt, |st| - 1);
    assert st[|st|..] == [];
  }

  /** Where an aligned pair shows a request on one port, the request behind it is on the other. */
  lemma {:induction false} RequestsAlternate(p: Pair<bool>, n: nat)
    requires Deep(p, n) && Aligned(ALTERNATING, p, n)
    ensures Ports(p.regs.instrPipe[n - 1], p.regs.dataPipe[n - 1]) == Ports(Asked(p.shadow), Asked(!p.shadow))
    ensures Before(p.regs.instrPipe, Asked(p.master), n - 1) == Asked(!p.shadow)
    ensures Before(p.regs.dataPipe, Asked(!p.master), n - 1) == Asked(p.shadow)
  {
    BothTakeTurns();
    assert StageAhead(ALTERNATING, p, n, 0);
    AheadTurns(ALTERNATING, p, n, 0);
    AheadTurns(ALTERNATING, p, n, 1);
    if n > 1 {
      assert StageAhead(ALTERNATING, p, n, 1);
    }
  }

  /** While one port stalls, the request behind comes out on the other, and the shadow does not make it. */
  lemma {:induction false} StalledAlternation(p: Pair<bool>, n: nat, c: FreeCycle, d: FreeCycle)
    requires Deep(p, n) && Aligned(ALTERNATING, p, n) && !Covers(c.gnt, Bus(ALTERNATING, p, n, c.heard).out)
    ensures Bus(ALTERNATING, PairStep(ALTERNATING, p, n, c.heard, c.gnt), n, d.heard).error
  {
    BothTakeTurns();
    AlignedStep(ALTERNATING, p, n, c);
    RequestsAlternate(p, n);
    PairStepParts(ALTERNATING, p, n, c.heard, c.gnt);
    OutputStage(p.regs.instrPipe, Asked(p.master), c.gnt.instr);
    OutputStage(p.regs.dataPipe, Asked(!p.master), c.gnt.data);
  }

  /** With PunctualIsTransparent: no weaker demand on the bus suits every well-behaved core, at any depth, not even
      every one that keeps its requests. */
  lemma {:induction false} AlternatingIffPunctual(p: Pair<bool>, n: nat, cs: seq<FreeCycle>)
    requires Deep(p, n) && Aligned(ALTERNATING, p, n)
    ensures var t := Trace(Scheduled(ALTERNATING, n), p, cs); All(Calm, t) <==> Punctual(cs, t)
    decreases |cs|
  {
    BothTakeTurns();
    var t := Trace(Scheduled(ALTERNATING, n), p, cs);
    if Punctual(cs, t) {
      PunctualIsTransparent(ALTERNATING, p, n, cs);
    } else {
      var p' := PairStep(ALTERNATING, p, n, cs[0].heard, cs[0].gnt);
      AllCons(Calm, t);
      PunctualCons(cs, t);
      if Covers(cs[0].gnt, t[0].out) {
        AlignedStep(ALTERNATING, p, n, cs[0]);
        AlternatingIffPunctual(p', n, cs[1..]);
      } else {
        StalledAlternation(p, n, cs[0], cs[1]);
        AllCons(Calm, t[1..]);
      }
    }
  }

  lemma {:induction false} AlarmLater<S>(core: Core<S>, p: Pair<S>, n: nat, cs: seq<FreeCycle>)
    requires Deep(p, n) && |cs| > 1
    requires var p' := PairStep(core, p, n, cs[0].heard, cs[0].gnt);
      !All(Calm, Trace(Scheduled(core, n), p', cs[1..])) || Bus(core, p', n, cs[1].heard).error
    ensures !All(Calm, Trace(Scheduled(core, n), p, cs))
  {
    var t := Trace(Scheduled(core, n), p, cs);
    AllCons(Calm, t);
    AllCons(Calm, t[1..]);
  }

  /** What the shadow asks for in cycle k is not granted then. */
  lemma {:induction false} UngrantedIn(p: Pair<bool>, n: nat, cs: seq<FreeCycle>, k: nat)
    requires Deep(p, n) && Aligned(ALTERNATING, p, n) && k < |cs| - 1
    requires if p.shadow != (k % 2 == 1) then !cs[k].gnt.data else !cs[k].gnt.instr
    ensures !All(Calm, Trace(Scheduled(ALTERNATING, n), p, cs))
    decreases k
  {
    BothTakeTurns();
    AlignedStep(ALTERNATING, p, n, cs[0]);
    if Covers(cs[0].gnt, Bus(ALTERNATING, p, n, cs[0].heard).out) {
      UngrantedIn(PairStep(ALTERNATING, p, n, cs[0].heard, cs[0].gnt), n, cs[1..], k - 1);
    } else {
      StalledAlternation(p, n, cs[0], cs[1]);
    }
    AlarmLater(ALTERNATING, p, n, cs);
  }

  /** A schedule fixed in advance suits the alternating pairs, and then every well-behaved core, if and only if the
      bus is ready in every cycle. */
  lemma {:induction false} FixedScheduleIffReady(n: nat, cs: seq<FreeCycle>, x: In)
    requires n > 0
    ensures AlwaysReady(cs) <==>
      && All(Calm, Trace(Scheduled(ALTERNATING, n), Staggered(ALTERNATING, n, false, x), cs))
      && All(Calm, Trace(Scheduled(ALTERNATING, n), Staggered(ALTERNATING, n, true, x), cs))
  {
    BothTakeTurns();
    StaggeredIsAligned(ALTERNATING, n, false, x);
    StaggeredIsAligned(ALTERNATING, n, true, x);
    if AlwaysReady(cs) {
      ReadySuitsEveryCore(ALTERNATING, Staggered(ALTERNATING, n, false, x), n, cs);
      ReadySuitsEveryCore(ALTERNATING, Staggered(ALTERNATING, n, true, x), n, cs);
    } else {
      var k :| 0 <= k < |cs| - 1 && cs[k].gnt != Grants(true, true);
      UngrantedIn(Staggered(ALTERNATING, n, cs[k].gnt.instr != (k % 2 == 1), x), n, cs, k);
    }
  }

  // ---------------------------------------------------------------- a core that idles every other cycle

  /** What is in front of the output stage: the stage before it, or the master itself. */
  function Behind(p: Pair<bool>, n: nat): Request
    requires Deep(p, n)
  {
    Before(p.regs.instrPipe, Asked(p.master), n - 1)
  }

  ghost predicate NoData(p: Pair<bool>, n: nat)
    requires Deep(p, n)
  {
    forall i | 0 <= i < n :: p.regs.dataPipe[i] == NO_REQUEST
  }

  lemma {:induction false} DataStays(p: Pair<bool>, n: nat, x: In, gnt: Grants)
    requires Deep(p, n) && NoData(p, n)
    ensures NoData(PairStep(EVERY_OTHER, p, n, x, gnt), n)
  {
    var st := p.regs.dataPipe;
    forall i | 0 <= i < n ensures Step(st, false, NO_REQUEST, gnt.data)[i] == NO_REQUEST {
      StepAt(st, false, NO_REQUEST, gnt.data, i);
    }
  }

  /** A pair that has been stalled: the shadow still asks, and the pipe holds the request twice, the second time
      where an aligned pair would have a bubble. */
  ghost predicate Stuck(p: Pair<bool>, n: nat)
    requires Deep(p, n)
  {
    !p.shadow && p.regs.instrPipe[n - 1] == FETCH == Behind(p, n) && NoData(p, n)
  }

  /** The comparator sees nothing of it. */
  lemma {:induction false} StuckIsCalm(p: Pair<bool>, n: nat, x: In)
    requires Deep(p, n) && Stuck(p, n)
    ensures Bus(EVERY_OTHER, p, n, x) == Comparison(Ports(FETCH, NO_REQUEST), false)
  {
  }

  /** The stage behind a stalled one: kept if it is full, else filled. */
  lemma {:induction false} BehindStage(st: seq<Request>, input: Request)
    requires |st| > 1 && st[|st| - 1].req
    ensures var i := |st| - 2;
      Step(st, false, input, false)[i] ==
        if st[i].req then st[i] else PipelineLaws.Normalize(Before(st, input, i))
  {
    StepAt(st, false, input, false, |st| - 1);
    StepAt(st, false, input, false, |st| - 2);
    assert st[|st|..] == [];
  }

  /** An aligned pair that asks: the pipe holds the request, a bubble and, if it is deep enough, the request. */
  lemma {:induction false} AskingPipe(p: Pair<bool>, n: nat)
    requires Deep(p, n) && Aligned(EVERY_OTHER, p, n) && !p.shadow
    ensures p.regs.instrPipe[n - 1] == FETCH && Behind(p, n) == NO_REQUEST && NoData(p, n)
    ensures n > 1 ==> Before(p.regs.instrPipe, Asked(p.master), n - 2) == FETCH
  {
    BothTakeTurns();
    forall i | 0 <= i < n
      ensures p.regs.dataPipe[i] == NO_REQUEST
      ensures p.regs.instrPipe[i] == (if (n - 1 - i) % 2 == 1 then NO_REQUEST else FETCH)
    {
      assert StageAhead(EVERY_OTHER, p, n, n - 1 - i);
      AheadTurns(EVERY_OTHER, p, n, n - 1 - i);
    }
    AheadTurns(EVERY_OTHER, p, n, n);
  }

  /** A stall lets the bubble be overwritten. */
  lemma {:induction false} StallSticks(p: Pair<bool>, n: nat, x: In, gnt: Grants)
    requires Deep(p, n) && !gnt.instr
    requires Stuck(p, n) || (Aligned(EVERY_OTHER, p, n) && !p.shadow)
    ensures Stuck(PairStep(EVERY_OTHER, p, n, x, gnt), n)
  {
    if !Stuck(p, n) {
      AskingPipe(p, n);
    }
    var st, mine := p.regs.instrPipe, Asked(p.master);
    DataStays(p, n, x, gnt);
    OutputStage(st, mine, false);
    if n > 1 {
      BehindStage(st, mine);
    } else {
      assert st[1..] == [];
    }
  }

  /** The first grant after a stall releases the shadow, and the pipe shows the request again. */
  lemma {:induction false} GrantReleases(p: Pair<bool>, n: nat, x: In, gnt: Grants, y: In)
    requires Deep(p, n) && Stuck(p, n) && gnt.instr
    ensures Bus(EVERY_OTHER, PairStep(EVERY_OTHER, p, n, x, gnt), n, y).error
  {
    OutputStage(p.regs.instrPipe, Asked(p.master), true);
  }

  /** A grant in cycle j to a request that was kept waiting in the cycle before. */
  predicate Late(cs: seq<FreeCycle>, t: seq<Comparison>, waited: bool, j: nat)
    requires j < |cs| == |t|
  {
    cs[j].gnt.instr && if j == 0 then waited else t[j - 1].out.instr.req && !cs[j - 1].gnt.instr
  }

  /** No request is kept waiting and then granted, before the last cycle. */
  ghost predicate NeverLate(cs: seq<FreeCycle>, t: seq<Comparison>, waited: bool) {
    |t| == |cs| && forall j | 0 <= j < |cs| - 1 :: !Late(cs, t, waited, j)
  }

  lemma {:induction false} NeverLateCons(cs: seq<FreeCycle>, t: seq<Comparison>, waited: bool)
    requires |cs| == |t| > 1
    ensures NeverLate(cs, t, waited) <==>
      !(cs[0].gnt.instr && waited) && NeverLate(cs[1..], t[1..], t[0].out.instr.req && !cs[0].gnt.instr)
  {
    var rest, w := cs[1..], t[0].out.instr.req && !cs[0].gnt.instr;
    assert forall j | 0 <= j < |rest| :: Late(rest, t[1..], w, j) == Late(cs, t, waited, j + 1);
    if NeverLate(rest, t[1..], w) && !(cs[0].gnt.instr && waited) {
      forall j | 0 <= j < |cs| - 1 ensures !Late(cs, t, waited, j) {
        assert j > 0 ==> !Late(rest, t[1..], w, j - 1);
      }
    }
    if NeverLate(cs, t, waited) {
      assert !Late(cs, t, waited, 0);
    }
  }

  /** A pair that is stuck if its request waits, and aligned if not. */
  ghost predicate Phase(p: Pair<bool>, n: nat, waited: bool) {
    Deep(p, n) && if waited then Stuck(p, n) else Aligned(EVERY_OTHER, p, n)
  }

  lemma {:induction false} PhaseStep(p: Pair<bool>, n: nat, waited: bool, c: FreeCycle, d: FreeCycle)
    requires Phase(p, n, waited)
    ensures var b, p' := Bus(EVERY_OTHER, p, n, c.heard), PairStep(EVERY_OTHER, p, n, c.heard, c.gnt);
      && Calm(b)
      && if waited && c.gnt.instr then !Calm(Bus(EVERY_OTHER, p', n, d.heard))
         else Phase(p', n, b.out.instr.req && !c.gnt.instr)
  {
    BothTakeTurns();
    if waited {
      StuckIsCalm(p, n, c.heard);
      if c.gnt.instr {
        GrantReleases(p, n, c.heard, c.gnt, d.heard);
      } else {
        StallSticks(p, n, c.heard, c.gnt);
      }
    } else {
      AlignedStep(EVERY_OTHER, p, n, c);
      if !p.shadow && !c.gnt.instr {
        StallSticks(p, n, c.heard, c.gnt);
      }
    }
  }

  lemma {:induction false} PhasedRun(p: Pair<bool>, n: nat, waited: bool, cs: seq<FreeCycle>)
    requires Phase(p, n, waited)
    ensures var t := Trace(Scheduled(EVERY_OTHER, n), p, cs); All(Calm, t) <==> NeverLate(cs, t, waited)
    decreases |cs|
  {
    var t := Trace(Scheduled(EVERY_OTHER, n), p, cs);
    if cs != [] {
      PhaseStep(p, n, waited, cs[0], if |cs| > 1 then cs[1] else cs[0]);
      AllCons(Calm, t);
    }
    if |cs| > 1 {
      NeverLateCons(cs, t, waited);
      AllCons(Calm, t[1..]);
      if !(waited && cs[0].gnt.instr) {
        PhasedRun(PairStep(EVERY_OTHER, p, n, cs[0].heard, cs[0].gnt), n, t[0].out.instr.req && !cs[0].gnt.instr,
          cs[1..]);
      }
    }
  }

  /** At every depth, a pair of them runs without an error if and only if the bus never grants a request
      that it has kept waiting. */
  lemma {:induction false} EveryOtherIffNeverLate(p: Pair<bool>, n: nat, cs: seq<FreeCycle>)
    requires Deep(p, n) && Aligned(EVERY_OTHER, p, n)
    ensures var t := Trace(Scheduled(EVERY_OTHER, n), p, cs); All(Calm, t) <==> NeverLate(cs, t, false)
  {
    PhasedRun(p, n, false, cs);
  }

  /** Cycles that all stall the instruction port. */
  predicate Stalls(cs: seq<FreeCycle>) {
    forall k | 0 <= k < |cs| :: !cs[k].gnt.instr
  }

  lemma {:induction false} StallsCons(cs: seq<FreeCycle>, m: nat)
    requires 0 < m <= |cs| && Stalls(cs[..m])
    ensures !cs[0].gnt.instr && Stalls(cs[1..][..m - 1])
  {
    assert cs[0] == cs[..m][0];
    assert cs[1..][..m - 1] == cs[..m][1..];
  }

  lemma {:induction false} CalmCons(t: seq<Comparison>, m: nat)
    requires 0 < m <= |t|
    ensures All(Calm, t[..m]) <==> Calm(t[0]) && All(Calm, t[1..][..m - 1])
  {
    AllCons(Calm, t[..m]);
    assert t[1..][..m - 1] == t[..m][1..];
  }

  /** An objection in the last cycle, and in none before it. */
  predicate FailsAtTheEnd(t: seq<Comparison>) {
    t != [] && All(Calm, t[..|t| - 1]) && t[|t| - 1] == Comparison(NO_PORTS, true)
  }

  lemma {:induction false} FailsLater(t: seq<Comparison>)
    requires |t| > 1 && Calm(t[0])
    ensures FailsAtTheEnd(t) <==> FailsAtTheEnd(t[1..])
  {
    CalmCons(t, |t| - 1);
  }

  /** The last two cycles. */
  lemma {:induction false} FailsNow(p: Pair<bool>, n: nat, cs: seq<FreeCycle>)
    requires Phase(p, n, true) && |cs| == 2 && cs[0].gnt.instr
    ensures FailsAtTheEnd(Trace(Scheduled(EVERY_OTHER, n), p, cs))
  {
    var t := Trace(Scheduled(EVERY_OTHER, n), p, cs);
    StuckIsCalm(p, n, cs[0].heard);
    GrantReleases(p, n, cs[0].heard, cs[0].gnt, cs[1].heard);
    assert t[..1] == [t[0]];
  }

  lemma {:induction false} WaitsThenFails(p: Pair<bool>, n: nat, waited: bool, cs: seq<FreeCycle>)
    requires Phase(p, n, waited) && (waited || !p.shadow) && |cs| > (if waited then 1 else 2)
    requires Stalls(cs[..|cs| - 2]) && cs[|cs| - 2].gnt.instr
    ensures FailsAtTheEnd(Trace(Scheduled(EVERY_OTHER, n), p, cs))
    decreases |cs|
  {
    if |cs| == 2 {
      FailsNow(p, n, cs);
    } else {
      StallsCons(cs, |cs| - 2);
      PhaseStep(p, n, waited, cs[0], cs[1]);
      AskingShows(p, n, waited, cs[0]);
      WaitsThenFails(PairStep(EVERY_OTHER, p, n, cs[0].heard, cs[0].gnt), n, true, cs[1..]);
      FailsLater(Trace(Scheduled(EVERY_OTHER, n), p, cs));
    }
  }

  lemma {:induction false} AskingShows(p: Pair<bool>, n: nat, waited: bool, c: FreeCycle)
    requires Phase(p, n, waited) && (waited || !p.shadow)
    ensures Bus(EVERY_OTHER, p, n, c.heard).out.instr.req
  {
    BothTakeTurns();
    if waited {
      StuckIsCalm(p, n, c.heard);
    } else {
      AlignedStep(EVERY_OTHER, p, n, c);
    }
  }

  /** At every depth, from every aligned pair of EVERY_OTHER that presents its request: however many cycles the
      bus stalls, the comparator objects in the cycle after the grant and not before. */
  lemma {:induction false} StallRaisesAlarm(p: Pair<bool>, n: nat, cs: seq<FreeCycle>)
    requires Deep(p, n) && Aligned(EVERY_OTHER, p, n) && !p.shadow && |cs| > 2
    requires Stalls(cs[..|cs| - 2]) && cs[|cs| - 2].gnt.instr
    ensures FailsAtTheEnd(Trace(Scheduled(EVERY_OTHER, n), p, cs))
  {
    WaitsThenFails(p, n, false, cs);
  }
}
