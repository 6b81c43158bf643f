/** What the redundant modes promise over whole runs, for every deterministic core and memory: the vote
    masks one faulty core for ever, and the comparison lets nothing wrong out before it falls silent. */
module RedundancyLaws {
  import opened Obi
  import opened Harts
  import opened DmrComparator
  import opened TmrVoter
  import opened SafeWrapper
  import opened Cores
  import opened Machines

  // ---------------------------------------------------------------- the system with a faulty core

  datatype System<S, M> = System(cores: Three<S>, mem: M)

  /** One cycle's inputs: interrupt lines for all cores, and whatever the faulty core requests. */
  datatype Event = Event(lines: Interrupts, fault: Ports)

  /** What can be seen of a cycle from outside. */
  datatype Visible = Visible(bus: Three<Ports>, accused: Three<bool>, comparatorError: bool)

  /** What core i gets of something that each bus offers. */
  function Heard<T>(mode: Mode, i: Hart, offers: Three<T>, otherwise: T): T {
    match ResponseSource(mode, i)
    case Direct(k) => offers.At(k)
    case _ => otherwise
  }

  const SILENCE := Replies(Reply(false, 0), Reply(false, 0))

  function InputOf<S, M>(mem: Memory<M>, mode: Mode, s: System<S, M>, lines: Interrupts, i: Hart): In {
    var r := Heard(mode, i, mem.answer(s.mem), SILENCE);
    In(r.instr, r.data, lines)
  }

  /** What core i puts on its ports: core f whatever its fault makes it. */
  function RequestOf<S, M>(core: Core<S>, mem: Memory<M>, mode: Mode, f: Hart, s: System<S, M>, x: Event,
      i: Hart): Ports {
    if i == f then x.fault else core.out(s.cores.At(i), InputOf(mem, mode, s, x.lines, i))
  }

  function Requests<S, M>(core: Core<S>, mem: Memory<M>, mode: Mode, f: Hart, s: System<S, M>, x: Event): Three<Ports> {
    Three(RequestOf(core, mem, mode, f, s, x, 0), RequestOf(core, mem, mode, f, s, x, 1),
      RequestOf(core, mem, mode, f, s, x, 2))
  }

  function BusOf(mode: Mode, reqs: Three<Ports>): Three<Ports> {
    var none := Rivals(NO_PORTS, NO_PORTS);
    Three(BusRequest(mode, reqs, none, 0), BusRequest(mode, reqs, none, 1), BusRequest(mode, reqs, none, 2))
  }

  function NextCore<S, M>(core: Core<S>, mem: Memory<M>, mode: Mode, s: System<S, M>, lines: Interrupts,
      gnt: Three<Grants>, i: Hart): S {
    var g := Heard(mode, i, gnt, Grants(false, false));
    core.next(s.cores.At(i), InputOf(mem, mode, s, lines, i), g.instr, g.data)
  }

  function SystemNext<S, M>(core: Core<S>, mem: Memory<M>, mode: Mode, f: Hart, s: System<S, M>,
      x: Event): System<S, M> {
    var bus := BusOf(mode, Requests(core, mem, mode, f, s, x));
    var gnt := mem.grant(s.mem, bus);
    System(
      Three(NextCore(core, mem, mode, s, x.lines, gnt, 0), NextCore(core, mem, mode, s, x.lines, gnt, 1),
        NextCore(core, mem, mode, s, x.lines, gnt, 2)),
      mem.next(s.mem, bus))
  }

  function SystemOut<S, M>(core: Core<S>, mem: Memory<M>, mode: Mode, m: Hart, f: Hart, s: System<S, M>,
      x: Event): Visible {
    var reqs := Requests(core, mem, mode, f, s, x);
    Visible(BusOf(mode, reqs), ErrorId(mode, reqs), ComparatorVerdict(mode, reqs, Rivals(NO_PORTS, NO_PORTS), m).error)
  }

  /** Three cores of one kind behind the wrapper, under master m; core f is faulty in any way. */
  function Redundant<S, M>(core: Core<S>, mem: Memory<M>, mode: Mode, m: Hart,
      f: Hart): Machine<System<S, M>, Event, Visible> {
    Machine((s, x) => SystemNext(core, mem, mode, f, s, x), (s, x) => SystemOut(core, mem, mode, m, f, s, x))
  }

  // ---------------------------------------------------------------- the system that cannot fail

  /** One healthy core on bus m of the same memory. */
  datatype Golden<S, M> = Golden(core: S, mem: M)

  function OnlyOn(m: Hart, p: Ports): Three<Ports> {
    Three(if m == 0 then p else NO_PORTS, if m == 1 then p else NO_PORTS, if m == 2 then p else NO_PORTS)
  }

  function GoldenInput<S, M>(mem: Memory<M>, m: Hart, g: Golden<S, M>, lines: Interrupts): In {
    In(mem.answer(g.mem).At(m).instr, mem.answer(g.mem).At(m).data, lines)
  }

  function GoldenBus<S, M>(core: Core<S>, mem: Memory<M>, m: Hart, g: Golden<S, M>, lines: Interrupts): Three<Ports> {
    OnlyOn(m, core.out(g.core, GoldenInput(mem, m, g, lines)))
  }

  function GoldenNext<S, M>(core: Core<S>, mem: Memory<M>, m: Hart, g: Golden<S, M>, lines: Interrupts): Golden<S, M> {
    var bus := GoldenBus(core, mem, m, g, lines);
    var gnt := mem.grant(g.mem, bus).At(m);
    Golden(core.next(g.core, GoldenInput(mem, m, g, lines), gnt.instr, gnt.data), mem.next(g.mem, bus))
  }

  function FaultFree<S, M>(core: Core<S>, mem: Memory<M>, m: Hart): Machine<Golden<S, M>, Interrupts, Three<Ports>> {
    Machine((g, lines) => GoldenNext(core, mem, m, g, lines), (g, lines) => GoldenBus(core, mem, m, g, lines))
  }

  function LinesOf(x: Event): Interrupts {
    x.lines
  }

  // ---------------------------------------------------------------- the vote masks

  /** All cores but f are in the state of core h. */
  ghost predicate HealthyAgree<S, M>(s: System<S, M>, f: Hart, h: Hart) {
    forall i: Hart | i != f :: s.cores.At(i) == s.cores.At(h)
  }

  /** The bus is the fault-free one, and nobody but f is accused. */
  ghost predicate Masked(f: Hart, v: Visible, golden: Three<Ports>) {
    v.bus == golden && forall i: Hart | v.accused.At(i) :: i == f
  }

  ghost function TmrMirror<S, M>(f: Hart,
      h: Hart): Mirror<System<S, M>, Golden<S, M>, Event, Interrupts, Three<Ports>, Visible> {
    Mirror((s: System<S, M>) => HealthyAgree(s, f, h), (s: System<S, M>) => Golden(s.cores.At(h), s.mem), LinesOf,
      (v: Visible) => true, (v: Visible, g: Three<Ports>) => Masked(f, v, g), (v: Visible) => true)
  }

  lemma {:induction false} TmrInputs<S, M>(mem: Memory<M>, mode: Mode, m: Hart, h: Hart, s: System<S, M>,
      lines: Interrupts, i: Hart)
    requires TmrMode(mode, m)
    ensures InputOf(mem, mode, s, lines, i) == GoldenInput(mem, m, Golden(s.cores.At(h), s.mem), lines)
  {
    TmrAnswers(mode, m, i);
  }

  lemma {:induction false} HealthyRequest<S, M>(core: Core<S>, mem: Memory<M>, mode: Mode, m: Hart, f: Hart, h: Hart,
      s: System<S, M>, x: Event, i: Hart)
    requires TmrMode(mode, m) && i != f && f != h && HealthyAgree(s, f, h)
    ensures Requests(core, mem, mode, f, s, x).At(i)
      == core.out(s.cores.At(h), GoldenInput(mem, m, Golden(s.cores.At(h), s.mem), x.lines))
  {
    TmrInputs(mem, mode, m, h, s, x.lines, i);
    assert Requests(core, mem, mode, f, s, x).At(i) == RequestOf(core, mem, mode, f, s, x, i);
  }

  lemma {:induction false} TmrBus<S, M>(core: Core<S>, mem: Memory<M>, mode: Mode, m: Hart, f: Hart, h: Hart,
      s: System<S, M>, x: Event)
    requires TmrMode(mode, m) && f != h && HealthyAgree(s, f, h)
    ensures BusOf(mode, Requests(core, mem, mode, f, s, x))
      == GoldenBus(core, mem, m, Golden(s.cores.At(h), s.mem), x.lines)
    ensures forall i: Hart | ErrorId(mode, Requests(core, mem, mode, f, s, x)).At(i) :: i == f
  {
    var healthy := core.out(s.cores.At(h), GoldenInput(mem, m, Golden(s.cores.At(h), s.mem), x.lines));
    forall i: Hart | i != f ensures Requests(core, mem, mode, f, s, x).At(i) == healthy {
      HealthyRequest(core, mem, mode, m, f, h, s, x, i);
    }
    VotedBus(mode, m, f, Requests(core, mem, mode, f, s, x), healthy);
  }

  lemma {:induction false} VotedBus(mode: Mode, m: Hart, f: Hart, reqs: Three<Ports>, healthy: Ports)
    requires TmrMode(mode, m) && forall i: Hart | i != f :: reqs.At(i) == healthy
    ensures BusOf(mode, reqs) == OnlyOn(m, healthy)
    ensures forall i: Hart | ErrorId(mode, reqs).At(i) :: i == f
  {
    TmrRoutes(mode, m, reqs, Rivals(NO_PORTS, NO_PORTS));
    OneFaultIsOutvoted(reqs, healthy, f, true);
  }

  lemma {:induction false} TmrStep<S, M>(core: Core<S>, mem: Memory<M>, mode: Mode, m: Hart, f: Hart, h: Hart,
      s: System<S, M>, x: Event)
    requires TmrMode(mode, m) && f != h
    ensures MirrorStep(Redundant(core, mem, mode, m, f), FaultFree(core, mem, m), TmrMirror(f, h), s, x)
  {
    if HealthyAgree(s, f, h) {
      TmrBus(core, mem, mode, m, f, h, s, x);
      TmrNext(core, mem, mode, m, f, h, s, x);
    }
  }

  lemma {:induction false} TmrNext<S, M>(core: Core<S>, mem: Memory<M>, mode: Mode, m: Hart, f: Hart, h: Hart,
      s: System<S, M>, x: Event)
    requires TmrMode(mode, m) && f != h && HealthyAgree(s, f, h)
    requires BusOf(mode, Requests(core, mem, mode, f, s, x))
      == GoldenBus(core, mem, m, Golden(s.cores.At(h), s.mem), x.lines)
    ensures var s' := SystemNext(core, mem, mode, f, s, x);
      HealthyAgree(s', f, h)
        && Golden(s'.cores.At(h), s'.mem) == GoldenNext(core, mem, m, Golden(s.cores.At(h), s.mem), x.lines)
  {
    var gnt := mem.grant(s.mem, BusOf(mode, Requests(core, mem, mode, f, s, x)));
    forall i: Hart ensures NextCore(core, mem, mode, s, x.lines, gnt, i)
      == core.next(s.cores.At(i), GoldenInput(mem, m, Golden(s.cores.At(h), s.mem), x.lines), gnt.At(m).instr,
        gnt.At(m).data)
    {
      TmrInputs(mem, mode, m, h, s, x.lines, i);
      TmrAnswers(mode, m, i);
    }
    var s' := SystemNext(core, mem, mode, f, s, x);
    assert forall i: Hart :: s'.cores.At(i) == NextCore(core, mem, mode, s, x.lines, gnt, i);
  }

  /** For every core, memory, master and faulty core, and every stream of interrupts and faults: the bus
      carries for ever what it would carry without the fault, the two healthy cores stay equal, and no
      healthy core is ever accused. */
  lemma {:induction false} VoteMasksOneCore<S, M>(core: Core<S>, mem: Memory<M>, mode: Mode, m: Hart, f: Hart, h: Hart,
      s: System<S, M>, xs: seq<Event>)
    requires TmrMode(mode, m) && f != h && HealthyAgree(s, f, h)
    ensures
      var t := Trace(Redundant(core, mem, mode, m, f), s, xs);
      var golden := Trace(FaultFree(core, mem, m), Golden(s.cores.At(h), s.mem), Inputs(LinesOf, xs));
      forall k | 0 <= k < |xs| :: Masked(f, t[k], golden[k])
    ensures
      var s' := Run(Redundant(core, mem, mode, m, f), s, xs);
      && HealthyAgree(s', f, h)
      && Golden(s'.cores.At(h), s'.mem)
        == Run(FaultFree(core, mem, m), Golden(s.cores.At(h), s.mem), Inputs(LinesOf, xs))
  {
    var fast, slow, r := Redundant(core, mem, mode, m, f), FaultFree(core, mem, m), TmrMirror<S, M>(f, h);
    forall q, x ensures MirrorStep(fast, slow, r, q, x) {
      TmrStep(core, mem, mode, m, f, h, q, x);
    }
    MirrorsUntilAlarm(fast, slow, r, s, xs);
    var t := Trace(fast, s, xs);
    assert forall k | 0 <= k <= |xs| :: All(r.calm, t[..k]);
    assert t[..|xs|] == t;
  }

  // ---------------------------------------------------------------- the comparison is fail-silent

  ghost predicate SameBuses(a: Three<Ports>, b: Three<Ports>) {
    SamePorts(a.h0, b.h0) && SamePorts(a.h1, b.h1) && SamePorts(a.h2, b.h2)
  }

  /** A memory that looks at an address only under a request and at write data only under a write. */
  ghost predicate RespectsMeaning<M(!new)>(mem: Memory<M>) {
    forall s, a, b :: SameBuses(a, b) ==> mem.grant(s, a) == mem.grant(s, b) && mem.next(s, a) == mem.next(s, b)
  }

  predicate NoComparatorError(v: Visible) {
    !v.comparatorError
  }

  predicate AllBusesSilent(v: Visible) {
    v.bus == Three(NO_PORTS, NO_PORTS, NO_PORTS)
  }

  ghost predicate SameOnBus(v: Visible, golden: Three<Ports>) {
    SameBuses(v.bus, golden)
  }

  ghost function DualMirror<S, M>(h: Hart)
    : Mirror<System<S, M>, Golden<S, M>, Event, Interrupts, Three<Ports>, Visible>
  {
    Mirror((s: System<S, M>) => true, (s: System<S, M>) => Golden(s.cores.At(h), s.mem), LinesOf,
      NoComparatorError, (v: Visible, g: Three<Ports>) => SameOnBus(v, g), AllBusesSilent)
  }

  lemma {:induction false} DualBus(mode: Mode, m: Hart, slave: Hart, reqs: Three<Ports>)
    requires DualMode(mode, m, slave)
    ensures BusOf(mode, reqs) == OnlyOn(m, Compare(reqs.At(m), reqs.At(slave)).out)
    ensures ComparatorVerdict(mode, reqs, Rivals(NO_PORTS, NO_PORTS), m).error <==>
      !SamePorts(reqs.At(m), reqs.At(slave))
  {
    DualRoutes(mode, m, slave, reqs, Rivals(NO_PORTS, NO_PORTS));
  }

  lemma {:induction false} DualVisible<S, M>(core: Core<S>, mem: Memory<M>, mode: Mode, m: Hart, slave: Hart, f: Hart,
      h: Hart, s: System<S, M>, x: Event)
    requires DualMode(mode, m, slave) && ((f == m && h == slave) || (f == slave && h == m))
    ensures var v := SystemOut(core, mem, mode, m, f, s, x);
      if v.comparatorError then AllBusesSilent(v)
        else SameOnBus(v, GoldenBus(core, mem, m, Golden(s.cores.At(h), s.mem), x.lines))
  {
    var reqs := Requests(core, mem, mode, f, s, x);
    DualBus(mode, m, slave, reqs);
    DualAnswers(mode, m, slave, h);
    assert reqs.At(h) == RequestOf(core, mem, mode, f, s, x, h)
      == core.out(s.cores.At(h), GoldenInput(mem, m, Golden(s.cores.At(h), s.mem), x.lines));
  }

  /** What DualMirror asks of one cycle. */
  ghost predicate DualFollows<S, M>(core: Core<S>, mem: Memory<M>, mode: Mode, m: Hart, f: Hart, h: Hart,
      s: System<S, M>, x: Event) {
    var v, g := SystemOut(core, mem, mode, m, f, s, x), Golden(s.cores.At(h), s.mem);
    if v.comparatorError then AllBusesSilent(v)
    else
      var s' := SystemNext(core, mem, mode, f, s, x);
      SameOnBus(v, GoldenBus(core, mem, m, g, x.lines))
        && Golden(s'.cores.At(h), s'.mem) == GoldenNext(core, mem, m, g, x.lines)
  }

  lemma {:induction false} DualAdvances<S, M(!new)>(core: Core<S>, mem: Memory<M>, mode: Mode, m: Hart, slave: Hart,
      f: Hart, h: Hart,
      s: System<S, M>, x: Event)
    requires DualMode(mode, m, slave) && ((f == m && h == slave) || (f == slave && h == m)) && RespectsMeaning(mem)
    ensures DualFollows(core, mem, mode, m, f, h, s, x)
  {
    DualVisible(core, mem, mode, m, slave, f, h, s, x);
    DualAnswers(mode, m, slave, h);
    var v := SystemOut(core, mem, mode, m, f, s, x);
    if !v.comparatorError {
      assert SameBuses(v.bus, GoldenBus(core, mem, m, Golden(s.cores.At(h), s.mem), x.lines));
      var s' := SystemNext(core, mem, mode, f, s, x);
      assert s'.cores.At(h) == NextCore(core, mem, mode, s, x.lines, mem.grant(s.mem, v.bus), h);
    }
  }

  lemma {:induction false} DualStep<S, M>(core: Core<S>, mem: Memory<M>, mode: Mode, m: Hart, f: Hart, h: Hart,
      s: System<S, M>, x: Event)
    requires DualFollows(core, mem, mode, m, f, h, s, x)
    ensures MirrorStep(Redundant(core, mem, mode, m, f), FaultFree(core, mem, m), DualMirror(h), s, x)
  {
  }

  /** For every core, memory, pair of cores and corruption of either of them, from any cycle on: up to the
      first comparator error every bus request means the same as the fault-free one, and in the cycle of
      that error every port carries zero. */
  lemma {:induction false} ComparisonIsFailSilent<S, M(!new)>(core: Core<S>, mem: Memory<M>, mode: Mode, m: Hart,
      slave: Hart, f: Hart, h: Hart,
      s: System<S, M>, xs: seq<Event>, k: nat)
    requires DualMode(mode, m, slave) && ((f == m && h == slave) || (f == slave && h == m)) && RespectsMeaning(mem)
    requires k < |xs| && All(NoComparatorError, Trace(Redundant(core, mem, mode, m, f), s, xs)[..k])
    ensures
      var v := Trace(Redundant(core, mem, mode, m, f), s, xs)[k];
      if v.comparatorError then AllBusesSilent(v)
      else SameOnBus(v, Trace(FaultFree(core, mem, m), Golden(s.cores.At(h), s.mem), Inputs(LinesOf, xs))[k])
  {
    var fast, slow, r := Redundant(core, mem, mode, m, f), FaultFree(core, mem, m), DualMirror<S, M>(h);
    forall q, x ensures MirrorStep(fast, slow, r, q, x) {
      DualAdvances(core, mem, mode, m, slave, f, h, q, x);
      DualStep(core, mem, mode, m, f, h, q, x);
    }
    MirrorsUntilAlarm(fast, slow, r, s, xs);
    var t := Trace(fast, s, xs);
    assert if r.calm(t[k]) then r.agree(t[k], Trace(slow, r.image(s), Inputs(r.input, xs))[k]) else r.silent(t[k]);
  }
}
