/** Fail-silence of the time-shifted pair over whole runs, for every core, depth and memory, stalls included:
    as long as one core of the pair is healthy, nothing reaches the bus that this core does not stand for. */
module ShiftedLaws {
  import opened Obi
  import opened Harts
  import opened ObiPipeline
  import opened DmrComparator
  import opened SafeWrapper
  import opened Lockstep
  import opened Cores
  import opened Machines
  import opened RedundancyLaws
  import opened LockstepLaws

  // ---------------------------------------------------------------- the pair with its memory

  /** Three cores, the lockstep registers of the master's comparator, the delayed lines and the memory. */
  datatype Whole<S, M> = Whole(cores: Three<S>, regs: Registers, irq: seq<Interrupts>, mem: M)

  /** One cycle's inputs: interrupt lines, and what each corrupted core is made to request. */
  datatype Strike = Strike(lines: Interrupts, fault: Three<Ports>)

  /** A time-shifted pair in the wrapper: its mode, master and depth, and which cores are corrupted. */
  datatype Setting<!S, !M> = Setting(core: Core<S>, mem: Memory<M>, mode: Mode, m: Hart, n: nat, hit: Three<bool>)

  predicate DeepWhole<S, M>(w: Whole<S, M>, n: nat) {
    && n > 0
    && |w.regs.instrPipe| == |w.regs.dataPipe| == |w.regs.instrReply| == |w.regs.dataReply| == |w.irq| == n
  }

  /** What core i hears: the bus at once, the bus late, or nothing. */
  function HeardByCore<S, M>(g: Setting<S, M>, w: Whole<S, M>, lines: Interrupts, i: Hart): In
    requires DeepWhole(w, g.n)
  {
    var r := match ResponseSource(g.mode, i)
      case ShiftedMaster(k) => g.mem.answer(w.mem).At(k)
      case ShiftedShadow(k) => Replies(w.regs.instrReply[g.n - 1], w.regs.dataReply[g.n - 1])
      case _ => SILENCE;
    In(r.instr, r.data, if GetsDelayedLines(g.mode, i) then w.irq[g.n - 1] else lines)
  }

  function RequestOfCore<S, M>(g: Setting<S, M>, w: Whole<S, M>, x: Strike, i: Hart): Ports
    requires DeepWhole(w, g.n)
  {
    if g.hit.At(i) then x.fault.At(i) else g.core.out(w.cores.At(i), HeardByCore(g, w, x.lines, i))
  }

  function RequestsOf<S, M>(g: Setting<S, M>, w: Whole<S, M>, x: Strike): Three<Ports>
    requires DeepWhole(w, g.n)
  {
    Three(RequestOfCore(g, w, x, 0), RequestOfCore(g, w, x, 1), RequestOfCore(g, w, x, 2))
  }

  /** What the lockstep registers pass on to the comparator. */
  function PassedOn<S, M>(g: Setting<S, M>, w: Whole<S, M>, reqs: Three<Ports>): Rivals {
    var r := ComparatorInput(g.mode, reqs, g.m);
    Rivals(MasterRequest(w.regs, r.first), ShadowRequest(r.second))
  }

  function Visibly<S, M>(g: Setting<S, M>, w: Whole<S, M>, reqs: Three<Ports>): Visible {
    var r := PassedOn(g, w, reqs);
    Visible(
      Three(BusRequest(g.mode, reqs, r, 0), BusRequest(g.mode, reqs, r, 1), BusRequest(g.mode, reqs, r, 2)),
      ErrorId(g.mode, reqs),
      ComparatorVerdict(g.mode, reqs, r, g.m).error)
  }

  /** The grants that core i gets. */
  function GrantsToCore<S, M>(g: Setting<S, M>, w: Whole<S, M>, mine: Ports, resp: Responses, i: Hart): Grants
    requires DeepWhole(w, g.n)
  {
    match ResponseSource(g.mode, i)
    case ShiftedMaster(k) =>
      var to := MasterResponse(w.regs, mine, resp);
      Grants(to.instr.gnt, to.data.gnt)
    case ShiftedShadow(k) =>
      var to := ShadowResponse(w.regs, resp);
      Grants(to.instr.gnt, to.data.gnt)
    case _ => Grants(false, false)
  }

  /** Bus m's answer of this cycle, given what the buses carry. */
  function AnswerOf<S, M>(g: Setting<S, M>, w: Whole<S, M>, bus: Three<Ports>): Responses {
    var gnt, r := g.mem.grant(w.mem, bus).At(g.m), g.mem.answer(w.mem).At(g.m);
    Responses(Response(gnt.instr, r.instr), Response(gnt.data, r.data))
  }

  function NextOfCore<S, M>(g: Setting<S, M>, w: Whole<S, M>, x: Strike, mine: Ports, resp: Responses, i: Hart): S
    requires DeepWhole(w, g.n)
  {
    var gnt := GrantsToCore(g, w, mine, resp, i);
    g.core.next(w.cores.At(i), HeardByCore(g, w, x.lines, i), gnt.instr, gnt.data)
  }

  function WholeNext<S, M>(g: Setting<S, M>, w: Whole<S, M>, x: Strike): (w': Whole<S, M>)
    requires DeepWhole(w, g.n)
    ensures DeepWhole(w', g.n)
  {
    var reqs := RequestsOf(g, w, x);
    var bus, mine := Visibly(g, w, reqs).bus, ComparatorInput(g.mode, reqs, g.m).first;
    var resp := AnswerOf(g, w, bus);
    Whole(
      Three(NextOfCore(g, w, x, mine, resp, 0), NextOfCore(g, w, x, mine, resp, 1), NextOfCore(g, w, x, mine, resp, 2)),
      Clocked(w.regs, true, mine, resp),
      Shifted(w.irq, x.lines),
      g.mem.next(w.mem, bus))
  }

  const NOTHING := Visible(Three(NO_PORTS, NO_PORTS, NO_PORTS), Three(false, false, false), false)

  /** The time-shifted pair behind the wrapper, with its memory, under any corruption of the cores in hit. */
  function ShiftedPair<S, M>(g: Setting<S, M>): Machine<Whole<S, M>, Strike, Visible> {
    Machine(
      (w, x: Strike) => if DeepWhole(w, g.n) then WholeNext(g, w, x) else w,
      (w, x: Strike) => if DeepWhole(w, g.n) then Visibly(g, w, RequestsOf(g, w, x)) else NOTHING)
  }

  function StrikeLines(x: Strike): Interrupts {
    x.lines
  }

  // ---------------------------------------------------------------- the two references

  /** One core that hears everything late. */
  datatype Late<S, M> = Late(core: S, instrReply: seq<Reply>, dataReply: seq<Reply>, irq: seq<Interrupts>, mem: M)

  predicate LateDeep<S, M>(l: Late<S, M>) {
    l.instrReply != [] && l.dataReply != [] && l.irq != []
  }

  function LateHeard<S, M>(l: Late<S, M>): In
    requires LateDeep(l)
  {
    In(l.instrReply[|l.instrReply| - 1], l.dataReply[|l.dataReply| - 1], l.irq[|l.irq| - 1])
  }

  function LateBus<S, M>(core: Core<S>, m: Hart, l: Late<S, M>): Three<Ports>
    requires LateDeep(l)
  {
    OnlyOn(m, ShadowRequest(core.out(l.core, LateHeard(l))))
  }

  function LateNext<S, M>(core: Core<S>, mem: Memory<M>, m: Hart, l: Late<S, M>, lines: Interrupts): Late<S, M>
    requires LateDeep(l)
  {
    var bus, r := LateBus(core, m, l), mem.answer(l.mem).At(m);
    var gnt := mem.grant(l.mem, bus).At(m);
    Late(core.next(l.core, LateHeard(l), gnt.instr, gnt.data), Shifted(l.instrReply, r.instr),
      Shifted(l.dataReply, r.data),
      Shifted(l.irq, lines), mem.next(l.mem, bus))
  }

  function LateCore<S, M>(core: Core<S>, mem: Memory<M>, m: Hart): Machine<Late<S, M>, Interrupts, Three<Ports>> {
    Machine(
      (l, lines) => if LateDeep(l) then LateNext(core, mem, m, l, lines) else l,
      (l, lines) => if LateDeep(l) then LateBus(core, m, l) else OnlyOn(m, NO_PORTS))
  }

  /** One core that hears everything at once and requests through the two pipes. */
  datatype Piped<S, M> = Piped(core: S, instrPipe: seq<Request>, dataPipe: seq<Request>, mem: M)

  function PipedHeard<S, M>(mem: Memory<M>, m: Hart, p: Piped<S, M>, lines: Interrupts): In {
    var r := mem.answer(p.mem).At(m);
    In(r.instr, r.data, lines)
  }

  function PipedBus<S, M>(core: Core<S>, mem: Memory<M>, m: Hart, p: Piped<S, M>, lines: Interrupts): Three<Ports> {
    var mine := core.out(p.core, PipedHeard(mem, m, p, lines));
    OnlyOn(m, Ports(Out(p.instrPipe, mine.instr), Out(p.dataPipe, mine.data)))
  }

  function PipedNext<S, M>(core: Core<S>, mem: Memory<M>, m: Hart, p: Piped<S, M>, lines: Interrupts): Piped<S, M> {
    var heard, bus := PipedHeard(mem, m, p, lines), PipedBus(core, mem, m, p, lines);
    var mine, gnt := core.out(p.core, heard), mem.grant(p.mem, bus).At(m);
    Piped(
      core.next(p.core, heard,
        ChainGrant(p.instrPipe, mine.instr, gnt.instr), ChainGrant(p.dataPipe, mine.data, gnt.data)),
      Step(p.instrPipe, false, mine.instr, gnt.instr), Step(p.dataPipe, false, mine.data, gnt.data),
      mem.next(p.mem, bus))
  }

  function PipedCore<S, M>(core: Core<S>, mem: Memory<M>, m: Hart): Machine<Piped<S, M>, Interrupts, Three<Ports>> {
    Machine((p, lines) => PipedNext(core, mem, m, p, lines), (p, lines) => PipedBus(core, mem, m, p, lines))
  }

  // ---------------------------------------------------------------- one cycle

  function LateOf<S, M>(w: Whole<S, M>, s: Hart): Late<S, M> {
    Late(w.cores.At(s), w.regs.instrReply, w.regs.dataReply, w.irq, w.mem)
  }

  function PipedOf<S, M>(w: Whole<S, M>, m: Hart): Piped<S, M> {
    Piped(w.cores.At(m), w.regs.instrPipe, w.regs.dataPipe, w.mem)
  }

  /** The comparator stands between the master's delayed requests and the shadow's own. */
  lemma {:induction false} ShiftedBus<S, M>(g: Setting<S, M>, s: Hart, w: Whole<S, M>, reqs: Three<Ports>)
    requires ShiftedMode(g.mode, g.m, s)
    ensures
      var v, first, second := Visibly(g, w, reqs), MasterRequest(w.regs, reqs.At(g.m)), ShadowRequest(reqs.At(s));
      && ComparatorInput(g.mode, reqs, g.m).first == reqs.At(g.m)
      && (v.comparatorError <==> !SamePorts(first, second))
      && v.bus == OnlyOn(g.m, if v.comparatorError then NO_PORTS else first)
  {
    ShiftedRoutes(g.mode, g.m, s, reqs, PassedOn(g, w, reqs));
  }

  /** What the mode makes the two cores hear and be granted. */
  lemma {:induction false} ShiftedAnswers<S, M>(g: Setting<S, M>, s: Hart, w: Whole<S, M>, lines: Interrupts,
      mine: Ports, resp: Responses)
    requires ShiftedMode(g.mode, g.m, s) && DeepWhole(w, g.n)
    ensures HeardByCore(g, w, lines, g.m) == PipedHeard(g.mem, g.m, PipedOf(w, g.m), lines)
    ensures HeardByCore(g, w, lines, s) == LateHeard(LateOf(w, s))
    ensures GrantsToCore(g, w, mine, resp, s) == Grants(resp.instr.gnt, resp.data.gnt)
    ensures GrantsToCore(g, w, mine, resp, g.m)
         == Grants(ChainGrant(w.regs.instrPipe, mine.instr, resp.instr.gnt),
           ChainGrant(w.regs.dataPipe, mine.data, resp.data.gnt))
  {
    ShiftedRoutes(g.mode, g.m, s, Three(mine, mine, mine), Rivals(mine, mine));
  }

  /** One cycle of the whole, part by part; mine is what the master requests and resp what bus m answers. */
  lemma {:induction false} WholeParts<S, M>(g: Setting<S, M>, s: Hart, w: Whole<S, M>, x: Strike, mine: Ports,
      resp: Responses)
    requires ShiftedMode(g.mode, g.m, s) && DeepWhole(w, g.n)
    requires mine == RequestsOf(g, w, x).At(g.m) && resp == AnswerOf(g, w, Visibly(g, w, RequestsOf(g, w, x)).bus)
    ensures var w' := WholeNext(g, w, x);
      && w'.cores.At(g.m) == g.core.next(w.cores.At(g.m), PipedHeard(g.mem, g.m, PipedOf(w, g.m), x.lines),
          ChainGrant(w.regs.instrPipe, mine.instr, resp.instr.gnt),
            ChainGrant(w.regs.dataPipe, mine.data, resp.data.gnt))
      && w'.cores.At(s) == g.core.next(w.cores.At(s), LateHeard(LateOf(w, s)), resp.instr.gnt, resp.data.gnt)
      && w'.regs == Clocked(w.regs, true, mine, resp) && w'.irq == Shifted(w.irq, x.lines)
      && w'.mem == g.mem.next(w.mem, Visibly(g, w, RequestsOf(g, w, x)).bus)
  {
    ShiftedBus(g, s, w, RequestsOf(g, w, x));
    ShiftedAnswers(g, s, w, x.lines, mine, resp);
    var w' := WholeNext(g, w, x);
    assert w'.cores.At(g.m) == NextOfCore(g, w, x, mine, resp, g.m);
    assert w'.cores.At(s) == NextOfCore(g, w, x, mine, resp, s);
  }

  // ---------------------------------------------------------------- a healthy shadow

  ghost function LateMirror<S, M>(g: Setting<S, M>,
      s: Hart): Mirror<Whole<S, M>, Late<S, M>, Strike, Interrupts, Three<Ports>, Visible> {
    Mirror((w: Whole<S, M>) => DeepWhole(w, g.n), (w: Whole<S, M>) => LateOf(w, s), StrikeLines,
      NoComparatorError, (v: Visible, b: Three<Ports>) => SameOnBus(v, b), AllBusesSilent)
  }

  lemma {:induction false} SameOnOnePort(m: Hart, a: Ports, b: Ports)
    requires SamePorts(a, b)
    ensures SameBuses(OnlyOn(m, a), OnlyOn(m, b))
  {
  }

  lemma {:induction false} LateVisible<S, M>(g: Setting<S, M>, s: Hart, w: Whole<S, M>, x: Strike)
    requires ShiftedMode(g.mode, g.m, s) && DeepWhole(w, g.n) && !g.hit.At(s)
    ensures var v := Visibly(g, w, RequestsOf(g, w, x));
      if v.comparatorError then AllBusesSilent(v) else SameOnBus(v, LateBus(g.core, g.m, LateOf(w, s)))
  {
    var reqs := RequestsOf(g, w, x);
    ShiftedBus(g, s, w, reqs);
    ShadowRequests(g, s, w, x);
    if !Visibly(g, w, reqs).comparatorError {
      SameOnOnePort(g.m, MasterRequest(w.regs, reqs.At(g.m)), ShadowRequest(reqs.At(s)));
    }
  }

  lemma {:induction false} ShadowRequests<S, M>(g: Setting<S, M>, s: Hart, w: Whole<S, M>, x: Strike)
    requires ShiftedMode(g.mode, g.m, s) && DeepWhole(w, g.n) && !g.hit.At(s)
    ensures RequestsOf(g, w, x).At(s) == g.core.out(w.cores.At(s), LateHeard(LateOf(w, s)))
  {
    ShiftedAnswers(g, s, w, x.lines, NO_PORTS, NoAnswer());
    assert RequestsOf(g, w, x).At(s) == RequestOfCore(g, w, x, s);
  }

  lemma {:induction false} MasterRequests<S, M>(g: Setting<S, M>, s: Hart, w: Whole<S, M>, x: Strike)
    requires ShiftedMode(g.mode, g.m, s) && DeepWhole(w, g.n) && !g.hit.At(g.m)
    ensures RequestsOf(g, w, x).At(g.m) == g.core.out(w.cores.At(g.m), PipedHeard(g.mem, g.m, PipedOf(w, g.m), x.lines))
  {
    ShiftedAnswers(g, s, w, x.lines, NO_PORTS, NoAnswer());
    assert RequestsOf(g, w, x).At(g.m) == RequestOfCore(g, w, x, g.m);
  }

  function NoAnswer(): Responses {
    Responses(Response(false, Reply(false, 0)), Response(false, Reply(false, 0)))
  }

  /** A bus that means the same gets the same answer and leaves the same memory. */
  lemma {:induction false} LateMoves<S, M(!new)>(g: Setting<S, M>, s: Hart, w: Whole<S, M>, x: Strike,
      bus: Three<Ports>)
    requires ShiftedMode(g.mode, g.m, s) && DeepWhole(w, g.n) && RespectsMeaning(g.mem)
    requires bus == Visibly(g, w, RequestsOf(g, w, x)).bus && SameBuses(bus, LateBus(g.core, g.m, LateOf(w, s)))
    ensures LateOf(WholeNext(g, w, x), s) == LateNext(g.core, g.mem, g.m, LateOf(w, s), x.lines)
  {
    WholeParts(g, s, w, x, RequestsOf(g, w, x).At(g.m), AnswerOf(g, w, bus));
  }

  lemma {:induction false} LateAdvances<S, M(!new)>(g: Setting<S, M>, s: Hart, w: Whole<S, M>, x: Strike)
    requires ShiftedMode(g.mode, g.m, s) && DeepWhole(w, g.n) && !g.hit.At(s) && RespectsMeaning(g.mem)
    requires !Visibly(g, w, RequestsOf(g, w, x)).comparatorError
    ensures LateOf(WholeNext(g, w, x), s) == LateNext(g.core, g.mem, g.m, LateOf(w, s), x.lines)
  {
    LateVisible(g, s, w, x);
    LateMoves(g, s, w, x, Visibly(g, w, RequestsOf(g, w, x)).bus);
  }

  /** What LateMirror asks of one cycle. */
  ghost predicate LateFollows<S, M>(g: Setting<S, M>, s: Hart, w: Whole<S, M>, x: Strike)
    requires DeepWhole(w, g.n)
  {
    var v := Visibly(g, w, RequestsOf(g, w, x));
    if v.comparatorError then AllBusesSilent(v)
    else
      && SameOnBus(v, LateBus(g.core, g.m, LateOf(w, s)))
      && LateOf(WholeNext(g, w, x), s) == LateNext(g.core, g.mem, g.m, LateOf(w, s), x.lines)
  }

  lemma {:induction false} LateStep<S, M>(g: Setting<S, M>, s: Hart, w: Whole<S, M>, x: Strike)
    requires DeepWhole(w, g.n) ==> LateFollows(g, s, w, x)
    ensures MirrorStep(ShiftedPair(g), LateCore(g.core, g.mem, g.m), LateMirror(g, s), w, x)
  {
  }

  // ---------------------------------------------------------------- a healthy master

  ghost function PipedMirror<S, M>(g: Setting<S, M>)
    : Mirror<Whole<S, M>, Piped<S, M>, Strike, Interrupts, Three<Ports>, Visible>
  {
    Mirror((w: Whole<S, M>) => DeepWhole(w, g.n), (w: Whole<S, M>) => PipedOf(w, g.m), StrikeLines,
      NoComparatorError, (v: Visible, b: Three<Ports>) => v.bus == b, AllBusesSilent)
  }

  lemma {:induction false} PipedVisible<S, M>(g: Setting<S, M>, s: Hart, w: Whole<S, M>, x: Strike)
    requires ShiftedMode(g.mode, g.m, s) && DeepWhole(w, g.n) && !g.hit.At(g.m)
    ensures var v := Visibly(g, w, RequestsOf(g, w, x));
      if v.comparatorError then AllBusesSilent(v) else v.bus == PipedBus(g.core, g.mem, g.m, PipedOf(w, g.m), x.lines)
  {
    ShiftedBus(g, s, w, RequestsOf(g, w, x));
    MasterRequests(g, s, w, x);
  }

  lemma {:induction false} PipedMoves<S, M>(g: Setting<S, M>, s: Hart, w: Whole<S, M>, x: Strike)
    requires ShiftedMode(g.mode, g.m, s) && DeepWhole(w, g.n) && !g.hit.At(g.m)
    requires Visibly(g, w, RequestsOf(g, w, x)).bus == PipedBus(g.core, g.mem, g.m, PipedOf(w, g.m), x.lines)
    ensures PipedOf(WholeNext(g, w, x), g.m) == PipedNext(g.core, g.mem, g.m, PipedOf(w, g.m), x.lines)
  {
    MasterRequests(g, s, w, x);
    WholeParts(g, s, w, x, RequestsOf(g, w, x).At(g.m), AnswerOf(g, w, Visibly(g, w, RequestsOf(g, w, x)).bus));
  }

  lemma {:induction false} PipedStep<S, M>(g: Setting<S, M>, s: Hart, w: Whole<S, M>, x: Strike)
    requires ShiftedMode(g.mode, g.m, s) && !g.hit.At(g.m)
    ensures MirrorStep(ShiftedPair(g), PipedCore(g.core, g.mem, g.m), PipedMirror(g), w, x)
  {
    if DeepWhole(w, g.n) {
      PipedVisible(g, s, w, x);
      if !Visibly(g, w, RequestsOf(g, w, x)).comparatorError {
        PipedMoves(g, s, w, x);
      }
    }
  }

  // ---------------------------------------------------------------- whole runs

  /** For every core, depth, memory and grants, and every corruption of the other cores from any cycle on: up to
      the first comparator error every bus request means what a healthy shadow makes it mean, which is one core
      alone that hears everything late; with a healthy master it is exactly what that core sends through its
      pipes; and in the cycle of the error every port carries zero. */
  lemma {:induction false} ShiftedComparisonIsFailSilent<S, M(!new)>(g: Setting<S, M>, s: Hart, w: Whole<S, M>,
      xs: seq<Strike>, k: nat)
    requires ShiftedMode(g.mode, g.m, s) && DeepWhole(w, g.n) && k < |xs|
    requires All(NoComparatorError, Trace(ShiftedPair(g), w, xs)[..k])
    ensures
      var v := Trace(ShiftedPair(g), w, xs)[k];
      !g.hit.At(s) && RespectsMeaning(g.mem) ==>
        if v.comparatorError then AllBusesSilent(v)
        else SameOnBus(v, Trace(LateCore(g.core, g.mem, g.m), LateOf(w, s), Inputs(StrikeLines, xs))[k])
    ensures
      var v := Trace(ShiftedPair(g), w, xs)[k];
      !g.hit.At(g.m) ==>
        if v.comparatorError then AllBusesSilent(v)
        else v.bus == Trace(PipedCore(g.core, g.mem, g.m), PipedOf(w, g.m), Inputs(StrikeLines, xs))[k]
  {
    if !g.hit.At(s) && RespectsMeaning(g.mem) {
      ShadowStandsForBus(g, s, w, xs, k);
    }
    if !g.hit.At(g.m) {
      MasterStandsForBus(g, s, w, xs, k);
    }
  }

  lemma {:induction false} ShadowStandsForBus<S, M(!new)>(g: Setting<S, M>, s: Hart, w: Whole<S, M>, xs: seq<Strike>,
      k: nat)
    requires ShiftedMode(g.mode, g.m, s) && DeepWhole(w, g.n) && k < |xs| && !g.hit.At(s) && RespectsMeaning(g.mem)
    requires All(NoComparatorError, Trace(ShiftedPair(g), w, xs)[..k])
    ensures
      var v := Trace(ShiftedPair(g), w, xs)[k];
      if v.comparatorError then AllBusesSilent(v)
      else SameOnBus(v, Trace(LateCore(g.core, g.mem, g.m), LateOf(w, s), Inputs(StrikeLines, xs))[k])
  {
    var fast, slow, r := ShiftedPair(g), LateCore(g.core, g.mem, g.m), LateMirror(g, s);
    forall q, x ensures MirrorStep(fast, slow, r, q, x) {
      if DeepWhole(q, g.n) {
        LateVisible(g, s, q, x);
        if !Visibly(g, q, RequestsOf(g, q, x)).comparatorError {
          LateAdvances(g, s, q, x);
        }
      }
      LateStep(g, s, q, x);
    }
    MirrorsUntilAlarm(fast, slow, r, w, xs);
    var t := Trace(fast, w, xs);
    assert if r.calm(t[k]) then r.agree(t[k], Trace(slow, r.image(w), Inputs(r.input, xs))[k]) else r.silent(t[k]);
  }

  lemma {:induction false} MasterStandsForBus<S, M>(g: Setting<S, M>, s: Hart, w: Whole<S, M>, xs: seq<Strike>, k: nat)
    requires ShiftedMode(g.mode, g.m, s) && DeepWhole(w, g.n) && k < |xs| && !g.hit.At(g.m)
    requires All(NoComparatorError, Trace(ShiftedPair(g), w, xs)[..k])
    ensures
      var v := Trace(ShiftedPair(g), w, xs)[k];
      if v.comparatorError then AllBusesSilent(v)
      else v.bus == Trace(PipedCore(g.core, g.mem, g.m), PipedOf(w, g.m), Inputs(StrikeLines, xs))[k]
  {
    var fast, slow, r := ShiftedPair(g), PipedCore(g.core, g.mem, g.m), PipedMirror(g);
    forall q, x ensures MirrorStep(fast, slow, r, q, x) {
      PipedStep(g, s, q, x);
    }
    MirrorsUntilAlarm(fast, slow, r, w, xs);
    var t := Trace(fast, w, xs);
    assert if r.calm(t[k]) then r.agree(t[k], Trace(slow, r.image(w), Inputs(r.input, xs))[k]) else r.silent(t[k]);
  }

  // ---------------------------------------------------------------- what the references are

  /** A memory that grants each request in the cycle in which it is presented. */
  ghost predicate GrantsAtOnce<M(!new)>(mem: Memory<M>, m: Hart) {
    forall s, bus :: Covers(mem.grant(s, bus).At(m), bus.At(m))
  }

  /** ... and never grants anything else. */
  ghost predicate GrantsOnlyRequests<M(!new)>(mem: Memory<M>, m: Hart) {
    forall s, bus ::
      var gnt := mem.grant(s, bus).At(m);
      (gnt.instr ==> bus.At(m).instr.req) && (gnt.data ==> bus.At(m).data.req)
  }

  function PairOf<S, M>(w: Whole<S, M>, m: Hart, s: Hart): Pair<S> {
    Pair(w.cores.At(m), w.cores.At(s), w.regs, w.irq)
  }

  function IdleGrants(gnt: Grants, bus: Ports): Grants {
    Grants(gnt.instr && !bus.instr.req, gnt.data && !bus.data.req)
  }

  /** What the healthy pair makes of the memory's answers and grants in one cycle. */
  function HeardByPair<S, M>(g: Setting<S, M>, w: Whole<S, M>, x: Strike): BusCycle {
    if DeepWhole(w, g.n) then
      var bus := Visibly(g, w, RequestsOf(g, w, x)).bus;
      BusCycle(PipedHeard(g.mem, g.m, PipedOf(w, g.m), x.lines),
        IdleGrants(g.mem.grant(w.mem, bus).At(g.m), bus.At(g.m)))
    else BusCycle(In(Reply(false, 0), Reply(false, 0), x.lines), Grants(false, false))
  }

  /** What is seen of the pair by itself. */
  function ComparisonOf(m: Hart, v: Visible): Comparison {
    Comparison(v.bus.At(m), v.comparatorError)
  }

  function PairPart<S, M>(g: Setting<S, M>,
      s: Hart): Part<Whole<S, M>, Pair<S>, Strike, BusCycle, Comparison, Visible> {
    Part((w: Whole<S, M>) => DeepWhole(w, g.n), (w: Whole<S, M>) => PairOf(w, g.m, s),
      (w: Whole<S, M>, x: Strike) => HeardByPair(g, w, x), (v: Visible) => ComparisonOf(g.m, v))
  }

  /** Without a corruption the whole contains the pair of the lockstep laws, on a bus that grants at once. */
  lemma {:induction false} PairOut<S, M>(g: Setting<S, M>, s: Hart, w: Whole<S, M>, x: Strike)
    requires ShiftedMode(g.mode, g.m, s) && DeepWhole(w, g.n) && !g.hit.At(g.m) && !g.hit.At(s)
    ensures Bus(g.core, PairOf(w, g.m, s), g.n, HeardByPair(g, w, x).heard)
      == ComparisonOf(g.m, Visibly(g, w, RequestsOf(g, w, x)))
  {
    var reqs := RequestsOf(g, w, x);
    BusOfPair(g, s, w, reqs);
    MasterRequests(g, s, w, x);
    ShadowRequests(g, s, w, x);
    assert Pending(PairOf(w, g.m, s), g.n)[0] == LateHeard(LateOf(w, s));
  }

  lemma {:induction false} BusOfPair<S, M>(g: Setting<S, M>, s: Hart, w: Whole<S, M>, reqs: Three<Ports>)
    requires ShiftedMode(g.mode, g.m, s)
    ensures ComparisonOf(g.m, Visibly(g, w, reqs))
      == Compare(MasterRequest(w.regs, reqs.At(g.m)), ShadowRequest(reqs.At(s)))
  {
    ShiftedBus(g, s, w, reqs);
  }

  lemma {:induction false} PairMoves<S, M(!new)>(g: Setting<S, M>, s: Hart, w: Whole<S, M>, x: Strike, gnt: Grants)
    requires ShiftedMode(g.mode, g.m, s) && DeepWhole(w, g.n) && !g.hit.At(g.m)
    requires gnt == g.mem.grant(w.mem, Visibly(g, w, RequestsOf(g, w, x)).bus).At(g.m)
    ensures PairOf(WholeNext(g, w, x), g.m, s)
         == PairStep(g.core, PairOf(w, g.m, s), g.n, PipedHeard(g.mem, g.m, PipedOf(w, g.m), x.lines), gnt)
  {
    MasterRequests(g, s, w, x);
    WholeParts(g, s, w, x, RequestsOf(g, w, x).At(g.m), AnswerOf(g, w, Visibly(g, w, RequestsOf(g, w, x)).bus));
    PairStepParts(g.core, PairOf(w, g.m, s), g.n, PipedHeard(g.mem, g.m, PipedOf(w, g.m), x.lines), gnt);
    assert Pending(PairOf(w, g.m, s), g.n)[0] == LateHeard(LateOf(w, s));
    SamePair(PairOf(WholeNext(g, w, x), g.m, s),
      PairStep(g.core, PairOf(w, g.m, s), g.n, PipedHeard(g.mem, g.m, PipedOf(w, g.m), x.lines), gnt));
  }

  lemma {:induction false} SamePair<S>(p: Pair<S>, q: Pair<S>)
    requires p.master == q.master && p.shadow == q.shadow && p.regs == q.regs && p.irq == q.irq
    ensures p == q
  {
  }

  lemma {:induction false} PairPartStep<S, M(!new)>(g: Setting<S, M>, s: Hart, w: Whole<S, M>, x: Strike)
    requires ShiftedMode(g.mode, g.m, s) && !g.hit.At(g.m) && !g.hit.At(s) && GrantsAtOnce(g.mem, g.m)
    ensures PartStep(ShiftedPair(g), Paired(g.core, g.n), PairPart(g, s), w, x)
  {
    if DeepWhole(w, g.n) {
      var bus := Visibly(g, w, RequestsOf(g, w, x)).bus;
      var gnt := g.mem.grant(w.mem, bus).At(g.m);
      PairOut(g, s, w, x);
      PairMoves(g, s, w, x, gnt);
      assert Covers(gnt, bus.At(g.m));
      assert GrantsOf(bus.At(g.m), IdleGrants(gnt, bus.At(g.m))) == gnt;
    }
  }

  /** What the core, alone, would request in the cycles in which the shadow does: it hears what the pair hears. */
  function AloneTrace<S, M>(g: Setting<S, M>, s: Hart, w: Whole<S, M>, xs: seq<Strike>): (t: seq<Ports>)
    requires DeepWhole(w, g.n)
    ensures |t| == |xs|
  {
    Trace(Alone(g.core), w.cores.At(s),
      ShadowSees(PairOf(w, g.m, s), g.n, HeardBy(ShiftedPair(g), PairPart(g, s).heard, w, xs)))
  }

  /** A pair without a corruption, on a memory that grants at once, and more only if the core does not mind, as it
      starts: aligned. */
  ghost predicate Sound<S(!new), M(!new)>(g: Setting<S, M>, s: Hart, w: Whole<S, M>) {
    && ShiftedMode(g.mode, g.m, s) && DeepWhole(w, g.n) && !g.hit.At(g.m) && !g.hit.At(s)
    && GrantsAtOnce(g.mem, g.m) && (IgnoresIdleGrants(g.core) || GrantsOnlyRequests(g.mem, g.m))
    && Aligned(g.core, PairOf(w, g.m, s), g.n)
  }

  lemma {:induction false} HearsAdmitted<S(!new), M(!new)>(g: Setting<S, M>, s: Hart, w: Whole<S, M>, xs: seq<Strike>)
    requires IgnoresIdleGrants(g.core) || GrantsOnlyRequests(g.mem, g.m)
    ensures All(c => Admitted(g.core, c), HeardBy(ShiftedPair(g), PairPart(g, s).heard, w, xs))
  {
    var heard := PairPart(g, s).heard;
    forall q, x ensures Admitted(g.core, heard(q, x)) {
      HeardIsAdmitted(g, q, x);
    }
    AllOutputs(Machine(ShiftedPair(g).next, heard), w, xs, c => Admitted(g.core, c));
  }

  lemma {:induction false} HeardIsAdmitted<S(!new), M(!new)>(g: Setting<S, M>, w: Whole<S, M>, x: Strike)
    requires IgnoresIdleGrants(g.core) || GrantsOnlyRequests(g.mem, g.m)
    ensures Admitted(g.core, HeardByPair(g, w, x))
  {
  }

  /** From a sound start the pair never alarms if and only if its core, alone, never strobes an instruction write
      without a request; and then the bus carries for ever what that core alone would request. */
  lemma {:induction false} SoundPairIsOneCore<S(!new), M(!new)>(g: Setting<S, M>, s: Hart, w: Whole<S, M>,
      xs: seq<Strike>)
    requires Sound(g, s, w)
    ensures All(NoComparatorError, Trace(ShiftedPair(g), w, xs)) <==> All(Quiet, AloneTrace(g, s, w, xs))
    ensures All(Quiet, AloneTrace(g, s, w, xs)) ==>
      forall k | 0 <= k < |xs| :: Trace(ShiftedPair(g), w, xs)[k].bus.At(g.m) == Shown(AloneTrace(g, s, w, xs)[k])
  {
    var fast, slow, r := ShiftedPair(g), Paired(g.core, g.n), PairPart(g, s);
    forall q, x ensures PartStep(fast, slow, r, q, x) {
      PairPartStep(g, s, q, x);
    }
    PartRuns(fast, slow, r, w, xs);
    var cs := HeardBy(fast, r.heard, w, xs);
    HearsAdmitted(g, s, w, xs);
    PairIsTransparent(g.core, PairOf(w, g.m, s), g.n, cs);
    SameCalm(g.m, Trace(fast, w, xs), Trace(slow, PairOf(w, g.m, s), cs), AloneTrace(g, s, w, xs), r.show);
  }

  lemma {:induction false} SameCalm(m: Hart, t: seq<Visible>, u: seq<Comparison>, alone: seq<Ports>,
      show: Visible -> Comparison)
    requires Shows(show, t, u) && forall v :: show(v) == ComparisonOf(m, v)
    requires All(Calm, u) <==> All(Quiet, alone)
    requires All(Quiet, alone) ==> Shows(Unchallenged, alone, u)
    ensures All(NoComparatorError, t) <==> All(Quiet, alone)
    ensures All(Quiet, alone) ==> |t| == |alone| && forall k | 0 <= k < |t| :: t[k].bus.At(m) == Shown(alone[k])
  {
    assert forall k | 0 <= k < |t| :: u[k] == ComparisonOf(m, t[k]);
  }

  /** So from a sound start both references of the fail-silence theorem carry what that one core would request. */
  lemma {:induction false} ReferencesAreOneCore<S(!new), M(!new)>(g: Setting<S, M>, s: Hart, w: Whole<S, M>,
      xs: seq<Strike>, k: nat)
    requires Sound(g, s, w) && RespectsMeaning(g.mem) && k < |xs| && All(Quiet, AloneTrace(g, s, w, xs))
    ensures
      var alone := Shown(AloneTrace(g, s, w, xs)[k]);
      && Trace(PipedCore(g.core, g.mem, g.m), PipedOf(w, g.m), Inputs(StrikeLines, xs))[k].At(g.m) == alone
      && SamePorts(alone, Trace(LateCore(g.core, g.mem, g.m), LateOf(w, s), Inputs(StrikeLines, xs))[k].At(g.m))
  {
    SoundPairIsOneCore(g, s, w, xs);
    PipedCarries(g, s, w, xs, k, Shown(AloneTrace(g, s, w, xs)[k]));
    LateCarries(g, s, w, xs, k, Shown(AloneTrace(g, s, w, xs)[k]));
  }

  lemma {:induction false} PipedCarries<S, M>(g: Setting<S, M>, s: Hart, w: Whole<S, M>, xs: seq<Strike>, k: nat,
      p: Ports)
    requires ShiftedMode(g.mode, g.m, s) && DeepWhole(w, g.n) && !g.hit.At(g.m)
    requires k < |xs| && All(NoComparatorError, Trace(ShiftedPair(g), w, xs))
      && Trace(ShiftedPair(g), w, xs)[k].bus.At(g.m) == p
    ensures Trace(PipedCore(g.core, g.mem, g.m), PipedOf(w, g.m), Inputs(StrikeLines, xs))[k].At(g.m) == p
  {
    CalmSoFar(Trace(ShiftedPair(g), w, xs), k);
    MasterStandsForBus(g, s, w, xs, k);
  }

  lemma {:induction false} LateCarries<S, M(!new)>(g: Setting<S, M>, s: Hart, w: Whole<S, M>, xs: seq<Strike>, k: nat,
      p: Ports)
    requires ShiftedMode(g.mode, g.m, s) && DeepWhole(w, g.n) && !g.hit.At(s) && RespectsMeaning(g.mem)
    requires k < |xs| && All(NoComparatorError, Trace(ShiftedPair(g), w, xs))
      && Trace(ShiftedPair(g), w, xs)[k].bus.At(g.m) == p
    ensures SamePorts(p, Trace(LateCore(g.core, g.mem, g.m), LateOf(w, s), Inputs(StrikeLines, xs))[k].At(g.m))
  {
    CalmSoFar(Trace(ShiftedPair(g), w, xs), k);
    ShadowStandsForBus(g, s, w, xs, k);
    OnPort(Trace(ShiftedPair(g), w, xs)[k].bus,
      Trace(LateCore(g.core, g.mem, g.m), LateOf(w, s), Inputs(StrikeLines, xs))[k], g.m);
  }

  lemma {:induction false} CalmSoFar(t: seq<Visible>, k: nat)
    requires k < |t| && All(NoComparatorError, t)
    ensures !t[k].comparatorError && All(NoComparatorError, t[..k])
  {
  }

  lemma {:induction false} OnPort(a: Three<Ports>, b: Three<Ports>, m: Hart)
    requires SameBuses(a, b)
    ensures SamePorts(a.At(m), b.At(m))
  {
  }
}
