/** The elastic request pipeline: a chain of single registers, whose grants ripple back
    combinationally from the bus side. */
module ObiPipeline {
  import opened Obi

  // ---------------------------------------------------------------- one register

  /** The grant that a register holding ff gives to the request in front of it. */
  function Grant(ff: Request, input: Request, gnt: bool): bool {
    (input.req && !ff.req) || (gnt && input.req)
  }

  /** What the register holds after the clock edge. */
  function Latched(ff: Request, clearPipeline: bool, input: Request, gnt: bool): Request {
    if clearPipeline || (!input.req && (gnt || !ff.req)) then input.(req := false, we := false)
    else if Grant(ff, input, gnt) then input
    else ff
  }

  class SingleRegister {
    var ff: Request

    constructor ()
      ensures ff == NO_REQUEST
    {
      ff := NO_REQUEST;
    }

    /** One clock edge; the clear branch comes after the load branch and wins. */
    method Clock(clearPipeline: bool, input: Request, gntI: bool) returns (gntO: bool)
      modifies this
      ensures gntO == Grant(old(ff), input, gntI)
      ensures ff == Latched(old(ff), clearPipeline, input, gntI)
    {
      gntO := (input.req && !ff.req) || (gntI && input.req);
      var clear := (!input.req && gntI) || (!input.req && !ff.req) || clearPipeline;
      var load := (input.req && !ff.req) || (input.req && gntI);
      if load {
        ff := ff.(req := input.req, addr := input.addr, we := input.we, wdata := input.wdata, be := input.be);
      }
      if clear {
        ff := ff.(req := false, addr := input.addr, we := false, wdata := input.wdata, be := input.be);
      }
    }
  }

  // ---------------------------------------------------------------- the chain

  /** What the chain shows the bus; stage 0 is the core side. */
  function Out(st: seq<Request>, input: Request): Request {
    if st == [] then input else st[|st| - 1]
  }

  /** The grant the core sees: the bus grant gnt, passed back through every stage. */
  function ChainGrant(st: seq<Request>, input: Request, gnt: bool): bool {
    if st == [] then gnt else Grant(st[0], input, ChainGrant(st[1..], st[0], gnt))
  }

  /** All stages after the clock edge. */
  function Step(st: seq<Request>, clearPipeline: bool, input: Request, gnt: bool): (next: seq<Request>)
    ensures |next| == |st|
  {
    if st == [] then []
    else
      var first := Latched(st[0], clearPipeline, input, ChainGrant(st[1..], st[0], gnt));
      [first] + Step(st[1..], clearPipeline, st[0], gnt)
  }

  class PipelinedDelay {
    const stages: seq<SingleRegister>

    ghost predicate Valid() {
      && stages != []
      && (forall i, j | 0 <= i < j < |stages| :: stages[i] != stages[j])
    }

    ghost function Contents(): (st: seq<Request>)
      reads stages
      ensures |st| == |stages|
    {
      seq(|stages|, i requires 0 <= i < |stages| reads stages => stages[i].ff)
    }

    constructor (ndelay: nat)
      requires ndelay > 0
      ensures Valid() && fresh(stages) && |stages| == ndelay
      ensures Contents() == seq(ndelay, i => NO_REQUEST)
    {
      var regs: seq<SingleRegister> := [];
      while |regs| < ndelay
        invariant |regs| <= ndelay && fresh(regs)
        invariant forall i, j | 0 <= i < j < |regs| :: regs[i] != regs[j]
        invariant forall i | 0 <= i < |regs| :: regs[i].ff == NO_REQUEST
      {
        var r := new SingleRegister();
        regs := regs + [r];
      }
      stages := regs;
    }

    /** One clock edge of every stage, each seeing the stage before it as it was. */
    method Clock(clearPipeline: bool, input: Request, gntI: bool) returns (out: Request, gntO: bool)
      requires Valid()
      modifies stages
      ensures out == Out(old(Contents()), input)
      ensures gntO == ChainGrant(old(Contents()), input, gntI)
      ensures Contents() == Step(old(Contents()), clearPipeline, input, gntI)
    {
      out := stages[|stages| - 1].ff;
      ghost var st, next := Contents(), Step(Contents(), clearPipeline, input, gntI);
      ghost var into := seq(|st| + 1, i requires 0 <= i <= |st| => GrantInto(st, input, gntI, i));
      forall i | 0 <= i < |st| ensures StageSteps(st, clearPipeline, input, into, next, i) {
        StepAt(st, clearPipeline, input, gntI, i);
      }
      gntO := ClockStages(clearPipeline, input, gntI, st, into, next);
      assert st[0..] == st;
    }

    /** From the bus side to the core side, so that each stage still finds the one before it unclocked. */
    method ClockStages(clearPipeline: bool, input: Request, gntI: bool, ghost st: seq<Request>, ghost into: seq<bool>,
        ghost next: seq<Request>)
        returns (gntO: bool)
      requires Valid() && |st| == |next| == |stages| == |into| - 1 && Contents() == st
      requires into[|st|] == gntI && forall i | 0 <= i < |st| :: StageSteps(st, clearPipeline, input, into, next, i)
      modifies stages
      ensures gntO == into[0]
      ensures Contents() == next
    {
      gntO := gntI;
      var i := |stages|;
      while i > 0
        invariant 0 <= i <= |stages|
        invariant gntO == into[i]
        invariant Clocked(st, next, i)
      {
        i := i - 1;
        assert StageSteps(st, clearPipeline, input, into, next, i);
        var before := if i == 0 then input else stages[i - 1].ff;
        gntO := ClockStage(i, clearPipeline, before, gntO, st, next);
      }
    }

    /** The stages from i on have been clocked, the ones before have not. */
    ghost predicate Clocked(st: seq<Request>, next: seq<Request>, i: nat)
      requires i <= |st| == |next| == |stages|
      reads stages
    {
      && (forall j | 0 <= j < i :: stages[j].ff == st[j])
      && (forall j | i <= j < |stages| :: stages[j].ff == next[j])
    }

    method ClockStage(i: nat, clearPipeline: bool, before: Request, gntI: bool, ghost st: seq<Request>,
        ghost next: seq<Request>)
        returns (gntO: bool)
      requires Valid() && i < |stages| == |st| == |next| && Clocked(st, next, i + 1)
      requires next[i] == Latched(st[i], clearPipeline, before, gntI)
      modifies stages[i]
      ensures gntO == Grant(st[i], before, gntI)
      ensures Clocked(st, next, i)
    {
      gntO := stages[i].Clock(clearPipeline, before, gntI);
    }
  }

  /** What stage i sees in front of it. */
  function Before(st: seq<Request>, input: Request, i: nat): Request
    requires i <= |st|
  {
    if i == 0 then input else st[i - 1]
  }

  /** The grant that arrives at the request in front of stage i; i == |st| is the bus. */
  function GrantInto(st: seq<Request>, input: Request, gnt: bool, i: nat): bool
    requires i <= |st|
  {
    ChainGrant(st[i..], Before(st, input, i), gnt)
  }

  /** Stage i, in terms of the grants that arrive in front of each stage. */
  ghost predicate StageSteps(st: seq<Request>, clearPipeline: bool, input: Request, into: seq<bool>,
      next: seq<Request>, i: nat)
    requires i < |st| == |next| == |into| - 1
  {
    && into[i] == Grant(st[i], Before(st, input, i), into[i + 1])
    && next[i] == Latched(st[i], clearPipeline, Before(st, input, i), into[i + 1])
  }

  /** Each stage latches on its own: the request before it and the grant from behind it decide. */
  lemma {:induction false} StepAt(st: seq<Request>, clearPipeline: bool, input: Request, gnt: bool, i: nat)
    requires i < |st|
    ensures Step(st, clearPipeline, input, gnt)[i]
         == Latched(st[i], clearPipeline, Before(st, input, i), GrantInto(st, input, gnt, i + 1))
    ensures GrantInto(st, input, gnt, i) == Grant(st[i], Before(st, input, i), GrantInto(st, input, gnt, i + 1))
  {
    assert st[i..][1..] == st[i + 1..];
    if i > 0 {
      StepAt(st[1..], clearPipeline, st[0], gnt, i - 1);
      assert st[1..][i..] == st[i + 1..];
    }
  }
}
