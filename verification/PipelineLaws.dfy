/** What the elastic pipeline keeps over whole runs: it is a FIFO of bounded depth, it holds a
    stalled request still, and on a bus that never stalls it is an exact delay line. */
module PipelineLaws {
  import opened Obi
  import opened ObiPipeline

  // ---------------------------------------------------------------- a FIFO

  /** One clock cycle as the chain sees it from outside. */
  datatype Cycle = Cycle(input: Request, gnt: bool)

  /** The request that crosses a port in one cycle, if any. */
  function Transfer(r: Request, gnt: bool): seq<Request> {
    if r.req && gnt then [r] else []
  }

  /** The requests in flight, oldest first. */
  function Stored(st: seq<Request>): seq<Request> {
    if st == [] then [] else Stored(st[1..]) + (if st[0].req then [st[0]] else [])
  }

  function Run(st: seq<Request>, cycles: seq<Cycle>): (r: seq<Request>)
    ensures |r| == |st|
    decreases |cycles|
  {
    if cycles == [] then st else Run(Step(st, false, cycles[0].input, cycles[0].gnt), cycles[1..])
  }

  function Accepted(st: seq<Request>, cycles: seq<Cycle>): seq<Request>
    decreases |cycles|
  {
    if cycles == [] then []
    else
      var c := cycles[0];
      Transfer(c.input, ChainGrant(st, c.input, c.gnt)) + Accepted(Step(st, false, c.input, c.gnt), cycles[1..])
  }

  function Emitted(st: seq<Request>, cycles: seq<Cycle>): seq<Request>
    decreases |cycles|
  {
    if cycles == [] then []
    else
      var c := cycles[0];
      Transfer(Out(st, c.input), c.gnt) + Emitted(Step(st, false, c.input, c.gnt), cycles[1..])
  }

  /** One cycle loses, invents, reorders and alters nothing. */
  lemma {:induction false} StepConserves(st: seq<Request>, input: Request, gnt: bool)
    ensures Transfer(Out(st, input), gnt) + Stored(Step(st, false, input, gnt))
         == Stored(st) + Transfer(input, ChainGrant(st, input, gnt))
  {
    if st != [] {
      var g := ChainGrant(st[1..], st[0], gnt);
      StepConserves(st[1..], st[0], gnt);
      StageConserves(st[0], input, g);
      Rebracket(Transfer(Out(st, input), gnt), Stored(Step(st[1..], false, st[0], gnt)),
        Transfer(Latched(st[0], false, input, g), true),
        Stored(st[1..]), Transfer(st[0], g), Transfer(st[0], true), Transfer(input, Grant(st[0], input, g)));
      assert Step(st, false, input, gnt)[1..] == Step(st[1..], false, st[0], gnt);
    }
  }

  lemma {:induction false} StageConserves(ff: Request, input: Request, gnt: bool)
    ensures Transfer(ff, gnt) + Transfer(Latched(ff, false, input, gnt), true)
         == Transfer(ff, true) + Transfer(input, Grant(ff, input, gnt))
  {
  }

  lemma {:induction false} Rebracket<T>(out: seq<T>, rest': seq<T>, first': seq<T>, rest: seq<T>, mid: seq<T>,
      first: seq<T>, come: seq<T>)
    requires out + rest' == rest + mid && mid + first' == first + come
    ensures out + (rest' + first') == (rest + first) + come
  {
    assert out + (rest' + first') == (rest + mid) + first' == rest + (mid + first');
    assert rest + (first + come) == (rest + first) + come;
  }

  /** Over any run, what went in is what came out followed by what is still inside, in order and in
      every field. */
  lemma {:induction false} PipelineIsFifo(st: seq<Request>, cycles: seq<Cycle>)
    ensures Emitted(st, cycles) + Stored(Run(st, cycles)) == Stored(st) + Accepted(st, cycles)
    decreases |cycles|
  {
    if cycles != [] {
      var c := cycles[0];
      StepConserves(st, c.input, c.gnt);
      PipelineIsFifo(Step(st, false, c.input, c.gnt), cycles[1..]);
      var out, next := Transfer(Out(st, c.input), c.gnt), Step(st, false, c.input, c.gnt);
      var come := Transfer(c.input, ChainGrant(st, c.input, c.gnt));
      Chain(out, Emitted(next, cycles[1..]), Stored(Run(st, cycles)), Stored(next), Accepted(next, cycles[1..]),
        Stored(st), come);
    }
  }

  lemma {:induction false} Chain<T>(out: seq<T>, emitted: seq<T>, last: seq<T>, mid: seq<T>, accepted: seq<T>,
      first: seq<T>, come: seq<T>)
    requires emitted + last == mid + accepted && out + mid == first + come
    ensures (out + emitted) + last == first + (come + accepted)
  {
    assert (out + emitted) + last == out + (emitted + last) == (out + mid) + accepted;
    assert (first + come) + accepted == first + (come + accepted);
  }

  /** From reset the stored part starts empty, so the outputs are a prefix of the accepted requests,
      and never more than one request a stage is missing from it. */
  lemma {:induction false} FifoFromReset(st: seq<Request>, cycles: seq<Cycle>)
    requires forall i | 0 <= i < |st| :: st[i] == NO_REQUEST
    ensures Emitted(st, cycles) <= Accepted(st, cycles)
    ensures |Accepted(st, cycles)| <= |Emitted(st, cycles)| + |st|
  {
    NothingStored(st);
    PipelineIsFifo(st, cycles);
    StoredFits(Run(st, cycles));
    assert [] + Accepted(st, cycles) == Accepted(st, cycles);
  }

  lemma {:induction false} NothingStored(st: seq<Request>)
    ensures Stored(st) == [] <==> forall i | 0 <= i < |st| :: !st[i].req
  {
    if st != [] {
      NothingStored(st[1..]);
      assert forall i | 0 <= i < |st| - 1 :: st[1..][i] == st[i + 1];
      assert forall i | 0 < i < |st| :: st[i] == st[1..][i - 1];
    }
  }

  lemma {:induction false} StoredFits(st: seq<Request>)
    ensures |Stored(st)| <= |st|
    ensures |Stored(st)| == |st| <==> forall i | 0 <= i < |st| :: st[i].req
  {
    if st != [] {
      StoredFits(st[1..]);
      assert forall i | 0 <= i < |st| - 1 :: st[1..][i] == st[i + 1];
      assert forall i | 0 < i < |st| :: st[i] == st[1..][i - 1];
    }
  }

  /** The core is refused only when every stage is full and the bus does not grant. */
  lemma {:induction false} RefusedOnlyWhenFull(st: seq<Request>, input: Request, gnt: bool)
    requires input.req
    ensures ChainGrant(st, input, gnt) <==> gnt || |Stored(st)| < |st|
  {
    StoredFits(st);
    if st != [] && st[0].req {
      RefusedOnlyWhenFull(st[1..], st[0], gnt);
    }
  }

  /** A request the bus has not granted stays on the bus, every field of it, until it is. */
  lemma {:induction false} StalledOutputHolds(st: seq<Request>, input: Request, next: Request)
    requires st != [] && Out(st, input).req
    ensures Out(Step(st, false, input, false), next) == Out(st, input)
  {
    if |st| > 1 {
      StalledOutputHolds(st[1..], st[0], next);
    }
  }

  // ---------------------------------------------------------------- clear_pipeline

  /** A clear empties every stage, whatever was granted. */
  lemma {:induction false} ClearEmpties(st: seq<Request>, input: Request, gnt: bool)
    ensures Stored(Step(st, true, input, gnt)) == []
  {
    if st != [] {
      ClearEmpties(st[1..], st[0], gnt);
      assert Step(st, true, input, gnt)[1..] == Step(st[1..], true, st[0], gnt);
    }
  }

  /** With clear_pipeline high the chain conserves requests exactly when the core asks for nothing and
      the only request inside, if there is one, leaves in this cycle. */
  lemma {:induction false} ClearConservesIff(st: seq<Request>, input: Request, gnt: bool)
    requires st != []
    ensures (Transfer(Out(st, input), gnt) + Stored(Step(st, true, input, gnt))
             == Stored(st) + Transfer(input, ChainGrant(st, input, gnt)))
       <==> (!input.req && (forall i | 0 <= i < |st| - 1 :: !st[i].req) && (st[|st| - 1].req ==> gnt))
  {
    var front, last := st[..|st| - 1], st[|st| - 1];
    ClearEmpties(st, input, gnt);
    StoredSplits(st);
    NothingStored(front);
    if input.req {
      RefusedOnlyWhenFull(st, input, gnt);
    }
  }

  lemma {:induction false} StoredSplits(st: seq<Request>)
    requires st != []
    ensures Stored(st) == Transfer(st[|st| - 1], true) + Stored(st[..|st| - 1])
  {
    if |st| > 1 {
      StoredSplits(st[1..]);
      assert st[1..][..|st| - 2] == st[..|st| - 1][1..];
    }
  }

  /** A granted request can vanish: one that is accepted in the cycle of a clear. */
  lemma {:induction false} ClearDropsGranted(input: Request, gnt: bool)
    requires input.req
    ensures ChainGrant([NO_REQUEST], input, gnt)
    ensures Transfer(Out([NO_REQUEST], input), gnt) == [] && Stored(Step([NO_REQUEST], true, input, gnt)) == []
  {
    ClearEmpties([NO_REQUEST], input, gnt);
  }

  // ---------------------------------------------------------------- an exact delay

  /** A register drops the write strobe of a cycle without a request. */
  function Normalize(r: Request): Request {
    r.(we := r.we && r.req)
  }

  /** If the bus grants whatever is presented, be the grant high without a request or not, then the core is
      granted exactly what it asks, and every stage hands its content on. */
  lemma {:induction false} GrantedAtOnce(st: seq<Request>, input: Request, gnt: bool)
    requires Out(st, input).req ==> gnt
    ensures if st == [] then input.req ==> gnt else ChainGrant(st, input, gnt) == input.req
    ensures forall i | 0 <= i < |st| :: Step(st, false, input, gnt)[i] == Normalize(Before(st, input, i))
  {
    if st != [] {
      GrantedAtOnce(st[1..], st[0], gnt);
      var next, rest := Step(st, false, input, gnt), Step(st[1..], false, st[0], gnt);
      forall i | 0 <= i < |st| ensures next[i] == Normalize(Before(st, input, i)) {
        if i > 0 {
          assert next[i] == rest[i - 1] == Normalize(Before(st[1..], st[0], i - 1));
        }
      }
    }
  }

  /** Clearing also hands every content on, without its request: a core that idles on r for as many
      cycles as there are stages fills the chain with r. */
  lemma {:induction false} ClearShifts(st: seq<Request>, input: Request, gnt: bool)
    ensures forall i | 0 <= i < |st| ::
      Step(st, true, input, gnt)[i] == Before(st, input, i).(req := false, we := false)
  {
    if st != [] {
      ClearShifts(st[1..], st[0], gnt);
      var next, rest := Step(st, true, input, gnt), Step(st[1..], true, st[0], gnt);
      forall i | 0 <= i < |st| ensures next[i] == Before(st, input, i).(req := false, we := false) {
        if i > 0 {
          assert next[i] == rest[i - 1] == Before(st[1..], st[0], i - 1).(req := false, we := false);
        }
      }
    }
  }

  /** The chain after the given cycles, on a bus that grants each presented request at once, and also whenever
      the cycle says so. */
  function RunGranted(st: seq<Request>, cycles: seq<Cycle>): (r: seq<Request>)
    ensures |r| == |st|
    decreases |cycles|
  {
    if cycles == [] then st
    else
      var before := RunGranted(st, cycles[..|cycles| - 1]);
      var c := cycles[|cycles| - 1];
      Step(before, false, c.input, Out(before, c.input).req || c.gnt)
  }

  /** An exact delay of as many cycles as there are stages: stage i holds the input of i + 1 cycles ago. */
  lemma {:induction false} ExactDelay(st: seq<Request>, cycles: seq<Cycle>, i: nat)
    requires i < |st| && i < |cycles|
    ensures RunGranted(st, cycles)[i] == Normalize(cycles[|cycles| - 1 - i].input)
    decreases |cycles|
  {
    var before := RunGranted(st, cycles[..|cycles| - 1]);
    var c := cycles[|cycles| - 1];
    GrantedAtOnce(before, c.input, Out(before, c.input).req || c.gnt);
    if i > 0 {
      ExactDelay(st, cycles[..|cycles| - 1], i - 1);
    }
  }

  /** So the bus sees each request |st| cycles after the core issued it. */
  lemma {:induction false} OutputIsDelayedInput(st: seq<Request>, cycles: seq<Cycle>, now: Request)
    requires 0 < |st| <= |cycles|
    ensures Out(RunGranted(st, cycles), now) == Normalize(cycles[|cycles| - |st|].input)
  {
    ExactDelay(st, cycles, |st| - 1);
  }
}
