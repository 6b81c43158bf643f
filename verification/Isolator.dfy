/** The bus isolator of one core port: while its core is put to sleep it answers in the memory's place,
    with a constant, and it must neither lose nor invent an answer when it takes over or lets go. */
module Isolator {
  import opened Obi

  /** The wfi instruction, which an isolated instruction port returns; a data port returns 0. */
  const WFI: bv32 := 0x10500073

  datatype Bits = Bits(validQ: bool, expected: bool)

  /** What the core hears: the isolator while isolated, else the memory. */
  function Heard(b: Bits, filler: bv32, wfi: bool, req: bool, mem: Response): Response {
    if wfi then Response(req, Reply(b.validQ || b.expected, filler)) else mem
  }

  function Next(b: Bits, wfi: bool, req: bool, mem: Response): Bits {
    if wfi then Bits(req, false)
    else Bits(false, (req && mem.gnt) || (b.expected && !mem.reply.rvalid))
  }

  class BusIsolator {
    const filler: bv32
    var validQ: bool
    var expectedRvalid: bool

    ghost function Contents(): Bits
      reads this
    {
      Bits(validQ, expectedRvalid)
    }

    constructor (filler: bv32)
      ensures this.filler == filler && Contents() == Bits(false, false)
    {
      this.filler := filler;
      validQ, expectedRvalid := false, false;
    }

    method Clock(wfi: bool, req: bool, mem: Response) returns (resp: Response)
      modifies this
      ensures resp == Heard(old(Contents()), filler, wfi, req, mem)
      ensures !wfi ==> resp == mem
      ensures wfi ==> resp.gnt == req && resp.reply.rdata == filler
      ensures Contents() == Next(old(Contents()), wfi, req, mem)
    {
      var isolated := Response(req, Reply(validQ || expectedRvalid, filler));
      resp := if wfi then isolated else mem;
      if !wfi {
        validQ := false;
        expectedRvalid := (req && resp.gnt) || (expectedRvalid && !resp.reply.rvalid);
      } else {
        validQ := isolated.gnt;
        expectedRvalid := false;
      }
    }
  }

  // ---------------------------------------------------------------- runs

  /** One cycle of the port: what the core requests, what the memory says, and how many answers the memory
      owes at the start of the cycle. */
  datatype Cycle = Cycle(wfi: bool, req: bool, mem: Response, owed: nat)

  function Count(b: bool): nat {
    if b then 1 else 0
  }

  /** The answers owed after a cycle that is not isolated. */
  function OwedAfter(c: Cycle): int {
    c.owed + Count(c.req && c.mem.gnt) - Count(c.mem.reply.rvalid)
  }

  /** Seen by the core, a memory answers only what it owes, and owes at most one answer. */
  ghost predicate FairCycle(c: Cycle) {
    !c.wfi ==> (c.mem.reply.rvalid ==> c.owed > 0) && OwedAfter(c) <= 1
  }

  /** Outside isolation the memory keeps account of what it owes; what happens to it while isolated, and how
      isolation ends, is left open. */
  ghost predicate FairRun(cs: seq<Cycle>) {
    && (forall k | 0 <= k < |cs| :: FairCycle(cs[k]))
    && (forall k | 0 <= k < |cs| - 1 :: Follows(cs[k], cs[k + 1]))
    && (cs != [] && !cs[0].wfi ==> cs[0].owed == 0)
  }

  predicate Follows(c: Cycle, d: Cycle) {
    !c.wfi && !d.wfi ==> d.owed == OwedAfter(c)
  }

  /** Letting go from c to d is even if the memory owes an answer, and gives it at once, exactly if the core
      still waits for one. */
  predicate Even(c: Cycle, d: Cycle) {
    c.wfi && !d.wfi ==> d.owed == Count(d.mem.reply.rvalid) == Count(c.req)
  }

  ghost predicate EvenRun(cs: seq<Cycle>) {
    forall k | 0 <= k < |cs| - 1 :: Even(cs[k], cs[k + 1])
  }

  function BitsAfter(cs: seq<Cycle>): Bits {
    if cs == [] then Bits(false, false)
    else var c := cs[|cs| - 1]; Next(BitsAfter(cs[..|cs| - 1]), c.wfi, c.req, c.mem)
  }

  function HeardIn(cs: seq<Cycle>, k: nat): Response
    requires k < |cs|
  {
    Heard(BitsAfter(cs[..k]), WFI, cs[k].wfi, cs[k].req, cs[k].mem)
  }

  /** The requests of the core that were granted, and the answers that it got. */
  function GrantsTo(cs: seq<Cycle>): nat {
    if cs == [] then 0
    else GrantsTo(cs[..|cs| - 1]) + Count(cs[|cs| - 1].req && HeardIn(cs, |cs| - 1).gnt)
  }

  function AnswersTo(cs: seq<Cycle>): nat {
    if cs == [] then 0 else AnswersTo(cs[..|cs| - 1]) + Count(HeardIn(cs, |cs| - 1).reply.rvalid)
  }

  /** What the two bits mean: one of them stands for the one answer that the core still waits for, and
      outside isolation that is the one the memory owes. */
  ghost predicate Balanced(cs: seq<Cycle>) {
    var b := BitsAfter(cs);
    && GrantsTo(cs) == AnswersTo(cs) + Count(b.validQ || b.expected)
    && !(b.validQ && b.expected)
    && (cs == [] ==> !b.validQ && !b.expected)
    && (cs != [] ==>
        var c := cs[|cs| - 1];
        if c.wfi then b.validQ == c.req && !b.expected
        else !b.validQ && OwedAfter(c) == Count(b.expected))
  }

  /** The account is right from the start to the end of the run. */
  ghost predicate AlwaysBalanced(cs: seq<Cycle>) {
    Balanced(cs) && (cs != [] ==> AlwaysBalanced(cs[..|cs| - 1]))
  }

  lemma {:induction false} PrefixOf(cs: seq<Cycle>)
    requires cs != [] && FairRun(cs)
    ensures var p, d := cs[..|cs| - 1], cs[|cs| - 1];
      && FairRun(p) && FairCycle(d)
      && (EvenRun(cs) <==> EvenRun(p) && (p != [] ==> Even(p[|p| - 1], d)))
      && (p != [] ==> Follows(p[|p| - 1], d))
  {
    var p := cs[..|cs| - 1];
    assert forall k | 0 <= k < |p| :: p[k] == cs[k];
    if |cs| > 1 {
      assert Follows(cs[|cs| - 2], cs[|cs| - 2 + 1]);
      assert EvenRun(cs) ==> Even(cs[|cs| - 2], cs[|cs| - 2 + 1]);
    }
    forall k | 0 <= k < |p| - 1 ensures Follows(p[k], p[k + 1]) && (EvenRun(cs) ==> Even(p[k], p[k + 1])) {
      assert Follows(cs[k], cs[k + 1]) && (EvenRun(cs) ==> Even(cs[k], cs[k + 1]));
    }
    if EvenRun(p) && (p != [] ==> Even(p[|p| - 1], cs[|cs| - 1])) {
      forall k | 0 <= k < |cs| - 1 ensures Even(cs[k], cs[k + 1]) {
        if k < |p| - 1 {
          assert Even(p[k], p[k + 1]);
        }
      }
    }
  }

  /** One cycle d after a balanced run cs keeps the account if and only if it does not let go unevenly. */
  lemma {:induction false} BalanceStep(cs: seq<Cycle>, d: Cycle)
    requires Balanced(cs) && FairCycle(d) && (cs == [] && !d.wfi ==> d.owed == 0)
    requires cs != [] ==> Follows(cs[|cs| - 1], d)
    ensures Balanced(cs + [d]) <==> (cs != [] ==> Even(cs[|cs| - 1], d))
    ensures Balanced(cs + [d]) && HeardIn(cs + [d], |cs|).reply.rvalid ==> GrantsTo(cs) == AnswersTo(cs) + 1
  {
    var e := cs + [d];
    assert e[..|e| - 1] == cs && e[|e| - 1] == d;
  }

  /** For every run of fair cycles, however isolation begins and ends: the account is right throughout if and
      only if isolation is always let go evenly. */
  lemma {:induction false} BalancedIff(cs: seq<Cycle>)
    requires FairRun(cs)
    ensures AlwaysBalanced(cs) <==> EvenRun(cs)
  {
    if cs != [] {
      var p, d := cs[..|cs| - 1], cs[|cs| - 1];
      PrefixOf(cs);
      BalancedIff(p);
      if Balanced(p) {
        BalanceStep(p, d);
        assert p + [d] == cs;
      }
    }
  }

  lemma {:induction false} StaysBalanced(cs: seq<Cycle>)
    requires FairRun(cs) && EvenRun(cs)
    ensures Balanced(cs)
    ensures cs != [] && HeardIn(cs, |cs| - 1).reply.rvalid ==> GrantsTo(cs[..|cs| - 1]) == AnswersTo(cs[..|cs| - 1]) + 1
  {
    BalancedIff(cs);
    if cs != [] {
      var p, d := cs[..|cs| - 1], cs[|cs| - 1];
      PrefixOf(cs);
      BalanceStep(p, d);
      assert p + [d] == cs;
    }
  }

  /** So across any number of switches in and out, each of them even: the core never gets an answer without a
      pending grant, never has more than one pending, and has got exactly one answer for each other grant. */
  lemma {:induction false} IsolationConserves(cs: seq<Cycle>, k: nat)
    requires FairRun(cs) && EvenRun(cs) && k < |cs|
    ensures HeardIn(cs, k).reply.rvalid ==> GrantsTo(cs[..k]) == AnswersTo(cs[..k]) + 1
    ensures AnswersTo(cs[..k + 1]) <= GrantsTo(cs[..k + 1]) <= AnswersTo(cs[..k + 1]) + 1
  {
    var p := cs[..k + 1];
    assert forall j | 0 <= j < |p| :: p[j] == cs[j];
    assert forall j | 0 <= j < |p| - 1 :: Follows(cs[j], cs[j + 1]) && Even(cs[j], cs[j + 1]);
    StaysBalanced(p);
    assert p[..k] == cs[..k];
  }

  /** Letting go: the first cycle d after isolation keeps the account if and only if the memory owes one answer,
      and gives it, when the last isolated cycle had a request, and owes none when it had not. */
  lemma {:induction false} LettingGoConservesIff(cs: seq<Cycle>, d: Cycle)
    requires cs != [] && FairRun(cs) && EvenRun(cs) && cs[|cs| - 1].wfi && !d.wfi && FairCycle(d)
    ensures Balanced(cs + [d]) <==> d.owed == Count(d.mem.reply.rvalid) == Count(cs[|cs| - 1].req)
  {
    StaysBalanced(cs);
    BalanceStep(cs, d);
  }

  /** A way to be even without luck: no request in the last isolated cycle, and all stale answers through. */
  lemma {:induction false} DrainedIsEven(c: Cycle, d: Cycle)
    requires FairCycle(d) && !c.req && (!d.wfi ==> d.owed == 0)
    ensures Even(c, d)
  {
  }

  /** After a request, with nothing owed, an answer is lost for good: it is due, and no bit stands for it. */
  lemma {:induction false} LostAnswer(cs: seq<Cycle>, d: Cycle)
    requires cs != [] && FairRun(cs) && EvenRun(cs) && cs[|cs| - 1].wfi && cs[|cs| - 1].req
    requires !d.wfi && FairCycle(d) && d.owed == 0 && !(d.req && d.mem.gnt)
    ensures GrantsTo(cs + [d]) == AnswersTo(cs + [d]) + 1 && BitsAfter(cs + [d]) == Bits(false, false)
  {
    StaysBalanced(cs);
    var e := cs + [d];
    assert e[..|e| - 1] == cs && e[|e| - 1] == d;
    assert HeardIn(e, |e| - 1) == d.mem;
  }

  /** Without a request, a stale answer still owed reaches a core that waits for none. */
  lemma {:induction false} StaleAnswer(cs: seq<Cycle>, d: Cycle)
    requires cs != [] && FairRun(cs) && EvenRun(cs) && cs[|cs| - 1].wfi && !cs[|cs| - 1].req
    requires !d.wfi && FairCycle(d) && d.mem.reply.rvalid
    ensures HeardIn(cs + [d], |cs|).reply.rvalid && GrantsTo(cs) == AnswersTo(cs)
  {
    StaysBalanced(cs);
  }

  // ---------------------------------------------------------------- what the core hears

  /** A request of cycle j has been granted, and neither answered nor cut off by isolation since. */
  predicate Outstanding(cs: seq<Cycle>, j: nat)
    requires j < |cs|
  {
    && !cs[j].wfi && cs[j].req && cs[j].mem.gnt
    && (forall k | j < k < |cs| :: !cs[k].wfi && !cs[k].mem.reply.rvalid)
  }

  /** The isolator has an answer to give after cs: to the request of an isolated cycle just before, or else to one
      that the memory has granted and not answered. */
  ghost predicate Due(cs: seq<Cycle>) {
    cs != [] && if cs[|cs| - 1].wfi then cs[|cs| - 1].req else exists j | 0 <= j < |cs| :: Outstanding(cs, j)
  }

  lemma {:induction false} OutstandingGrows(cs: seq<Cycle>, d: Cycle, j: nat)
    requires j < |cs|
    ensures Outstanding(cs + [d], j) <==> Outstanding(cs, j) && !d.wfi && !d.mem.reply.rvalid
  {
    var e := cs + [d];
    assert e[|cs|] == d && forall k | 0 <= k < |cs| :: e[k] == cs[k];
  }

  /** For every run, fair or not: one of the two bits is set if and only if an answer is due. */
  lemma {:induction false} BitsAreDue(cs: seq<Cycle>)
    ensures var b := BitsAfter(cs); (b.validQ || b.expected <==> Due(cs)) && !(b.validQ && b.expected)
  {
    if cs != [] {
      var p, d := cs[..|cs| - 1], cs[|cs| - 1];
      assert p + [d] == cs;
      BitsAreDue(p);
      if !d.wfi {
        BitsAreDueOutside(p, d);
      }
    }
  }

  lemma {:induction false} BitsAreDueOutside(p: seq<Cycle>, d: Cycle)
    requires !d.wfi
    requires var b := BitsAfter(p); (b.validQ || b.expected <==> Due(p)) && !(b.validQ && b.expected)
    ensures BitsAfter(p + [d]).expected <==> exists j | 0 <= j <= |p| :: Outstanding(p + [d], j)
  {
    var e := p + [d];
    assert e[..|e| - 1] == p && e[|e| - 1] == d;
    LastBits(p);
    forall j | 0 <= j < |p| ensures Outstanding(e, j) <==> Outstanding(p, j) && !d.mem.reply.rvalid {
      OutstandingGrows(p, d, j);
    }
    assert Outstanding(e, |p|) <==> d.req && d.mem.gnt;
    if p != [] && p[|p| - 1].wfi {
      forall j | 0 <= j < |p| ensures !Outstanding(p, j) {
        assert j < |p| - 1 ==> p[|p| - 1].wfi;
      }
    }
    if BitsAfter(p).expected && !d.mem.reply.rvalid {
      var j :| 0 <= j < |p| && Outstanding(p, j);
      assert Outstanding(e, j);
    }
  }

  lemma {:induction false} LastBits(p: seq<Cycle>)
    ensures var b := BitsAfter(p);
      if p == [] then b == Bits(false, false)
      else if p[|p| - 1].wfi then b == Bits(p[|p| - 1].req, false) else !b.validQ
  {
  }

  /** For every run, fair or not: outside isolation the core hears the memory; inside it every request is granted at
      once, and the filler comes exactly when an answer is due. */
  lemma {:induction false} HearsIff(cs: seq<Cycle>, filler: bv32, d: Cycle)
    ensures Heard(BitsAfter(cs), filler, d.wfi, d.req, d.mem) ==
      if d.wfi then Response(d.req, Reply(Due(cs), filler)) else d.mem
  {
    BitsAreDue(cs);
  }

  /** The words that a port with this filler gives the core, in order. */
  function WordsTo(filler: bv32, cs: seq<Cycle>): seq<bv32> {
    if cs == [] then []
    else
      var p, d := cs[..|cs| - 1], cs[|cs| - 1];
      var r := Heard(BitsAfter(p), filler, d.wfi, d.req, d.mem).reply;
      WordsTo(filler, p) + if r.rvalid then [r.rdata] else []
  }

  /** The memory's words outside isolation, and the filler in each isolated cycle in which an answer is due. */
  ghost function WordsOf(filler: bv32, cs: seq<Cycle>): seq<bv32> {
    if cs == [] then []
    else
      var p, d := cs[..|cs| - 1], cs[|cs| - 1];
      WordsOf(filler, p) +
        if d.wfi then (if Due(p) then [filler] else [])
        else if d.mem.reply.rvalid then [d.mem.reply.rdata] else []
  }

  lemma {:induction false} WordsInOrder(filler: bv32, cs: seq<Cycle>)
    ensures WordsTo(filler, cs) == WordsOf(filler, cs)
  {
    if cs != [] {
      WordsInOrder(filler, cs[..|cs| - 1]);
      HearsIff(cs[..|cs| - 1], filler, cs[|cs| - 1]);
    }
  }
}
