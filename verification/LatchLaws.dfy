/** The error latch of the triple mode against what it stands for: a count of error edges. */
module LatchLaws {
  import opened Harts
  import opened SafeFsm

  // ---------------------------------------------------------------- the three machines together

  /** The states that the machines leave on signals which are the same for all three. */
  predicate Shared(t: Tmr) {
    t == TmrWaitSh || t == TmrMsIntrSync || t == TmrSync || t == TmrSyncIntc || t == TmrSwSync
  }

  predicate Together(s: State, t: Tmr) {
    s.tmr == Three(t, t, t)
  }

  lemma {:induction false} StepsTogether(s: State, x: Inputs, t: Tmr)
    requires Together(s, t) && Shared(t)
    ensures Together(Next(s, x), NextTmr(s, x, 0))
    ensures Shared(NextTmr(s, x, 0)) || NextTmr(s, x, 0) == TmrIdle || NextTmr(s, x, 0) == TmrEndSync
  {
  }

  /** Once aligned in a shared state, the three machines are equal in every cycle until they end the mode. */
  lemma {:induction false} AlignedUntilTheEnd(s: State, xs: seq<Inputs>, t: Tmr)
    requires Together(s, t) && Shared(t)
    requires forall k | 0 < k < |xs| :: Run(s, xs[..k]).tmr.h0 != TmrIdle && Run(s, xs[..k]).tmr.h0 != TmrEndSync
    ensures var u := Run(s, xs).tmr.h0;
      Together(Run(s, xs), u) && (Shared(u) || u == TmrIdle || u == TmrEndSync)
  {
    if xs != [] {
      var p := xs[..|xs| - 1];
      forall k | 0 < k < |p| ensures Run(s, p[..k]).tmr.h0 != TmrIdle && Run(s, p[..k]).tmr.h0 != TmrEndSync {
        assert p[..k] == xs[..k];
      }
      AlignedUntilTheEnd(s, p, t);
      StepsTogether(Run(s, p), xs[|xs| - 1], Run(s, p).tmr.h0);
    }
  }

  // ---------------------------------------------------------------- a stretch of TmrSync

  /** Machines that enter TmrSync together find the latch empty. */
  lemma {:induction false} LatchEmptyOnEntry(s: State, x: Inputs, t: Tmr)
    requires Together(s, t) && Shared(t) && t != TmrSync && Together(Next(s, x), TmrSync)
    ensures Next(s, x).latch == Latch(false, false)
  {
  }

  /** The error lines of a stretch, and the number of times that the line rises from low. */
  function Errors(xs: seq<Inputs>): (e: seq<bool>)
    ensures |e| == |xs|
  {
    seq(|xs|, k requires 0 <= k < |xs| => xs[k].tmrError)
  }

  function Edges(e: seq<bool>): nat {
    if e == [] then 0 else Edges(e[..|e| - 1]) + (if e[|e| - 1] && !Last(e[..|e| - 1]) then 1 else 0)
  }

  predicate Last(e: seq<bool>) {
    e != [] && e[|e| - 1]
  }

  lemma {:induction false} NoEdgeNoError(e: seq<bool>)
    requires Edges(e) == 0
    ensures !Last(e)
  {
    if e != [] {
      NoEdgeNoError(e[..|e| - 1]);
    }
  }

  /** All cores sleep, and the mode is being left. */
  predicate Leaves(x: Inputs) {
    All3(x.wfi) && (x.endSw || x.config != 1)
  }

  /** How many edges it takes for recovery to be due in this cycle: one, or two in a critical section. */
  function Tolerance(x: Inputs): nat {
    if x.critical then 2 else 1
  }

  /** Cycle k of a stretch neither leaves the mode nor calls for recovery. */
  predicate StaysAt(xs: seq<Inputs>, k: nat)
    requires k < |xs|
  {
    !Leaves(xs[k]) && Edges(Errors(xs)[..k + 1]) < Tolerance(xs[k])
  }

  /** A latch that has counted the edges of e, of which there is at most one. */
  predicate Counts(l: Latch, e: seq<bool>) {
    l.last == Last(e) && l.pending == (Edges(e) == 1) && Edges(e) <= 1
  }

  /** One cycle in TmrSync, in terms of the edges seen before it (e) and up to it. */
  lemma {:induction false} SyncStep(s: State, x: Inputs, e: seq<bool>)
    requires Together(s, TmrSync) && Counts(s.latch, e)
    ensures var n := Edges(e + [x.tmrError]);
      && Together(Next(s, x),
        if Leaves(x) then (if x.endSw then TmrIdle else TmrEndSync) else if n >= Tolerance(x) then TmrSyncIntc
        else TmrSync)
      && (!Leaves(x) && n < Tolerance(x) ==> Counts(Next(s, x).latch, e + [x.tmrError]))
  {
    var f := e + [x.tmrError];
    assert f[..|f| - 1] == e && f[|f| - 1] == x.tmrError;
    if Edges(e) == 0 {
      NoEdgeNoError(e);
    }
  }

  /** A stretch of any length, entered with an empty latch: as long as no cycle leaves the mode and none sees
      as many edges as it tolerates, the machines are in TmrSync, and the pending bit says "exactly one
      edge so far". */
  lemma {:induction false} LatchCountsEdges(s: State, xs: seq<Inputs>)
    requires Together(s, TmrSync) && s.latch == Latch(false, false)
    ensures (forall k | 0 <= k < |xs| :: StaysAt(xs, k)) ==>
      Together(Run(s, xs), TmrSync) && Counts(Run(s, xs).latch, Errors(xs))
  {
    if xs == [] {
      assert Errors(xs) == [];
    } else if forall k | 0 <= k < |xs| :: StaysAt(xs, k) {
      var p, x := xs[..|xs| - 1], xs[|xs| - 1];
      assert Errors(xs) == Errors(p) + [x.tmrError];
      forall k | 0 <= k < |p| ensures StaysAt(p, k) {
        assert StaysAt(xs, k) && Errors(p)[..k + 1] == Errors(xs)[..k + 1];
      }
      LatchCountsEdges(s, p);
      SyncStep(Run(s, p), x, Errors(p));
      assert StaysAt(xs, |xs| - 1) && Errors(xs)[..|xs|] == Errors(xs);
    }
  }

  /** The cycle x that ends such a stretch: recovery starts in it if and only if the second edge is reached, or
      the first outside a critical section, unless all cores sleep and the mode is being left. */
  lemma {:induction false} RecoveryStartsIff(s: State, xs: seq<Inputs>, x: Inputs)
    requires Together(s, TmrSync) && s.latch == Latch(false, false) && forall k | 0 <= k < |xs| :: StaysAt(xs, k)
    ensures var edges := Edges(Errors(xs) + [x.tmrError]);
      && (Together(Run(s, xs + [x]), TmrSyncIntc) <==> !Leaves(x) && (edges >= 2 || (!x.critical && edges >= 1)))
      && (Together(Run(s, xs + [x]), TmrSync) <==> !Leaves(x) && edges < Tolerance(x))
  {
    LatchCountsEdges(s, xs);
    SyncStep(Run(s, xs), x, Errors(xs));
    assert (xs + [x])[..|xs + [x]| - 1] == xs;
  }
}
