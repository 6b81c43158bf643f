/** Deterministic clocked machines over any state, inputs and outputs, their runs, and two ways in which
    one of them can follow another. */
module Machines {
  datatype Machine<!S, !X, !O> = Machine(next: (S, X) -> S, out: (S, X) -> O)

  function Run<S, X, O>(m: Machine<S, X, O>, s: S, xs: seq<X>): S
    decreases |xs|
  {
    if xs == [] then s else Run(m, m.next(s, xs[0]), xs[1..])
  }

  function Trace<S, X, O>(m: Machine<S, X, O>, s: S, xs: seq<X>): (t: seq<O>)
    ensures |t| == |xs|
    decreases |xs|
  {
    if xs == [] then [] else [m.out(s, xs[0])] + Trace(m, m.next(s, xs[0]), xs[1..])
  }

  lemma {:induction false} RunSplits<S, X, O>(m: Machine<S, X, O>, s: S, xs: seq<X>, ys: seq<X>)
    ensures Run(m, s, xs + ys) == Run(m, Run(m, s, xs), ys)
    decreases |xs|
  {
    if xs == [] {
      assert xs + ys == ys;
    } else {
      assert (xs + ys)[1..] == xs[1..] + ys;
      RunSplits(m, m.next(s, xs[0]), xs[1..], ys);
    }
  }

  /** A run on inputs that a queue q holds back. */
  lemma {:induction false} RunDelayed<S, X, O>(m: Machine<S, X, O>, s: S, q: seq<X>, xs: seq<X>)
    requires |q| <= |xs|
    ensures Run(m, s, (q + xs)[..|xs|]) == Run(m, Run(m, s, q), xs[..|xs| - |q|])
  {
    assert (q + xs)[..|xs|] == q + xs[..|xs| - |q|];
    RunSplits(m, s, q, xs[..|xs| - |q|]);
  }

  /** What a run shows in cycle k. */
  lemma {:induction false} TraceAt<S, X, O>(m: Machine<S, X, O>, s: S, xs: seq<X>, k: nat)
    requires k < |xs|
    ensures Trace(m, s, xs)[k] == m.out(Run(m, s, xs[..k]), xs[k])
    decreases k
  {
    if k > 0 {
      TraceAt(m, m.next(s, xs[0]), xs[1..], k - 1);
      assert xs[..k][1..] == xs[1..][..k - 1];
    }
  }

  /** What is shown does not change where a run goes. */
  lemma {:induction false} SameRun<S, X, O, E>(m: Machine<S, X, O>, l: Machine<S, X, E>, s: S, xs: seq<X>)
    requires m.next == l.next
    ensures Run(m, s, xs) == Run(l, s, xs)
    decreases |xs|
  {
    if xs != [] {
      SameRun(m, l, m.next(s, xs[0]), xs[1..]);
    }
  }

  predicate All<O>(p: O -> bool, t: seq<O>) {
    forall k | 0 <= k < |t| :: p(t[k])
  }

  /** Each element of t is what show makes of the same element of u. */
  predicate Shows<O, E(==)>(show: O -> E, u: seq<O>, t: seq<E>) {
    |t| == |u| && forall k | 0 <= k < |t| :: t[k] == show(u[k])
  }

  lemma {:induction false} AllCons<O>(p: O -> bool, t: seq<O>)
    requires t != []
    ensures All(p, t) <==> p(t[0]) && All(p, t[1..])
  {
    assert forall k | 0 < k < |t| :: t[k] == t[1..][k - 1];
  }

  lemma {:induction false} ShowsCons<O, E>(show: O -> E, u: seq<O>, t: seq<E>)
    requires u != [] && t != [] && t[0] == show(u[0]) && Shows(show, u[1..], t[1..])
    ensures Shows(show, u, t)
  {
    assert forall k | 0 < k < |t| :: t[k] == t[1..][k - 1];
    assert forall k | 0 < k < |u| :: u[k] == u[1..][k - 1];
  }

  /** The inputs xs as another machine sees them. */
  function Inputs<X, Y>(f: X -> Y, xs: seq<X>): (ys: seq<Y>)
    ensures |ys| == |xs|
  {
    if xs == [] then [] else [f(xs[0])] + Inputs(f, xs[1..])
  }

  lemma {:induction false} InputsAt<X, Y>(f: X -> Y, xs: seq<X>, k: nat)
    requires k < |xs|
    ensures Inputs(f, xs)[k] == f(xs[k]) && Inputs(f, xs)[..k] == Inputs(f, xs[..k])
    decreases k
  {
    if k > 0 {
      InputsAt(f, xs[1..], k - 1);
      assert xs[..k][1..] == xs[1..][..k - 1];
      assert Inputs(f, xs)[..k] == [f(xs[0])] + Inputs(f, xs[1..])[..k - 1];
    }
  }

  lemma {:induction false} AllOutputs<S, X, O>(m: Machine<S, X, O>, s: S, xs: seq<X>, p: O -> bool)
    requires forall q, x :: p(m.out(q, x))
    ensures All(p, Trace(m, s, xs))
    decreases |xs|
  {
    if xs != [] {
      AllOutputs(m, m.next(s, xs[0]), xs[1..], p);
      AllCons(p, Trace(m, s, xs));
    }
  }

  // ---------------------------------------------------------------- following with a delay

  /** How a system p with inputs x contains a plain machine with inputs input(x) twice: one copy in state lead,
      the other in state trail and still to see the inputs lag, oldest first. What the system shows is the
      trailing copy's output. It admits some inputs. */
  datatype Lag<!P, !S, !X, !Y, !O, !E> = Lag(holds: P -> bool, lead: P -> S, trail: P -> S, lag: P -> seq<Y>,
    input: X -> Y, admits: X -> bool, fine: O -> bool, show: O -> E, calm: E -> bool)

  /** One step of the system moves both copies, unless the trailing one's output is not fine. */
  ghost predicate LagStep<P, S, X, Y, O, E>(fast: Machine<P, X, E>, slow: Machine<S, Y, O>, r: Lag<P, S, X, Y, O, E>,
      p: P, x: X) {
    r.holds(p) && r.admits(x) ==>
      && r.lag(p) != []
      && var due := slow.out(r.trail(p), r.lag(p)[0]);
      if r.fine(due) then
        var p' := fast.next(p, x);
        && r.holds(p') && fast.out(p, x) == r.show(due) && r.calm(r.show(due))
        && r.lead(p') == slow.next(r.lead(p), r.input(x))
        && r.trail(p') == slow.next(r.trail(p), r.lag(p)[0])
        && r.lag(p') == r.lag(p)[1..] + [r.input(x)]
      else !r.calm(fast.out(p, x))
  }

  /** The inputs that the trailing copy sees in a run on xs. */
  function Seen<P, S, X, Y, O, E>(r: Lag<P, S, X, Y, O, E>, p: P, xs: seq<X>): seq<Y> {
    (r.lag(p) + Inputs(r.input, xs))[..|xs|]
  }

  /** Both copies run as the plain machine would, and the system shows the trailing one's outputs. */
  ghost predicate Followed<P, S, X, Y, O, E>(fast: Machine<P, X, E>, slow: Machine<S, Y, O>, r: Lag<P, S, X, Y, O, E>,
      p: P, xs: seq<X>) {
    var p' := Run(fast, p, xs);
    && r.holds(p')
    && r.lead(p') == Run(slow, r.lead(p), Inputs(r.input, xs))
    && r.trail(p') == Run(slow, r.trail(p), Seen(r, p, xs))
    && Shows(r.show, Trace(slow, r.trail(p), Seen(r, p, xs)), Trace(fast, p, xs))
  }

  lemma {:induction false} FollowsWithLag<P, S, X, Y, O, E>(fast: Machine<P, X, E>, slow: Machine<S, Y, O>,
      r: Lag<P, S, X, Y, O, E>, p: P, xs: seq<X>)
    requires r.holds(p) && All(r.admits, xs) && forall q, x :: LagStep(fast, slow, r, q, x)
    ensures All(r.calm, Trace(fast, p, xs)) <==> All(r.fine, Trace(slow, r.trail(p), Seen(r, p, xs)))
    ensures All(r.calm, Trace(fast, p, xs)) ==> Followed(fast, slow, r, p, xs)
    decreases |xs|
  {
    if xs != [] {
      var x, rest := xs[0], xs[1..];
      var p', seen := fast.next(p, x), Seen(r, p, xs);
      assert LagStep(fast, slow, r, p, x);
      assert seen[0] == r.lag(p)[0];
      AllCons(r.admits, xs);
      AllCons(r.fine, Trace(slow, r.trail(p), seen));
      AllCons(r.calm, Trace(fast, p, xs));
      if r.fine(slow.out(r.trail(p), seen[0])) {
        FollowsWithLag(fast, slow, r, p', rest);
        assert seen[1..] == Seen(r, p', rest);
        if All(r.calm, Trace(fast, p, xs)) {
          ShowsCons(r.show, Trace(slow, r.trail(p), seen), Trace(fast, p, xs));
        }
      }
    }
  }

  // ---------------------------------------------------------------- following in step

  /** How a system p with inputs x contains a plain machine with inputs input(x), and what its outputs
      have to do with the plain ones: agree while it is calm, silent when it is not. */
  datatype Mirror<!P, !S, !X, !Y, !O, !E> = Mirror(holds: P -> bool, image: P -> S, input: X -> Y,
    calm: E -> bool, agree: (E, O) -> bool, silent: E -> bool)

  ghost predicate MirrorStep<P, S, X, Y, O, E>(fast: Machine<P, X, E>, slow: Machine<S, Y, O>,
      r: Mirror<P, S, X, Y, O, E>, p: P, x: X) {
    r.holds(p) ==>
      if r.calm(fast.out(p, x)) then
        && r.agree(fast.out(p, x), slow.out(r.image(p), r.input(x)))
        && r.holds(fast.next(p, x))
        && r.image(fast.next(p, x)) == slow.next(r.image(p), r.input(x))
      else r.silent(fast.out(p, x))
  }

  /** As long as the system has been calm it agrees with the plain machine, and the first time that it is
      not, it is silent. */
  ghost predicate AgreesUntilAlarm<P, S, X, Y, O, E>(r: Mirror<P, S, X, Y, O, E>, fast: seq<E>, slow: seq<O>) {
    && |fast| == |slow|
    && (forall t | 0 <= t < |fast| && All(r.calm, fast[..t]) ::
         if r.calm(fast[t]) then r.agree(fast[t], slow[t]) else r.silent(fast[t]))
  }

  lemma {:induction false} MirrorsUntilAlarm<P, S, X, Y, O, E>(fast: Machine<P, X, E>, slow: Machine<S, Y, O>,
      r: Mirror<P, S, X, Y, O, E>, p: P, xs: seq<X>)
    requires r.holds(p) && forall q, x :: MirrorStep(fast, slow, r, q, x)
    ensures AgreesUntilAlarm(r, Trace(fast, p, xs), Trace(slow, r.image(p), Inputs(r.input, xs)))
    ensures All(r.calm, Trace(fast, p, xs)) ==>
      r.holds(Run(fast, p, xs)) && r.image(Run(fast, p, xs)) == Run(slow, r.image(p), Inputs(r.input, xs))
    decreases |xs|
  {
    if xs != [] {
      assert MirrorStep(fast, slow, r, p, xs[0]);
      var t, u := Trace(fast, p, xs), Trace(slow, r.image(p), Inputs(r.input, xs));
      AllCons(r.calm, t);
      if r.calm(t[0]) {
        MirrorsUntilAlarm(fast, slow, r, fast.next(p, xs[0]), xs[1..]);
        AgreesCons(r, t, u);
      } else {
        NotCalmStops(r, t, u);
      }
    }
  }

  lemma {:induction false} AgreesCons<P, S, X, Y, O, E>(r: Mirror<P, S, X, Y, O, E>, fast: seq<E>, slow: seq<O>)
    requires fast != [] && slow != [] && r.agree(fast[0], slow[0]) && AgreesUntilAlarm(r, fast[1..], slow[1..])
    requires r.calm(fast[0])
    ensures AgreesUntilAlarm(r, fast, slow)
  {
    forall t | 0 <= t < |fast| && All(r.calm, fast[..t])
      ensures if r.calm(fast[t]) then r.agree(fast[t], slow[t]) else r.silent(fast[t])
    {
      if t > 0 {
        AllCons(r.calm, fast[..t]);
        assert fast[..t][1..] == fast[1..][..t - 1];
        assert fast[t] == fast[1..][t - 1] && slow[t] == slow[1..][t - 1];
      }
    }
  }

  lemma {:induction false} NotCalmStops<P, S, X, Y, O, E>(r: Mirror<P, S, X, Y, O, E>, fast: seq<E>, slow: seq<O>)
    requires |fast| == |slow| > 0 && !r.calm(fast[0]) && r.silent(fast[0])
    ensures AgreesUntilAlarm(r, fast, slow)
  {
    forall t | 0 < t < |fast| ensures !All(r.calm, fast[..t]) {
      assert fast[..t][0] == fast[0];
    }
  }

  // ---------------------------------------------------------------- one machine inside another

  /** A system that contains a plain machine which hears in each cycle whatever the system's own state makes
      of the input, and whose outputs are what show makes of the system's. */
  datatype Part<!P, !S, !X, !Y, !O, !E> = Part(holds: P -> bool, image: P -> S, heard: (P, X) -> Y, show: E -> O)

  ghost predicate PartStep<P, S, X, Y, O, E>(fast: Machine<P, X, E>, slow: Machine<S, Y, O>, r: Part<P, S, X, Y, O, E>,
      p: P, x: X) {
    r.holds(p) ==>
      && r.holds(fast.next(p, x))
      && r.image(fast.next(p, x)) == slow.next(r.image(p), r.heard(p, x))
      && slow.out(r.image(p), r.heard(p, x)) == r.show(fast.out(p, x))
  }

  /** All that the part hears in a run of the system. */
  function HeardBy<P, X, Y, E>(fast: Machine<P, X, E>, heard: (P, X) -> Y, p: P, xs: seq<X>): (ys: seq<Y>)
    ensures |ys| == |xs|
  {
    Trace(Machine(fast.next, heard), p, xs)
  }

  /** A system's run is its part's run on what it hears. */
  lemma {:induction false} PartRuns<P, S, X, Y, O, E>(fast: Machine<P, X, E>, slow: Machine<S, Y, O>,
      r: Part<P, S, X, Y, O, E>, p: P, xs: seq<X>)
    requires r.holds(p) && forall q, x :: PartStep(fast, slow, r, q, x)
    ensures Shows(r.show, Trace(fast, p, xs), Trace(slow, r.image(p), HeardBy(fast, r.heard, p, xs)))
    decreases |xs|
  {
    if xs != [] {
      assert PartStep(fast, slow, r, p, xs[0]);
      PartRuns(fast, slow, r, fast.next(p, xs[0]), xs[1..]);
      ShowsCons(r.show, Trace(fast, p, xs), Trace(slow, r.image(p), HeardBy(fast, r.heard, p, xs)));
    }
  }
}
