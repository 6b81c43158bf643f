/** The cores and the memory, which are not part of the repository's own logic: any deterministic
    machines with the right ports. */
module Cores {
  import opened Obi
  import opened Harts

  datatype Interrupts = Interrupts(intr: bv32, debugReq: bool)

  /** What a core sees in a cycle, its grants aside. */
  datatype In = In(instr: Reply, data: Reply, lines: Interrupts)

  /** Any deterministic core: its requests may depend on the answers of the same cycle, its next state
      also on the two grants. */
  datatype Core<!S> = Core(out: (S, In) -> Ports, next: (S, In, bool, bool) -> S)

  /** A core to which a grant means nothing while it makes no request. */
  ghost predicate IgnoresIdleGrants<S(!new)>(core: Core<S>) {
    forall s, x, i, d, j, e | SameGrants(core.out(s, x), i, d, j, e) :: core.next(s, x, i, d) == core.next(s, x, j, e)
  }

  /** Two pairs of grants that agree on each port with a request. */
  predicate SameGrants(p: Ports, i: bool, d: bool, j: bool, e: bool) {
    (p.instr.req ==> i == j) && (p.data.req ==> d == e)
  }

  datatype Replies = Replies(instr: Reply, data: Reply)

  datatype Grants = Grants(instr: bool, data: bool)

  /** Any deterministic memory behind three bus ports: it answers from its state, and may grant depending
      on the requests of the same cycle. */
  datatype Memory<!M> = Memory(answer: M -> Three<Replies>, grant: (M, Three<Ports>) -> Three<Grants>,
      next: (M, Three<Ports>) -> M)
}
