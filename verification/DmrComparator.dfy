/** The comparator of the dual modes: it lets a request through only when both cores agree on
    everything that the request means. */
module DmrComparator {
  import opened Obi

  datatype Comparison = Comparison(out: Ports, error: bool)

  function Mismatch(a: Request, b: Request): bool {
    || (a.addr != b.addr && a.req && b.req)
    || (a.wdata != b.wdata && a.we && b.we)
    || a.be != b.be
    || a.we != b.we
    || a.req != b.req
  }

  /** Two requests that a bus cannot tell apart: an address counts under req, write data under we. */
  ghost predicate SameMeaning(a: Request, b: Request) {
    && (a.req, a.we, a.be) == (b.req, b.we, b.be)
    && (a.req ==> a.addr == b.addr)
    && (a.we ==> a.wdata == b.wdata)
  }

  ghost predicate SamePorts(a: Ports, b: Ports) {
    SameMeaning(a.instr, b.instr) && SameMeaning(a.data, b.data)
  }

  /** What a slave looks at: all fields, but an address only under a request and write data only under a write. */
  datatype Observation = Observation(req: bool, we: bool, be: bv4, addr: bv32, wdata: bv32)

  function Observed(r: Request): Observation {
    Observation(r.req, r.we, r.be, if r.req then r.addr else 0, if r.we then r.wdata else 0)
  }

  lemma {:induction false} MeaningIsObserved(a: Request, b: Request)
    ensures SameMeaning(a, b) <==> Observed(a) == Observed(b)
  {
  }

  /** An error on either port gates both. */
  function Compare(first: Ports, second: Ports): (c: Comparison)
    ensures c.error <==> !SamePorts(first, second)
    ensures c.error ==> c.out == NO_PORTS
    ensures !c.error ==> c.out == first
  {
    var instrError, dataError := Mismatch(first.instr, second.instr), Mismatch(first.data, second.data);
    if instrError || dataError then Comparison(NO_PORTS, true) else Comparison(first, false)
  }
}
