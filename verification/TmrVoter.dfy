/** The three-way voter: a bitwise majority, field by field, and the identification of the core that
    disagrees with it. */
module TmrVoter {
  import opened Obi
  import opened Harts
  import opened DmrComparator

  function Majority32(a: bv32, b: bv32, c: bv32): bv32 {
    (a & b) | (b & c) | (a & c)
  }

  function Majority4(a: bv4, b: bv4, c: bv4): bv4 {
    (a & b) | (b & c) | (a & c)
  }

  function Majority(a: bool, b: bool, c: bool): bool {
    (a && b) || (b && c) || (a && c)
  }

  function VoteRequest(r0: Request, r1: Request, r2: Request): Request {
    Request(
      Majority(r0.req, r1.req, r2.req),
      Majority(r0.we, r1.we, r2.we),
      Majority4(r0.be, r1.be, r2.be),
      Majority32(r0.addr, r1.addr, r2.addr),
      Majority32(r0.wdata, r1.wdata, r2.wdata))
  }

  function VotePorts(p: Three<Ports>): Ports {
    Ports(VoteRequest(p.h0.instr, p.h1.instr, p.h2.instr), VoteRequest(p.h0.data, p.h1.data, p.h2.data))
  }

  /** The test of one request against the voted one. */
  function Differs(voted: Request, r: Request): bool {
    || (voted.addr != r.addr && r.req)
    || (voted.wdata != r.wdata && r.we)
    || voted.be != r.be
    || voted.we != r.we
    || voted.req != r.req
  }

  datatype Verdict = Verdict(voted: Ports, error: bool, errorId: Three<bool>)

  /** Which cores are accused, and whether anybody is told: only while a request is voted. */
  function Judge(p: Three<Ports>, enable: bool): Verdict {
    var v := VotePorts(p);
    var instr := p.Map((q: Ports) => enable && Differs(v.instr, q.instr));
    var data := p.Map((q: Ports) => enable && Differs(v.data, q.data));
    Verdict(v,
      ((instr.h0 || instr.h1 || instr.h2) && v.instr.req) || ((data.h0 || data.h1 || data.h2) && v.data.req),
      Three(instr.h0 || data.h0, instr.h1 || data.h1, instr.h2 || data.h2))
  }

  /** One bus: the loop sets the bit of each core that differs. */
  method CheckBus(voted: Request, reqs: array<Request>, enable: bool, errors: array<bool>)
    requires reqs.Length == errors.Length
    modifies errors
    ensures forall i | 0 <= i < errors.Length :: errors[i] == (old(errors[i]) || (enable && Differs(voted, reqs[i])))
  {
    for i := 0 to reqs.Length
      invariant forall k | 0 <= k < errors.Length ::
        errors[k] == (old(errors[k]) || (k < i && enable && Differs(voted, reqs[k])))
    {
      if ((voted.addr != reqs[i].addr && reqs[i].req) ||
          (voted.wdata != reqs[i].wdata && reqs[i].we) ||
          voted.be != reqs[i].be ||
          voted.we != reqs[i].we ||
          voted.req != reqs[i].req) && enable {
        errors[i] := true;
      }
    }
  }

  method Vote(p: Three<Ports>, enable: bool) returns (verdict: Verdict)
    ensures verdict == Judge(p, enable)
    ensures Told(p, enable, verdict)
  {
    verdict := Decide(p, enable);
    VerdictIff(p, enable, verdict);
  }

  method Decide(p: Three<Ports>, enable: bool) returns (verdict: Verdict)
    ensures verdict == Judge(p, enable)
  {
    var voted := VotePorts(p);
    var instr := CheckPort(voted.instr, p.Map((q: Ports) => q.instr), enable);
    var data := CheckPort(voted.data, p.Map((q: Ports) => q.data), enable);
    var error := ((instr.h0 || instr.h1 || instr.h2) && voted.instr.req)
      || ((data.h0 || data.h1 || data.h2) && voted.data.req);
    verdict := Verdict(voted, error, Three(instr.h0 || data.h0, instr.h1 || data.h1, instr.h2 || data.h2));
  }

  method CheckPort(voted: Request, r: Three<Request>, enable: bool) returns (e: Three<bool>)
    ensures e == r.Map((q: Request) => enable && Differs(voted, q))
  {
    var reqs := new Request[3] [r.h0, r.h1, r.h2];
    var errors := new bool[3] [false, false, false];
    CheckBus(voted, reqs, enable, errors);
    e := Three(errors[0], errors[1], errors[2]);
  }

  // ---------------------------------------------------------------- what a vote means

  /** Bit k of a word. */
  predicate Bit(x: bv32, k: bv6)
    requires k < 32
  {
    (x >> k) & 1 == 1
  }

  /** Each bit of the result is one that at least two words have. */
  lemma {:induction false} MajorityPerBit(a: bv32, b: bv32, c: bv32, k: bv6)
    requires k < 32
    ensures Bit(Majority32(a, b, c), k) == Majority(Bit(a, k), Bit(b, k), Bit(c, k))
  {
  }

  predicate Bit4(x: bv4, k: bv3)
    requires k < 4
  {
    (x >> k) & 1 == 1
  }

  lemma {:induction false} MajorityPerBit4(a: bv4, b: bv4, c: bv4, k: bv3)
    requires k < 4
    ensures Bit4(Majority4(a, b, c), k) == Majority(Bit4(a, k), Bit4(b, k), Bit4(c, k))
  {
  }

  /** The byte of x that starts at bit n is that of y. */
  predicate SameByte(x: bv32, y: bv32, n: bv6)
    requires n <= 24
  {
    (x >> n) & 0xff == (y >> n) & 0xff
  }

  lemma {:induction false} SameByte0(x: bv32, y: bv32)
    requires forall k: bv6 | k < 32 :: Bit(x, k) == Bit(y, k)
    ensures SameByte(x, y, 0)
  {
    assert Bit(x, 0) == Bit(y, 0) && Bit(x, 1) == Bit(y, 1) && Bit(x, 2) == Bit(y, 2) && Bit(x, 3) == Bit(y, 3);
    assert Bit(x, 4) == Bit(y, 4) && Bit(x, 5) == Bit(y, 5) && Bit(x, 6) == Bit(y, 6) && Bit(x, 7) == Bit(y, 7);
  }

  lemma {:induction false} SameByte1(x: bv32, y: bv32)
    requires forall k: bv6 | k < 32 :: Bit(x, k) == Bit(y, k)
    ensures SameByte(x, y, 8)
  {
    assert Bit(x, 8) == Bit(y, 8) && Bit(x, 9) == Bit(y, 9) && Bit(x, 10) == Bit(y, 10) && Bit(x, 11) == Bit(y, 11);
    assert Bit(x, 12) == Bit(y, 12) && Bit(x, 13) == Bit(y, 13) && Bit(x, 14) == Bit(y, 14) && Bit(x, 15) == Bit(y, 15);
  }

  lemma {:induction false} SameByte2(x: bv32, y: bv32)
    requires forall k: bv6 | k < 32 :: Bit(x, k) == Bit(y, k)
    ensures SameByte(x, y, 16)
  {
    assert Bit(x, 16) == Bit(y, 16) && Bit(x, 17) == Bit(y, 17) && Bit(x, 18) == Bit(y, 18) && Bit(x, 19) == Bit(y, 19);
    assert Bit(x, 20) == Bit(y, 20) && Bit(x, 21) == Bit(y, 21) && Bit(x, 22) == Bit(y, 22) && Bit(x, 23) == Bit(y, 23);
  }

  lemma {:induction false} SameByte3(x: bv32, y: bv32)
    requires forall k: bv6 | k < 32 :: Bit(x, k) == Bit(y, k)
    ensures SameByte(x, y, 24)
  {
    assert Bit(x, 24) == Bit(y, 24) && Bit(x, 25) == Bit(y, 25) && Bit(x, 26) == Bit(y, 26) && Bit(x, 27) == Bit(y, 27);
    assert Bit(x, 28) == Bit(y, 28) && Bit(x, 29) == Bit(y, 29) && Bit(x, 30) == Bit(y, 30) && Bit(x, 31) == Bit(y, 31);
  }

  lemma {:induction false} SameBytes(x: bv32, y: bv32)
    requires SameByte(x, y, 0) && SameByte(x, y, 8) && SameByte(x, y, 16) && SameByte(x, y, 24)
    ensures x == y
  {
  }

  /** Words with the same bits are the same. */
  lemma {:induction false} SameBits(x: bv32, y: bv32)
    requires forall k: bv6 | k < 32 :: Bit(x, k) == Bit(y, k)
    ensures x == y
  {
    SameByte0(x, y);
    SameByte1(x, y);
    SameByte2(x, y);
    SameByte3(x, y);
    SameBytes(x, y);
  }

  lemma {:induction false} SameBits4(x: bv4, y: bv4)
    requires forall k: bv3 | k < 4 :: Bit4(x, k) == Bit4(y, k)
    ensures x == y
  {
    assert Bit4(x, 0) == Bit4(y, 0) && Bit4(x, 1) == Bit4(y, 1) && Bit4(x, 2) == Bit4(y, 2) && Bit4(x, 3) == Bit4(y, 3);
  }

  /** At least two of three say yes. */
  predicate TwoSay(a: bool, b: bool, c: bool) {
    (if a then 1 else 0) + (if b then 1 else 0) + (if c then 1 else 0) >= 2
  }

  /** Each bit of x is set in at least two of the three words. */
  ghost predicate ElectedWord(x: bv32, a: bv32, b: bv32, c: bv32) {
    forall k: bv6 | k < 32 :: Bit(x, k) == TwoSay(Bit(a, k), Bit(b, k), Bit(c, k))
  }

  ghost predicate ElectedEnables(x: bv4, a: bv4, b: bv4, c: bv4) {
    forall k: bv3 | k < 4 :: Bit4(x, k) == TwoSay(Bit4(a, k), Bit4(b, k), Bit4(c, k))
  }

  /** Every bit of every field of v is set in at least two of the three requests. */
  ghost predicate Elected(v: Request, r0: Request, r1: Request, r2: Request) {
    && v.req == TwoSay(r0.req, r1.req, r2.req)
    && v.we == TwoSay(r0.we, r1.we, r2.we)
    && ElectedEnables(v.be, r0.be, r1.be, r2.be)
    && ElectedWord(v.addr, r0.addr, r1.addr, r2.addr)
    && ElectedWord(v.wdata, r0.wdata, r1.wdata, r2.wdata)
  }

  lemma {:induction false} ElectedWordIff(x: bv32, a: bv32, b: bv32, c: bv32)
    ensures ElectedWord(x, a, b, c) <==> x == Majority32(a, b, c)
  {
    var m := Majority32(a, b, c);
    forall k: bv6 | k < 32 ensures Bit(m, k) == TwoSay(Bit(a, k), Bit(b, k), Bit(c, k)) {
      MajorityPerBit(a, b, c, k);
    }
    if ElectedWord(x, a, b, c) {
      SameBits(x, m);
    }
  }

  lemma {:induction false} ElectedEnablesIff(x: bv4, a: bv4, b: bv4, c: bv4)
    ensures ElectedEnables(x, a, b, c) <==> x == Majority4(a, b, c)
  {
    var m := Majority4(a, b, c);
    forall k: bv3 | k < 4 ensures Bit4(m, k) == TwoSay(Bit4(a, k), Bit4(b, k), Bit4(c, k)) {
      MajorityPerBit4(a, b, c, k);
    }
    if ElectedEnables(x, a, b, c) {
      SameBits4(x, m);
    }
  }

  lemma {:induction false} ElectedIff(v: Request, r0: Request, r1: Request, r2: Request)
    ensures Elected(v, r0, r1, r2) <==> v == VoteRequest(r0, r1, r2)
  {
    ElectedEnablesIff(v.be, r0.be, r1.be, r2.be);
    ElectedWordIff(v.addr, r0.addr, r1.addr, r2.addr);
    ElectedWordIff(v.wdata, r0.wdata, r1.wdata, r2.wdata);
  }

  /** Two cores request, and the request of one does not mean the voted one. */
  ghost predicate Overruled(v: Request, r0: Request, r1: Request, r2: Request) {
    && TwoSay(r0.req, r1.req, r2.req)
    && (!SameMeaning(v, r0) || !SameMeaning(v, r1) || !SameMeaning(v, r2))
  }

  /** What is to be said of three ports: the majority of every bit; an accusation of each core that the bus could
      tell from it on either port; and an error if and only if that happens on a port on which two cores request. */
  ghost predicate Told(p: Three<Ports>, enable: bool, v: Verdict) {
    && Elected(v.voted.instr, p.h0.instr, p.h1.instr, p.h2.instr)
    && Elected(v.voted.data, p.h0.data, p.h1.data, p.h2.data)
    && (v.errorId.h0 <==> enable && !SamePorts(v.voted, p.h0))
    && (v.errorId.h1 <==> enable && !SamePorts(v.voted, p.h1))
    && (v.errorId.h2 <==> enable && !SamePorts(v.voted, p.h2))
    && (v.error <==> enable && (Overruled(v.voted.instr, p.h0.instr, p.h1.instr, p.h2.instr)
                             || Overruled(v.voted.data, p.h0.data, p.h1.data, p.h2.data)))
  }

  /** For any three ports the voter says this, and nothing else would. */
  lemma {:induction false} VerdictIff(p: Three<Ports>, enable: bool, v: Verdict)
    ensures Told(p, enable, v) <==> v == Judge(p, enable)
  {
    ElectedIff(v.voted.instr, p.h0.instr, p.h1.instr, p.h2.instr);
    ElectedIff(v.voted.data, p.h0.data, p.h1.data, p.h2.data);
    if v.voted == VotePorts(p) {
      DiffersIsMeaning(v.voted.instr, p.h0.instr);
      DiffersIsMeaning(v.voted.instr, p.h1.instr);
      DiffersIsMeaning(v.voted.instr, p.h2.instr);
      DiffersIsMeaning(v.voted.data, p.h0.data);
      DiffersIsMeaning(v.voted.data, p.h1.data);
      DiffersIsMeaning(v.voted.data, p.h2.data);
    }
  }

  lemma {:induction false} TwoWin32(x: bv32, y: bv32)
    ensures Majority32(x, x, y) == x
    ensures Majority32(x, y, x) == x
    ensures Majority32(y, x, x) == x
  {
    Absorbed32(x, y);
  }

  lemma {:induction false} Absorbed32(x: bv32, y: bv32)
    ensures (x & x) | (x & y) | (x & y) == x
    ensures (x & y) | (y & x) | (x & x) == x
    ensures (y & x) | (x & x) | (y & x) == x
  {
  }

  lemma {:induction false} TwoWin4(x: bv4, y: bv4)
    ensures Majority4(x, x, y) == x
    ensures Majority4(x, y, x) == x
    ensures Majority4(y, x, x) == x
  {
  }

  lemma {:induction false} TwoRequestsWin(x: Request, y: Request)
    ensures VoteRequest(x, x, y) == VoteRequest(x, y, x) == VoteRequest(y, x, x) == x
  {
    TwoWin32(x.addr, y.addr);
    TwoWin32(x.wdata, y.wdata);
    TwoWin4(x.be, y.be);
  }

  /** The voter's one-sided test is a comparison of meanings. */
  lemma {:induction false} DiffersIsMeaning(a: Request, b: Request)
    ensures Differs(a, b) <==> !SameMeaning(a, b)
  {
  }

  /** With at most one core f off the common ports h, the vote is h, no other core is accused, and f is
      accused exactly when a bus could tell its ports from h; an error is reported exactly when it could on a port
      on which h requests. */
  lemma {:induction false} OneFaultIsOutvoted(p: Three<Ports>, h: Ports, f: Hart, enable: bool)
    requires forall i: Hart | i != f :: p.At(i) == h
    ensures var v := Judge(p, enable);
      && v.voted == h
      && (forall i: Hart :: v.errorId.At(i) == (enable && i == f && !SamePorts(h, p.At(f))))
      && (v.error <==> enable && (|| (h.instr.req && !SameMeaning(h.instr, p.At(f).instr))
                                  || (h.data.req && !SameMeaning(h.data, p.At(f).data))))
  {
    var bad := p.At(f);
    assert p.At(0) == p.h0 && p.At(1) == p.h1 && p.At(2) == p.h2;
    TwoRequestsWin(h.instr, bad.instr);
    TwoRequestsWin(h.data, bad.data);
    DiffersIsMeaning(h.instr, bad.instr);
    DiffersIsMeaning(h.data, bad.data);
    assert VotePorts(p) == h;
  }
}
