/** The multiplexers between three cores and three bus ports: which core reaches which bus, through the
    voter, through a comparator or on its own, and which bus answers which core. */
module SafeWrapper {
  import opened Obi
  import opened Harts
  import opened DmrComparator
  import opened TmrVoter

  /** The control signals of the datapath. */
  datatype Mode = Mode(master: Three<bool>, voter: bool, dual: bool, delayed: bool, dmrConfig: Three<bool>,
      wfi: Three<bool>)

  /** The two requests in front of a comparator. */
  datatype Rivals = Rivals(first: Ports, second: Ports)

  // ---------------------------------------------------------------- requests

  /** The bus column that core i drives in a redundant mode: the master with the highest number. */
  function Column(mode: Mode, i: Hart): Hart {
    if mode.master.h2 && (mode.dual || mode.voter) then 2
    else if mode.master.h1 && (mode.dual || mode.voter) then 1
    else if mode.master.h0 && (mode.dual || mode.voter) then 0
    else i
  }

  /** What core i, requesting p, shows to column k. */
  function Upper(mode: Mode, i: Hart, p: Ports, k: Hart): Ports {
    if Column(mode, i) == k then p else NO_PORTS
  }

  function VoterInput(mode: Mode, reqs: Three<Ports>, k: Hart): Three<Ports> {
    Three(Upper(mode, 0, reqs.h0, k), Upper(mode, 1, reqs.h1, k), Upper(mode, 2, reqs.h2, k))
  }

  /** The core that comparator k puts against core k. */
  function Rival(mode: Mode, k: Hart): Hart {
    if k == 0 then (if mode.dmrConfig.h1 then 1 else 2)
    else if k == 1 then (if mode.dmrConfig.h0 then 0 else 2)
    else (if mode.dmrConfig.h1 then 1 else 0)
  }

  function ComparatorInput(mode: Mode, reqs: Three<Ports>, k: Hart): Rivals {
    var j := Rival(mode, k);
    Rivals(Upper(mode, k, reqs.At(k), k), Upper(mode, j, reqs.At(j), k))
  }

  function VoterVerdict(mode: Mode, reqs: Three<Ports>, k: Hart): Verdict {
    Judge(VoterInput(mode, reqs, k), mode.voter && mode.master.At(k))
  }

  /** shifted are the requests that the lockstep registers of comparator k pass on. */
  function ComparatorVerdict(mode: Mode, reqs: Three<Ports>, shifted: Rivals, k: Hart): Comparison {
    var r :=
      if mode.delayed && mode.dual then shifted
      else if mode.dual then ComparatorInput(mode, reqs, k)
      else Rivals(NO_PORTS, NO_PORTS);
    Compare(r.first, r.second)
  }

  /** What bus port k carries. */
  function BusRequest(mode: Mode, reqs: Three<Ports>, shifted: Rivals, k: Hart): Ports {
    if mode.master.At(k) && mode.voter && !mode.dual then VoterVerdict(mode, reqs, k).voted
    else if mode.master.At(k) && !mode.voter && mode.dual then ComparatorVerdict(mode, reqs, shifted, k).out
    else Upper(mode, k, reqs.At(k), k)
  }

  /** The accusations of the three voters together. */
  function ErrorId(mode: Mode, reqs: Three<Ports>): Three<bool> {
    var v0, v1, v2 := VoterVerdict(mode, reqs, 0), VoterVerdict(mode, reqs, 1), VoterVerdict(mode, reqs, 2);
    Three(
      v0.errorId.h0 || v1.errorId.h0 || v2.errorId.h0,
      v0.errorId.h1 || v1.errorId.h1 || v2.errorId.h1,
      v0.errorId.h2 || v1.errorId.h2 || v2.errorId.h2)
  }

  // ---------------------------------------------------------------- responses

  /** Who answers core i: the isolator, a bus directly, the lockstep registers of a comparator, or nobody. */
  datatype Source = Isolated | Silent | Direct(bus: Hart) | ShiftedMaster(pair: Hart) | ShiftedShadow(pair: Hart)

  function ResponseSource(mode: Mode, i: Hart): Source {
    var joined := !mode.delayed && (mode.voter || (mode.dual && mode.dmrConfig.At(i)));
    if mode.wfi.At(i) then Isolated
    else if mode.master.h0 && joined then Direct(0)
    else if mode.master.h1 && joined then Direct(1)
    else if mode.master.h2 && joined then Direct(2)
    else if mode.master.At(i) && mode.dual && mode.delayed then ShiftedMaster(i)
    else if !mode.master.At(i) && mode.dual && mode.delayed && mode.dmrConfig.At(i) then
      (if mode.master.h0 then ShiftedShadow(0) else if mode.master.h1 then ShiftedShadow(1) else ShiftedShadow(2))
    else if mode.delayed && mode.dual then Silent
    else Direct(i)
  }

  // ---------------------------------------------------------------- the redundant modes

  predicate OneMaster(mode: Mode, m: Hart) {
    forall i: Hart :: mode.master.At(i) == (i == m)
  }

  predicate NoneIsolated(mode: Mode) {
    !mode.wfi.h0 && !mode.wfi.h1 && !mode.wfi.h2
  }

  /** Three cores in one vote, under master m. */
  predicate TmrMode(mode: Mode, m: Hart) {
    OneMaster(mode, m) && mode.voter && !mode.dual && !mode.delayed && NoneIsolated(mode)
  }

  /** Two cores compared cycle by cycle: master m and slave s. */
  predicate DualMode(mode: Mode, m: Hart, s: Hart) {
    && OneMaster(mode, m) && mode.dual && !mode.voter && !mode.delayed && NoneIsolated(mode)
    && m != s && forall i: Hart :: mode.dmrConfig.At(i) == (i == m || i == s)
  }

  lemma {:induction false} OneMasterIs(mode: Mode, m: Hart)
    requires OneMaster(mode, m)
    ensures mode.master == Three(m == 0, m == 1, m == 2)
  {
    assert mode.master.At(0) == mode.master.h0 && mode.master.At(1) == mode.master.h1
      && mode.master.At(2) == mode.master.h2;
  }

  /** In a vote the three cores share the master's bus, and the others are silent. */
  lemma {:induction false} TmrRoutes(mode: Mode, m: Hart, reqs: Three<Ports>, shifted: Rivals)
    requires TmrMode(mode, m)
    ensures forall k: Hart :: BusRequest(mode, reqs, shifted, k) == if k == m then VotePorts(reqs) else NO_PORTS
    ensures ErrorId(mode, reqs) == Judge(reqs, true).errorId
  {
    OneMasterIs(mode, m);
    assert VoterInput(mode, reqs, m) == reqs;
  }

  /** In a vote all cores hear the answer of the master's bus. */
  lemma {:induction false} TmrAnswers(mode: Mode, m: Hart, i: Hart)
    requires TmrMode(mode, m)
    ensures ResponseSource(mode, i) == Direct(m)
  {
    OneMasterIs(mode, m);
  }

  /** In a dual mode the master's comparator gets master and slave, whichever two cores they are, and the
      third core reaches no bus. */
  lemma {:induction false} DualRoutes(mode: Mode, m: Hart, s: Hart, reqs: Three<Ports>, shifted: Rivals)
    requires DualMode(mode, m, s)
    ensures forall k: Hart ::
      BusRequest(mode, reqs, shifted, k) == if k == m then Compare(reqs.At(m), reqs.At(s)).out else NO_PORTS
    ensures ComparatorVerdict(mode, reqs, shifted, m) == Compare(reqs.At(m), reqs.At(s))
  {
    OneMasterIs(mode, m);
    assert mode.dmrConfig.At(0) == mode.dmrConfig.h0 && mode.dmrConfig.At(1) == mode.dmrConfig.h1
      && mode.dmrConfig.At(2) == mode.dmrConfig.h2;
    assert Rival(mode, m) == s;
  }

  /** In a dual mode master and slave hear the answer of the master's bus, the third core does not. */
  lemma {:induction false} DualAnswers(mode: Mode, m: Hart, s: Hart, i: Hart)
    requires DualMode(mode, m, s)
    ensures ResponseSource(mode, i) == if i == m || i == s then Direct(m) else Direct(i)
  {
    OneMasterIs(mode, m);
    assert mode.dmrConfig.At(i) == (i == m || i == s);
  }

  // ---------------------------------------------------------------- the time-shifted mode

  /** The core whose interrupt lines are delayed for the shadow. */
  function DelayedLines(mode: Mode): Hart {
    if !mode.master.h0 && mode.dmrConfig.h0 then 0
    else if !mode.master.h1 && mode.dmrConfig.h1 then 1
    else 2
  }

  /** Whether core i gets the delayed lines instead of its own. */
  predicate GetsDelayedLines(mode: Mode, i: Hart) {
    && mode.delayed && mode.dual
    && !mode.master.At(i)
    && mode.dmrConfig.At(i) && (mode.master.h0 || mode.master.h1 || mode.master.h2)
  }

  /** A time-shifted pair: master m and shadow s. */
  predicate ShiftedMode(mode: Mode, m: Hart, s: Hart) {
    && OneMaster(mode, m) && mode.dual && !mode.voter && mode.delayed && NoneIsolated(mode)
    && m != s && forall i: Hart :: mode.dmrConfig.At(i) == (i == m || i == s)
  }

  /** In the time-shifted mode the lockstep registers of comparator m get master and shadow, and stand between
      both of them and bus m in both directions; the shadow's lines are its own, delayed. */
  lemma {:induction false} ShiftedRoutes(mode: Mode, m: Hart, s: Hart, reqs: Three<Ports>, shifted: Rivals)
    requires ShiftedMode(mode, m, s)
    ensures ComparatorInput(mode, reqs, m) == Rivals(reqs.At(m), reqs.At(s))
    ensures forall k: Hart ::
      BusRequest(mode, reqs, shifted, k) == if k == m then Compare(shifted.first, shifted.second).out else NO_PORTS
    ensures forall i: Hart ::
      ResponseSource(mode, i) == if i == m then ShiftedMaster(m) else if i == s then ShiftedShadow(m) else Silent
    ensures DelayedLines(mode) == s && forall i: Hart :: GetsDelayedLines(mode, i) == (i == s)
  {
    OneMasterIs(mode, m);
    assert mode.dmrConfig.At(0) == mode.dmrConfig.h0 && mode.dmrConfig.At(1) == mode.dmrConfig.h1
      && mode.dmrConfig.At(2) == mode.dmrConfig.h2;
    assert Rival(mode, m) == s;
  }

  // ---------------------------------------------------------------- the single mode

  /** Every core on its own: no vote and no comparison, whoever is master. */
  predicate SingleMode(mode: Mode) {
    !mode.voter && !mode.dual
  }

  /** Each core then drives its own bus, nobody is accused and no comparator objects; and each core hears its own
      bus, unless its isolator answers. */
  lemma {:induction false} SingleRoutes(mode: Mode, reqs: Three<Ports>, shifted: Rivals, i: Hart)
    requires SingleMode(mode)
    ensures BusRequest(mode, reqs, shifted, i) == reqs.At(i)
    ensures ErrorId(mode, reqs) == Three(false, false, false)
    ensures !VoterVerdict(mode, reqs, i).error && !ComparatorVerdict(mode, reqs, shifted, i).error
    ensures ResponseSource(mode, i) == if mode.wfi.At(i) then Isolated else Direct(i)
  {
  }

  /** In any mode, a voter whose core is not the master neither accuses nor objects. */
  lemma {:induction false} OnlyMastersVote(mode: Mode, reqs: Three<Ports>, k: Hart)
    requires !mode.master.At(k)
    ensures VoterVerdict(mode, reqs, k).errorId == Three(false, false, false) && !VoterVerdict(mode, reqs, k).error
  {
  }

  /** In any mode whatsoever, a core hears its isolator if and only if it is put to sleep. */
  lemma {:induction false} AsleepIffIsolated(mode: Mode, i: Hart)
    ensures ResponseSource(mode, i) == Isolated <==> mode.wfi.At(i)
  {
  }
}
