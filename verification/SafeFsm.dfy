/** The mode controller: one general machine, one for the single mode, and for each hart one machine for
    the triple and one for the dual mode, all coupled through their states. */
module SafeFsm {
  import opened Harts

  datatype General = Reset | Boot | Idle | SingleMode | TmrMode | DmrMode

  datatype Single = SingleReset | SingleIdle | SingleStart | SingleRun | SingleToTmr | SingleToDmr | SingleSyncOff

  datatype Tmr = TmrReset | TmrIdle | TmrStart | TmrBoot | TmrShHalt | TmrWaitSh | TmrMsIntrSync | TmrSync | TmrEndSync
    | TmrToSingle | TmrSyncIntc | TmrSwSync

  datatype Dmr = DmrReset | DmrIdle | DmrStart | DmrBoot | DmrShHalt | DmrWaitSh | DmrMsIntrSync | DmrSync | DmrEndSync
    | DmrToSingle | DmrStop | DmrIntcRecovery | DmrRecovery

  /** The two-bit error latch: the error of the last cycle, and whether one is pending. */
  datatype Latch = Latch(last: bool, pending: bool)

  datatype State = State(general: General, single: Single, tmr: Three<Tmr>, dmr: Three<Dmr>, latch: Latch, delay: bool)

  datatype Inputs = Inputs(mask: Three<bool>, critical: bool, config: bv2, syncMaster: bool, haltAck: Three<bool>,
    wfi: Three<bool>, intcAck: Three<bool>, master: Three<bool>, tmrError: bool, dmrError: Three<bool>, start: bool,
      endSw: bool)

  const NO_HART := Three(false, false, false)

  const POWER := State(Reset, SingleReset, Three(TmrReset, TmrReset, TmrReset), Three(DmrReset, DmrReset, DmrReset),
      Latch(false, false), false)

  predicate All3(t: Three<bool>) {
    t.h0 && t.h1 && t.h2
  }

  predicate Any3(t: Three<bool>) {
    t.h0 || t.h1 || t.h2
  }

  /** Two different modes ask for two cores: configurations 10 and 11, the latter time-shifted. */
  predicate DualConfig(config: bv2) {
    config == 2 || config == 3
  }

  // ---------------------------------------------------------------- signals between the machines

  function TmrToSingleSwitch(s: State, x: Inputs): Three<bool> {
    Three(s.tmr.h0 == TmrEndSync && x.master.h0, s.tmr.h1 == TmrEndSync && x.master.h1,
      s.tmr.h2 == TmrEndSync && x.master.h2)
  }

  function DmrToSingleSwitch(s: State, x: Inputs): Three<bool> {
    Three(s.dmr.h0 == DmrEndSync && x.master.h0, s.dmr.h1 == DmrEndSync && x.master.h1,
      s.dmr.h2 == DmrEndSync && x.master.h2)
  }

  function EnableSwitch(s: State): bool {
    s.single == SingleToTmr || s.single == SingleToDmr
  }

  /** The master's machine asks the other cores to halt. */
  function HaltRequest(s: State, x: Inputs): bool {
    || (s.tmr.h0 == TmrShHalt && x.master.h0) || (s.tmr.h1 == TmrShHalt && x.master.h1)
      || (s.tmr.h2 == TmrShHalt && x.master.h2)
    || (s.dmr.h0 == DmrShHalt && x.master.h0) || (s.dmr.h1 == DmrShHalt && x.master.h1)
      || (s.dmr.h2 == DmrShHalt && x.master.h2)
  }

  /** Recovery is due: outside a critical section at once, inside it at the second error. */
  function TmrErrorDue(l: Latch, x: Inputs): bool {
    (!x.critical && (x.tmrError || l.pending)) || (x.critical && !l.last && l.pending && x.tmrError)
  }

  function DmrErrorDue(x: Inputs): bool {
    if x.master == Three(true, false, false) then x.dmrError.h0
    else if x.master == Three(false, true, false) then x.dmrError.h1
    else x.dmrError.h2
  }

  // ---------------------------------------------------------------- next states

  function NextGeneral(s: State, x: Inputs): General {
    match s.general
    case Reset => Boot
    case Boot => if All3(x.wfi) then Idle else Boot
    case Idle =>
      if x.config == 1 && x.start then TmrMode
      else if DualConfig(x.config) && x.start then DmrMode
      else if x.config == 0 && x.start then SingleMode
      else Idle
    case SingleMode =>
      if !x.start && s.single == SingleIdle then Idle
      else if x.start && x.config == 1 then TmrMode
      else if x.start && DualConfig(x.config) then DmrMode
      else SingleMode
    case TmrMode =>
      if s.tmr == Three(TmrIdle, TmrIdle, TmrIdle) && !x.start then Idle
      else if Any3(TmrToSingleSwitch(s, x)) then SingleMode
      else TmrMode
    case DmrMode =>
      if s.dmr == Three(DmrIdle, DmrIdle, DmrIdle) && !x.start then Idle
      else if Any3(DmrToSingleSwitch(s, x)) then SingleMode
      else DmrMode
  }

  function NextSingle(s: State, x: Inputs): Single {
    match s.single
    case SingleReset => SingleIdle
    case SingleIdle =>
      if s.general == SingleMode && x.start && !x.endSw && !Any3(TmrToSingleSwitch(s, x))
        && !Any3(DmrToSingleSwitch(s, x)) then SingleStart
      else if s.general == SingleMode && x.start && !x.endSw then SingleRun
      else SingleIdle
    case SingleStart => if x.haltAck == x.master then SingleRun else SingleStart
    case SingleRun =>
      if x.endSw && All3(x.wfi) then SingleIdle
      else if !x.start && x.haltAck == NO_HART && !x.endSw then SingleSyncOff
      else if x.haltAck == NO_HART && x.config == 1 then SingleToTmr
      else if x.haltAck == NO_HART && DualConfig(x.config) then SingleToDmr
      else SingleRun
    case SingleToTmr => if s.tmr == Three(TmrShHalt, TmrShHalt, TmrShHalt) then SingleIdle else SingleToTmr
    case SingleToDmr =>
      var h := s.dmr.Map(d => d == DmrShHalt);
      if h == Three(true, true, false) || h == Three(true, false, true) || h == Three(false, true, true)
        then SingleIdle else SingleToDmr
    case SingleSyncOff => if x.wfi == NO_HART then SingleIdle else SingleSyncOff
  }

  function NextTmr(s: State, x: Inputs, i: Hart): Tmr {
    var master := x.master.At(i);
    match s.tmr.At(i)
    case TmrReset => TmrIdle
    case TmrIdle =>
      if s.general == TmrMode && x.start && !EnableSwitch(s) then TmrStart
      else if s.general == TmrMode && x.start && EnableSwitch(s)
           && ((master && x.wfi.At(i) && x.syncMaster) || (!master && HaltRequest(s, x))) then TmrShHalt
      else TmrIdle
    case TmrStart => if x.haltAck.At(i) then TmrBoot else TmrStart
    case TmrBoot => if !x.haltAck.At(i) then TmrSync else TmrBoot
    case TmrShHalt =>
      if master && ((x.haltAck.h0 && x.haltAck.h1) || (x.haltAck.h1 && x.haltAck.h2) || (x.haltAck.h0 && x.haltAck.h2))
        then TmrWaitSh
      else if !master && x.haltAck.At(i) then TmrWaitSh
      else TmrShHalt
    case TmrWaitSh => if All3(x.wfi) then TmrMsIntrSync else TmrWaitSh
    case TmrMsIntrSync => if All3(x.intcAck) then TmrSync else TmrMsIntrSync
    case TmrSync =>
      if All3(x.wfi) && x.endSw then TmrIdle
      else if All3(x.wfi) && x.config != 1 then TmrEndSync
      else if TmrErrorDue(s.latch, x) then TmrSyncIntc
      else TmrSync
    case TmrEndSync =>
      if x.intcAck.At(i) && master then TmrIdle
      else if x.wfi.At(i) && !master then TmrIdle
      else TmrEndSync
    case TmrSyncIntc => if All3(x.intcAck) then TmrSwSync else TmrSyncIntc
    case TmrSwSync => if !Any3(x.intcAck) then TmrSync else TmrSwSync
    case TmrToSingle => TmrIdle
  }

  /** In DmrSync the configuration is compared with 10 or with 11: one of them always differs, so that all
      cores asleep end the mode whatever the configuration is. */
  function NextDmr(s: State, x: Inputs, i: Hart): Dmr {
    var master := x.master.At(i);
    match s.dmr.At(i)
    case DmrReset => DmrIdle
    case DmrIdle =>
      if s.general == DmrMode && x.start && !EnableSwitch(s) && x.mask.At(i) then DmrStart
      else if s.general == DmrMode && x.start && EnableSwitch(s) && x.mask.At(i)
           && ((master && x.wfi.At(i) && x.syncMaster) || (!master && HaltRequest(s, x))) then DmrShHalt
      else DmrIdle
    case DmrStart => if x.haltAck.At(i) then DmrBoot else DmrStart
    case DmrBoot => if !x.haltAck.At(i) then DmrSync else DmrBoot
    case DmrShHalt =>
      if master && x.haltAck == Three(x.mask.h0 != x.master.h0, x.mask.h1 != x.master.h1, x.mask.h2 != x.master.h2)
        then DmrWaitSh
      else if !master && x.haltAck.At(i) then DmrWaitSh
      else DmrShHalt
    case DmrWaitSh => if All3(x.wfi) then DmrMsIntrSync else DmrWaitSh
    case DmrMsIntrSync => if x.intcAck.At(i) then DmrSync else DmrMsIntrSync
    case DmrSync =>
      if All3(x.wfi) && x.endSw then DmrIdle
      else if All3(x.wfi) && (x.config != 2 || x.config != 3) then DmrEndSync
      else if DmrErrorDue(x) then DmrStop
      else DmrSync
    case DmrStop => if All3(x.wfi) then DmrIntcRecovery else DmrStop
    case DmrIntcRecovery => if x.haltAck.At(i) then DmrRecovery else DmrIntcRecovery
    case DmrRecovery => if !x.haltAck.At(i) then DmrSync else DmrRecovery
    case DmrEndSync =>
      if x.intcAck.At(i) && master then DmrIdle
      else if x.wfi.At(i) && !master then DmrIdle
      else DmrEndSync
    case DmrToSingle => DmrIdle
  }

  function NextLatch(s: State, x: Inputs): Latch {
    var some := s.tmr.h0 == TmrSync || s.tmr.h1 == TmrSync || s.tmr.h2 == TmrSync;
    var all := s.tmr.h0 == TmrSync && s.tmr.h1 == TmrSync && s.tmr.h2 == TmrSync;
    if some && x.tmrError && !s.latch.last then Latch(x.tmrError, !s.latch.pending)
    else if !all then Latch(false, false)
    else Latch(x.tmrError, s.latch.pending)
  }

  /** A dual machine asks for the time shift. */
  function Delaying(d: Dmr, x: Inputs): bool {
    x.config == 3 && d in {DmrStart, DmrBoot, DmrMsIntrSync, DmrSync, DmrIntcRecovery, DmrRecovery}
  }

  function DelaySet(s: State, x: Inputs): bool {
    Delaying(s.dmr.h0, x) || Delaying(s.dmr.h1, x) || Delaying(s.dmr.h2, x)
  }

  function NextDelay(s: State, x: Inputs): bool {
    if All3(x.wfi) && x.config == 0 then false else if DelaySet(s, x) then true else s.delay
  }

  function Next(s: State, x: Inputs): State {
    State(
      NextGeneral(s, x),
      NextSingle(s, x),
      Three(NextTmr(s, x, 0), NextTmr(s, x, 1), NextTmr(s, x, 2)),
      Three(NextDmr(s, x, 0), NextDmr(s, x, 1), NextDmr(s, x, 2)),
      NextLatch(s, x),
      NextDelay(s, x))
  }

  /** Any number of clock edges. */
  function Run(s: State, xs: seq<Inputs>): State {
    if xs == [] then s else Next(Run(s, xs[..|xs| - 1]), xs[|xs| - 1])
  }

  // ---------------------------------------------------------------- outputs

  predicate Votes(t: Tmr) {
    t in {TmrStart, TmrBoot, TmrShHalt, TmrWaitSh, TmrMsIntrSync, TmrSync, TmrSyncIntc, TmrSwSync}
  }

  predicate Compares(d: Dmr) {
    d in {DmrStart, DmrBoot, DmrMsIntrSync, DmrSync, DmrStop, DmrIntcRecovery, DmrRecovery}
  }

  predicate VoterEnabled(s: State) {
    Votes(s.tmr.h0) || Votes(s.tmr.h1) || Votes(s.tmr.h2) || s.general == Boot
  }

  predicate ComparatorEnabled(s: State) {
    Compares(s.dmr.h0) || Compares(s.dmr.h1) || Compares(s.dmr.h2)
  }

  /** The cores whose ports the isolator answers. */
  function Isolating(s: State): Three<bool> {
    s.dmr.Map(d => d == DmrStop)
  }

  /** The cores that take part in the comparison. */
  function DmrConfig(s: State): Three<bool> {
    s.dmr.Map(d => d != DmrIdle)
  }

  /** The time shift is on, from the first cycle in which it is asked for. */
  predicate Shifting(s: State, x: Inputs) {
    s.delay || DelaySet(s, x)
  }

  /** The registers of the controller. */
  class Controller {
    var general: General
    var single: Single
    var tmr: array<Tmr>
    var dmr: array<Dmr>
    var errorFf: Latch
    var delayFf: bool

    ghost predicate Valid()
      reads this
    {
      tmr.Length == 3 && dmr.Length == 3
    }

    ghost function Contents(): State
      requires Valid()
      reads this, tmr, dmr
    {
      State(general, single, Three(tmr[0], tmr[1], tmr[2]), Three(dmr[0], dmr[1], dmr[2]), errorFf, delayFf)
    }

    constructor ()
      ensures Valid() && fresh(tmr) && fresh(dmr) && Contents() == POWER
    {
      general, single := Reset, SingleReset;
      tmr := new Tmr[3](i => TmrReset);
      dmr := new Dmr[3](i => DmrReset);
      errorFf := Latch(false, false);
      delayFf := false;
    }

    /** One clock edge: all next states from the current ones, then all registers at once. */
    method Clock(x: Inputs)
      requires Valid()
      modifies this, tmr, dmr
      ensures Valid() && tmr == old(tmr) && dmr == old(dmr)
      ensures Contents() == Next(old(Contents()), x)
    {
      var s := State(general, single, Three(tmr[0], tmr[1], tmr[2]), Three(dmr[0], dmr[1], dmr[2]), errorFf, delayFf);
      general, single := NextGeneral(s, x), NextSingle(s, x);
      for i := 0 to 3
        invariant Valid() && tmr == old(tmr) && dmr == old(dmr)
        invariant errorFf == s.latch && delayFf == s.delay && general == NextGeneral(s, x) && single == NextSingle(s, x)
        invariant forall k: Hart | k < i :: tmr[k] == NextTmr(s, x, k) && dmr[k] == NextDmr(s, x, k)
      {
        tmr[i] := NextTmr(s, x, i);
        dmr[i] := NextDmr(s, x, i);
      }
      ClockLatch(s, x);
      if All3(x.wfi) && x.config == 0 {
        delayFf := false;
      } else if DelaySet(s, x) {
        delayFf := true;
      }
    }

    /** The later assignments of the clocked block win over the first. */
    method ClockLatch(s: State, x: Inputs)
      requires errorFf == s.latch
      modifies this`errorFf
      ensures errorFf == NextLatch(s, x)
    {
      errorFf := errorFf.(last := x.tmrError);
      if (s.tmr.h0 == TmrSync || s.tmr.h1 == TmrSync || s.tmr.h2 == TmrSync) && x.tmrError && !s.latch.last {
        errorFf := errorFf.(pending := !s.latch.pending);
      } else if s.tmr.h0 != TmrSync || s.tmr.h1 != TmrSync || s.tmr.h2 != TmrSync {
        errorFf := Latch(false, false);
      }
    }
  }
}
