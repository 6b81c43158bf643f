/** The time-shifted pair: the master's requests and the shadow's responses are both delayed by the
    same number of cycles. */
module Lockstep {
  import opened Obi
  import opened ObiPipeline
  import opened Cores

  // ---------------------------------------------------------------- shift registers

  /** s with x shifted in at index 0. */
  function Shifted<T>(s: seq<T>, x: T): (r: seq<T>)
    requires s != []
    ensures |r| == |s|
  {
    [x] + s[..|s| - 1]
  }

  method ShiftIn<T>(a: array<T>, x: T)
    requires a.Length > 0
    modifies a
    ensures a[..] == Shifted(old(a[..]), x)
  {
    var j := a.Length - 1;
    while j > 0
      invariant 0 <= j < a.Length
      invariant forall k | 0 <= k <= j :: a[k] == old(a[k])
      invariant forall k | j < k < a.Length :: a[k] == old(a[k - 1])
    {
      a[j] := a[j - 1];
      j := j - 1;
    }
    a[0] := x;
  }

  // ---------------------------------------------------------------- the pair's registers

  datatype Registers = Registers(instrPipe: seq<Request>, dataPipe: seq<Request>, instrReply: seq<Reply>,
      dataReply: seq<Reply>)

  /** The registers after the clock edge; the responses shift only while enabled. */
  function Clocked(r: Registers, enable: bool, master: Ports, resp: Responses): Registers
    requires r.instrReply != [] && r.dataReply != []
  {
    Registers(
      Step(r.instrPipe, !enable, master.instr, resp.instr.gnt),
      Step(r.dataPipe, !enable, master.data, resp.data.gnt),
      if enable then Shifted(r.instrReply, resp.instr.reply) else r.instrReply,
      if enable then Shifted(r.dataReply, resp.data.reply) else r.dataReply)
  }

  /** What the comparator gets for the master: the output of both pipes. */
  function MasterRequest(r: Registers, master: Ports): Ports {
    Ports(Out(r.instrPipe, master.instr), Out(r.dataPipe, master.data))
  }

  /** What the comparator gets for the shadow: its data write strobe is gated, its instruction one is not. */
  function ShadowRequest(shadow: Ports): Ports {
    shadow.(data := shadow.data.(we := shadow.data.we && shadow.data.req))
  }

  /** The master is granted by its pipes and answered directly. */
  function MasterResponse(r: Registers, master: Ports, resp: Responses): Responses {
    Responses(
      resp.instr.(gnt := ChainGrant(r.instrPipe, master.instr, resp.instr.gnt)),
      resp.data.(gnt := ChainGrant(r.dataPipe, master.data, resp.data.gnt)))
  }

  /** The shadow is granted directly and answered late. */
  function ShadowResponse(r: Registers, resp: Responses): Responses
    requires r.instrReply != [] && r.dataReply != []
  {
    Responses(
      resp.instr.(reply := r.instrReply[|r.instrReply| - 1]),
      resp.data.(reply := r.dataReply[|r.dataReply| - 1]))
  }

  ghost predicate Apart(a: seq<SingleRegister>, b: seq<SingleRegister>) {
    && (forall i | 0 <= i < |a| :: a[i] !in b)
    && (forall i | 0 <= i < |b| :: b[i] !in a)
  }

  class LockstepReg {
    const instrPipe: PipelinedDelay
    const dataPipe: PipelinedDelay
    const instrReplyFf: array<Reply>
    const dataReplyFf: array<Reply>

    ghost predicate Valid() {
      && instrPipe.Valid() && dataPipe.Valid()
      && |instrPipe.stages| == |dataPipe.stages| == instrReplyFf.Length == dataReplyFf.Length
      && instrReplyFf != dataReplyFf
      && Apart(instrPipe.stages, dataPipe.stages)
    }

    ghost function Contents(): Registers
      reads instrPipe.stages, dataPipe.stages, instrReplyFf, dataReplyFf
    {
      Registers(instrPipe.Contents(), dataPipe.Contents(), instrReplyFf[..], dataReplyFf[..])
    }

    constructor (ncycles: nat)
      requires ncycles > 0
      ensures Valid() && |instrPipe.stages| == ncycles
      ensures fresh(instrPipe.stages) && fresh(dataPipe.stages) && fresh(instrReplyFf) && fresh(dataReplyFf)
      ensures forall i | 0 <= i < ncycles ::
        Contents().instrPipe[i] == NO_REQUEST && Contents().dataPipe[i] == NO_REQUEST
      ensures forall i | 0 <= i < ncycles ::
        Contents().instrReply[i] == Reply(false, 0) && Contents().dataReply[i] == Reply(false, 0)
    {
      instrPipe := new PipelinedDelay(ncycles);
      dataPipe := new PipelinedDelay(ncycles);
      instrReplyFf := new Reply[ncycles](i => Reply(false, 0));
      dataReplyFf := new Reply[ncycles](i => Reply(false, 0));
    }

    method Clock(enable: bool, master: Ports, shadow: Ports, resp: Responses)
        returns (masterOut: Ports, shadowOut: Ports, toMaster: Responses, toShadow: Responses)
      requires Valid()
      modifies instrPipe.stages, dataPipe.stages, instrReplyFf, dataReplyFf
      ensures Contents() == Clocked(old(Contents()), enable, master, resp)
      ensures masterOut == MasterRequest(old(Contents()), master) && shadowOut == ShadowRequest(shadow)
      ensures toMaster == MasterResponse(old(Contents()), master, resp)
      ensures toShadow == ShadowResponse(old(Contents()), resp)
    {
      var last := instrReplyFf.Length - 1;
      shadowOut := Ports(shadow.instr, shadow.data.(we := shadow.data.we && shadow.data.req));
      toShadow := Responses(resp.instr.(reply := instrReplyFf[last]), resp.data.(reply := dataReplyFf[last]));
      masterOut, toMaster := ClockPipes(!enable, master, resp);
      if enable {
        ClockReplies(resp);
      }
    }

    method ClockPipes(clearPipeline: bool, master: Ports, resp: Responses)
        returns (masterOut: Ports, toMaster: Responses)
      requires Valid()
      modifies instrPipe.stages, dataPipe.stages
      ensures instrPipe.Contents() == Step(old(instrPipe.Contents()), clearPipeline, master.instr, resp.instr.gnt)
      ensures dataPipe.Contents() == Step(old(dataPipe.Contents()), clearPipeline, master.data, resp.data.gnt)
      ensures masterOut == Ports(Out(old(instrPipe.Contents()), master.instr),
        Out(old(dataPipe.Contents()), master.data))
      ensures toMaster == Responses(
        resp.instr.(gnt := ChainGrant(old(instrPipe.Contents()), master.instr, resp.instr.gnt)),
        resp.data.(gnt := ChainGrant(old(dataPipe.Contents()), master.data, resp.data.gnt)))
    {
      var instrReq, pipeInstrGnt := instrPipe.Clock(clearPipeline, master.instr, resp.instr.gnt);
      assert forall i | 0 <= i < |dataPipe.stages| :: dataPipe.stages[i].ff == old(dataPipe.stages[i].ff);
      assert dataPipe.Contents() == old(dataPipe.Contents());
      ghost var first := instrPipe.Contents();
      var dataReq, pipeDataGnt := dataPipe.Clock(clearPipeline, master.data, resp.data.gnt);
      assert forall i | 0 <= i < |instrPipe.stages| :: instrPipe.stages[i].ff == first[i];
      assert instrPipe.Contents() == first;
      masterOut := Ports(instrReq, dataReq);
      toMaster := Responses(Response(pipeInstrGnt, resp.instr.reply), Response(pipeDataGnt, resp.data.reply));
    }

    method ClockReplies(resp: Responses)
      requires Valid()
      modifies instrReplyFf, dataReplyFf
      ensures instrReplyFf[..] == Shifted(old(instrReplyFf[..]), resp.instr.reply)
      ensures dataReplyFf[..] == Shifted(old(dataReplyFf[..]), resp.data.reply)
    {
      ShiftIn(instrReplyFf, resp.instr.reply);
      ShiftIn(dataReplyFf, resp.data.reply);
    }
  }

  // ---------------------------------------------------------------- interrupts

  /** The wrapper's own delay, for the interrupt lines of the shadow. */
  class InterruptDelay {
    const ff: array<Interrupts>

    constructor (ncycles: nat)
      requires ncycles > 0
      ensures fresh(ff) && ff.Length == ncycles
      ensures forall i | 0 <= i < ncycles :: ff[i] == Interrupts(0, false)
    {
      ff := new Interrupts[ncycles](i => Interrupts(0, false));
    }

    method Clock(enable: bool, lines: Interrupts) returns (delayed: Interrupts)
      requires ff.Length > 0
      modifies ff
      ensures delayed == old(ff[ff.Length - 1])
      ensures ff[..] == if enable then Shifted(old(ff[..]), lines) else old(ff[..])
    {
      delayed := ff[ff.Length - 1];
      if enable {
        ShiftIn(ff, lines);
      }
    }
  }
}
