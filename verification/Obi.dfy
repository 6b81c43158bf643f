/** The OBI bus: what a core puts on a request port and what comes back. */
module Obi {
  datatype Request = Request(req: bool, we: bool, be: bv4, addr: bv32, wdata: bv32)

  datatype Response = Response(gnt: bool, reply: Reply)

  /** The answer half of a response: it belongs to a request granted earlier. */
  datatype Reply = Reply(rvalid: bool, rdata: bv32)

  /** The '0 that gates and resets drive. */
  const NO_REQUEST := Request(false, false, 0, 0, 0)

  /** The instruction and the data port of one core. */
  datatype Ports = Ports(instr: Request, data: Request)

  /** What comes back on the two ports. */
  datatype Responses = Responses(instr: Response, data: Response)

  const NO_PORTS := Ports(NO_REQUEST, NO_REQUEST)
}
