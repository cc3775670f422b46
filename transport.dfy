/** The connected socket both peers talk through. `nw_send_packet` and
    `nw_receive_packet` are not part of this model; a `Channel` stands for
    one end of the connection: the packets the peer will deliver, in order,
    the packets sent to it so far, and whether the socket is still open. */
module Transport {
  import opened Protocol

  /** `ReceiveResult` (include/core/common.h, repeated in include/client/client.h). */
  datatype ReceiveResult = RrSuccess | RrFailure | RrTypeError

  /** `SUCCESS` and `FAILURE` (include/core/common.h). */
  const StatusSuccess: int := 0
  const StatusFailure: int := 1

  class Channel {
    var incoming: seq<Packet>
    var sent: seq<Packet>
    var open: bool

    constructor (incoming: seq<Packet>, open: bool)
      ensures this.incoming == incoming && sent == [] && this.open == open
    {
      this.incoming := incoming;
      sent := [];
      this.open := open;
    }

    /** `nw_send_packet`: -1 on a closed socket; otherwise the packet is
        delivered after the ones sent before it. */
    method Send(p: Packet) returns (status: int)
      modifies this
      ensures status == (if old(open) then 0 else -1)
      ensures sent == if old(open) then old(sent) + [p] else old(sent)
      ensures incoming == old(incoming) && open == old(open)
    {
      if open {
        sent := sent + [p];
        status := 0;
      } else {
        status := -1;
      }
    }

    /** `nw_receive_packet`: -1 when the peer has nothing more to deliver;
        otherwise the next packet, taken off the queue. */
    method Receive() returns (status: int, p: Packet)
      modifies this
      ensures old(incoming) == [] ==> status == -1 && incoming == []
      ensures old(incoming) != [] ==> status == 0 && p == old(incoming)[0] && incoming == old(incoming)[1..]
      ensures sent == old(sent) && open == old(open)
    {
      if incoming == [] {
        status, p := -1, InitializePacket(MessageType.Close);
      } else {
        status, p := 0, incoming[0];
        incoming := incoming[1..];
      }
    }

    /** `close`: nothing can be sent afterwards. */
    method Close()
      modifies this
      ensures !open
      ensures incoming == old(incoming) && sent == old(sent)
    {
      open := false;
    }
  }
}
