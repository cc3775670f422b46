/** The client object of src/client/client.c: its construction from the
    command-line credentials and the HELLO exchange that opens a handshake. */
module Client {
  import opened Bytes
  import opened Wrappers
  import opened Protocol
  import opened Transport

  /** `struct Client`: copies of the client id and the password, and the
      connected socket. */
  class Client {
    const clientId: CString
    const password: CString
    const socket: int
    const channel: Channel

    constructor (clientId: CString, password: CString, socket: int, channel: Channel)
      ensures this.clientId == clientId && this.password == password
      ensures this.socket == socket && this.channel == channel
    {
      this.clientId := clientId;
      this.password := password;
      this.socket := socket;
      this.channel := channel;
    }

    /** `client_send_hello_packet`: HELLO carrying the client id and its NUL;
        EXIT_FAILURE exactly when the send fails. */
    method SendHello() returns (result: int)
      modifies channel
      ensures result == (if old(channel.open) then StatusSuccess else StatusFailure)
      ensures channel.sent == old(channel.sent) + (if old(channel.open) then [HelloPacket(clientId)] else [])
      ensures channel.incoming == old(channel.incoming) && channel.open == old(channel.open)
    {
      result := StatusSuccess;
      var packet := InitializePacket(Hello);
      var buffer, length := BuildHelloPayload(clientId);
      packet := packet.(header := packet.header.(length := length), payload := buffer[..]);
      var status := channel.Send(packet);
      if status < 0 {
        result := StatusFailure;
      }
    }

    /** `client_receive_hello_packet`: RR_FAILURE when nothing arrives,
        RR_TYPE_ERROR for anything but HELLO, otherwise RR_SUCCESS; the packet
        read is handed to the caller in both of the last two cases. */
    method ReceiveHello() returns (result: ReceiveResult, packet: Packet)
      modifies channel
      ensures old(channel.incoming) == [] ==> result == RrFailure && channel.incoming == []
      ensures old(channel.incoming) != [] ==>
        packet == old(channel.incoming)[0] && channel.incoming == old(channel.incoming)[1..] &&
        result == (if IsType(packet, Hello) then RrSuccess else RrTypeError)
      ensures channel.sent == old(channel.sent) && channel.open == old(channel.open)
    {
      var status;
      status, packet := channel.Receive();
      if status < 0 {
        return RrFailure, packet;
      }
      if packet.header.msgType != Code(Hello) {
        return RrTypeError, packet;
      }
      result := RrSuccess;
    }
  }

  /** `client_init`: no client without a client id, without a password or
      with a negative socket; otherwise a client holding both strings and the
      socket. */
  method ClientInit(clientId: Option<CString>, password: Option<CString>, socket: int, channel: Channel)
    returns (client: Client?)
    ensures client == null <==> clientId.None? || password.None? || socket < 0
    ensures client != null ==>
      fresh(client) && client.clientId == clientId.value && client.password == password.value &&
      client.socket == socket && client.channel == channel
  {
    if clientId.None? || password.None? || socket < 0 {
      return null;
    }
    client := new Client(clientId.value, password.value, socket, channel);
  }

  /** The id in a client's HELLO is the id a server reads back from it, for
      any id whose length and terminator fit the 16-bit length field. */
  lemma HelloCarriesClientId(id: CString)
    requires |id| < 0xFFFF
    ensures IsType(HelloPacket(id), Hello)
    ensures HelloPacket(id).header.length == |id| + 1
    ensures CStringOf(HelloPacket(id).payload) == id
  {
    HelloRoundTrip(id);
  }
}
