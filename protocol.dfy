/** Packet framing of the PAKE handshake: the message type codes, the packed
    3-byte header, and the builders and the parser of the HELLO, SETUP, U and V
    payloads (include/core/protocol.h, src/core/protocol.c). */
module Protocol {
  import opened Bytes
  import opened Wrappers

  // ---------------------------------------------------------------------
  // Message types and the header

  datatype MessageType = Hello | Setup | U | V | Close

  /** The value of each `MessageType` enumerator, in declaration order. */
  function Code(t: MessageType): (c: uint8)
    ensures c < 5 && FromCode(c) == Some(t)
  {
    match t
    case Hello => 0
    case Setup => 1
    case U => 2
    case V => 3
    case Close => 4
  }

  /** The message type a received type byte names, if any. */
  function FromCode(c: uint8): Option<MessageType> {
    if c == 0 then Some(Hello)
    else if c == 1 then Some(Setup)
    else if c == 2 then Some(U)
    else if c == 3 then Some(V)
    else if c == 4 then Some(Close)
    else None
  }

  /** Exactly the codes 0 to 4 name a type, and `Code` is their inverse. */
  lemma FromCodeInverse(c: uint8)
    ensures FromCode(c).Some? <==> c < 5
    ensures FromCode(c).Some? ==> Code(FromCode(c).value) == c
  {
  }

  /** `Header`: a 16-bit payload length (host order, as the builders and the
      receive functions of the server use it) and a type byte. */
  datatype Header = Header(length: uint16, msgType: uint8)

  /** `#pragma pack(1)` makes the header three bytes: length, then type. */
  const HeaderSize: nat := 3

  /** A packet; a NULL payload pointer is the empty payload. */
  datatype Packet = Packet(header: Header, payload: seq<uint8>)

  /** The length field counts exactly the payload bytes. */
  predicate Framed(p: Packet) {
    p.header.length == |p.payload|
  }

  predicate IsType(p: Packet, t: MessageType) {
    p.header.msgType == Code(t)
  }

  /** `pt_initialize_packet`: the given type, length 0 and no payload; for
      CLOSE this is the whole packet. */
  function InitializePacket(t: MessageType): (p: Packet)
    ensures Framed(p) && IsType(p, t) && p.payload == []
  {
    Packet(Header(0, Code(t)), [])
  }

  /** The header on the wire: length most significant byte first, then type.
      The packed `Header` of include/core/protocol.h keeps its length in host
      order, and `nw_send_packet`, which writes it out, is not part of this
      model; the byte order here is an assumption about that function. */
  function EncodeHeader(h: Header): (r: seq<uint8>)
    ensures |r| == HeaderSize
    ensures DecodeHeader(r) == h
  {
    BigEndian16(h.length) + [h.msgType]
  }

  function DecodeHeader(b: seq<uint8>): Header
    requires |b| == HeaderSize
  {
    Header(FromBigEndian16(b[0], b[1]), b[2])
  }

  /** Header decoding is injective: three bytes survive a decode/encode. */
  lemma EncodeDecodeHeader(b: seq<uint8>)
    requires |b| == HeaderSize
    ensures EncodeHeader(DecodeHeader(b)) == b
  {
    BigEndian16Bytes(b[0], b[1]);
  }

  /** A framed packet on the wire: its header and then its payload bytes. */
  function EncodePacket(p: Packet): seq<uint8>
    requires Framed(p)
  {
    EncodeHeader(p.header) + p.payload
  }

  /** Reads a header and then exactly `length` payload bytes; refuses a
      stream that is shorter or longer than that. */
  function DecodePacket(b: seq<uint8>): (r: Option<Packet>)
    ensures r.Some? ==> Framed(r.value)
  {
    if |b| < HeaderSize then None
    else
      var h := DecodeHeader(b[..HeaderSize]);
      if |b| - HeaderSize != h.length then None
      else Some(Packet(h, b[HeaderSize..]))
  }

  /** Codec round trip, both directions: a framed packet decodes from its own
      encoding, and whatever decodes re-encodes to the same bytes. */
  lemma PacketRoundTrip(p: Packet, b: seq<uint8>)
    ensures Framed(p) ==> DecodePacket(EncodePacket(p)) == Some(p)
    ensures DecodePacket(b).Some? ==> EncodePacket(DecodePacket(b).value) == b
  {
    if Framed(p) {
      var e := EncodePacket(p);
      assert e[..HeaderSize] == EncodeHeader(p.header);
      assert e[HeaderSize..] == p.payload;
    }
    if |b| >= HeaderSize {
      EncodeDecodeHeader(b[..HeaderSize]);
      assert b == b[..HeaderSize] + b[HeaderSize..];
    }
  }

  // ---------------------------------------------------------------------
  // HELLO: the identity and its NUL terminator

  /** The HELLO payload: `strlen(id) + 1` bytes of the id's memory, the count
      truncated to 16 bits as `*length` is a `uint16_t`. */
  function HelloPayload(id: CString): (r: seq<uint8>)
    ensures |r| == (|id| + 1) % 0x1_0000
    ensures |id| < 0xFFFF ==> r == id + [0]
  {
    (id + [0])[..(|id| + 1) % 0x1_0000]
  }

  /** `pt_build_hello_payload`. */
  method BuildHelloPayload(id: CString) returns (buffer: array<uint8>, length: uint16)
    ensures length == buffer.Length
    ensures buffer[..] == HelloPayload(id)
  {
    length := (|id| + 1) % 0x1_0000;
    buffer := new uint8[length];
    CopyInto(buffer, 0, (id + [0])[..length]);
  }

  /** HELLO round trip: taking the payload as a C string recovers the id
      whenever its length plus the terminator fits the 16-bit length field. */
  lemma HelloRoundTrip(id: CString)
    requires |id| < 0xFFFF
    ensures CStringOf(HelloPayload(id)) == id
  {
    assert HelloPayload(id) == id + [0] + [];
    CStringOfTerminated(id, []);
  }

  // ---------------------------------------------------------------------
  // SETUP: [phi0_len big-endian][phi0][c]

  /** The SETUP payload layout. */
  function SetupPayload(phi0: seq<uint8>, c: seq<uint8>): seq<uint8>
    requires |phi0| < 0x1_0000
  {
    BigEndian16(|phi0|) + phi0 + c
  }

  /** `pt_build_setup_payload`: its `2 + phi0_len + c_len` must fit the 16-bit
      length field, or the buffer is smaller than what is copied into it. */
  method BuildSetupPayload(phi0: seq<uint8>, c: seq<uint8>) returns (buffer: array<uint8>, length: uint16)
    requires 2 + |phi0| + |c| < 0x1_0000
    ensures length == buffer.Length == 2 + |phi0| + |c|
    ensures buffer[..2] == BigEndian16(|phi0|)
    ensures buffer[2..2 + |phi0|] == phi0
    ensures buffer[2 + |phi0|..] == c
    ensures buffer[..] == SetupPayload(phi0, c)
  {
    length := 2 + |phi0| + |c|;
    buffer := new uint8[length];
    CopyInto(buffer, 0, BigEndian16(|phi0|));
    CopyInto(buffer, 2, phi0);
    CopyInto(buffer, 2 + |phi0|, c);
  }

  /** The phi0 length a SETUP payload declares in its first two bytes. */
  function DeclaredPhi0Length(payload: seq<uint8>): uint16
    requires |payload| >= 2
  {
    FromBigEndian16(payload[0], payload[1])
  }

  /** What the parser needs to stay inside the payload: the 2-byte prefix is
      present and the declared phi0 fits in the bytes after it. */
  predicate WellFormedSetup(payload: seq<uint8>) {
    |payload| >= 2 && DeclaredPhi0Length(payload) <= |payload| - 2
  }

  /** The (phi0, c) split of a well-formed SETUP payload; it is the inverse of
      `SetupPayload`. */
  function ParseSetup(payload: seq<uint8>): (r: (seq<uint8>, seq<uint8>))
    requires WellFormedSetup(payload)
    ensures |r.0| == DeclaredPhi0Length(payload)
    ensures |r.1| == |payload| - 2 - |r.0|
    ensures SetupPayload(r.0, r.1) == payload
  {
    var n := DeclaredPhi0Length(payload);
    BigEndian16Bytes(payload[0], payload[1]);
    assert payload == payload[..2] + payload[2..2 + n] + payload[2 + n..];
    (payload[2..2 + n], payload[2 + n..])
  }

  /** SETUP round trip: parsing a built payload returns the original fields. */
  lemma ParseBuiltSetup(phi0: seq<uint8>, c: seq<uint8>)
    requires |phi0| < 0x1_0000
    ensures WellFormedSetup(SetupPayload(phi0, c))
    ensures ParseSetup(SetupPayload(phi0, c)) == (phi0, c)
  {
    var p := SetupPayload(phi0, c);
    assert p[2..2 + |phi0|] == phi0;
    assert p[2 + |phi0|..] == c;
  }

  /** `pt_parse_setup_packet` with the interface of protocol.h: phi0 and c in
      fresh buffers, with their lengths. The total is the header's length as
      it stands, and the caller guarantees what the C code does not check. */
  method ParseSetupPacket(packet: Packet)
    returns (phi0: array<uint8>, phi0Len: uint16, c: array<uint8>, cLen: uint16)
    requires Framed(packet) && WellFormedSetup(packet.payload)
    ensures phi0Len == phi0.Length && cLen == c.Length
    ensures phi0Len + cLen + 2 == packet.header.length
    ensures (phi0[..], c[..]) == ParseSetup(packet.payload)
  {
    var length := packet.header.length;
    phi0Len := FromBigEndian16(packet.payload[0], packet.payload[1]);
    cLen := length - 2 - phi0Len;
    phi0 := new uint8[phi0Len];
    c := new uint8[cLen];
    CopyInto(phi0, 0, packet.payload[2..2 + phi0Len]);
    assert phi0[..] == packet.payload[2..2 + phi0Len];
    CopyInto(c, 0, packet.payload[2 + phi0Len..2 + phi0Len + cLen]);
    assert c[..] == packet.payload[2 + phi0Len..];
  }

  /** The parse the server relies on, with the bounds check the C parser lacks:
      it fails exactly on the payloads that would make it read outside them. */
  function ParseSetupChecked(payload: seq<uint8>): (r: Option<(seq<uint8>, seq<uint8>)>)
    ensures r.Some? <==> WellFormedSetup(payload)
    ensures r.Some? ==> |r.value.0| < 0x1_0000
    ensures r.Some? ==> SetupPayload(r.value.0, r.value.1) == payload
  {
    if WellFormedSetup(payload) then Some(ParseSetup(payload)) else None
  }

  // ---------------------------------------------------------------------
  // U and V: the point bytes as they are

  /** `pt_build_u_payload`. */
  method BuildUPayload(u: seq<uint8>) returns (buffer: array<uint8>, length: uint16)
    requires |u| < 0x1_0000
    ensures length == buffer.Length == |u|
    ensures buffer[..] == u
  {
    length := |u|;
    buffer := new uint8[length];
    CopyInto(buffer, 0, u);
  }

  /** `pt_build_v_payload`, in the source a line-for-line copy of
      `pt_build_u_payload`. */
  method BuildVPayload(v: seq<uint8>) returns (buffer: array<uint8>, length: uint16)
    requires |v| < 0x1_0000
    ensures length == buffer.Length == |v|
    ensures buffer[..] == v
  {
    buffer, length := BuildUPayload(v);
  }

  // ---------------------------------------------------------------------
  // The packets the two peers send

  /** Every packet of a stream is framed. */
  predicate AllFramed(ps: seq<Packet>) {
    forall i :: 0 <= i < |ps| ==> Framed(ps[i])
  }

  /** HELLO carrying an id, as `pt_initialize_packet` and
      `pt_build_hello_payload` assemble it. */
  function HelloPacket(id: CString): (p: Packet)
    ensures Framed(p) && IsType(p, Hello)
  {
    Packet(Header(|HelloPayload(id)|, Code(Hello)), HelloPayload(id))
  }

  /** SETUP carrying phi0 and c. */
  function SetupPacket(phi0: Bytes32, c: Bytes32): (p: Packet)
    ensures Framed(p) && IsType(p, Setup)
  {
    Packet(Header(|SetupPayload(phi0, c)|, Code(Setup)), SetupPayload(phi0, c))
  }

  /** U carrying a point. */
  function UPacket(u: Bytes32): (p: Packet)
    ensures Framed(p) && IsType(p, U) && p.header.length == 32
  {
    Packet(Header(32, Code(U)), u)
  }

  /** V carrying a point. */
  function VPacket(v: Bytes32): (p: Packet)
    ensures Framed(p) && IsType(p, V) && p.header.length == 32
  {
    Packet(Header(32, Code(V)), v)
  }

  /** The fields of a SETUP payload the server accepts: a well-formed split
      into a 32-byte phi0 and a 32-byte c. */
  function SetupFields(payload: seq<uint8>): (r: Option<(Bytes32, Bytes32)>)
    ensures r.Some? <==>
      ParseSetupChecked(payload).Some? &&
      |ParseSetupChecked(payload).value.0| == 32 && |ParseSetupChecked(payload).value.1| == 32
    ensures r.Some? ==> SetupPayload(r.value.0, r.value.1) == payload
  {
    match ParseSetupChecked(payload)
    case None => None
    case Some((phi0, c)) => if |phi0| == 32 && |c| == 32 then Some((phi0, c)) else None
  }

  /** The server reads back the phi0 and c of a SETUP packet built from them. */
  lemma SetupFieldsOfPacket(phi0: Bytes32, c: Bytes32)
    ensures SetupFields(SetupPacket(phi0, c).payload) == Some((phi0, c))
  {
    ParseBuiltSetup(phi0, c);
  }

  // ---------------------------------------------------------------------
  // The C code as written, where it departs from the above

  /** The 16-bit `*length` that `pt_build_setup_payload` computes. */
  function SetupLengthAsWritten(phi0Len: uint16, cLen: uint16): uint16 {
    (2 + phi0Len + cLen) % 0x1_0000
  }

  /** With a 65535-byte phi0 the 16-bit length wraps to 1, while 65537 bytes
      are copied into the buffer of that size. */
  lemma SetupLengthWraps()
    ensures SetupLengthAsWritten(0xFFFF, 0) == 1 < 2 + 0xFFFF
  {
  }

  /** The 16-bit `c_len` that `pt_parse_setup_packet` computes from the total
      and the declared phi0 length, with no check that either fits. */
  function SetupCLengthAsWritten(total: int, phi0Len: uint16): uint16 {
    (total - 2 - phi0Len) % 0x1_0000
  }

  /** A two-byte SETUP payload declaring a 5-byte phi0: on a little-endian
      host `ntohs` turns the total 2 into 512, and the parser copies 5 bytes
      of phi0 and 505 bytes of c out of a 2-byte payload. */
  lemma ShortSetupOverreads()
    ensures var p: seq<uint8> := [0, 5];
      && !WellFormedSetup(p)
      && DeclaredPhi0Length(p) == 5
      && NetworkToHostLittleEndian(|p|) == 512
      && SetupCLengthAsWritten(NetworkToHostLittleEndian(|p|), DeclaredPhi0Length(p)) == 505
      && 2 + 5 + 505 > |p|
      && ParseSetupChecked(p) == None
  {
  }

  /** `ntohs` on a little-endian host swaps the two bytes. */
  function NetworkToHostLittleEndian(x: uint16): uint16 {
    (x % 0x100) * 0x100 + x / 0x100
  }

  /** The parser applies `ntohs` to the header length, which the builders and
      server.c keep in host order: on a little-endian host the 66-byte SETUP
      of two 32-byte fields is read as 16896 bytes long, so c_len is 16862. */
  lemma SetupTotalByteSwapped(phi0: Bytes32, c: Bytes32)
    ensures |SetupPayload(phi0, c)| == 66
    ensures NetworkToHostLittleEndian(66) == 16896
    ensures SetupCLengthAsWritten(NetworkToHostLittleEndian(66), 32) == 16862
  {
  }

  /** `pt_parse_setup_packet` as protocol.c defines it: three parameters, and
      the buffers it allocates and fills are assigned to its own copies of the
      `phi0` and `c` pointers. The caller's buffers are never written and the
      parsed fields are lost. (The byte-swapped total is the finding above;
      here the total is the payload's own length.) */
  method ParseSetupPacketAsWritten(packet: Packet, phi0: array<uint8>, c: array<uint8>) returns (status: int)
    requires Framed(packet) && WellFormedSetup(packet.payload)
    ensures status == 0
  {
    var phi0Len := DeclaredPhi0Length(packet.payload);
    var cLen := packet.header.length - 2 - phi0Len;
    var phi0Local := new uint8[phi0Len];
    var cLocal := new uint8[cLen];
    CopyInto(phi0Local, 0, packet.payload[2..2 + phi0Len]);
    CopyInto(cLocal, 0, packet.payload[2 + phi0Len..2 + phi0Len + cLen]);
    status := 0;
  }

  /** What the server's buffers hold after the three-parameter parser reports
      success on a SETUP built from phi0 and c: the zero bytes they started
      with, not the fields, whenever phi0 is not all zeros. */
  method ParsedFieldsAsWritten(phi0: Bytes32, c: Bytes32) returns (seen: (seq<uint8>, seq<uint8>), status: int)
    ensures status == 0
    ensures seen == (Zeros32(), Zeros32())
    ensures phi0 != Zeros32() ==> seen.0 != phi0
  {
    var phi0Buffer := new uint8[32](i => 0);
    var cBuffer := new uint8[32](i => 0);
    assert phi0Buffer[..] == Zeros32() && cBuffer[..] == Zeros32();
    ParseBuiltSetup(phi0, c);
    status := ParseSetupPacketAsWritten(SetupPacket(phi0, c), phi0Buffer, cBuffer);
    seen := (phi0Buffer[..], cBuffer[..]);
  }
}
