/** The server side of one handshake (src/server/server.c): a `Server`
    object whose buffers the step functions fill one at a time, and
    `handle_client`, which runs the steps in protocol order and gives up at
    the first failure. `ServerSession` specifies a whole run. */
module Server {
  import opened Bytes
  import opened Wrappers
  import opened Group
  import opened Utils
  import opened Protocol
  import opened Storage
  import opened Transport

  // ---------------------------------------------------------------------
  // The server's arithmetic

  /** v = g^beta * b^phi0, or nothing when g^beta or b^phi0 fails. */
  function ServerV(s: Suite, beta: Bytes32, b: Bytes32, phi0: Bytes32): Option<Bytes32> {
    if BaseMultFails(s, beta) then None
    else match Mult(s, phi0, b)
      case None => None
      case Some(bPhi0) => Add(s, BaseMult(s, beta), bPhi0)
  }

  /** (w, d) = ((u * (a^phi0)^-1)^beta, c^beta), or nothing when a step fails. */
  function ServerWD(s: Suite, beta: Bytes32, a: Bytes32, u: Bytes32, phi0: Bytes32, c: Bytes32)
    : Option<(Bytes32, Bytes32)>
  {
    match Mult(s, phi0, a)
    case None => None
    case Some(aPhi0) =>
      match Sub(s, u, aPhi0)
      case None => None
      case Some(uAPhi0) =>
        if Mult(s, beta, uAPhi0).Some? && Mult(s, beta, c).Some? then Some((Mult(s, beta, uAPhi0).value, Mult(s, beta, c).value))
        else None
  }

  /** v stands for beta + phi0 * B. */
  lemma ServerVValue(s: Suite, beta: Bytes32, b: Bytes32, phi0: Bytes32)
    requires Canonical(s)
    ensures ServerV(s, beta, b, phi0).Some? <==> !BaseMultFails(s, beta) && Mult(s, phi0, b).Some?
    ensures ServerV(s, beta, b, phi0).Some? ==>
      s.decode(ServerV(s, beta, b, phi0).value) == Some((s.scalar(beta) + Scale(s.scalar(phi0), s.decode(b).value)) % L)
  {
  }

  /** When u and a^phi0 decode, u * (a^phi0)^-1 stands for U - phi0 * A, and
      w and d stand for beta times it and beta * C; they exist exactly when
      neither is the identity. */
  lemma ServerWDValues(s: Suite, beta: Bytes32, a: Bytes32, u: Bytes32, phi0: Bytes32, c: Bytes32)
    requires Canonical(s)
    requires Mult(s, phi0, a).Some? && s.decode(u).Some? && s.decode(c).Some?
    ensures var t := (s.decode(u).value - Scale(s.scalar(phi0), s.decode(a).value)) % L;
      (ServerWD(s, beta, a, u, phi0, c).Some? <==>
         Scale(s.scalar(beta), t) != Identity && Scale(s.scalar(beta), s.decode(c).value) != Identity) &&
      (ServerWD(s, beta, a, u, phi0, c).Some? ==>
         s.decode(ServerWD(s, beta, a, u, phi0, c).value.0) == Some(Scale(s.scalar(beta), t)) &&
         s.decode(ServerWD(s, beta, a, u, phi0, c).value.1) == Some(Scale(s.scalar(beta), s.decode(c).value)))
  {
  }

  /** A u that does not decode makes the server give up before w. */
  lemma ServerWDRejectsUndecodableU(s: Suite, beta: Bytes32, a: Bytes32, u: Bytes32, phi0: Bytes32, c: Bytes32)
    requires s.decode(u).None?
    ensures ServerWD(s, beta, a, u, phi0, c).None?
  {
  }

  // ---------------------------------------------------------------------
  // A whole run of handle_client

  /** What one run, or the rest of one, produces: the packets sent, how
      many packets were read, the credential store afterwards, and the
      session key when one was computed. */
  datatype Session = Session(sent: seq<Packet>, consumed: nat, files: map<seq<uint8>, seq<uint8>>, key: Option<Bytes32>)

  /** The run once the credentials are accepted: U in, V out, then w, d and
      the key. */
  function KeyExchange(s: Suite, serverId: CString, clientId: CString, phi0: Bytes32, c: Bytes32,
                       rest: seq<Packet>, files: map<seq<uint8>, seq<uint8>>, beta: Bytes32): (r: Session)
    requires AllFramed(rest)
    ensures r.consumed <= |rest| && r.consumed <= 1 && r.files == files
    ensures |r.sent| <= 1
    ensures |r.sent| == 1 ==> IsType(r.sent[0], MessageType.V) && r.consumed == 1 && IsType(rest[0], MessageType.U)
    ensures r.key.Some? ==> |r.sent| == 1
  {
    var (a, b) := Generators(s);
    if |rest| == 0 then Session([], 0, files, None)
    else if !IsType(rest[0], U) || rest[0].header.length != 32 then Session([], 1, files, None)
    else
      var u: Bytes32 := rest[0].payload;
      match ServerV(s, beta, b, phi0)
      case None => Session([], 1, files, None)
      case Some(v) =>
        match ServerWD(s, beta, a, u, phi0, c)
        case None => Session([VPacket(v)], 1, files, None)
        case Some((w, d)) =>
          Session([VPacket(v)], 1, files,
                  Some(SessionKey(s, [Some(phi0), Some(clientId), Some(serverId), Some(u), Some(v), Some(w), Some(d)])))
  }

  /** The outcome of the credential branch: whether the run goes on, what it
      sends, and the credential store afterwards. */
  datatype Admission = Admission(accepted: bool, sent: seq<Packet>, files: map<seq<uint8>, seq<uint8>>)

  /** The credential branch of `handle_client`: SUCCESS goes on; NOT_FOUND
      stores the record and goes on, unless the record cannot be written, and
      then the run stops with nothing sent; NOT_VALID and FAILURE send CLOSE. */
  function Admit(path: Option<seq<uint8>>, files: map<seq<uint8>, seq<uint8>>, unwritable: set<seq<uint8>>,
                 clientId: CString, phi0: Bytes32, c: Bytes32): (r: Admission)
    ensures var verdict := Verify(path, files, clientId, phi0, c);
      && (r.accepted <==> verdict == Success || (verdict == NotFound && clientId !in unwritable))
      && (r.sent == if verdict == NotValid || verdict == Failure then [InitializePacket(MessageType.Close)] else [])
      && (r.files == if verdict == NotFound && clientId !in unwritable then files[clientId := Record(phi0, c)] else files)
  {
    match Verify(path, files, clientId, phi0, c)
    case Success => Admission(true, [], files)
    case NotFound =>
      if clientId in unwritable then Admission(false, [], files)
      else Admission(true, [], files[clientId := Record(phi0, c)])
    case NotValid => Admission(false, [InitializePacket(MessageType.Close)], files)
    case Failure => Admission(false, [InitializePacket(MessageType.Close)], files)
  }

  /** The run after the HELLO exchange: SETUP in, the credential check, and
      on acceptance the key exchange. A client without a record whose record
      cannot be written ends the run with nothing sent. */
  function SetupOnward(s: Suite, serverId: CString, clientId: CString, rest: seq<Packet>,
                       path: Option<seq<uint8>>, files: map<seq<uint8>, seq<uint8>>, unwritable: set<seq<uint8>>,
                       beta: Bytes32): (r: Session)
    requires AllFramed(rest)
    ensures r.consumed <= |rest| && r.consumed <= 2
    ensures |r.sent| <= 1
    ensures |r.sent| == 1 ==> |rest| >= 1 && IsType(rest[0], Setup) && SetupFields(rest[0].payload).Some?
    ensures |r.sent| == 1 && IsType(r.sent[0], MessageType.V) ==>
      r.consumed == 2 && IsType(rest[1], MessageType.U) &&
      Verify(path, files, clientId, SetupFields(rest[0].payload).value.0, SetupFields(rest[0].payload).value.1) in {Success, NotFound} &&
      (clientId in unwritable ==>
         Verify(path, files, clientId, SetupFields(rest[0].payload).value.0, SetupFields(rest[0].payload).value.1) == Success)
    ensures |r.sent| == 1 && IsType(r.sent[0], MessageType.Close) ==>
      r.consumed == 1 && r.key.None? && r.files == files &&
      Verify(path, files, clientId, SetupFields(rest[0].payload).value.0, SetupFields(rest[0].payload).value.1) in {NotValid, Failure}
    ensures r.key.Some? ==> |r.sent| == 1 && IsType(r.sent[0], MessageType.V)
  {
    if |rest| == 0 then Session([], 0, files, None)
    else if !IsType(rest[0], Setup) || SetupFields(rest[0].payload).None? then Session([], 1, files, None)
    else
      var (phi0, c) := SetupFields(rest[0].payload).value;
      var admission := Admit(path, files, unwritable, clientId, phi0, c);
      if !admission.accepted then
        Session(admission.sent, 1, admission.files, None)
      else
        var r := KeyExchange(s, serverId, clientId, phi0, c, rest[1..], admission.files, beta);
        Session(r.sent, 1 + r.consumed, r.files, r.key)
  }

  /** `handle_client` against a peer delivering `inbound` on a socket that is
      `open`, with the given store and the sampled beta. */
  function ServerSession(s: Suite, serverId: CString, inbound: seq<Packet>, open: bool,
                         path: Option<seq<uint8>>, files: map<seq<uint8>, seq<uint8>>, unwritable: set<seq<uint8>>,
                         beta: Bytes32): (r: Session)
    requires AllFramed(inbound)
    ensures r.consumed <= |inbound| && r.consumed <= 3
  {
    if |inbound| == 0 then Session([], 0, files, None)
    else if !IsType(inbound[0], Hello) then Session([], 1, files, None)
    else if !open then Session([], 1, files, None)
    else
      var r := SetupOnward(s, serverId, CStringOf(inbound[0].payload), inbound[1..], path, files, unwritable, beta);
      Session([HelloPacket(serverId)] + r.sent, 1 + r.consumed, r.files, r.key)
  }

  /** The order of the protocol: the server sends at most HELLO and then V or
      CLOSE; HELLO goes out only after a HELLO came in; V only after HELLO,
      SETUP and U were read and the credentials were accepted; CLOSE only
      when they were rejected; and a key exists only once V is out. */
  lemma SessionOrder(s: Suite, serverId: CString, inbound: seq<Packet>, open: bool,
                     path: Option<seq<uint8>>, files: map<seq<uint8>, seq<uint8>>, unwritable: set<seq<uint8>>,
                     beta: Bytes32)
    requires AllFramed(inbound)
    ensures var r := ServerSession(s, serverId, inbound, open, path, files, unwritable, beta);
      && |r.sent| <= 2 && r.consumed <= |inbound| && r.consumed <= 3
      && (|r.sent| >= 1 ==> r.sent[0] == HelloPacket(serverId) && IsType(inbound[0], Hello) && open)
      && (|r.sent| == 2 && IsType(r.sent[1], V) ==>
            r.consumed == 3 && IsType(inbound[1], Setup) && IsType(inbound[2], U) &&
            SetupFields(inbound[1].payload).Some? &&
            Verify(path, files, CStringOf(inbound[0].payload), SetupFields(inbound[1].payload).value.0,
                   SetupFields(inbound[1].payload).value.1) in {Success, NotFound} &&
            (CStringOf(inbound[0].payload) in unwritable ==>
               Verify(path, files, CStringOf(inbound[0].payload), SetupFields(inbound[1].payload).value.0,
                      SetupFields(inbound[1].payload).value.1) == Success))
      && (|r.sent| == 2 && IsType(r.sent[1], Close) ==>
            r.consumed == 2 && r.key.None? && r.files == files &&
            SetupFields(inbound[1].payload).Some? &&
            Verify(path, files, CStringOf(inbound[0].payload), SetupFields(inbound[1].payload).value.0,
                   SetupFields(inbound[1].payload).value.1) in {NotValid, Failure})
      && (r.key.Some? ==> |r.sent| == 2 && IsType(r.sent[1], V))
  {
  }

  /** Credentials are checked before anything is computed: a client whose
      stored record does not match is sent CLOSE and gets no key; a client
      with no record has its (phi0, c) stored, and when that store fails the
      run ends after HELLO with no key and the store unchanged. */
  lemma SessionCredentials(s: Suite, serverId: CString, inbound: seq<Packet>, open: bool,
                           path: Option<seq<uint8>>, files: map<seq<uint8>, seq<uint8>>, unwritable: set<seq<uint8>>,
                           beta: Bytes32)
    requires AllFramed(inbound)
    requires |inbound| >= 2 && IsType(inbound[0], Hello) && open
    requires IsType(inbound[1], Setup) && SetupFields(inbound[1].payload).Some?
    ensures var r := ServerSession(s, serverId, inbound, open, path, files, unwritable, beta);
      var id := CStringOf(inbound[0].payload);
      var (phi0, c) := SetupFields(inbound[1].payload).value;
      && (Verify(path, files, id, phi0, c) in {NotValid, Failure} <==>
            r.sent == [HelloPacket(serverId), InitializePacket(MessageType.Close)])
      && (Verify(path, files, id, phi0, c) in {NotValid, Failure} ==> r.key.None? && r.files == files)
      && (Verify(path, files, id, phi0, c) == NotFound && id !in unwritable ==> r.files == files[id := Record(phi0, c)])
      && (Verify(path, files, id, phi0, c) == NotFound && id in unwritable ==>
            r.sent == [HelloPacket(serverId)] && r.consumed == 2 && r.key.None? && r.files == files)
      && (Verify(path, files, id, phi0, c) == Success ==> r.files == files)
  {
    var r := ServerSession(s, serverId, inbound, open, path, files, unwritable, beta);
    var id := CStringOf(inbound[0].payload);
    var (phi0, c) := SetupFields(inbound[1].payload).value;
    if Verify(path, files, id, phi0, c) !in {NotValid, Failure} {
      assert |r.sent| < 2 || IsType(r.sent[1], V);
    }
  }

  // ---------------------------------------------------------------------
  // The Server object

  /** The buffers of `struct Server` that the steps fill. */
  datatype Buffers = Buffers(
    clientId: Option<CString>, a: Bytes32, b: Bytes32, phi0: Bytes32, c: Bytes32, u: Bytes32,
    beta: Bytes32, gBeta: Bytes32, bPhi0: Bytes32, v: Bytes32, aPhi0: Bytes32, uAPhi0: Bytes32,
    w: Bytes32, d: Bytes32, k: Bytes32)

  /** `struct Server`. Its 32-byte arrays are embedded in the struct, so they
      are value fields here; `clientId` is None until a HELLO is read. */
  class Server {
    const suite: Suite
    const serverId: CString
    const socket: int
    const channel: Channel
    var clientId: Option<CString>
    var a: Bytes32
    var b: Bytes32
    var phi0: Bytes32
    var c: Bytes32
    var u: Bytes32
    var beta: Bytes32
    var gBeta: Bytes32
    var bPhi0: Bytes32
    var v: Bytes32
    var aPhi0: Bytes32
    var uAPhi0: Bytes32
    var w: Bytes32
    var d: Bytes32
    var k: Bytes32

    /** The current contents of the buffers. */
    function State(): Buffers
      reads this
    {
      Buffers(clientId, a, b, phi0, c, u, beta, gBeta, bPhi0, v, aPhi0, uAPhi0, w, d, k)
    }

    /** The buffers start out as zero bytes. */
    constructor (suite: Suite, serverId: CString, socket: int, channel: Channel)
      ensures this.suite == suite && this.serverId == serverId && this.socket == socket && this.channel == channel
      ensures State() == Buffers(None, Zeros32(), Zeros32(), Zeros32(), Zeros32(), Zeros32(), Zeros32(), Zeros32(),
                                 Zeros32(), Zeros32(), Zeros32(), Zeros32(), Zeros32(), Zeros32(), Zeros32())
    {
      this.suite := suite;
      this.serverId := serverId;
      this.socket := socket;
      this.channel := channel;
      clientId := None;
      a, b, phi0, c, u := Zeros32(), Zeros32(), Zeros32(), Zeros32(), Zeros32();
      beta, gBeta, bPhi0, v, aPhi0 := Zeros32(), Zeros32(), Zeros32(), Zeros32(), Zeros32();
      uAPhi0, w, d, k := Zeros32(), Zeros32(), Zeros32(), Zeros32();
    }

    // --- sending

    /** `server_send_hello_packet`: HELLO with the server id; FAILURE when
        the send fails. */
    method SendHello() returns (result: int)
      modifies channel
      ensures result == (if old(channel.open) then StatusSuccess else StatusFailure)
      ensures channel.sent == old(channel.sent) + (if old(channel.open) then [HelloPacket(serverId)] else [])
      ensures channel.incoming == old(channel.incoming) && channel.open == old(channel.open)
    {
      var packet := InitializePacket(Hello);
      var buffer, length := BuildHelloPayload(serverId);
      packet := packet.(header := packet.header.(length := length), payload := buffer[..]);
      var status := channel.Send(packet);
      result := if status < 0 then StatusFailure else StatusSuccess;
    }

    /** `server_send_close_packet`: the empty CLOSE packet. */
    method SendClose() returns (result: int)
      modifies channel
      ensures result == (if old(channel.open) then StatusSuccess else StatusFailure)
      ensures channel.sent == old(channel.sent) + (if old(channel.open) then [InitializePacket(MessageType.Close)] else [])
      ensures channel.incoming == old(channel.incoming) && channel.open == old(channel.open)
    {
      var packet := InitializePacket(MessageType.Close);
      var status := channel.Send(packet);
      result := if status < 0 then StatusFailure else StatusSuccess;
    }

    /** `server_send_v_packet`: V carrying the v buffer. */
    method SendV() returns (result: int)
      modifies channel
      ensures result == (if old(channel.open) then StatusSuccess else StatusFailure)
      ensures channel.sent == old(channel.sent) + (if old(channel.open) then [VPacket(v)] else [])
      ensures channel.incoming == old(channel.incoming) && channel.open == old(channel.open)
    {
      var packet := InitializePacket(MessageType.V);
      var buffer, length := BuildVPayload(v);
      packet := packet.(header := packet.header.(length := length), payload := buffer[..]);
      var status := channel.Send(packet);
      result := if status < 0 then StatusFailure else StatusSuccess;
    }

    // --- receiving

    /** `server_receive_close_packet`. */
    method ReceiveClose() returns (result: ReceiveResult)
      modifies channel
      ensures old(channel.incoming) == [] ==> result == RrFailure && channel.incoming == []
      ensures old(channel.incoming) != [] ==>
        channel.incoming == old(channel.incoming)[1..] &&
        result == (if IsType(old(channel.incoming)[0], MessageType.Close) then RrSuccess else RrTypeError)
      ensures channel.sent == old(channel.sent) && channel.open == old(channel.open)
    {
      var status, packet := channel.Receive();
      if status < 0 {
        return RrFailure;
      }
      if packet.header.msgType != Code(MessageType.Close) {
        return RrTypeError;
      }
      result := RrSuccess;
    }

    /** `server_receive_hello_packet`: the client id is the C string at the
        start of a HELLO payload. */
    method ReceiveHello() returns (result: ReceiveResult)
      modifies this, channel
      ensures old(channel.incoming) == [] ==> result == RrFailure && channel.incoming == [] && State() == old(State())
      ensures old(channel.incoming) != [] ==>
        var p := old(channel.incoming)[0];
        channel.incoming == old(channel.incoming)[1..] &&
        (IsType(p, Hello) ==> result == RrSuccess && State() == old(State()).(clientId := Some(CStringOf(p.payload)))) &&
        (!IsType(p, Hello) ==> result == RrTypeError && State() == old(State()))
      ensures channel.sent == old(channel.sent) && channel.open == old(channel.open)
    {
      var status, packet := channel.Receive();
      if status < 0 {
        return RrFailure;
      }
      if packet.header.msgType != Code(Hello) {
        return RrTypeError;
      }
      clientId := Some(CStringOf(packet.payload));
      result := RrSuccess;
    }

    /** `server_receive_setup_packet`: a SETUP whose payload splits into a
        32-byte phi0 and a 32-byte c; only then are both copied in. */
    method ReceiveSetup() returns (result: ReceiveResult)
      requires AllFramed(channel.incoming)
      modifies this, channel
      ensures old(channel.incoming) == [] ==> result == RrFailure && channel.incoming == [] && State() == old(State())
      ensures old(channel.incoming) != [] ==>
        var p := old(channel.incoming)[0];
        channel.incoming == old(channel.incoming)[1..] &&
        (IsType(p, Setup) && SetupFields(p.payload).Some? ==>
           result == RrSuccess &&
           State() == old(State()).(phi0 := SetupFields(p.payload).value.0, c := SetupFields(p.payload).value.1)) &&
        (!(IsType(p, Setup) && SetupFields(p.payload).Some?) ==> result == RrTypeError && State() == old(State()))
      ensures channel.sent == old(channel.sent) && channel.open == old(channel.open)
    {
      var status, packet := channel.Receive();
      if status < 0 {
        return RrFailure;
      }
      if packet.header.msgType != Code(Setup) {
        return RrTypeError;
      }
      if !WellFormedSetup(packet.payload) {
        return RrTypeError;
      }
      var phi0Buffer, phi0Len, cBuffer, cLen := ParseSetupPacket(packet);
      if phi0Len != 32 || cLen != 32 {
        return RrTypeError;
      }
      phi0 := phi0Buffer[..];
      c := cBuffer[..];
      result := RrSuccess;
    }

    /** `server_receive_u_packet`: a U packet of exactly 32 bytes. */
    method ReceiveU() returns (result: ReceiveResult)
      requires AllFramed(channel.incoming)
      modifies this, channel
      ensures old(channel.incoming) == [] ==> result == RrFailure && channel.incoming == [] && State() == old(State())
      ensures old(channel.incoming) != [] ==>
        var p := old(channel.incoming)[0];
        channel.incoming == old(channel.incoming)[1..] &&
        (IsType(p, MessageType.U) && p.header.length == 32 ==>
           result == RrSuccess && State() == old(State()).(u := p.payload)) &&
        (!(IsType(p, MessageType.U) && p.header.length == 32) ==> result == RrTypeError && State() == old(State()))
      ensures channel.sent == old(channel.sent) && channel.open == old(channel.open)
    {
      var status, packet := channel.Receive();
      if status < 0 {
        return RrFailure;
      }
      if packet.header.msgType != Code(MessageType.U) || packet.header.length != 32 {
        return RrTypeError;
      }
      u := packet.payload;
      result := RrSuccess;
    }

    // --- the credential store

    /** `server_verify_secret`: the stored record for the client id against
        the received phi0 and c. */
    method VerifySecret(store: SecretStore) returns (result: VerifyResult)
      requires clientId.Some?
      ensures result == Verify(store.path, store.files, clientId.value, phi0, c)
    {
      result := store.VerifySecret(clientId.value, phi0, c);
    }

    /** `server_store_secret`: records the received phi0 and c for the client id. */
    method StoreSecret(store: SecretStore) returns (result: int)
      requires clientId.Some?
      modifies store
      ensures result == (if old(store.path).None? || clientId.value in store.unwritable then ExitFailure else ExitSuccess)
      ensures store.path == old(store.path)
      ensures store.files == if result == ExitFailure then old(store.files)
                             else old(store.files)[clientId.value := Record(phi0, c)]
    {
      result := store.StoreSecret(clientId.value, phi0, c);
    }

    // --- the computations

    /** `server_compute_group_elements`. */
    method ComputeGroupElements() returns (result: int)
      modifies this
      ensures result == 0
      ensures State() == old(State()).(a := Generators(suite).0, b := Generators(suite).1)
    {
      var bufferA := NewBuffer(a);
      var bufferB := NewBuffer(b);
      result := GenerateABGroupElements(suite, bufferA, bufferB);
      a, b := bufferA[..], bufferB[..];
    }

    /** `server_compute_beta`: the random scalar is an input of the model. */
    method ComputeBeta(sample: Bytes32)
      modifies this
      ensures State() == old(State()).(beta := sample)
    {
      beta := sample;
    }

    /** `server_compute_g_beta`: g^beta, failing on the identity. */
    method ComputeGBeta() returns (result: int)
      modifies this
      ensures result == (if BaseMultFails(suite, beta) then -1 else 0)
      ensures State() == old(State()).(gBeta := BaseMult(suite, beta))
    {
      var buffer := NewBuffer(gBeta);
      result := ScalarMultBase(suite, buffer, beta);
      gBeta := buffer[..];
    }

    /** `server_compute_b_phi0`: b^phi0. */
    method ComputeBPhi0() returns (result: int)
      modifies this
      ensures result == Status(Mult(suite, phi0, b))
      ensures State() == old(State()).(bPhi0 := MultOutput(suite, phi0, b, old(bPhi0)))
    {
      var buffer := NewBuffer(bPhi0);
      result := ScalarMult(suite, buffer, phi0, b);
      bPhi0 := buffer[..];
    }

    /** `server_compute_v`: v = g^beta * b^phi0. */
    method ComputeV() returns (result: int)
      modifies this
      ensures result == Status(Add(suite, gBeta, bPhi0))
      ensures State() == old(State()).(v := Output(Add(suite, gBeta, bPhi0), old(v)))
    {
      var buffer := NewBuffer(v);
      result := CoreAdd(suite, buffer, gBeta, bPhi0);
      v := buffer[..];
    }

    /** `server_compute_a_phi0`: a^phi0. */
    method ComputeAPhi0() returns (result: int)
      modifies this
      ensures result == Status(Mult(suite, phi0, a))
      ensures State() == old(State()).(aPhi0 := MultOutput(suite, phi0, a, old(aPhi0)))
    {
      var buffer := NewBuffer(aPhi0);
      result := ScalarMult(suite, buffer, phi0, a);
      aPhi0 := buffer[..];
    }

    /** `server_compute_u_a_phi0`: u * (a^phi0)^-1. */
    method ComputeUAPhi0() returns (result: int)
      modifies this
      ensures result == Status(Sub(suite, u, aPhi0))
      ensures State() == old(State()).(uAPhi0 := Output(Sub(suite, u, aPhi0), old(uAPhi0)))
    {
      var buffer := NewBuffer(uAPhi0);
      result := CoreSub(suite, buffer, u, aPhi0);
      uAPhi0 := buffer[..];
    }

    /** `server_compute_w`: w = (u * (a^phi0)^-1)^beta. */
    method ComputeW() returns (result: int)
      modifies this
      ensures result == Status(Mult(suite, beta, uAPhi0))
      ensures State() == old(State()).(w := MultOutput(suite, beta, uAPhi0, old(w)))
    {
      var buffer := NewBuffer(w);
      result := ScalarMult(suite, buffer, beta, uAPhi0);
      w := buffer[..];
    }

    /** `server_compute_d`: d = c^beta. */
    method ComputeD() returns (result: int)
      modifies this
      ensures result == Status(Mult(suite, beta, c))
      ensures State() == old(State()).(d := MultOutput(suite, beta, c, old(d)))
    {
      var buffer := NewBuffer(d);
      result := ScalarMult(suite, buffer, beta, c);
      d := buffer[..];
    }

    /** `server_compute_k`: k = H'(phi0 || idC || idS || u || v || w || d). */
    method ComputeK() returns (result: int)
      requires clientId.Some?
      modifies this
      ensures result == 0
      ensures clientId == old(clientId)
      ensures State() == old(State()).(k := SessionKey(suite, [Some(phi0), Some(clientId.value), Some(serverId),
                                                             Some(u), Some(v), Some(w), Some(d)]))
    {
      var buffer := NewBuffer(k);
      result := HPrime(suite, Some(phi0), Some(clientId.value), Some(serverId), Some(u), Some(v), Some(w), Some(d), buffer);
      k := buffer[..];
    }
  }

  /** `server_init`: no server without a server id or with a negative socket;
      otherwise a server holding the id and the socket. */
  method ServerInit(suite: Suite, serverId: Option<CString>, socket: int, channel: Channel) returns (server: Server?)
    ensures server == null <==> serverId.None? || socket < 0
    ensures server != null ==>
      fresh(server) && server.suite == suite && server.serverId == serverId.value &&
      server.socket == socket && server.channel == channel && server.clientId.None?
  {
    if serverId.None? || socket < 0 {
      return null;
    }
    server := new Server(suite, serverId.value, socket, channel);
  }

  /** `server_close(&server)`: closes the socket and clears the caller's
      pointer; nothing happens for a null argument or a null server. */
  method ServerClose(slot: Option<Server?>) returns (after: Option<Server?>)
    modifies if slot.Some? && slot.value != null then {slot.value.channel} else {}
    ensures slot.None? ==> after.None?
    ensures slot.Some? ==> after == Some(null)
    ensures slot.Some? && slot.value != null ==>
      !slot.value.channel.open &&
      slot.value.channel.incoming == old(slot.value.channel.incoming) &&
      slot.value.channel.sent == old(slot.value.channel.sent)
  {
    if slot.None? {
      return None;
    }
    if slot.value != null {
      slot.value.channel.Close();
    }
    after := Some(null);
  }

  /** The body of `handle_client` up to its cleanup label: the steps in
      protocol order, stopping at the first failure. */
  method Exchange(server: Server, store: SecretStore, sample: Bytes32) returns (key: Option<Bytes32>)
    requires AllFramed(server.channel.incoming)
    modifies server, server.channel, store
    ensures var r := ServerSession(server.suite, server.serverId, old(server.channel.incoming), old(server.channel.open),
                                   old(store.path), old(store.files), store.unwritable, sample);
      && server.channel.sent == old(server.channel.sent) + r.sent
      && server.channel.incoming == old(server.channel.incoming)[r.consumed..]
      && server.channel.open == old(server.channel.open)
      && store.files == r.files && store.path == old(store.path)
      && key == r.key
  {
    ghost var inbound := server.channel.incoming;
    key := None;
    var received := server.ReceiveHello();
    if received != RrSuccess {
      return;
    }
    var status := server.SendHello();
    if status != StatusSuccess {
      return;
    }
    assert server.clientId == Some(CStringOf(inbound[0].payload));
    assert server.channel.incoming == inbound[1..];
    key := ExchangeFromSetup(server, store, sample);
  }

  /** The steps after the HELLO exchange: SETUP, the credentials, the
      generators and then the key exchange. */
  method ExchangeFromSetup(server: Server, store: SecretStore, sample: Bytes32) returns (key: Option<Bytes32>)
    requires server.clientId.Some?
    requires AllFramed(server.channel.incoming)
    requires server.channel.open
    modifies server, server.channel, store
    ensures var r := SetupOnward(server.suite, server.serverId, old(server.clientId.value), old(server.channel.incoming),
                                 old(store.path), old(store.files), store.unwritable, sample);
      && server.channel.sent == old(server.channel.sent) + r.sent
      && server.channel.incoming == old(server.channel.incoming)[r.consumed..]
      && server.channel.open == old(server.channel.open)
      && store.files == r.files && store.path == old(store.path)
      && key == r.key
  {
    ghost var inbound := server.channel.incoming;
    key := None;
    var received := server.ReceiveSetup();
    if received != RrSuccess {
      return;
    }
    assert (server.phi0, server.c) == SetupFields(inbound[0].payload).value;
    assert server.channel.incoming == inbound[1..];
    var accepted := CheckCredentials(server, store);
    if !accepted {
      return;
    }
    var _ := server.ComputeGroupElements();
    key := ExchangeFromU(server, sample, store.files);
  }

  /** The credential branch of `handle_client`, as `Admit` specifies it. */
  method CheckCredentials(server: Server, store: SecretStore) returns (accepted: bool)
    requires server.clientId.Some?
    requires server.channel.open
    modifies server.channel, store
    ensures var admission := Admit(old(store.path), old(store.files), store.unwritable, server.clientId.value, server.phi0, server.c);
      && accepted == admission.accepted
      && store.files == admission.files && store.path == old(store.path)
      && server.channel.sent == old(server.channel.sent) + admission.sent
      && server.channel.incoming == old(server.channel.incoming)
      && server.channel.open == old(server.channel.open)
  {
    var verdict := server.VerifySecret(store);
    if verdict == NotFound {
      var status := server.StoreSecret(store);
      if status != ExitSuccess {
        return false;
      }
    } else if verdict != Success {
      var _ := server.SendClose();
      return false;
    }
    accepted := true;
  }

  /** The steps once the credentials are accepted and a and b computed. */
  method ExchangeFromU(server: Server, sample: Bytes32, ghost files: map<seq<uint8>, seq<uint8>>) returns (key: Option<Bytes32>)
    requires server.clientId.Some?
    requires AllFramed(server.channel.incoming)
    requires server.channel.open
    requires (server.a, server.b) == Generators(server.suite)
    modifies server, server.channel
    ensures var r := KeyExchange(server.suite, server.serverId, old(server.clientId.value), old(server.phi0), old(server.c),
                                 old(server.channel.incoming), files, sample);
      && server.channel.sent == old(server.channel.sent) + r.sent
      && server.channel.incoming == old(server.channel.incoming)[r.consumed..]
      && server.channel.open == old(server.channel.open)
      && key == r.key
  {
    key := None;
    var received := server.ReceiveU();
    if received != RrSuccess {
      return;
    }
    server.ComputeBeta(sample);
    var status := server.ComputeGBeta();
    if status != 0 {
      return;
    }
    status := server.ComputeBPhi0();
    if status != 0 {
      return;
    }
    status := server.ComputeV();
    if status != 0 {
      return;
    }
    assert server.v == ServerV(server.suite, sample, server.b, server.phi0).value;
    status := server.SendV();
    if status != StatusSuccess {
      return;
    }
    key := FinishKey(server);
  }

  /** The steps after V is sent: a^phi0, u * (a^phi0)^-1, w, d and k. */
  method FinishKey(server: Server) returns (key: Option<Bytes32>)
    requires server.clientId.Some?
    modifies server
    ensures key == match ServerWD(server.suite, old(server.beta), old(server.a), old(server.u), old(server.phi0), old(server.c))
      case None => None
      case Some((w, d)) =>
        Some(SessionKey(server.suite, [Some(old(server.phi0)), Some(old(server.clientId.value)), Some(server.serverId),
                                       Some(old(server.u)), Some(old(server.v)), Some(w), Some(d)]))
  {
    key := None;
    var status := server.ComputeAPhi0();
    if status != 0 {
      return;
    }
    status := server.ComputeUAPhi0();
    if status != 0 {
      return;
    }
    status := server.ComputeW();
    if status != 0 {
      return;
    }
    status := server.ComputeD();
    if status != 0 {
      return;
    }
    status := server.ComputeK();
    key := Some(server.k);
  }

  /** `handle_client`: a server for the accepted connection, the exchange,
      then `server_close`. Returns the session key the server computed, if
      any. The connection's server id is never null and its socket is one
      `accept` returned, so `server_init` succeeds. */
  method HandleClient(suite: Suite, serverId: CString, socket: int, channel: Channel, store: SecretStore, sample: Bytes32)
    returns (key: Option<Bytes32>)
    requires socket >= 0
    requires AllFramed(channel.incoming)
    modifies channel, store
    ensures var r := ServerSession(suite, serverId, old(channel.incoming), old(channel.open), old(store.path), old(store.files),
                                   store.unwritable, sample);
      && channel.sent == old(channel.sent) + r.sent
      && channel.incoming == old(channel.incoming)[r.consumed..]
      && store.files == r.files && store.path == old(store.path)
      && !channel.open
      && key == r.key
  {
    var server := ServerInit(suite, Some(serverId), socket, channel);
    key := Exchange(server, store, sample);
    var _ := ServerClose(Some(server));
  }
}
