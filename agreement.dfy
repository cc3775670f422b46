/** Correctness of the handshake: a client that registered (phi0, c) and a
    server running `handle_client` against it compute the same session key.
    The client's side follows the step order of src/client/main.c and the
    client half of `run_key_exchange` in test/main.c; its group arithmetic is
    that of `compute_u_value` and `compute_w_d_values_for_client`. */
module Agreement {
  import opened Bytes
  import opened Wrappers
  import opened Group
  import opened Utils
  import opened Protocol
  import opened Storage
  import opened Server

  // ---------------------------------------------------------------------
  // The client's side

  /** Registration (`run_setup`): phi0 and c = g^phi1 from the password and
      the two ids. */
  function Registration(s: Suite, password: CString, idClient: CString, idServer: CString): (r: (Bytes32, Bytes32))
    ensures Canonical(s) ==> s.decode(r.1) == Some(s.scalar(Phi(s, password, idClient, idServer).1))
  {
    var (phi0, phi1) := Phi(s, password, idClient, idServer);
    (phi0, BaseMult(s, phi1))
  }

  /** The key the client derives once it has v: k = H'(phi0 || idC || idS ||
      u || v || w || d), nothing when computing u, w or d fails. */
  function ClientKey(s: Suite, password: CString, idClient: CString, idServer: CString, alpha: Bytes32, v: Bytes32)
    : Option<Bytes32>
  {
    var (a, b) := Generators(s);
    var (phi0, phi1) := Phi(s, password, idClient, idServer);
    match ClientU(s, alpha, a, phi0)
    case None => None
    case Some(u) =>
      match ClientWD(s, alpha, b, v, phi0, phi1)
      case None => None
      case Some((w, d)) =>
        Some(SessionKey(s, [Some(phi0), Some(idClient), Some(idServer), Some(u), Some(v), Some(w), Some(d)]))
  }

  // ---------------------------------------------------------------------
  // Agreement

  /** Unblinding: the server removes a^phi0 from u and gets g^alpha, the
      client removes b^phi0 from v and gets g^beta. */
  lemma Unblind(s: Suite, alpha: Bytes32, beta: Bytes32, a: Bytes32, b: Bytes32, phi0: Bytes32)
    requires Canonical(s)
    requires Mult(s, phi0, a).Some? && Mult(s, phi0, b).Some? && !BaseMultFails(s, beta)
    ensures Sub(s, ClientU(s, alpha, a, phi0).value, Mult(s, phi0, a).value) == Some(BaseMult(s, alpha))
    ensures ClientT(s, b, ServerV(s, beta, b, phi0).value, phi0) == Some(BaseMult(s, beta))
  {
    AddThenSub(s, BaseMult(s, alpha), Mult(s, phi0, a).value);
    AddThenSub(s, BaseMult(s, beta), Mult(s, phi0, b).value);
  }

  /** (g^m)^n and (g^n)^m are the same point, and one fails exactly when the
      other does. */
  lemma MultOfBaseCommutes(s: Suite, m: Bytes32, n: Bytes32)
    requires Canonical(s)
    ensures Mult(s, m, BaseMult(s, n)) == Mult(s, n, BaseMult(s, m))
  {
    ScaleCommutes(s.scalar(m), s.scalar(n));
  }

  /** With the registered c = g^phi1, the server's (w, d) equals the client's:
      w = (g^alpha)^beta = (g^beta)^alpha and d = (g^phi1)^beta = (g^beta)^phi1. */
  lemma WDAgreement(s: Suite, alpha: Bytes32, beta: Bytes32, a: Bytes32, b: Bytes32, phi0: Bytes32, phi1: Bytes32)
    requires Canonical(s)
    requires Mult(s, phi0, a).Some? && Mult(s, phi0, b).Some? && !BaseMultFails(s, beta)
    ensures ClientWD(s, alpha, b, ServerV(s, beta, b, phi0).value, phi0, phi1)
         == ServerWD(s, beta, a, ClientU(s, alpha, a, phi0).value, phi0, BaseMult(s, phi1))
  {
    Unblind(s, alpha, beta, a, b, phi0);
    MultOfBaseCommutes(s, alpha, beta);
    MultOfBaseCommutes(s, phi1, beta);
  }

  /** Key agreement: when the client's u and the server's v exist, the server
      answers the client's U with V and derives exactly the key the client
      derives from that V; either both get a key or neither does. */
  lemma KeyAgreement(s: Suite, password: CString, idClient: CString, idServer: CString,
                     alpha: Bytes32, beta: Bytes32, files: map<seq<uint8>, seq<uint8>>, later: seq<Packet>)
    requires Canonical(s)
    requires AllFramed(later)
    requires ClientU(s, alpha, Generators(s).0, Phi(s, password, idClient, idServer).0).Some?
    requires ServerV(s, beta, Generators(s).1, Phi(s, password, idClient, idServer).0).Some?
    ensures var (a, b) := Generators(s);
      var (phi0, c) := Registration(s, password, idClient, idServer);
      var u := ClientU(s, alpha, a, phi0).value;
      var v := ServerV(s, beta, b, phi0).value;
      AllFramed([UPacket(u)] + later) &&
      var r := KeyExchange(s, idServer, idClient, phi0, c, [UPacket(u)] + later, files, beta);
      r.sent == [VPacket(v)] && r.consumed == 1 && r.files == files &&
      r.key == ClientKey(s, password, idClient, idServer, alpha, v)
  {
    var (a, b) := Generators(s);
    var (phi0, phi1) := Phi(s, password, idClient, idServer);
    var u := ClientU(s, alpha, a, phi0).value;
    FramedCons(UPacket(u), later);
    WDAgreement(s, alpha, beta, a, b, phi0, phi1);
  }

  /** A framed packet in front of a framed stream gives a framed stream. */
  lemma FramedCons(p: Packet, rest: seq<Packet>)
    requires Framed(p) && AllFramed(rest)
    ensures AllFramed([p] + rest)
  {
    assert forall i :: 1 <= i < |[p] + rest| ==> ([p] + rest)[i] == rest[i - 1];
  }

  /** A server that was greeted with HELLO and whose socket is open answers
      HELLO and goes on with the client id the HELLO carried. */
  lemma GreetedSession(s: Suite, idServer: CString, idClient: CString, rest: seq<Packet>,
                       path: Option<seq<uint8>>, files: map<seq<uint8>, seq<uint8>>, unwritable: set<seq<uint8>>,
                       beta: Bytes32)
    requires |idClient| < 0xFFFF
    requires AllFramed(rest)
    ensures AllFramed([HelloPacket(idClient)] + rest)
    ensures var r := SetupOnward(s, idServer, idClient, rest, path, files, unwritable, beta);
      ServerSession(s, idServer, [HelloPacket(idClient)] + rest, true, path, files, unwritable, beta)
        == Session([HelloPacket(idServer)] + r.sent, 1 + r.consumed, r.files, r.key)
  {
    FramedCons(HelloPacket(idClient), rest);
    HelloRoundTrip(idClient);
    assert ([HelloPacket(idClient)] + rest)[1..] == rest;
  }

  /** A server with a storage path, offered the (phi0, c) it already holds for
      the client or offered a first one that it can write, accepts it, stores
      it and goes on to the key exchange. */
  lemma AcceptedSetup(s: Suite, idServer: CString, idClient: CString, phi0: Bytes32, c: Bytes32, rest: seq<Packet>,
                      path: seq<uint8>, files: map<seq<uint8>, seq<uint8>>, unwritable: set<seq<uint8>>, beta: Bytes32)
    requires AllFramed(rest)
    requires idClient in files ==> files[idClient] == Record(phi0, c)
    requires idClient !in files ==> idClient !in unwritable
    ensures AllFramed([SetupPacket(phi0, c)] + rest)
    ensures var r := KeyExchange(s, idServer, idClient, phi0, c, rest, files[idClient := Record(phi0, c)], beta);
      SetupOnward(s, idServer, idClient, [SetupPacket(phi0, c)] + rest, Some(path), files, unwritable, beta)
        == Session(r.sent, 1 + r.consumed, r.files, r.key)
  {
    FramedCons(SetupPacket(phi0, c), rest);
    SetupFieldsOfPacket(phi0, c);
    CheckOwnRecord(phi0, c, phi0, c);
    assert ([SetupPacket(phi0, c)] + rest)[1..] == rest;
    if idClient in files {
      assert files[idClient := Record(phi0, c)] == files;
    }
  }

  /** An honest run: a client that offers its registered (phi0, c) to a server
      holding that very record, or holding none but able to write one, is
      accepted, has its record stored, receives V and ends with the server's
      key. */
  lemma HonestSessionAgrees(s: Suite, password: CString, idClient: CString, idServer: CString,
                            alpha: Bytes32, beta: Bytes32, path: seq<uint8>, files: map<seq<uint8>, seq<uint8>>,
                            unwritable: set<seq<uint8>>, later: seq<Packet>)
    requires Canonical(s)
    requires |idClient| < 0xFFFF
    requires AllFramed(later)
    requires ClientU(s, alpha, Generators(s).0, Phi(s, password, idClient, idServer).0).Some?
    requires ServerV(s, beta, Generators(s).1, Phi(s, password, idClient, idServer).0).Some?
    requires idClient in files ==>
      files[idClient] == Record(Registration(s, password, idClient, idServer).0, Registration(s, password, idClient, idServer).1)
    requires idClient !in files ==> idClient !in unwritable
    ensures var (a, b) := Generators(s);
      var (phi0, c) := Registration(s, password, idClient, idServer);
      var u := ClientU(s, alpha, a, phi0).value;
      var v := ServerV(s, beta, b, phi0).value;
      var inbound := [HelloPacket(idClient)] + ([SetupPacket(phi0, c)] + ([UPacket(u)] + later));
      AllFramed(inbound) &&
      var r := ServerSession(s, idServer, inbound, true, Some(path), files, unwritable, beta);
      r.sent == [HelloPacket(idServer), VPacket(v)] && r.consumed == 3 &&
      r.files == files[idClient := Record(phi0, c)] &&
      r.key == ClientKey(s, password, idClient, idServer, alpha, v)
  {
    var (a, b) := Generators(s);
    var (phi0, c) := Registration(s, password, idClient, idServer);
    var u := ClientU(s, alpha, a, phi0).value;
    var stored := files[idClient := Record(phi0, c)];
    var fromU := [UPacket(u)] + later;
    var fromSetup := [SetupPacket(phi0, c)] + fromU;
    KeyAgreement(s, password, idClient, idServer, alpha, beta, stored, later);
    AcceptedSetup(s, idServer, idClient, phi0, c, fromU, path, files, unwritable, beta);
    GreetedSession(s, idServer, idClient, fromSetup, Some(path), files, unwritable, beta);
  }
}
