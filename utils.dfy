/** The password hashing, fixed generators, session-key hash and client-side
    group arithmetic of src/core/utils.c. Every operation writes into
    caller-supplied 32-byte buffers, as the C functions do; what it writes is
    specified by the pure functions at the top of the module. */
module Utils {
  import opened Bytes
  import opened Wrappers
  import opened Group

  /** The ASCII bytes of "pake_ristretto_a" and "pake_ristretto_b". */
  const HashInputA: seq<uint8> :=
    [0x70, 0x61, 0x6b, 0x65, 0x5f, 0x72, 0x69, 0x73, 0x74, 0x72, 0x65, 0x74, 0x74, 0x6f, 0x5f, 0x61]
  const HashInputB: seq<uint8> :=
    [0x70, 0x61, 0x6b, 0x65, 0x5f, 0x72, 0x69, 0x73, 0x74, 0x72, 0x65, 0x74, 0x74, 0x6f, 0x5f, 0x62]

  // ---------------------------------------------------------------------
  // Specification functions

  /** The fixed group elements (a, b): each label hashed, then mapped to the group. */
  function Generators(s: Suite): (Bytes32, Bytes32) {
    (s.encode(s.fromHash(s.sha512(HashInputA))), s.encode(s.fromHash(s.sha512(HashInputB))))
  }

  /** The bytes hashed into (phi0, phi1): password, client id and server id,
      back to back with no separator. */
  function PasswordHashInput(password: CString, idClient: CString, idServer: CString): seq<uint8> {
    password + idClient + idServer
  }

  /** (phi0, phi1): each half of the digest, zero-padded to 64 bytes and reduced. */
  function Phi(s: Suite, password: CString, idClient: CString, idServer: CString): (Bytes32, Bytes32) {
    var hash := s.sha512(PasswordHashInput(password, idClient, idServer));
    (s.reduce(hash[..32] + Zeros32()), s.reduce(hash[32..] + Zeros32()))
  }

  /** The bytes one optional field contributes to a hash: none when it is
      missing or empty. */
  function Present(f: Option<seq<uint8>>): seq<uint8> {
    if f.Some? then f.value else []
  }

  /** The bytes a hash absorbs from a list of optional fields: the present,
      non-empty ones in order. */
  function Absorbed(fields: seq<Option<seq<uint8>>>): seq<uint8> {
    if fields == [] then [] else Present(fields[0]) + Absorbed(fields[1..])
  }

  /** The session key H'(phi0 || idC || idS || u || v || w || d): the first 32
      bytes of the digest of the transcript fields, missing or empty ones skipped. */
  function SessionKey(s: Suite, transcript: seq<Option<seq<uint8>>>): Bytes32 {
    s.sha512(Absorbed(transcript))[..32]
  }

  /** The client's u = g^alpha * a^phi0, or nothing when a^phi0 fails. */
  function ClientU(s: Suite, alpha: Bytes32, a: Bytes32, phi0: Bytes32): Option<Bytes32> {
    match Mult(s, phi0, a)
    case None => None
    case Some(aPhi0) => Add(s, BaseMult(s, alpha), aPhi0)
  }

  /** The client's t = v * (b^phi0)^-1, as the buffer holding it. When `v` does
      not decode the subtraction writes nothing and the buffer keeps its
      initial zero bytes. */
  function ClientT(s: Suite, b: Bytes32, v: Bytes32, phi0: Bytes32): Option<Bytes32> {
    if Mult(s, phi0, b).None? then None
    else if Sub(s, v, Mult(s, phi0, b).value).None? then Some(Zeros32())
    else Sub(s, v, Mult(s, phi0, b).value)
  }

  /** The client's (w, d) = (t^alpha, t^phi1), or nothing when a step fails. */
  function ClientWD(s: Suite, alpha: Bytes32, b: Bytes32, v: Bytes32, phi0: Bytes32, phi1: Bytes32)
    : Option<(Bytes32, Bytes32)>
  {
    match ClientT(s, b, v, phi0)
    case None => None
    case Some(t) =>
      if Mult(s, alpha, t).Some? && Mult(s, phi1, t).Some? then Some((Mult(s, alpha, t).value, Mult(s, phi1, t).value))
      else None
  }

  // ---------------------------------------------------------------------
  // Properties of the specification

  /** The two generators come from different labels of the same length, and
      both are valid group elements. */
  lemma GeneratorsFromDistinctLabels(s: Suite)
    requires Canonical(s)
    ensures HashInputA != HashInputB
    ensures |HashInputA| == |HashInputB| == 16
    ensures s.decode(Generators(s).0) == Some(s.fromHash(s.sha512(HashInputA)))
    ensures s.decode(Generators(s).1) == Some(s.fromHash(s.sha512(HashInputB)))
  {
    assert HashInputA[15] != HashInputB[15];
  }

  /** The three fields are hashed one after the other with no separator or
      length, so any two credentials with the same concatenation share
      (phi0, phi1). */
  lemma PhiDependsOnConcatenation(s: Suite, password: CString, idClient: CString, idServer: CString,
                                  password': CString, idClient': CString, idServer': CString)
    requires password + idClient + idServer == password' + idClient' + idServer'
    ensures Phi(s, password, idClient, idServer) == Phi(s, password', idClient', idServer')
  {
  }

  /** A witness of the collision: "ab"/"c" and "a"/"bc" as password and
      client id give the same (phi0, phi1). */
  lemma PhiConcatenationCollision(s: Suite, idServer: CString)
    ensures Phi(s, [0x61, 0x62], [0x63], idServer) == Phi(s, [0x61], [0x62, 0x63], idServer)
  {
    var ab: seq<uint8> := [0x61, 0x62];
    var bc: seq<uint8> := [0x62, 0x63];
    assert ab + [0x63] == [0x61] + bc;
    PhiDependsOnConcatenation(s, ab, [0x63], idServer, [0x61], bc, idServer);
  }

  /** Hashing two lists of fields one after the other absorbs the first
      list's bytes, then the second's. */
  lemma {:induction false} AbsorbedAppend(first: seq<Option<seq<uint8>>>, second: seq<Option<seq<uint8>>>)
    ensures Absorbed(first + second) == Absorbed(first) + Absorbed(second)
  {
    if first == [] {
      assert first + second == second;
    } else {
      assert (first + second)[0] == first[0];
      assert (first + second)[1..] == first[1..] + second;
      AbsorbedAppend(first[1..], second);
    }
  }

  /** Hashing a list of fields absorbs the first field, then the rest. */
  lemma AbsorbedCons(f: Option<seq<uint8>>, rest: seq<Option<seq<uint8>>>)
    ensures Absorbed([f] + rest) == Present(f) + Absorbed(rest)
  {
    assert ([f] + rest)[1..] == rest;
  }

  /** What the digest of the seven transcript fields absorbs: each field's
      bytes in turn, missing ones contributing nothing. */
  lemma AbsorbedTranscript(phi0: Option<seq<uint8>>, idClient: Option<seq<uint8>>, idServer: Option<seq<uint8>>,
                           u: Option<seq<uint8>>, v: Option<seq<uint8>>, w: Option<seq<uint8>>, d: Option<seq<uint8>>)
    ensures Absorbed([phi0, idClient, idServer, u, v, w, d])
         == Present(phi0) + (Present(idClient) + (Present(idServer) + (Present(u) + (Present(v) + (Present(w) + Present(d))))))
  {
    var none: seq<Option<seq<uint8>>> := [];
    var t6 := [d] + none;
    var t5 := [w] + t6;
    var t4 := [v] + t5;
    var t3 := [u] + t4;
    var t2 := [idServer] + t3;
    var t1 := [idClient] + t2;
    var t0 := [phi0] + t1;
    assert t0 == [phi0, idClient, idServer, u, v, w, d] by {
      SevenFields(phi0, idClient, idServer, u, v, w, d);
    }
    assert Absorbed(t6) == Present(d) by {
      AbsorbedCons(d, none);
      assert t6[1..] == none;
    }
    AbsorbedCons(w, t6);
    AbsorbedCons(v, t5);
    AbsorbedCons(u, t4);
    AbsorbedCons(idServer, t3);
    AbsorbedCons(idClient, t2);
    AbsorbedCons(phi0, t1);
  }

  /** Seven fields listed one at a time. */
  lemma SevenFields<T>(x0: T, x1: T, x2: T, x3: T, x4: T, x5: T, x6: T)
    ensures [x0] + ([x1] + ([x2] + ([x3] + ([x4] + ([x5] + ([x6] + [])))))) == [x0, x1, x2, x3, x4, x5, x6]
  {
  }

  /** Seven byte strings absorbed one after the other. */
  lemma Reassociate(p0: seq<uint8>, p1: seq<uint8>, p2: seq<uint8>, p3: seq<uint8>,
                    p4: seq<uint8>, p5: seq<uint8>, p6: seq<uint8>)
    ensures [] + p0 + p1 + p2 + p3 + p4 + p5 + p6 == p0 + (p1 + (p2 + (p3 + (p4 + (p5 + p6)))))
  {
  }

  /** When every transcript field is present, the session key is the hash of
      their plain concatenation, in order. */
  lemma SessionKeyOfFullTranscript(s: Suite, phi0: seq<uint8>, idClient: seq<uint8>, idServer: seq<uint8>,
                                   u: seq<uint8>, v: seq<uint8>, w: seq<uint8>, d: seq<uint8>)
    ensures SessionKey(s, [Some(phi0), Some(idClient), Some(idServer), Some(u), Some(v), Some(w), Some(d)])
         == s.sha512(phi0 + idClient + idServer + u + v + w + d)[..32]
  {
    AbsorbedTranscript(Some(phi0), Some(idClient), Some(idServer), Some(u), Some(v), Some(w), Some(d));
    Reassociate(phi0, idClient, idServer, u, v, w, d);
    assert [] + phi0 == phi0;
  }

  /** A missing field and an empty field are hashed alike: neither contributes. */
  lemma {:induction false} AbsorbedSkipsEmpty(before: seq<Option<seq<uint8>>>, after: seq<Option<seq<uint8>>>)
    ensures Absorbed(before + [None] + after) == Absorbed(before + after)
    ensures Absorbed(before + [Some([])] + after) == Absorbed(before + after)
  {
    if before == [] {
      assert ([] + [None] + after)[1..] == after;
      assert ([] + [Some([])] + after)[1..] == after;
      assert [] + after == after;
    } else {
      assert (before + [None] + after)[1..] == before[1..] + [None] + after;
      assert (before + [Some([])] + after)[1..] == before[1..] + [Some([])] + after;
      assert (before + after)[1..] == before[1..] + after;
      AbsorbedSkipsEmpty(before[1..], after);
    }
  }

  /** u = g^alpha * a^phi0: in discrete logarithms, alpha + phi0 * A. */
  lemma ClientUValue(s: Suite, alpha: Bytes32, a: Bytes32, phi0: Bytes32)
    requires Canonical(s)
    ensures ClientU(s, alpha, a, phi0).Some? <==> Mult(s, phi0, a).Some?
    ensures ClientU(s, alpha, a, phi0).Some? ==>
      s.decode(ClientU(s, alpha, a, phi0).value) ==
        Some((s.scalar(alpha) + Scale(s.scalar(phi0), s.decode(a).value)) % L)
  {
  }

  /** When v decodes, t = v * (b^phi0)^-1 stands for V - phi0 * B, and w and d
      stand for alpha * t and phi1 * t; they exist exactly when neither is
      the identity. */
  lemma ClientWDValues(s: Suite, alpha: Bytes32, b: Bytes32, v: Bytes32, phi0: Bytes32, phi1: Bytes32)
    requires Canonical(s)
    requires Mult(s, phi0, b).Some? && s.decode(v).Some?
    ensures ClientT(s, b, v, phi0).Some?
    ensures s.decode(ClientT(s, b, v, phi0).value) ==
      Some((s.decode(v).value - Scale(s.scalar(phi0), s.decode(b).value)) % L)
    ensures var t := s.decode(ClientT(s, b, v, phi0).value).value;
      (ClientWD(s, alpha, b, v, phi0, phi1).Some? <==>
         Scale(s.scalar(alpha), t) != Identity && Scale(s.scalar(phi1), t) != Identity) &&
      (ClientWD(s, alpha, b, v, phi0, phi1).Some? ==>
         s.decode(ClientWD(s, alpha, b, v, phi0, phi1).value.0) == Some(Scale(s.scalar(alpha), t)) &&
         s.decode(ClientWD(s, alpha, b, v, phi0, phi1).value.1) == Some(Scale(s.scalar(phi1), t)))
  {
  }

  /** A v that does not decode leaves t as the identity, so w = t^alpha fails. */
  lemma ClientWDRejectsUndecodableV(s: Suite, alpha: Bytes32, b: Bytes32, v: Bytes32, phi0: Bytes32, phi1: Bytes32)
    requires Canonical(s)
    requires s.decode(v).None?
    ensures ClientWD(s, alpha, b, v, phi0, phi1).None?
  {
    if ClientT(s, b, v, phi0).Some? {
      var t := ClientT(s, b, v, phi0).value;
      assert t == s.encode(Identity);
      ScaleIdentity(s.scalar(alpha));
    }
  }

  // ---------------------------------------------------------------------
  // The operations of src/core/utils.c

  /** A `crypto_hash_sha512_state`: the bytes absorbed since `init`. */
  class Sha512State {
    var absorbed: seq<uint8>

    constructor Init()
      ensures absorbed == []
    {
      absorbed := [];
    }

    method Update(data: seq<uint8>)
      modifies this
      ensures absorbed == old(absorbed) + data
    {
      absorbed := absorbed + data;
    }

    /** The guard `if (field && field_len > 0) crypto_hash_sha512_update(...)`
        of `H_prime`: a missing or empty field is not absorbed. */
    method UpdateIfPresent(field: Option<seq<uint8>>)
      modifies this
      ensures absorbed == old(absorbed) + Present(field)
    {
      if field.Some? && |field.value| > 0 {
        Update(field.value);
      }
    }

    method Final(s: Suite) returns (hash: Bytes64)
      ensures hash == s.sha512(absorbed)
    {
      hash := s.sha512(absorbed);
    }
  }

  /** `generate_a_b_group_elements`: always succeeds and always writes the
      same pair of fixed generators. */
  method GenerateABGroupElements(s: Suite, a: array<uint8>, b: array<uint8>) returns (status: int)
    requires a.Length == 32 && b.Length == 32 && a != b
    modifies a, b
    ensures status == 0
    ensures (a[..], b[..]) == Generators(s)
  {
    var bufferA := s.sha512(HashInputA);
    var bufferB := s.sha512(HashInputB);
    CopyInto(a, 0, s.encode(s.fromHash(bufferA)));
    CopyInto(b, 0, s.encode(s.fromHash(bufferB)));
    assert a[..] == s.encode(s.fromHash(bufferA));
    status := 0;
  }

  /** Two calls of `generate_a_b_group_elements` write identical buffers,
      holding valid group elements. */
  method GeneratorsAreDeterministic(s: Suite) returns (a1: seq<uint8>, b1: seq<uint8>, a2: seq<uint8>, b2: seq<uint8>)
    requires Canonical(s)
    ensures a1 == a2 && b1 == b2
    ensures |a1| == 32 && |b1| == 32
    ensures s.decode(a1).Some? && s.decode(b1).Some?
  {
    var a := new uint8[32];
    var b := new uint8[32];
    var _ := GenerateABGroupElements(s, a, b);
    a1, b1 := a[..], b[..];
    var a' := new uint8[32];
    var b' := new uint8[32];
    var _ := GenerateABGroupElements(s, a', b');
    a2, b2 := a'[..], b'[..];
    GeneratorsFromDistinctLabels(s);
  }

  /** `H_function`: -1 when a pointer is null; otherwise (phi0, phi1) from the
      digest of password || client id || server id. */
  method HFunction(s: Suite, password: Option<CString>, idClient: Option<CString>, idServer: Option<CString>,
                   output0: array<uint8>, output1: array<uint8>) returns (status: int)
    requires output0.Length == 32 && output1.Length == 32 && output0 != output1
    modifies output0, output1
    ensures status == 0 || status == -1
    ensures status == -1 <==> password.None? || idClient.None? || idServer.None?
    ensures status == -1 ==> output0[..] == old(output0[..]) && output1[..] == old(output1[..])
    ensures status == 0 ==> (output0[..], output1[..]) == Phi(s, password.value, idClient.value, idServer.value)
  {
    if password.None? || idClient.None? || idServer.None? {
      return -1;
    }
    var state := new Sha512State.Init();
    state.Update(password.value);
    state.Update(idClient.value);
    state.Update(idServer.value);
    assert state.absorbed == PasswordHashInput(password.value, idClient.value, idServer.value);
    var hash := state.Final(s);
    var buffer0 := ZeroPadded(hash[..32]);
    var buffer1 := ZeroPadded(hash[32..]);
    CopyInto(output0, 0, s.reduce(buffer0[..]));
    CopyInto(output1, 0, s.reduce(buffer1[..]));
    status := 0;
  }

  /** A 64-byte buffer initialised to zeros with 32 bytes copied to its
      front, as `H_function` prepares each half of the digest. */
  method ZeroPadded(half: seq<uint8>) returns (buffer: array<uint8>)
    requires |half| == 32
    ensures fresh(buffer)
    ensures buffer[..] == half + Zeros32()
  {
    buffer := new uint8[64](i => 0);
    assert buffer[32..] == Zeros32();
    CopyInto(buffer, 0, half);
  }

  /** `H_prime`: -1 when the output pointer is null; otherwise the session key
      of the seven fields, each absorbed only when present and non-empty. */
  method HPrime(s: Suite, phi0: Option<seq<uint8>>, idClient: Option<seq<uint8>>, idServer: Option<seq<uint8>>,
                u: Option<seq<uint8>>, v: Option<seq<uint8>>, w: Option<seq<uint8>>, d: Option<seq<uint8>>,
                output: array?<uint8>) returns (status: int)
    requires output != null ==> output.Length == 32
    modifies output
    ensures status == 0 || status == -1
    ensures status == -1 <==> output == null
    ensures output != null ==> output[..] == SessionKey(s, [phi0, idClient, idServer, u, v, w, d])
  {
    if output == null {
      return -1;
    }
    var state := new Sha512State.Init();
    state.UpdateIfPresent(phi0);
    state.UpdateIfPresent(idClient);
    state.UpdateIfPresent(idServer);
    state.UpdateIfPresent(u);
    state.UpdateIfPresent(v);
    state.UpdateIfPresent(w);
    state.UpdateIfPresent(d);
    Reassociate(Present(phi0), Present(idClient), Present(idServer), Present(u), Present(v), Present(w), Present(d));
    AbsorbedTranscript(phi0, idClient, idServer, u, v, w, d);
    var hash := state.Final(s);
    CopyInto(output, 0, hash[..32]);
    status := 0;
  }

  /** `compute_u_value`: -1 on a null input or a failed a^phi0; otherwise
      u = g^alpha * a^phi0. A failure leaves `u` untouched. */
  method ComputeUValue(s: Suite, alpha: Option<Bytes32>, a: Option<Bytes32>, phi0: Option<Bytes32>, u: array<uint8>)
    returns (status: int)
    requires Canonical(s)
    requires u.Length == 32
    modifies u
    ensures status == 0 || status == -1
    ensures status == -1 <==> alpha.None? || a.None? || phi0.None? || Mult(s, phi0.value, a.value).None?
    ensures status == -1 ==> u[..] == old(u[..])
    ensures status == 0 ==> u[..] == ClientU(s, alpha.value, a.value, phi0.value).value
  {
    if alpha.None? || a.None? || phi0.None? {
      return -1;
    }
    var gAlpha := new uint8[32];
    var _ := ScalarMultBase(s, gAlpha, alpha.value);
    var aPhi0 := new uint8[32];
    var r := ScalarMult(s, aPhi0, phi0.value, a.value);
    if r != 0 {
      return -1;
    }
    var _ := CoreAdd(s, u, gAlpha[..], aPhi0[..]);
    status := 0;
  }

  /** `compute_w_d_values_for_client`: -1 on a null input or a failed scalar
      multiplication; otherwise w = t^alpha and d = t^phi1 with
      t = v * (b^phi0)^-1. The subtraction's status is not checked, and the
      buffer for t starts out as zero bytes. A failure before w is computed
      leaves w and d untouched. */
  method ComputeWDValuesForClient(s: Suite, alpha: Option<Bytes32>, b: Option<Bytes32>, v: Option<Bytes32>,
                                  phi0: Option<Bytes32>, phi1: Option<Bytes32>,
                                  w: array<uint8>, d: array<uint8>) returns (status: int)
    requires w.Length == 32 && d.Length == 32 && w != d
    modifies w, d
    ensures status == 0 || status == -1
    ensures status == -1 <==> alpha.None? || b.None? || v.None? || phi0.None? || phi1.None? ||
                              ClientWD(s, alpha.value, b.value, v.value, phi0.value, phi1.value).None?
    ensures (alpha.None? || b.None? || v.None? || phi0.None? || phi1.None? || Mult(s, phi0.value, b.value).None?) ==>
              w[..] == old(w[..]) && d[..] == old(d[..])
    ensures status == 0 ==> (w[..], d[..]) == ClientWD(s, alpha.value, b.value, v.value, phi0.value, phi1.value).value
  {
    if alpha.None? || b.None? || v.None? || phi0.None? || phi1.None? {
      return -1;
    }
    var bPhi0 := new uint8[32];
    var r := ScalarMult(s, bPhi0, phi0.value, b.value);
    if r != 0 {
      return -1;
    }
    var vBPhi0 := new uint8[32](i => 0);
    assert vBPhi0[..] == Zeros32();
    var _ := CoreSub(s, vBPhi0, v.value, bPhi0[..]);
    var t := vBPhi0[..];
    assert Some(t) == ClientT(s, b.value, v.value, phi0.value);

    r := ScalarMult(s, w, alpha.value, t);
    if r != 0 {
      return -1;
    }
    r := ScalarMult(s, d, phi1.value, t);
    if r != 0 {
      return -1;
    }
    status := 0;
  }
}
