/** The prime-order group behind ristretto255, modelled by discrete logarithms:
    an element is the exponent e of g^e, taken modulo the group order L, so
    base multiplication by n is n, multiplication of P by n is n * P, and the
    group operation and its inverse are + and - (all modulo L).

    The byte-level primitives of libsodium (SHA-512, hash-to-group, point
    encoding and decoding, the reading of a 32-byte scalar, and scalar
    reduction) are not modelled: they are uninterpreted functions gathered in
    one `Suite` value. The only facts assumed of them are those of a canonical
    point encoding (`Canonical`). On top of them, each group operation fails
    exactly where libsodium's does: on an encoding that does not decode, and
    (for the scalar multiplications) on an identity result. */
module Group {
  import opened Bytes
  import opened Wrappers

  /** The group order, 2^252 + 27742317777372353535851937790883648493. */
  const L: nat := 7237005577332262213973186563042994240857116359379907606001950938285454250989

  /** A group element (its discrete logarithm), or a reduced scalar. */
  type Elem = x: int | 0 <= x < L

  /** The identity element. */
  const Identity: Elem := 0

  /** The libsodium primitives the protocol calls. */
  datatype Suite = Suite(
    sha512: seq<uint8> -> Bytes64,      // crypto_hash_sha512
    fromHash: Bytes64 -> Elem,          // crypto_core_ristretto255_from_hash
    encode: Elem -> Bytes32,            // encoding of a point
    decode: Bytes32 -> Option<Elem>,    // decoding of a point; None for an invalid encoding
    scalar: Bytes32 -> Elem,            // the exponent a 32-byte scalar stands for
    reduce: Bytes64 -> Bytes32)         // crypto_core_ristretto255_scalar_reduce

  /** Point encoding is a bijection between elements and the encodings that
      decode, and the identity is encoded as 32 zero bytes. */
  ghost predicate Canonical(s: Suite) {
    (forall x: Elem :: s.decode(s.encode(x)) == Some(x)) &&
    (forall b: Bytes32 :: s.decode(b).Some? ==> s.encode(s.decode(b).value) == b) &&
    s.encode(Identity) == Zeros32()
  }

  // ---------------------------------------------------------------------
  // Exponent arithmetic

  /** x^n, in the additive notation of discrete logarithms: x added to
      itself n times, modulo the group order. */
  function Scale(n: nat, x: Elem): Elem {
    if n == 0 then Identity else (Scale(n - 1, x) + x) % L
  }

  /** Reducing the first operand first does not change a reduced sum. */
  lemma ModAddLeft(a: int, b: int)
    ensures (a % L + b) % L == (a + b) % L
  {
  }

  /** Scaling is multiplication modulo the group order. */
  lemma {:induction false} ScaleIsProduct(n: nat, x: Elem)
    ensures Scale(n, x) == (n * x) % L
  {
    if n > 0 {
      var p := (n - 1) * x;
      ScaleIsProduct(n - 1, x);
      assert Scale(n - 1, x) == p % L;
      ModAddLeft(p, x);
      assert p + x == n * x;
    }
  }

  /** The identity is fixed by every scaling. */
  lemma ScaleIdentity(n: nat)
    ensures Scale(n, Identity) == Identity
  {
    ScaleIsProduct(n, Identity);
  }

  /** (g^m)^n = (g^n)^m: scaling by m then n is scaling by n then m. */
  lemma ScaleCommutes(m: Elem, n: Elem)
    ensures Scale(m, n) == Scale(n, m)
  {
    ScaleIsProduct(m, n);
    ScaleIsProduct(n, m);
  }

  /** Removing what was added restores the element: (x * y) * y^-1 = x. */
  lemma AddSubCancel(x: Elem, y: Elem)
    ensures ((x + y) % L - y) % L == x
  {
  }

  // ---------------------------------------------------------------------
  // The group operations on encodings

  /** The point `crypto_scalarmult_ristretto255_base` writes: g^n. */
  function BaseMult(s: Suite, n: Bytes32): (q: Bytes32)
    ensures Canonical(s) ==> s.decode(q) == Some(s.scalar(n))
  {
    s.encode(s.scalar(n))
  }

  /** `crypto_scalarmult_ristretto255_base` returns -1 when g^n is the identity. */
  predicate BaseMultFails(s: Suite, n: Bytes32) {
    s.scalar(n) == Identity
  }

  /** `crypto_scalarmult_ristretto255`: p^n, or failure when p does not decode
      or the result is the identity. */
  function Mult(s: Suite, n: Bytes32, p: Bytes32): (r: Option<Bytes32>)
    ensures r.Some? <==> s.decode(p).Some? && Scale(s.scalar(n), s.decode(p).value) != Identity
    ensures Canonical(s) && r.Some? ==> s.decode(r.value) == Some(Scale(s.scalar(n), s.decode(p).value))
  {
    match s.decode(p)
    case None => None
    case Some(x) =>
      var e := Scale(s.scalar(n), x);
      if e == Identity then None else Some(s.encode(e))
  }

  /** `crypto_core_ristretto255_add`: p * q, or failure when either does not decode. */
  function Add(s: Suite, p: Bytes32, q: Bytes32): (r: Option<Bytes32>)
    ensures r.Some? <==> s.decode(p).Some? && s.decode(q).Some?
    ensures Canonical(s) && r.Some? ==> s.decode(r.value) == Some((s.decode(p).value + s.decode(q).value) % L)
  {
    if s.decode(p).Some? && s.decode(q).Some? then
      Some(s.encode((s.decode(p).value + s.decode(q).value) % L))
    else None
  }

  /** `crypto_core_ristretto255_sub`: p * q^-1, or failure when either does not decode. */
  function Sub(s: Suite, p: Bytes32, q: Bytes32): (r: Option<Bytes32>)
    ensures r.Some? <==> s.decode(p).Some? && s.decode(q).Some?
    ensures Canonical(s) && r.Some? ==> s.decode(r.value) == Some((s.decode(p).value - s.decode(q).value) % L)
  {
    if s.decode(p).Some? && s.decode(q).Some? then
      Some(s.encode((s.decode(p).value - s.decode(q).value) % L))
    else None
  }

  /** Subtracting a point that was added gives back the other summand:
      (p * q) * q^-1 = p. */
  lemma AddThenSub(s: Suite, p: Bytes32, q: Bytes32)
    requires Canonical(s)
    requires s.decode(p).Some? && s.decode(q).Some?
    ensures Sub(s, Add(s, p, q).value, q) == Some(p)
  {
    AddSubCancel(s.decode(p).value, s.decode(q).value);
  }

  // ---------------------------------------------------------------------
  // libsodium's calling convention: results are written into a 32-byte
  // output buffer and a status is returned.

  /** The status a libsodium call returns for an optional result. */
  function Status<T>(r: Option<T>): (status: int)
    ensures status == 0 <==> r.Some?
    ensures status == 0 || status == -1
  {
    if r.Some? then 0 else -1
  }

  /** The output buffer of `crypto_scalarmult_ristretto255` afterwards: p^n
      whenever p decodes, even when that is the identity and the call reports
      failure; the previous contents when p does not decode. */
  function MultOutput(s: Suite, n: Bytes32, p: Bytes32, prior: Bytes32): (q: Bytes32)
    ensures Mult(s, n, p).Some? ==> q == Mult(s, n, p).value
    ensures s.decode(p).None? ==> q == prior
  {
    match s.decode(p)
    case None => prior
    case Some(x) => s.encode(Scale(s.scalar(n), x))
  }

  /** The output buffer of the add and sub calls afterwards: the result, or
      the previous contents on failure. */
  function Output(r: Option<Bytes32>, prior: Bytes32): Bytes32 {
    if r.Some? then r.value else prior
  }

  /** `crypto_scalarmult_ristretto255_base(q, n)`: writes g^n into `q` and
      returns -1 when that is the identity. */
  method ScalarMultBase(s: Suite, q: array<uint8>, n: Bytes32) returns (status: int)
    requires q.Length == 32
    modifies q
    ensures q[..] == BaseMult(s, n)
    ensures status == (if BaseMultFails(s, n) then -1 else 0)
  {
    CopyInto(q, 0, BaseMult(s, n));
    status := if BaseMultFails(s, n) then -1 else 0;
  }

  /** `crypto_scalarmult_ristretto255(q, n, p)`: leaves `q` alone when `p` does
      not decode, otherwise writes p^n into it; returns 0 exactly when the
      multiplication succeeded. */
  method ScalarMult(s: Suite, q: array<uint8>, n: Bytes32, p: Bytes32) returns (status: int)
    requires q.Length == 32
    modifies q
    ensures status == 0 || status == -1
    ensures status == 0 <==> Mult(s, n, p).Some?
    ensures status == 0 ==> q[..] == Mult(s, n, p).value
    ensures q[..] == MultOutput(s, n, p, old(q[..]))
  {
    match s.decode(p)
    case None =>
      status := -1;
    case Some(x) =>
      var e := Scale(s.scalar(n), x);
      CopyInto(q, 0, s.encode(e));
      status := if e == Identity then -1 else 0;
  }

  /** `crypto_core_ristretto255_add(r, p, q)`: writes p * q into `r` when both decode. */
  method CoreAdd(s: Suite, r: array<uint8>, p: Bytes32, q: Bytes32) returns (status: int)
    requires r.Length == 32
    modifies r
    ensures status == (if Add(s, p, q).Some? then 0 else -1)
    ensures r[..] == if Add(s, p, q).Some? then Add(s, p, q).value else old(r[..])
  {
    var sum := Add(s, p, q);
    if sum.Some? {
      CopyInto(r, 0, sum.value);
      status := 0;
    } else {
      status := -1;
    }
  }

  /** `crypto_core_ristretto255_sub(r, p, q)`: writes p * q^-1 into `r` when both decode. */
  method CoreSub(s: Suite, r: array<uint8>, p: Bytes32, q: Bytes32) returns (status: int)
    requires r.Length == 32
    modifies r
    ensures status == (if Sub(s, p, q).Some? then 0 else -1)
    ensures r[..] == if Sub(s, p, q).Some? then Sub(s, p, q).value else old(r[..])
  {
    var difference := Sub(s, p, q);
    if difference.Some? {
      CopyInto(r, 0, difference.value);
      status := 0;
    } else {
      status := -1;
    }
  }
}
