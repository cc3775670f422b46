# PAKE handshake over ristretto255: a Dafny model

This project models the core of Geeeean/PAKE. That is a small C implementation of an augmented
password-authenticated key exchange over the ristretto255 group, with SHA-512 as the hash.

**The handshake.**
- A client hashes its password and the two ids into (phi0, phi1). It registers phi0 and
  c = g^phi1 with the server.
- It then sends u = g^alpha · a^phi0. The server answers with v = g^beta · b^phi0.
- Both derive k = H'(phi0 ‖ idC ‖ idS ‖ u ‖ v ‖ w ‖ d), with:
  - w = (g^alpha)^beta and d = (g^phi1)^beta on the server;
  - w = (v · (b^phi0)^-1)^alpha and d = (v · (b^phi0)^-1)^phi1 on the client.

**How the model is organised, module by module:**
- `Protocol`: the packet codec — message type codes, the packed 3-byte header, and the HELLO,
  SETUP, U and V payload builders. It also has the SETUP parser, in the C code's form and in a
  corrected form.
- `Utils`: the key derivation and the client's group arithmetic.
  - `generate_a_b_group_elements`, `H_function` and `H_prime` are methods over 32-byte arrays.
  - `compute_u_value` and `compute_w_d_values_for_client` are modelled the same way.
  - SHA-512 runs through an incremental hash state object.
- `Storage`: the credential store.
  - The storage directory is a map from client id to file contents.
  - Each file is the record `[phi0_len][phi0][c_len][c]`, which the store writes and the verify
    reads back field by field.
- `Transport`: the connected socket, as a `Channel` holding the packets the peer will deliver,
  the packets sent so far, and whether the socket is open.
- `Server`: the `Server` object and its step methods, plus `handle_client`.
  - The step methods receive, verify, store, compute and send, and each fills one buffer.
  - `handle_client` runs them in protocol order, with the four-way credential branch and CLOSE
    on rejection.
  - `ServerSession` specifies a whole run.
- `Client`: `client_init` and the client's HELLO exchange.
- `Agreement`: the headline property. A client and a server that share phi0, c = g^phi1 and the
  two ids derive the same session key. An honest run of `handle_client` ends with the key the
  client derives.

**The group is modelled by discrete logarithms.**
- An element g^e is e modulo the group order L.
- Base multiplication by n is n. Multiplication of P by n is n·P. The group operation and its
  inverse are + and −.
- The libsodium primitives are uninterpreted functions of a `Suite` value: SHA-512,
  hash-to-group, point encoding and decoding, scalar reading and scalar reduction.
- Only the properties of a canonical encoding are assumed of them (`Canonical`).
- Every group operation fails where libsodium's does. Undecodable input fails. The scalar
  multiplications also fail on an identity result.
- The random scalars alpha and beta are parameters.

## Model

| member | source | states |
|---|---|---|
| Protocol.Code | include/core/protocol.h:6-24 | HELLO, SETUP, U, V, CLOSE have the codes 0 to 4 in declaration order, and decoding the code gives the type back |
| Protocol.FromCodeInverse | include/core/protocol.h:6-24 | a type byte names a message type exactly when it is below 5, and encoding that type gives the byte back |
| Protocol.InitializePacket | src/core/protocol.c:6-14 | the initial packet has the given type, length 0 and an empty payload (the whole CLOSE packet) |
| Protocol.EncodeHeader | include/core/protocol.h:26-31 | the packed header is 3 bytes, and it decodes back to the same length and type; the length goes most significant byte first, an assumption about `nw_send_packet`, which is not part of this model (the struct itself holds the length in host order) |
| Protocol.EncodeDecodeHeader | include/core/protocol.h:26-31 | any 3 header bytes survive a decode and re-encode, so header decoding is injective (in the wire byte order assumed for `EncodeHeader`) |
| Protocol.PacketRoundTrip | include/core/protocol.h:26-36 | a framed packet decodes from its own encoding, and any byte string that decodes re-encodes to itself (in the wire byte order assumed for `EncodeHeader`) |
| Protocol.HelloPayload | src/core/protocol.c:21-28 | the HELLO payload is strlen(id)+1 bytes, truncated to 16 bits; when that fits, it is the id followed by a NUL byte |
| Protocol.BuildHelloPayload | src/core/protocol.c:21-28 | the buffer and the length it returns are exactly that payload and its size |
| Protocol.HelloRoundTrip | src/core/protocol.c:23-26 | reading a HELLO payload as a C string recovers the id, when the id's length plus the NUL fits 16 bits |
| Protocol.BuildSetupPayload | src/core/protocol.c:30-43 | length = 2 + phi0_len + c_len; bytes 0..1 hold phi0_len big-endian, then phi0, then c |
| Protocol.ParseSetup | src/core/protocol.c:65-89 | a well-formed payload splits into phi0 of the declared length and c of the remaining length, and they rebuild the payload |
| Protocol.ParseBuiltSetup | src/core/protocol.c:30-89 | a built SETUP payload is well formed, and parsing it returns the original phi0 and c |
| Protocol.ParseSetupPacket | include/core/protocol.h:51-52 | with the header's five-parameter interface: fresh buffers for phi0 and c with their lengths, the lengths summing to total − 2, and the contents being the parse |
| Protocol.ParseSetupChecked | src/core/protocol.c:67-73 | the bounds-checked parse succeeds exactly on well-formed payloads, and what it returns rebuilds the payload |
| Protocol.BuildUPayload | src/core/protocol.c:46-54 | the U payload is a byte-identical copy of u, with length equal to its size |
| Protocol.BuildVPayload | src/core/protocol.c:55-63 | the V payload is a byte-identical copy of v, with length equal to its size; the source's duplicate of the U builder, so the model calls `BuildUPayload` |
| Protocol.HelloPacket | src/server/server.c:87-103 | the HELLO packet the peers send is framed and typed HELLO |
| Protocol.SetupPacket | include/core/protocol.h:10-13 | the SETUP packet is framed and typed SETUP |
| Protocol.UPacket | include/core/protocol.h:15-17 | the U packet is framed, typed U and 32 bytes long |
| Protocol.VPacket | include/core/protocol.h:19-21 | the V packet is framed, typed V and 32 bytes long |
| Protocol.SetupFields | src/server/server.c:192-202 | the server accepts a SETUP payload exactly when it parses and both parts are 32 bytes; the parts rebuild the payload |
| Protocol.SetupFieldsOfPacket | src/server/server.c:187-205 | the server reads back exactly the phi0 and c a SETUP packet was built from |
| Protocol.SetupLengthWraps | src/core/protocol.c:34 | as written: a 65535-byte phi0 makes the 16-bit length wrap to 1 |
| Protocol.ShortSetupOverreads | src/core/protocol.c:67-73 | as written: a two-byte payload declaring a 5-byte phi0 passes the parser; on a little-endian host `ntohs` makes the total 512, so c_len is 505; the checked parse refuses it |
| Protocol.SetupTotalByteSwapped | src/core/protocol.c:67 | as written: ntohs on the host-order length turns the 66-byte SETUP into 16896 bytes, so c_len is 16862 |
| Protocol.ParseSetupPacketAsWritten | src/core/protocol.c:65-89 | as written: the three-parameter parser reports success after filling buffers of its own |
| Protocol.ParsedFieldsAsWritten | src/core/protocol.c:75-86 | as written: after a successful parse of a built SETUP, the caller's buffers still hold zeros rather than phi0 and c |
| Bytes.CStringOfTerminated | src/server/server.c:168 | `strdup` of a NUL-terminated buffer gives the string before the NUL, whatever follows it |
| Bytes.BigEndian16Bytes | src/core/protocol.c:69-71 | a big-endian 16-bit field read and written again gives the same two bytes |
| Bytes.LittleEndian16Bytes | src/server/storage.c:163 | a host-order (little-endian) 16-bit field read and written again gives the same two bytes |
| Bytes.CopyInto | src/core/protocol.c:39-41 | `memcpy` at an offset: those bytes become the source, and all others keep their values |
| Bytes.SameBytes | src/server/storage.c:172 | `memcmp(...) == 0` holds exactly when the first n bytes agree |
| Group.Mult | src/server/server.c:261-264 | scalar multiplication succeeds exactly when the point decodes and the product is not the identity; the result decodes to n·P |
| Group.Add | src/server/server.c:266-269 | point addition succeeds exactly when both points decode; the result decodes to the sum |
| Group.Sub | src/server/server.c:276-279 | point subtraction succeeds exactly when both points decode; the result decodes to the difference |
| Group.ScalarMultBase | src/server/server.c:256-259 | writes g^n into the buffer, and returns −1 exactly when that is the identity |
| Group.ScalarMult | src/server/server.c:261-264 | returns 0 exactly when the multiplication succeeds, and leaves the buffer alone when the point does not decode |
| Group.CoreAdd | src/server/server.c:266-269 | writes p·q when both decode, and otherwise returns −1 and leaves the buffer alone |
| Group.CoreSub | src/server/server.c:276-279 | writes p·q^-1 when both decode, and otherwise returns −1 and leaves the buffer alone |
| Utils.GeneratorsFromDistinctLabels | src/core/utils.c:7-8 | the labels of a and b differ and are 16 bytes each; both generators are valid elements |
| Utils.GenerateABGroupElements | src/core/utils.c:20-36 | always returns 0 and writes the two fixed generators |
| Utils.GeneratorsAreDeterministic | test/main.c:131-144 | two calls write identical a and b, and both are valid points |
| Utils.HFunction | src/core/utils.c:46-76 | returns −1 exactly when a pointer is null, leaving the outputs alone; otherwise writes the reduced halves of the hash of password ‖ idC ‖ idS, zero-padded |
| Utils.ZeroPadded | src/core/utils.c:63-66 | a fresh 64-byte buffer holding the 32 given bytes followed by 32 zero bytes |
| Utils.PhiDependsOnConcatenation | src/core/utils.c:56-58 | the three fields are hashed with no separator, so any two credentials whose password ‖ idC ‖ idS agree give the same (phi0, phi1) |
| Utils.PhiConcatenationCollision | src/core/utils.c:56-58 | a witness of that: password "ab" / id "c" and password "a" / id "bc" give the same (phi0, phi1) |
| Utils.Sha512State.UpdateIfPresent | src/core/utils.c:94-113 | a missing or empty field is not absorbed; any other field is appended to what the state has absorbed |
| Utils.HPrime | src/core/utils.c:78-121 | returns −1 exactly when the output is null; otherwise writes the first 32 bytes of the hash of the seven fields, missing or empty ones skipped |
| Utils.AbsorbedAppend | src/core/utils.c:92-115 | absorbing two lists of fields in turn absorbs their bytes in order |
| Utils.AbsorbedTranscript | src/core/utils.c:94-113 | the seven fields contribute their bytes in the order phi0, idC, idS, u, v, w, d |
| Utils.AbsorbedSkipsEmpty | src/core/utils.c:94-113 | a missing field and an empty field contribute nothing at any position |
| Utils.SessionKeyOfFullTranscript | src/core/utils.c:78-121 | with all fields present, the key is the first 32 bytes of SHA-512 of their concatenation in order |
| Utils.ComputeUValue | src/core/utils.c:130-148 | returns −1 exactly on a null input or a failed a^phi0, leaving u alone; otherwise writes u = g^alpha · a^phi0 |
| Utils.ClientUValue | src/core/utils.c:136-144 | u exists exactly when a^phi0 succeeds, and then stands for alpha + phi0·A |
| Utils.ComputeWDValuesForClient | src/core/utils.c:159-180 | returns −1 exactly on a null input or a failed step; otherwise writes w = t^alpha and d = t^phi1, with t = v·(b^phi0)^-1 |
| Utils.ClientWDValues | src/core/utils.c:168-176 | when v decodes, t stands for V − phi0·B; w and d exist exactly when alpha·t and phi1·t are not the identity, and then stand for them |
| Utils.ClientWDRejectsUndecodableV | src/core/utils.c:172-175 | a v that does not decode leaves t at the identity, so computing w fails |
| Storage.Record | src/server/storage.c:119-123 | the record is [phi0_len 2B][phi0][c_len 2B][c], 4 + phi0_len + c_len bytes |
| Storage.MatchFieldIff | src/server/storage.c:161-175 | one length-and-bytes check passes exactly when the file starts with that field, and the rest of the file is what follows it |
| Storage.CheckRecordIff | src/server/storage.c:161-189 | the four ordered checks all pass exactly when the file starts with the record of (phi0, c); any other outcome is NOT_VALID |
| Storage.CheckOwnRecord | src/server/storage.c:161-189 | a stored record matches the (phi0, c) it was written for, and gives NOT_VALID for any other pair |
| Storage.StoreThenVerify | test/main.c:238-285 | after storing (phi0, c) for an id, verifying it gives SUCCESS for the same pair and NOT_VALID otherwise; other ids verify as before |
| Storage.SecretStore.StoreSecret | src/server/storage.c:92-132 | EXIT_FAILURE and nothing written without a storage path or when the id's file cannot be opened for writing; otherwise the id's file becomes the record, replacing any earlier one |
| Storage.SecretStore.VerifySecret | src/server/storage.c:134-198 | FAILURE without a path, NOT_FOUND without a file, otherwise the ordered four-field comparison |
| Storage.ReadAndCompare | src/server/storage.c:161-175 | one read-and-compare of a field succeeds exactly when the field matches, and hands on the rest of the file |
| Storage.VerifyBufferOverflowAsWritten | src/server/storage.c:168-185 | as written: an empty phi0 and a one-byte c verify successfully, but c's byte is read into a buffer of size 0 |
| Storage.RecordLengths | src/server/storage.c:161-182 | the two little-endian length fields of a stored record, read where `storage_verify_secret` reads them, are the lengths of phi0 and c |
| Transport.Channel.Send | src/server/server.c:94 | a send fails with −1 on a closed socket; otherwise the packet goes out after those sent before |
| Transport.Channel.Receive | src/server/server.c:160 | a receive fails with −1 when nothing more arrives; otherwise it takes the next packet in order |
| Transport.Channel.Close | src/server/server.c:320 | after close nothing more can be sent; the queues are unchanged |
| Server.ServerVValue | src/server/server.c:256-269 | v exists exactly when g^beta and b^phi0 succeed, and then stands for beta + phi0·B |
| Server.ServerWDValues | src/server/server.c:271-289 | u·(a^phi0)^-1 stands for U − phi0·A; w and d exist exactly when beta times it and beta·C are not the identity, and then stand for them |
| Server.ServerWDRejectsUndecodableU | src/server/server.c:276-279 | a u that does not decode stops the server before w |
| Server.KeyExchange | src/server/server.c:399-469 | reads at most the one U packet; sends at most V, and only after a U came in; a key only once V is out; the store is untouched |
| Server.Admit | src/server/server.c:364-392 | the run goes on exactly on SUCCESS, or on NOT_FOUND when the record can be written; CLOSE is sent exactly on NOT_VALID and FAILURE; the store gains the record exactly on a NOT_FOUND that can be written |
| Server.SetupOnward | src/server/server.c:352-432 | reads at most SETUP and U; sends at most one packet: V only after a well-formed SETUP, a U and an accepted verdict (SUCCESS, or NOT_FOUND for a writable id), CLOSE only on NOT_VALID or FAILURE, with no key and the store unchanged |
| Server.ServerSession | src/server/server.c:332-469 | a whole run reads at most the three packets HELLO, SETUP and U, and never more than arrived |
| Server.SessionOrder | src/server/server.c:332-469 | at most HELLO then V or CLOSE is sent; HELLO only after HELLO came in; V only after HELLO, SETUP and U were read and the credentials accepted (an unwritable id only with a matching record); CLOSE only on rejection; a key only after V |
| Server.SessionCredentials | src/server/server.c:364-392 | NOT_VALID and FAILURE send exactly HELLO then CLOSE, with no key and the store unchanged; NOT_FOUND stores the record, or, when the record cannot be written, ends the run after HELLO with no key and the store unchanged; SUCCESS leaves the store as it was |
| Server.ServerInit | src/server/server.c:52-85 | no server exactly when server_id is null or socket < 0; otherwise a fresh server holding the id and the socket, with no client id yet |
| Server.Server.SendHello | src/server/server.c:87-103 | sends HELLO with the server id, and reports FAILURE exactly when the send fails |
| Server.Server.SendClose | src/server/server.c:105-120 | sends the empty CLOSE packet, and reports FAILURE exactly when the send fails |
| Server.Server.SendV | src/server/server.c:122-139 | sends V carrying the v buffer, and reports FAILURE exactly when the send fails |
| Server.Server.ReceiveClose | src/server/server.c:141-154 | RR_FAILURE when nothing arrives, RR_TYPE_ERROR for a non-CLOSE packet, RR_SUCCESS otherwise |
| Server.Server.ReceiveHello | src/server/server.c:156-171 | RR_FAILURE when nothing arrives, RR_TYPE_ERROR for a non-HELLO packet; otherwise client_id becomes the payload's C string, and nothing else changes |
| Server.Server.ReceiveSetup | src/server/server.c:173-213 | RR_TYPE_ERROR unless a SETUP parses into a 32-byte phi0 and a 32-byte c; only then are both copied in |
| Server.Server.ReceiveU | src/server/server.c:215-232 | accepts only a U packet of length 32, and then u becomes its payload |
| Server.Server.VerifySecret | src/server/server.c:234-238 | the store's verdict on the client id and the received phi0 and c |
| Server.Server.StoreSecret | src/server/server.c:240-244 | stores the received phi0 and c under the client id, or reports EXIT_FAILURE and stores nothing when the store does |
| Server.Server.ComputeGroupElements | src/server/server.c:246-249 | returns 0 and sets a and b to the fixed generators; nothing else changes |
| Server.Server.ComputeBeta | src/server/server.c:251-254 | beta becomes the sampled scalar; nothing else changes |
| Server.Server.ComputeGBeta | src/server/server.c:256-259 | g_beta = g^beta, with status −1 exactly on the identity |
| Server.Server.ComputeBPhi0 | src/server/server.c:261-264 | b_phi0 = b^phi0, with the status of the multiplication |
| Server.Server.ComputeV | src/server/server.c:266-269 | v = g_beta · b_phi0, with the status of the addition |
| Server.Server.ComputeAPhi0 | src/server/server.c:271-274 | a_phi0 = a^phi0, with the status of the multiplication |
| Server.Server.ComputeUAPhi0 | src/server/server.c:276-279 | u_a_phi0 = u · a_phi0^-1, with the status of the subtraction |
| Server.Server.ComputeW | src/server/server.c:281-284 | w = u_a_phi0^beta, with the status of the multiplication |
| Server.Server.ComputeD | src/server/server.c:286-289 | d = c^beta, with the status of the multiplication |
| Server.Server.ComputeK | src/server/server.c:291-302 | k = H'(phi0, client_id, server_id, u, v, w, d), and the call returns 0 |
| Server.ServerClose | src/server/server.c:314-325 | closes the socket and clears the caller's pointer; a no-op for a null argument or a null server |
| Server.Exchange | src/server/server.c:332-350 | the HELLO exchange, then the rest of the run; sent packets, consumed packets, store and key are those of `ServerSession` |
| Server.ExchangeFromSetup | src/server/server.c:352-397 | SETUP, the four-way credential branch with CLOSE on rejection, and the generators, as `SetupOnward` specifies |
| Server.CheckCredentials | src/server/server.c:364-392 | the verdict, the store afterwards and the packet sent are those of `Admit`: a failed store stops the run without CLOSE; nothing is read |
| Server.ExchangeFromU | src/server/server.c:399-432 | U, beta, g_beta, b_phi0 and v; V is sent only when all succeed, and a failed V send stops the run; as `KeyExchange` specifies |
| Server.FinishKey | src/server/server.c:434-469 | a_phi0, u_a_phi0, w, d and k, stopping at the first failure: the key is H' of the transcript exactly when `ServerWD` succeeds |
| Server.HandleClient | src/server/server.c:327-483 | a whole `handle_client` run: what `ServerSession` specifies, with the socket closed at the end |
| Agreement.Registration | test/main.c:33-48 | the registered c decodes to phi1, where (phi0, phi1) comes from the password and the ids |
| Agreement.Unblind | src/core/utils.c:168-173 | the server's u·(a^phi0)^-1 is g^alpha, and the client's v·(b^phi0)^-1 is g^beta |
| Agreement.MultOfBaseCommutes | src/core/utils.c:175-176 | (g^n)^m and (g^m)^n are the same point, and they fail together |
| Agreement.WDAgreement | src/core/utils.c:159-180 | with c = g^phi1, the server's (w, d) equals the client's, including failing together |
| Agreement.KeyAgreement | test/main.c:50-129 | when the client's u and the server's v exist, the server answers U with V and derives exactly the client's key, or neither derives one |
| Agreement.GreetedSession | src/server/server.c:332-350 | a server greeted with the client's HELLO on an open socket answers HELLO and continues with that client id |
| Agreement.AcceptedSetup | src/server/server.c:352-392 | a server with a storage path accepts the registered (phi0, c) when it holds that very record, or none and can write one, and stores it |
| Agreement.HonestSessionAgrees | test/main.c:146-157 | an honest run against a server holding the client's record, or none and able to write one, sends HELLO then V, consumes the three client packets, stores the record, and ends with the client's key |
| Client.ClientInit | src/client/client.c:12-47 | no client exactly when client_id or password is null or socket < 0; otherwise a fresh client holding both strings and the socket |
| Client.Client.SendHello | src/client/client.c:49-66 | sends HELLO with the client id and its NUL, and reports EXIT_FAILURE exactly when the send fails |
| Client.Client.ReceiveHello | src/client/client.c:68-79 | RR_FAILURE when nothing arrives; otherwise the packet read, with RR_TYPE_ERROR unless it is HELLO |
| Client.HelloCarriesClientId | src/client/client.c:53-55 | the client's HELLO is typed HELLO, |id|+1 bytes long, and the server reads the id back from it |

## Left out

**Outside the library boundary:**
- Real cryptography. SHA-512, ristretto255 encoding and decoding, hash-to-group, scalar reading
  and scalar reduction are uninterpreted fields of `Group.Suite`. Only the canonical-encoding
  facts in `Group.Canonical` are assumed of them.
- Randomness. `crypto_core_ristretto255_scalar_random` is not modelled; alpha and beta are scalars
  given as parameters.
- Sockets. `nw_send_packet` and `nw_receive_packet` are not part of this model. A `Channel` holds
  the peer's packets in order, and a send fails only on a closed socket. Byte-level framing on the
  wire is `EncodePacket`/`DecodePacket`, with the length written most significant byte first.
- Threads and the accept loop. `server_handle_connection`, `server_handle_helper` and
  `server_loop` are concurrency code. So is the superseded handler in src/server/client_handler.c.
- Filesystem setup and paths. `storage_init`, `storage_deinit` and `remove_directory_recursive`
  are not modelled. The store is a map keyed by client id, so building the path from the id
  (`"%s/%s"`, with no check of what the id contains) is not modelled. Which ids cannot be opened
  for writing (an id such as "a/b" with no directory "a") is the store's `unwritable` set of ids;
  the model does not derive it from the id's characters.

**Not observable in Dafny:**
- Allocation failures. `malloc`, `strdup` and `asprintf` always succeed. A failed `fopen` is
  modelled: for reading it gives NOT_FOUND, for writing it is the `unwritable` set.
- Memory management. Freeing, `sodium_memzero` and the commented-out wipes are not observable.
  Logging and the hex dump of k are also left out.

**Not modelled in the source:**
- The getters `server_get_k` and `server_get_k_size`, and the trivial `sum`.
- The stale src/utils.c. It is superseded by src/core/utils.c.
- The client's PAKE steps after HELLO. The `client_compute_*`, `client_send_setup_packet`,
  `client_send_u_packet` and `client_receive_v_packet` functions that src/client/main.c calls are
  not in src/client/client.c. The client side of the agreement therefore uses the pure functions
  `Registration` and `ClientKey`, following `run_setup`/`run_key_exchange` in test/main.c and the
  step order of src/client/main.c.
- The probabilistic tests. The wrong-password, swapped-id and fresh-key tests rest on collision
  resistance of the hash and are not lemmas. What is proved instead:
  - `Server.SessionCredentials`: any record mismatch gets CLOSE and no key;
  - `Utils.PhiDependsOnConcatenation`: credentials with the same concatenation collide.
- Uninitialised memory. The stack buffers and the malloc'd `Server` are modelled as starting
  out as zero bytes. The client's t buffer keeps that value when the unchecked subtraction fails.

**Modelling choices:**
- Storage.MatchField: a file shorter than its declared length does not match, so the verdict is
  NOT_VALID. The C code does not check `fread` results and compares whatever the buffer holds.
- Server.HandleClient: requires a non-negative socket, since `accept` returned it. A failed
  `server_init` would make `handle_client` dereference a null server.
- Server.Server.ComputeK: the `!server` check is not modelled, because the object always exists.
- Server.ExchangeFromSetup: its requires say the client id is known and the socket is open. The
  step that precedes it establishes both.
- Client.Client.ReceiveHello: the packet is returned on RR_FAILURE as an arbitrary value; the C
  code leaves the caller's buffer in whatever state the failed receive did.
- Server.Server.ReceiveSetup: it uses the corrected parse (see Findings) with the interface of
  include/core/protocol.h. Where protocol.c and protocol.h disagree, the model follows the header
  and the call in src/server/server.c:192.
- Header lengths: kept in host order, as the builders and src/server/server.c:224 use them. The
  parser's `ntohs` is a finding.

## Findings

| source | as written | input that shows it | evidently intended | confidence | as-written member | corrected member |
|---|---|---|---|---|---|---|
| src/core/protocol.c:34 | `*length = 2 + phi0_len + c_len` in 16 bits wraps, so the buffer is smaller than the bytes copied into it | phi0 of 65535 bytes, empty c: length 1, 65537 bytes copied | the builder is used only when the total fits 16 bits | not executed | Protocol.SetupLengthWraps | Protocol.BuildSetupPayload |
| src/core/protocol.c:67-73 | no check that the payload holds the 2-byte prefix and the declared phi0 | payload [0, 5] on a little-endian host: total 512 after `ntohs`, phi0_len 5 and c_len 505 read out of 2 bytes | reject a payload whose declared phi0 does not fit | not executed | Protocol.ShortSetupOverreads | Protocol.ParseSetupChecked |
| src/core/protocol.c:67 | `ntohs` applied to `header.length`, which builders and server.c keep in host order | the 66-byte SETUP of two 32-byte fields, read as 16896 bytes on a little-endian host; c_len 16862 | take the length as the header holds it | not executed | Protocol.SetupTotalByteSwapped | Protocol.ParseSetupPacket |
| src/core/protocol.c:75-86 | the malloc'd buffers are assigned to by-value parameters, so the caller never receives phi0 and c | any SETUP built from a phi0 that is not all zeros: success is reported, the caller's buffers hold zeros | hand the buffers and their lengths back, as include/core/protocol.h:51-52 declares | not executed | Protocol.ParsedFieldsAsWritten | Protocol.ParseSetupPacket |
| src/server/storage.c:168-185 | c is read into the buffer allocated for phi0's length | empty phi0 with a one-byte c: the record verifies, and c's byte goes into a 0-byte buffer | read each field into a buffer of its own length | not executed | Storage.VerifyBufferOverflowAsWritten | Storage.ReadAndCompare |
