/** The server's credential store (src/server/storage.c): one file per client
    id in the storage directory, holding the phi0 and c that client set up.
    The directory is a map from client id to file contents; the storage path
    global is a field that is None while it is NULL. */
module Storage {
  import opened Bytes
  import opened Wrappers

  /** `VerifyResult`, in declaration order: VR_SUCCESS, VR_FAILURE,
      VR_NOT_FOUND, VR_NOT_VALID. */
  datatype VerifyResult = Success | Failure | NotFound | NotValid

  /** `EXIT_SUCCESS` and `EXIT_FAILURE`. */
  const ExitSuccess: int := 0
  const ExitFailure: int := 1

  // ---------------------------------------------------------------------
  // The record layout and its comparison

  /** One length-prefixed field of a record: its 16-bit length as the host
      stores it (little-endian), then its bytes. */
  function Field(data: seq<uint8>): (r: seq<uint8>)
    requires |data| < 0x1_0000
    ensures |r| == 2 + |data|
  {
    LittleEndian16(|data|) + data
  }

  /** What `storage_store_secret` writes: [phi0_len][phi0][c_len][c]. */
  function Record(phi0: seq<uint8>, c: seq<uint8>): (r: seq<uint8>)
    requires |phi0| < 0x1_0000 && |c| < 0x1_0000
    ensures |r| == 4 + |phi0| + |c|
  {
    Field(phi0) + Field(c)
  }

  /** Reads one field from the front of `file` and compares it with
      `expected`: first the length, then the bytes. Gives the rest of the file
      when both agree. A file too short for what it declares does not match. */
  function MatchField(file: seq<uint8>, expected: seq<uint8>): Option<seq<uint8>> {
    if |file| < 2 || FromLittleEndian16(file[0], file[1]) != |expected| then None
    else if |file| < 2 + |expected| || file[2..2 + |expected|] != expected then None
    else Some(file[2 + |expected|..])
  }

  /** The comparison of a record with the offered (phi0, c), in the order
      phi0 length, phi0 bytes, c length, c bytes. */
  function CheckRecord(file: seq<uint8>, phi0: seq<uint8>, c: seq<uint8>): VerifyResult {
    match MatchField(file, phi0)
    case None => NotValid
    case Some(rest) => if MatchField(rest, c).Some? then Success else NotValid
  }

  /** `storage_verify_secret`: FAILURE without a storage path, NOT_FOUND
      without a record for the id, else the comparison. */
  function Verify(path: Option<seq<uint8>>, files: map<seq<uint8>, seq<uint8>>,
                  id: seq<uint8>, phi0: seq<uint8>, c: seq<uint8>): VerifyResult {
    if path.None? then Failure
    else if id !in files then NotFound
    else CheckRecord(files[id], phi0, c)
  }

  // ---------------------------------------------------------------------
  // Properties of the layout and the comparison

  /** A field matches exactly when the file starts with that field. */
  lemma MatchFieldIff(file: seq<uint8>, expected: seq<uint8>)
    requires |expected| < 0x1_0000
    ensures MatchField(file, expected).Some? <==>
      |file| >= 2 + |expected| && file[..2 + |expected|] == Field(expected)
    ensures MatchField(file, expected).Some? ==> MatchField(file, expected).value == file[2 + |expected|..]
  {
    if |file| >= 2 + |expected| {
      var prefix := file[..2 + |expected|];
      assert prefix == file[..2] + file[2..2 + |expected|];
      assert file[..2] == [file[0], file[1]];
      LittleEndian16Bytes(file[0], file[1]);
      if prefix == Field(expected) {
        assert prefix[..2] == LittleEndian16(|expected|) && prefix[2..] == expected;
        assert FromLittleEndian16(prefix[0], prefix[1]) == |expected|;
      }
    }
  }

  /** The comparison succeeds exactly when the file starts with the record
      of (phi0, c); whatever follows is not read. Otherwise it reports
      NOT_VALID, never another result. */
  lemma CheckRecordIff(file: seq<uint8>, phi0: seq<uint8>, c: seq<uint8>)
    requires |phi0| < 0x1_0000 && |c| < 0x1_0000
    ensures CheckRecord(file, phi0, c) == Success <==>
      |file| >= |Record(phi0, c)| && file[..|Record(phi0, c)|] == Record(phi0, c)
    ensures CheckRecord(file, phi0, c) != Success ==> CheckRecord(file, phi0, c) == NotValid
  {
    var n := |Record(phi0, c)|;
    MatchFieldIff(file, phi0);
    if MatchField(file, phi0).Some? {
      var rest := file[2 + |phi0|..];
      MatchFieldIff(rest, c);
      if MatchField(rest, c).Some? {
        assert file[..n] == file[..2 + |phi0|] + rest[..2 + |c|];
      }
    }
    if |file| >= n && file[..n] == Record(phi0, c) {
      assert file[..2 + |phi0|] == file[..n][..2 + |phi0|];
      assert file[2 + |phi0|..][..2 + |c|] == file[..n][2 + |phi0|..];
    }
  }

  /** A stored record matches the (phi0, c) it was written for and no other. */
  lemma CheckOwnRecord(phi0: seq<uint8>, c: seq<uint8>, phi0': seq<uint8>, c': seq<uint8>)
    requires |phi0| < 0x1_0000 && |c| < 0x1_0000
    ensures CheckRecord(Record(phi0, c), phi0', c') == (if phi0' == phi0 && c' == c then Success else NotValid)
  {
    var r := Record(phi0, c);
    assert r[..2 + |phi0|] == Field(phi0) && r[2 + |phi0|..] == Field(c);
    LittleEndian16Bytes(r[0], r[1]);
    var f := MatchField(r, phi0');
    if f.Some? {
      assert |phi0'| == |phi0|;
      assert phi0' == r[2..2 + |phi0|] == phi0;
      var rest := Field(c);
      LittleEndian16Bytes(rest[0], rest[1]);
      if MatchField(rest, c').Some? {
        assert |c'| == |c|;
        assert c' == rest[2..2 + |c|] == c;
      }
    }
    if phi0' == phi0 && c' == c {
      CheckRecordIff(r, phi0, c);
    }
  }

  /** After storing (phi0, c) for an id, verifying that id succeeds for the
      same (phi0, c) and reports NOT_VALID for anything else; the other ids
      verify as before. */
  lemma StoreThenVerify(path: seq<uint8>, files: map<seq<uint8>, seq<uint8>>, id: seq<uint8>,
                        phi0: seq<uint8>, c: seq<uint8>, other: seq<uint8>, phi0': seq<uint8>, c': seq<uint8>)
    requires |phi0| < 0x1_0000 && |c| < 0x1_0000
    ensures Verify(Some(path), files[id := Record(phi0, c)], id, phi0', c') ==
      (if phi0' == phi0 && c' == c then Success else NotValid)
    ensures other != id ==>
      Verify(Some(path), files[id := Record(phi0, c)], other, phi0', c') == Verify(Some(path), files, other, phi0', c')
  {
    CheckOwnRecord(phi0, c, phi0', c');
  }

  // ---------------------------------------------------------------------
  // The store

  /** The storage directory and the `server_storage_path` global.
      `unwritable` holds the ids whose file `fopen(path, "w")` cannot open,
      such as an id naming a file in a sub-directory that does not exist. */
  class SecretStore {
    var path: Option<seq<uint8>>
    var files: map<seq<uint8>, seq<uint8>>
    const unwritable: set<seq<uint8>>

    constructor (path: Option<seq<uint8>>, files: map<seq<uint8>, seq<uint8>>, unwritable: set<seq<uint8>>)
      ensures this.path == path && this.files == files && this.unwritable == unwritable
    {
      this.path := path;
      this.files := files;
      this.unwritable := unwritable;
    }

    /** `storage_store_secret`: EXIT_FAILURE without a storage path or when
        the id's file cannot be opened for writing, and then nothing is
        written; otherwise the file is truncated and the four fields written
        in turn, replacing any previous record. */
    method StoreSecret(id: CString, phi0: seq<uint8>, c: seq<uint8>) returns (result: int)
      requires |phi0| < 0x1_0000 && |c| < 0x1_0000
      modifies this
      ensures result == (if old(path).None? || id in unwritable then ExitFailure else ExitSuccess)
      ensures path == old(path)
      ensures files == if result == ExitFailure then old(files) else old(files)[id := Record(phi0, c)]
    {
      if path.None? {
        return ExitFailure;
      }
      if id in unwritable {
        return ExitFailure;
      }
      var file: seq<uint8> := [];
      file := file + LittleEndian16(|phi0|);
      file := file + phi0;
      file := file + LittleEndian16(|c|);
      file := file + c;
      assert file == Record(phi0, c);
      files := files[id := file];
      result := ExitSuccess;
    }

    /** `storage_verify_secret`: reads the id's file field by field and
        compares each with the offered value. Each field is read into a
        buffer of its own size. */
    method VerifySecret(id: seq<uint8>, phi0: seq<uint8>, c: seq<uint8>) returns (result: VerifyResult)
      ensures result == Verify(path, files, id, phi0, c)
    {
      if path.None? {
        return Failure;
      }
      if id !in files {
        return NotFound;
      }
      var file := files[id];
      var ok, rest := ReadAndCompare(file, phi0);
      if !ok {
        return NotValid;
      }
      ok, rest := ReadAndCompare(rest, c);
      if !ok {
        return NotValid;
      }
      result := Success;
    }
  }

  /** One `fread` of the length, its comparison, one `fread` of the bytes into
      a buffer and their `memcmp`; `rest` is what is left to read. */
  method ReadAndCompare(file: seq<uint8>, expected: seq<uint8>) returns (ok: bool, rest: seq<uint8>)
    ensures ok <==> MatchField(file, expected).Some?
    ensures ok ==> rest == MatchField(file, expected).value
  {
    if |file| < 2 {
      return false, [];
    }
    var len: nat := FromLittleEndian16(file[0], file[1]);
    if len != |expected| {
      return false, [];
    }
    if |file| < 2 + len {
      return false, [];
    }
    var buffer := NewBuffer(file[2..2 + len]);
    var same := SameBytes(expected, buffer, len);
    if !same {
      assert expected[..len] == expected && buffer[..][..len] == file[2..2 + len];
      return false, [];
    }
    assert buffer[..len] == buffer[..];
    ok, rest := true, file[2 + len..];
  }

  // ---------------------------------------------------------------------
  // The C code as written

  /** The size of the buffer `storage_verify_secret` allocates, from the phi0
      length it read; the same buffer then receives c. */
  function VerifyBufferSizeAsWritten(phi0Len: uint16): nat {
    phi0Len
  }

  /** The two length fields of a record, as `storage_verify_secret` reads them. */
  lemma RecordLengths(phi0: seq<uint8>, c: seq<uint8>)
    requires |phi0| < 0x1_0000 && |c| < 0x1_0000
    ensures var file := Record(phi0, c);
      && FromLittleEndian16(file[0], file[1]) == |phi0|
      && FromLittleEndian16(file[2 + |phi0|], file[3 + |phi0|]) == |c|
  {
    var file := Record(phi0, c);
    var first := Field(phi0);
    var second := Field(c);
    assert file == first + second;
    assert file[0] == first[0] && file[1] == first[1];
    assert file[2 + |phi0|] == second[0] && file[3 + |phi0|] == second[1];
    assert first[..2] == LittleEndian16(|phi0|) && second[..2] == LittleEndian16(|c|);
  }

  /** With an empty phi0 and a one-byte c, the stored record passes both
      length checks and c's byte is read into a buffer of size zero. */
  lemma VerifyBufferOverflowAsWritten(phi0: seq<uint8>, c: seq<uint8>)
    requires phi0 == [] && |c| == 1
    ensures var file := Record(phi0, c);
      && CheckRecord(file, phi0, c) == Success
      && VerifyBufferSizeAsWritten(FromLittleEndian16(file[0], file[1])) == 0
      && FromLittleEndian16(file[2], file[3]) == 1
  {
    CheckOwnRecord(phi0, c, phi0, c);
    RecordLengths(phi0, c);
  }
}
