/** What a caller of libkvdb sees, in terms of the strings put and the strings got. */
module KvdbStrings {
  import opened KvdbLog
  import opened KvdbModel

  /** The value of the last put whose key is `key`. */
  function LastPut(ops: seq<Op>, key: CString): Option<CString> {
    if ops == [] then None
    else
      var op := ops[|ops| - 1];
      if op.PutOp? && op.key == key then Some(op.value) else LastPut(ops[..|ops| - 1], key)
  }

  /** No string is as long as 2^32 bytes, where its length would no longer fit its field. */
  ghost predicate Short(ops: seq<Op>) {
    forall op :: op in ops && op.PutOp? ==> |op.key| < U32 && |op.value| < U32
  }

  /** What fits into a buffer of `length` bytes with a NUL; a length of 0 is taken as no limit. */
  function CutTo(v: CString, length: nat): seq<Byte> {
    if length == 0 || |v| < length then v else v[..length - 1]
  }

  function Expected(v: Option<CString>, length: nat): Option<seq<Byte>> {
    match v
    case None => None
    case Some(s) => Some(CutTo(s, length))
  }

  /** A string is stored as it is exactly when its length fits 32 bits. */
  lemma ClipExactly(s: CString)
    ensures Clip(s) == s <==> |s| < U32
  {
  }

  lemma ShortRecord(key: CString, value: CString)
    requires |key| < U32 && |value| < U32
    ensures PutRecord(key, value).key == key && PutRecord(key, value).value == value
  {
  }

  /** The number that four bytes write, the lowest first. */
  function FourBytes(b: seq<Byte>, at: nat): int
    requires at + 4 <= |b|
  {
    (b[at] as int) + 256 * (b[at + 1] as int) + 65536 * (b[at + 2] as int) + 16777216 * (b[at + 3] as int)
  }

  /** What a put appends to the file: the lengths of key and value, four bytes each, the key and the value. */
  ghost predicate RecordBytes(b: seq<Byte>, key: seq<Byte>, value: seq<Byte>) {
    && |b| == 8 + |key| + |value|
    && FourBytes(b, 0) == |key| && FourBytes(b, 4) == |value|
    && b[8..8 + |key|] == key && b[8 + |key|..] == value
  }

  lemma RecordLayout(key: CString, value: CString)
    requires |key| < U32 && |value| < U32
    ensures RecordBytes(EncodeRecord(PutRecord(key, value)), key, value)
  {
    hide Clip, Le32;
    ShortRecord(key, value);
    var b, k, v := EncodeRecord(PutRecord(key, value)), Le32(|key|), Le32(|value|);
    Le32Undone(|key|);
    Le32Undone(|value|);
    assert b[..4] == k && b[4..8] == v;
    assert forall i {:trigger k[i]} :: 0 <= i < 4 ==> b[i] == k[i];
    assert forall i {:trigger v[i]} :: 0 <= i < 4 ==> b[4 + i] == v[i];
  }

  lemma {:induction false} LastPutIsLastWrite(ops: seq<Op>, key: CString)
    requires Short(ops)
    ensures match LastPut(ops, key)
            case None => LastWrite(Puts(ops), key) == None
            case Some(v) =>
              |v| < U32 && LastWrite(Puts(ops), key).Some? && LastWrite(Puts(ops), key).value == v
  {
    hide Clip, PutRecord, CStr;
    if ops != [] {
      var n := |ops| - 1;
      LastPutIsLastWrite(ops[..n], key);
      var op := ops[n];
      if op.PutOp? {
        assert op in ops;
        ShortRecord(op.key, op.value);
        CStrOfCString(op.key);
        CStrOfCString(key);
        assert Puts(ops)[..|Puts(ops)| - 1] == Puts(ops[..n]);
      }
    }
  }

  lemma CopiedIs(v: CString, length: nat)
    requires |v| < U32 && length < SIZE_MOD
    ensures v[..Copied(|v|, length)] == CutTo(v, length)
  {
  }

  /**
   From an empty file, after any puts, gets and flushes, a get answers with the value of the last put of its key, cut
   to the caller's buffer, and with -1 if there was none.
   */
  lemma GetsLastPut(ops: seq<Op>, key: CString, length: nat)
    requires Short(ops) && length < SIZE_MOD
    ensures Answer(Run(Open([]), ops), key, length) == Expected(LastPut(ops, key), length)
  {
    hide Answer, Run, LastPut, Puts, LastWrite, Copied;
    FreshDatabase(ops, key, length);
    LastPutIsLastWrite(ops, key);
    if LastPut(ops, key).Some? {
      CopiedIs(LastPut(ops, key).value, length);
    }
  }

  lemma {:induction false} PutsAppend(first: seq<Op>, second: seq<Op>)
    ensures Puts(first + second) == Puts(first) + Puts(second)
  {
    if second == [] {
      assert first + second == first;
    } else {
      var n := |second| - 1;
      PutsAppend(first, second[..n]);
      assert (first + second)[..|first + second| - 1] == first + second[..n];
    }
  }

  /** kvdb_close writes the buffer out: the file is then the encoding of the puts. */
  lemma Closed(ops: seq<Op>)
    ensures Flush(Run(Open([]), ops)).file == EncodeLog(Puts(ops))
  {
    hide Run, Puts, EncodeLog;
    FreshDatabase(ops, [], 1);
    var db := Run(Open([]), ops);
    RunLength(Open([]), ops);
    FlushAppendsExactly(db);
    assert Flush(db).file == Log(Flush(db));
  }

  /** A database that is closed, and opened again with a get as the first thing done, answers for both sessions. */
  lemma GetsLastPutOfBoth(first: seq<Op>, second: seq<Op>, key: CString, length: nat)
    requires Short(first) && Short(second) && length < SIZE_MOD
    ensures var closed := Flush(Run(Open([]), first)).file;
            Answer(Run(Get(Open(closed)), second), key, length) == Expected(LastPut(first + second, key), length)
  {
    hide Answer, Run, LastPut, Puts, LastWrite, Copied, Flush;
    Closed(first);
    ReopenedDatabase(Puts(first), GetOp(key, length), second, key, length);
    PutsAppend(first, second);
    LastPutIsLastWrite(first + second, key);
    if LastPut(first + second, key).Some? {
      CopiedIs(LastPut(first + second, key).value, length);
    }
  }
}
