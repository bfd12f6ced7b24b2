/** What each kvdb operation does to the file, the file offset and the write buffer, and what follows over runs. */
module KvdbModel {
  import opened KvdbLog

  const FIRST_CAPACITY: nat := 4096
  const FLUSH_THRESHOLD: nat := 8192

  /** The database file, the offset of its descriptor, and the write buffer. */
  datatype Db = Db(file: seq<Byte>, pos: nat, buffer: seq<Byte>, capacity: nat)

  ghost predicate ValidDb(db: Db) {
    db.pos <= |db.file| && |db.buffer| <= db.capacity
  }

  /** kvdb_open: the descriptor of an existing or new file, at offset 0 and without O_APPEND. */
  function Open(file: seq<Byte>): Db {
    Db(file, 0, [], 0)
  }

  /** write(2) at an offset: overwrites what is there and extends the file. */
  function WriteAt(file: seq<Byte>, pos: nat, b: seq<Byte>): (r: seq<Byte>)
    requires pos <= |file|
    ensures |r| == if pos + |b| > |file| then pos + |b| else |file|
  {
    file[..pos] + b + if pos + |b| < |file| then file[pos + |b|..] else []
  }

  function Flush(db: Db): Db
    requires db.pos <= |db.file|
  {
    if db.buffer == [] then db
    else db.(file := WriteAt(db.file, db.pos, db.buffer), pos := db.pos + |db.buffer|, buffer := [])
  }

  /** append_to_buffer, growing the buffer when needed. */
  function Append(db: Db, b: seq<Byte>): Db {
    var needed := |db.buffer| + |b|;
    var doubled := if db.capacity == 0 then FIRST_CAPACITY else 2 * db.capacity;
    db.(buffer := db.buffer + b,
        capacity := if needed <= db.capacity then db.capacity else if doubled < needed then needed else doubled)
  }

  /** strlen into a uint32_t: what is written of a string. */
  function Clip(s: CString): Bytes32 {
    s[..|s| % U32]
  }

  function PutRecord(key: CString, value: CString): Record {
    Record(Clip(key), Clip(value))
  }

  function Put(db: Db, key: CString, value: CString): Db
    requires db.pos <= |db.file|
  {
    var r := PutRecord(key, value);
    var total := 8 + |r.key| + |r.value|;
    var db1 := if |db.buffer| + total > db.capacity || |db.buffer| > FLUSH_THRESHOLD then Flush(db) else db;
    Append(Append(Append(Append(db1, Le32(|r.key|)), Le32(|r.value|)), r.key), r.value)
  }

  /** kvdb_get flushes, then reads the file from its start to its end. */
  function Get(db: Db): Db
    requires db.pos <= |db.file|
  {
    var db1 := Flush(db);
    db1.(pos := |db1.file|)
  }

  /** `if (to_copy > length - 1) to_copy = length - 1` on size_t. */
  function Copied(valueLen: nat, length: nat): nat
    requires length < SIZE_MOD
  {
    var room := (length - 1) % SIZE_MOD;
    if valueLen > room then room else valueLen
  }

  /** What kvdb_get puts into the caller's buffer before the NUL, or None for -1. */
  function Answer(db: Db, key: CString, length: nat): Option<seq<Byte>>
    requires db.pos <= |db.file| && length < SIZE_MOD
  {
    match Lookup(Table(Decode(Get(db).file)), key)
    case None => None
    case Some(v) => Some(v[..Copied(|v|, length)])
  }

  /** What kvdb_get copies, and its NUL, fit into `room` bytes. */
  predicate Fits(db: Db, key: CString, length: nat, room: nat)
    requires db.pos <= |db.file| && length < SIZE_MOD
  {
    match Answer(db, key, length)
    case None => true
    case Some(v) => |v| < room
  }

  // ----- one operation -----

  function Log(db: Db): seq<Byte> {
    db.file + db.buffer
  }

  lemma PutAppends(db: Db, key: CString, value: CString)
    requires ValidDb(db)
    ensures var r := PutRecord(key, value);
            var flushed := |db.buffer| + |EncodeRecord(r)| > db.capacity || |db.buffer| > FLUSH_THRESHOLD;
            var db1 := if flushed then Flush(db) else db;
            && ValidDb(Put(db, key, value))
            && Put(db, key, value).buffer == db1.buffer + EncodeRecord(r)
            && Put(db, key, value).file == db1.file && Put(db, key, value).pos == db1.pos
  {
  }

  /** A flush appends exactly when the buffer is empty or the offset is at the end of the file. */
  lemma FlushAppendsExactly(db: Db)
    requires ValidDb(db)
    ensures Log(Flush(db)) == Log(db) <==> (db.buffer == [] || db.pos == |db.file|)
  {
    if db.buffer != [] {
      assert Flush(db).file + [] == Flush(db).file;
      if db.pos == |db.file| {
        assert db.file[..db.pos] == db.file;
      } else {
        assert |Log(Flush(db))| < |Log(db)|;
      }
    }
  }

  /** The caller's buffer of `length` bytes holds the value and its NUL exactly when length is not 0. */
  lemma CopiedFits(valueLen: nat, length: nat)
    requires valueLen < SIZE_MOD - 1 && length < SIZE_MOD
    ensures Copied(valueLen, length) + 1 <= length <==> length >= 1
    ensures length >= 1 ==> Copied(valueLen, length) == if valueLen < length then valueLen else length - 1
  {
  }

  lemma AnswerIs(db: Db, key: CString, length: nat, room: nat)
    requires ValidDb(db) && length < SIZE_MOD && Fits(db, key, length, room)
    ensures match Lookup(Table(Decode(Flush(db).file)), key)
            case None => Answer(db, key, length) == None
            case Some(v) => Answer(db, key, length) == Some(v[..Copied(|v|, length)]) && Copied(|v|, length) < room
  {
    hide Table, Decode, Lookup, Flush;
  }

  /** Whatever is stored, a buffer of the size the caller names is large enough exactly when that size is not 0. */
  lemma BufferFits(db: Db, key: CString, length: nat)
    requires ValidDb(db) && length < SIZE_MOD
    ensures length >= 1 ==> Fits(db, key, length, length)
    ensures length == 0 ==> (Fits(db, key, length, length) <==> Answer(db, key, length) == None)
  {
    hide Table, Decode, Lookup;
  }

  // ----- runs -----

  datatype Op =
    | PutOp(key: CString, value: CString)
    | GetOp(key: CString, length: nat)
    | FlushOp

  function Apply(db: Db, op: Op): (r: Db)
    requires db.pos <= |db.file|
    ensures r.pos <= |r.file|
  {
    match op
    case PutOp(k, v) => Put(db, k, v)
    case GetOp(_, _) => Get(db)
    case FlushOp => Flush(db)
  }

  function Run(db: Db, ops: seq<Op>): (r: Db)
    requires db.pos <= |db.file|
    ensures r.pos <= |r.file|
  {
    if ops == [] then db else Apply(Run(db, ops[..|ops| - 1]), ops[|ops| - 1])
  }

  /** The records put, oldest first. */
  function Puts(ops: seq<Op>): seq<Record> {
    if ops == [] then []
    else
      var before, op := Puts(ops[..|ops| - 1]), ops[|ops| - 1];
      if op.PutOp? then before + [PutRecord(op.key, op.value)] else before
  }

  /** The operation writes the buffer out while the offset is inside the file. */
  predicate Clobbers(db: Db, op: Op) {
    && db.buffer != [] && db.pos != |db.file|
    && match op
       case PutOp(k, v) =>
         |db.buffer| + |EncodeRecord(PutRecord(k, v))| > db.capacity || |db.buffer| > FLUSH_THRESHOLD
       case GetOp(_, _) => true
       case FlushOp => true
  }

  predicate NeverClobbers(db: Db, ops: seq<Op>)
    requires db.pos <= |db.file|
  {
    ops == [] || (NeverClobbers(db, ops[..|ops| - 1]) && !Clobbers(Run(db, ops[..|ops| - 1]), ops[|ops| - 1]))
  }

  /** The bytes an operation adds to the log. */
  function Added(op: Op): seq<Byte> {
    if op.PutOp? then EncodeRecord(PutRecord(op.key, op.value)) else []
  }

  lemma PutLog(db: Db, k: CString, v: CString)
    requires ValidDb(db)
    ensures var op := PutOp(k, v);
            && ValidDb(Put(db, k, v))
            && (!Clobbers(db, op) ==> Log(Put(db, k, v)) == Log(db) + Added(op))
            && (Clobbers(db, op) ==> |Log(Put(db, k, v))| < |Log(db)| + |Added(op)|)
  {
    hide Put, EncodeRecord, Flush;
    FlushAppendsExactly(db);
    if db.buffer != [] && db.pos != |db.file| {
      FlushLoses(db);
    }
    PutAppends(db, k, v);
    var e := EncodeRecord(PutRecord(k, v));
    assert Log(db) + e == db.file + (db.buffer + e);
    assert Log(Flush(db)) + e == Flush(db).file + (Flush(db).buffer + e);
  }

  lemma FlushLoses(db: Db)
    requires ValidDb(db) && db.buffer != [] && db.pos != |db.file|
    ensures |Log(Flush(db))| < |Log(db)|
  {
  }

  lemma ApplyLog(db: Db, op: Op)
    requires ValidDb(db)
    ensures ValidDb(Apply(db, op))
    ensures !Clobbers(db, op) ==> Log(Apply(db, op)) == Log(db) + Added(op)
    ensures Clobbers(db, op) ==> |Log(Apply(db, op))| < |Log(db)| + |Added(op)|
  {
    if op.PutOp? {
      PutLog(db, op.key, op.value);
    } else {
      FlushAppendsExactly(db);
      assert Log(db) + [] == Log(db);
    }
  }

  lemma PutsStep(ops: seq<Op>)
    requires ops != []
    ensures EncodeLog(Puts(ops)) == EncodeLog(Puts(ops[..|ops| - 1])) + Added(ops[|ops| - 1])
  {
    var op := ops[|ops| - 1];
    if op.PutOp? {
      var r := PutRecord(op.key, op.value);
      EncodeAppend(Puts(ops[..|ops| - 1]), [r]);
      assert EncodeLog([r]) == EncodeRecord(r) + EncodeLog([]);
    }
  }

  lemma {:induction false} RunLength(db: Db, ops: seq<Op>)
    requires ValidDb(db)
    ensures ValidDb(Run(db, ops)) && |Log(Run(db, ops))| <= |Log(db)| + |EncodeLog(Puts(ops))|
  {
    if ops != [] {
      var n := |ops| - 1;
      RunLength(db, ops[..n]);
      PutsStep(ops);
      ApplyLog(Run(db, ops[..n]), ops[n]);
      hide Apply, Puts, EncodeLog, Clobbers;
    }
  }

  /**
   Over any run from any database, file and buffer hold the old contents followed by every put in order
   exactly when no operation flushed while the offset was inside the file.
   */
  lemma {:induction false} RunLogExactly(db: Db, ops: seq<Op>)
    requires ValidDb(db)
    ensures Log(Run(db, ops)) == Log(db) + EncodeLog(Puts(ops)) <==> NeverClobbers(db, ops)
  {
    if ops == [] {
      assert Log(db) + [] == Log(db);
    } else {
      var n := |ops| - 1;
      var before := Run(db, ops[..n]);
      RunLength(db, ops[..n]);
      RunLogExactly(db, ops[..n]);
      PutsStep(ops);
      ApplyLog(before, ops[n]);
      hide Apply, Puts, EncodeLog, Clobbers, Log;
      LogStep(Log(db), EncodeLog(Puts(ops[..n])), Added(ops[n]), Log(before), Log(Run(db, ops)));
    }
  }

  /** Appending keeps two logs equal exactly when they were equal; a shorter one never catches up. */
  lemma LogStep(start: seq<Byte>, puts: seq<Byte>, added: seq<Byte>, before: seq<Byte>, after: seq<Byte>)
    requires |before| <= |start| + |puts|
    ensures after == before + added ==> (after == start + (puts + added) <==> before == start + puts)
    ensures |after| < |before| + |added| ==> after != start + (puts + added)
  {
    assert start + (puts + added) == (start + puts) + added;
    if after == before + added && after == start + (puts + added) {
      assert |before| == |start + puts|;
      assert before == after[..|before|] == (start + puts + added)[..|start + puts|] == start + puts;
    }
  }

  // ----- databases that are safe to write -----

  lemma {:induction false} AtEndIsSafe(db: Db, ops: seq<Op>)
    requires ValidDb(db) && db.pos == |db.file|
    ensures NeverClobbers(db, ops) && Run(db, ops).pos == |Run(db, ops).file|
  {
    if ops != [] {
      var n := |ops| - 1;
      AtEndIsSafe(db, ops[..n]);
      RunLength(db, ops[..n]);
      ApplyAtEnd(Run(db, ops[..n]), ops[n]);
      hide Apply;
    }
  }

  lemma ApplyAtEnd(db: Db, op: Op)
    requires ValidDb(db) && db.pos == |db.file|
    ensures Apply(db, op).pos == |Apply(db, op).file|
  {
    if op.PutOp? {
      PutAppends(db, op.key, op.value);
    }
  }

  /** kvdb_get answers from the log: the last value put under the key, cut to the caller's buffer. */
  lemma AnswerFromLog(db: Db, rs: seq<Record>, key: CString, length: nat)
    requires ValidDb(db) && db.pos == |db.file| && Log(db) == EncodeLog(rs) && length < SIZE_MOD
    ensures Answer(db, key, length) == match LastWrite(rs, key)
                                       case None => None
                                       case Some(v) => Some(v[..Copied(|v|, length)])
  {
    FlushAppendsExactly(db);
    assert Get(db).file == Log(Flush(db)) by {
      assert Flush(db).buffer == [];
    }
    DecodeUndoesEncode(rs);
    TableIsLastWrite(rs, key);
  }

  /**
   Over any run of puts, gets and flushes from an empty file: file and buffer are the encoding of the puts in
   order, the offset is at the end of the file, and a get at this point returns the last value put for its key.
   */
  lemma FreshDatabase(ops: seq<Op>, key: CString, length: nat)
    requires length < SIZE_MOD
    ensures var db := Run(Open([]), ops);
            && Log(db) == EncodeLog(Puts(ops)) && db.pos == |db.file|
            && Answer(db, key, length) == match LastWrite(Puts(ops), key)
                                          case None => None
                                          case Some(v) => Some(v[..Copied(|v|, length)])
  {
    var db := Run(Open([]), ops);
    AtEndIsSafe(Open([]), ops);
    RunLogExactly(Open([]), ops);
    RunLength(Open([]), ops);
    assert Log(Open([])) + EncodeLog(Puts(ops)) == EncodeLog(Puts(ops));
    AnswerFromLog(db, Puts(ops), key, length);
  }

  /** A database reopened on a log behaves as if it had never been closed, provided a get comes first. */
  lemma ReopenedDatabase(rs: seq<Record>, first: Op, ops: seq<Op>, key: CString, length: nat)
    requires first.GetOp? && length < SIZE_MOD
    ensures var db := Run(Get(Open(EncodeLog(rs))), ops);
            && Log(db) == EncodeLog(rs + Puts(ops)) && db.pos == |db.file|
            && Answer(db, key, length) == match LastWrite(rs + Puts(ops), key)
                                          case None => None
                                          case Some(v) => Some(v[..Copied(|v|, length)])
  {
    var db0 := Get(Open(EncodeLog(rs)));
    var db := Run(db0, ops);
    assert Log(db0) == EncodeLog(rs);
    AtEndIsSafe(db0, ops);
    RunLogExactly(db0, ops);
    RunLength(db0, ops);
    EncodeAppend(rs, Puts(ops));
    AnswerFromLog(db, rs + Puts(ops), key, length);
  }

  /** Without that get, the first flush of a put appends exactly when the file was empty: otherwise it overwrites. */
  lemma ReopenThenPut(file: seq<Byte>, key: CString, value: CString)
    ensures Log(Flush(Put(Open(file), key, value))) == file + EncodeRecord(PutRecord(key, value)) <==> file == []
  {
    var db := Put(Open(file), key, value);
    PutAppends(Open(file), key, value);
    assert db.buffer == EncodeRecord(PutRecord(key, value));
    FlushAppendsExactly(db);
    assert Log(db) == file + EncodeRecord(PutRecord(key, value));
  }

  /** A record lost that way: the file held key 1, and after putting key 2 it no longer does. */
  lemma ReopenLosesRecord()
    ensures var file := EncodeLog([Record([1], [7])]);
            var db := Flush(Put(Open(file), [2], [9]));
            && Answer(Open(file), [1], 10) == Some([7])
            && db.file == EncodeLog([Record([2], [9])])
            && Answer(db, [1], 10) == None
  {
    var r, q := Record([1], [7]), Record([2], [9]);
    OneRecordLog(r);
    OneRecordLog(q);
    PutAppends(Open(EncodeLog([r])), [2], [9]);
    assert Clip([2]) == [2] && Clip([9]) == [9];
    hide EncodeRecord, EncodeLog, Put, Answer;
    AnswerOneRecord(Open(EncodeLog([r])), r, [1]);
    AnswerOneRecord(Flush(Put(Open(EncodeLog([r])), [2], [9])), q, [1]);
  }

  lemma AnswerOneRecord(db: Db, r: Record, key: CString)
    requires db.pos <= |db.file| && db.buffer == [] && db.file == EncodeLog([r]) && 0 !in r.key && |r.value| < 10
    ensures var v: seq<Byte> := r.value; Answer(db, key, 10) == if r.key == key then Some(v) else None
  {
    DecodeUndoesEncode([r]);
    TableIsLastWrite([r], key);
    CStrOfCString(r.key);
    CStrOfCString(key);
    assert [r][..0] == [] && r.value[..|r.value|] == r.value;
  }

  lemma OneRecordLog(r: Record)
    ensures EncodeLog([r]) == EncodeRecord(r)
  {
    assert [r][1..] == [] && EncodeRecord(r) + EncodeLog([]) == EncodeRecord(r);
  }

  // ----- the buffer's size -----

  function Max(a: nat, b: nat): nat {
    if a < b then b else a
  }

  function Largest(rs: seq<Record>): nat {
    if rs == [] then 0 else Max(Largest(rs[..|rs| - 1]), |EncodeRecord(rs[|rs| - 1])|)
  }

  /** Appending within the room there is, or to a buffer that was just emptied. */
  lemma AppendCapacity(db: Db, b: seq<Byte>, total: nat)
    requires |db.buffer| + |b| <= Max(db.capacity, total)
    ensures |Append(db, b).buffer| <= Append(db, b).capacity
    ensures db.capacity <= Append(db, b).capacity <= Max(db.capacity, Max(FIRST_CAPACITY, 2 * total))
  {
  }

  lemma PutCapacity(db: Db, key: CString, value: CString)
    requires ValidDb(db)
    ensures Put(db, key, value).capacity
         <= Max(db.capacity, Max(FIRST_CAPACITY, 2 * |EncodeRecord(PutRecord(key, value))|))
  {
    var r := PutRecord(key, value);
    var total := 8 + |r.key| + |r.value|;
    var db1 := if |db.buffer| + total > db.capacity || |db.buffer| > FLUSH_THRESHOLD then Flush(db) else db;
    assert |db1.buffer| + total <= Max(db1.capacity, total);
    var db2 := Append(db1, Le32(|r.key|));
    AppendCapacity(db1, Le32(|r.key|), total);
    var db3 := Append(db2, Le32(|r.value|));
    AppendCapacity(db2, Le32(|r.value|), total);
    var db4 := Append(db3, r.key);
    AppendCapacity(db3, r.key, total);
    AppendCapacity(db4, r.value, total);
  }

  /** The buffer never outgrows twice the largest record (or its first 4096 bytes), however many puts there are. */
  lemma {:induction false} BufferBounded(file: seq<Byte>, ops: seq<Op>)
    ensures var db := Run(Open(file), ops);
            |db.buffer| <= db.capacity <= Max(FIRST_CAPACITY, 2 * Largest(Puts(ops)))
  {
    RunLength(Open(file), ops);
    if ops != [] {
      var n := |ops| - 1;
      var before := Run(Open(file), ops[..n]);
      RunLength(Open(file), ops[..n]);
      BufferBounded(file, ops[..n]);
      if ops[n].PutOp? {
        PutCapacity(before, ops[n].key, ops[n].value);
        hide Put;
        assert Puts(ops)[..|Puts(ops)| - 1] == Puts(ops[..n]);
      }
    }
  }
}
