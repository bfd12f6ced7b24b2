/** A database reopened on a file with contents: which operations are safe on it, and what a torn tail does. */
module KvdbReopen {
  import opened KvdbLog
  import opened KvdbModel

  // ----- which operations only append -----

  /** A get comes before every put: it leaves the offset at the end of the file. */
  ghost predicate GetFirst(ops: seq<Op>) {
    exists i :: 0 <= i < |ops| && ops[i].GetOp? && Puts(ops[..i]) == []
  }

  /** The capacity after the first record was appended to an empty buffer of capacity 0. */
  function Room(r: Record): nat {
    var k, n := 8 + |r.key|, 8 + |r.key| + |r.value|;
    var forKey := if k <= FIRST_CAPACITY then FIRST_CAPACITY else Max(2 * FIRST_CAPACITY, k);
    if n <= forKey then forKey else Max(2 * forKey, n)
  }

  /** With the records rs buffered, r is buffered too and nothing is written. */
  predicate Buffers(rs: seq<Record>, r: Record)
    requires rs != []
  {
    |EncodeLog(rs)| <= FLUSH_THRESHOLD && |EncodeLog(rs)| + |EncodeRecord(r)| <= Room(rs[0])
  }

  /** After the first put there are only puts, and they all fit the buffer. */
  ghost predicate AllBuffered(ops: seq<Op>) {
    forall i {:trigger ops[i]} :: 0 <= i < |ops| && Puts(ops[..i]) != [] ==>
      ops[i].PutOp? && Buffers(Puts(ops[..i]), PutRecord(ops[i].key, ops[i].value))
  }

  lemma GetFirstStep(ops: seq<Op>)
    requires ops != []
    ensures var n := |ops| - 1;
            GetFirst(ops) <==> GetFirst(ops[..n]) || (ops[n].GetOp? && Puts(ops[..n]) == [])
  {
    hide Puts;
    var n := |ops| - 1;
    forall i | 0 <= i < n ensures ops[..n][..i] == ops[..i] && ops[..n][i] == ops[i] {
    }
    if GetFirst(ops) && !(ops[n].GetOp? && Puts(ops[..n]) == []) {
      var i :| 0 <= i < |ops| && ops[i].GetOp? && Puts(ops[..i]) == [];
      assert ops[..n][i].GetOp?;
    }
    if i :| 0 <= i < n && ops[..n][i].GetOp? && Puts(ops[..n][..i]) == [] {
      assert ops[i].GetOp?;
    }
  }

  lemma AllBufferedStep(ops: seq<Op>)
    requires ops != []
    ensures var n := |ops| - 1;
            var op, rs := ops[n], Puts(ops[..n]);
            AllBuffered(ops) <==>
              AllBuffered(ops[..n]) && (rs != [] ==> op.PutOp? && Buffers(rs, PutRecord(op.key, op.value)))
  {
    hide Puts, Buffers;
    var n := |ops| - 1;
    forall i | 0 <= i < n ensures ops[..n][..i] == ops[..i] && ops[..n][i] == ops[i] {
    }
  }

  lemma {:induction false} NoPutsBefore(ops: seq<Op>, i: nat)
    requires Puts(ops) == [] && i <= |ops|
    ensures Puts(ops[..i]) == []
    decreases |ops|
  {
    if i == |ops| {
      assert ops[..i] == ops;
    } else {
      var n := |ops| - 1;
      NoPutsBefore(ops[..n], i);
      assert ops[..n][..i] == ops[..i];
    }
  }

  lemma NoPuts(ops: seq<Op>)
    requires Puts(ops) == []
    ensures AllBuffered(ops)
  {
    hide Puts, Buffers;
    forall i | 0 <= i < |ops| ensures Puts(ops[..i]) == [] {
      NoPutsBefore(ops, i);
    }
  }

  /** The database while everything is buffered: the offset is still 0. */
  function Buffering(file: seq<Byte>, rs: seq<Record>): Db {
    Db(file, 0, EncodeLog(rs), if rs == [] then 0 else Room(rs[0]))
  }

  lemma FirstCapacity(db: Db, key: CString, value: CString)
    requires db.buffer == [] && db.capacity == 0 && db.pos <= |db.file|
    ensures Put(db, key, value).capacity == Room(PutRecord(key, value))
  {
  }

  lemma FirstPut(file: seq<Byte>, key: CString, value: CString)
    ensures Put(Open(file), key, value) == Buffering(file, [PutRecord(key, value)])
  {
    hide Put, EncodeLog, EncodeRecord, PutRecord, Room;
    var r := PutRecord(key, value);
    OneRecordLog(r);
    PutAppends(Open(file), key, value);
    FirstCapacity(Open(file), key, value);
  }

  lemma NextPut(file: seq<Byte>, rs: seq<Record>, key: CString, value: CString)
    requires rs != [] && Buffers(rs, PutRecord(key, value))
    ensures Put(Buffering(file, rs), key, value) == Buffering(file, rs + [PutRecord(key, value)])
  {
    var r := PutRecord(key, value);
    EncodeAppend(rs, [r]);
    OneRecordLog(r);
    hide EncodeLog, Room;
  }

  lemma {:induction false} LogNotEmpty(rs: seq<Record>)
    requires rs != []
    ensures |EncodeLog(rs)| >= 8
  {
  }

  /** One operation on a database that buffers: it goes on buffering, or it writes over the file. */
  lemma BufferingStep(file: seq<Byte>, rs: seq<Record>, op: Op)
    requires file != []
    ensures var db := Buffering(file, rs);
            && (rs != [] ==> (Clobbers(db, op) <==> !(op.PutOp? && Buffers(rs, PutRecord(op.key, op.value)))))
            && (rs == [] ==> !Clobbers(db, op))
            && (!Clobbers(db, op) && !op.GetOp? ==>
                  Apply(db, op) == Buffering(file, if op.PutOp? then rs + [PutRecord(op.key, op.value)] else rs))
            && (rs == [] && op.GetOp? ==> Apply(db, op) == Db(file, |file|, [], 0))
  {
    hide Put, EncodeLog, EncodeRecord, Room, PutRecord;
    NoRecords();
    if rs == [] {
      if op.PutOp? {
        FirstPut(file, op.key, op.value);
        assert rs + [PutRecord(op.key, op.value)] == [PutRecord(op.key, op.value)];
      }
    } else {
      LogNotEmpty(rs);
      if op.PutOp? && Buffers(rs, PutRecord(op.key, op.value)) {
        NextPut(file, rs, op.key, op.value);
      }
    }
  }

  lemma NoRecords()
    ensures EncodeLog([]) == []
  {
  }

  /** Where a run is while it is safe: behind a get with the offset at the end, or still buffering everything. */
  lemma {:induction false} SafeState(file: seq<Byte>, ops: seq<Op>)
    requires file != []
    ensures ValidDb(Run(Open(file), ops))
    ensures GetFirst(ops) ==> Run(Open(file), ops).pos == |Run(Open(file), ops).file|
    ensures !GetFirst(ops) && AllBuffered(ops) ==> Run(Open(file), ops) == Buffering(file, Puts(ops))
  {
    hide GetFirst, AllBuffered, Buffering, Apply, Puts;
    RunLength(Open(file), ops);
    if ops == [] {
      NothingRun(file);
    } else {
      var n := |ops| - 1;
      SafeState(file, ops[..n]);
      GetFirstStep(ops);
      AllBufferedStep(ops);
      if GetFirst(ops[..n]) {
        ApplyAtEnd(Run(Open(file), ops[..n]), ops[n]);
      } else {
        if Puts(ops[..n]) == [] {
          NoPuts(ops[..n]);
        }
        BufferingStep(file, Puts(ops[..n]), ops[n]);
        PutsLast(ops);
      }
    }
  }

  lemma NothingRun(file: seq<Byte>)
    ensures Run(Open(file), []) == Buffering(file, Puts([])) && !GetFirst([]) && AllBuffered([])
  {
  }

  lemma PutsLast(ops: seq<Op>)
    requires ops != []
    ensures var op := ops[|ops| - 1];
            Puts(ops) == if op.PutOp? then Puts(ops[..|ops| - 1]) + [PutRecord(op.key, op.value)]
                         else Puts(ops[..|ops| - 1])
  {
  }

  /**
   On a file with contents, no operation ever writes inside the file exactly when a get comes before every put, or
   nothing is written at all. This is read off the operations.
   */
  lemma {:induction false} ReopenSafeExactly(file: seq<Byte>, ops: seq<Op>)
    requires file != []
    ensures NeverClobbers(Open(file), ops) <==> GetFirst(ops) || AllBuffered(ops)
  {
    hide GetFirst, AllBuffered, Buffering, Apply, Puts, Run, Clobbers;
    if ops == [] {
      NothingRun(file);
    } else {
      var n := |ops| - 1;
      var before, op := Run(Open(file), ops[..n]), ops[n];
      ReopenSafeExactly(file, ops[..n]);
      SafeState(file, ops[..n]);
      GetFirstStep(ops);
      AllBufferedStep(ops);
      if GetFirst(ops[..n]) {
        EndNeverClobbers(before, op);
      } else {
        if Puts(ops[..n]) == [] {
          NoPuts(ops[..n]);
        }
        if AllBuffered(ops[..n]) {
          BufferingStep(file, Puts(ops[..n]), op);
        }
      }
    }
  }

  lemma EndNeverClobbers(db: Db, op: Op)
    requires db.pos == |db.file|
    ensures !Clobbers(db, op)
  {
  }

  /** So the log grows by the puts, and by nothing else, exactly under that condition. */
  lemma ReopenAppendsExactly(file: seq<Byte>, ops: seq<Op>)
    requires file != []
    ensures Log(Run(Open(file), ops)) == file + EncodeLog(Puts(ops)) <==> GetFirst(ops) || AllBuffered(ops)
  {
    hide Run, Puts, EncodeLog, NeverClobbers, GetFirst, AllBuffered;
    RunLogExactly(Open(file), ops);
    ReopenSafeExactly(file, ops);
    assert Log(Open(file)) == file;
  }

  // ----- a torn tail -----

  /** Whatever lies behind a log, replay begins with its records. */
  lemma {:induction false} DecodeBehind(rs: seq<Record>, b: seq<Byte>)
    ensures Decode(EncodeLog(rs) + b) == rs + Decode(b)
  {
    hide EncodeRecord, HasRecord, FirstRecord, AfterRecord;
    if rs == [] {
      assert EncodeLog(rs) + b == b;
    } else {
      var rest := EncodeLog(rs[1..]) + b;
      assert EncodeLog(rs) + b == EncodeRecord(rs[0]) + rest;
      HeadOfRecord(rs[0], rest);
      DecodeBehind(rs[1..], b);
      assert rs == [rs[0]] + rs[1..];
    }
  }

  lemma Le32Redone(b: seq<Byte>)
    requires |b| == 4
    ensures Le32(FromLe32(b)) == b
  {
    var b0: nat, b1: nat, b2: nat, b3: nat := b[0], b[1], b[2], b[3];
    var n := FromLe32(b);
    assert n == b0 + 256 * (b1 + 256 * (b2 + 256 * b3));
    assert n / 256 == b1 + 256 * (b2 + 256 * b3) && n % 256 == b0;
    assert n / 256 / 256 == b2 + 256 * b3 && n / 256 % 256 == b1;
    assert n / 0x1_0000 == n / 256 / 256 && n / 0x100_0000 == n / 256 / 256 / 256;
  }

  /** Bytes that begin with a record begin with its encoding. */
  lemma RecordRedone(b: seq<Byte>)
    requires HasRecord(b)
    ensures b == EncodeRecord(FirstRecord(b)) + AfterRecord(b)
  {
    Le32Redone(b[..4]);
    Le32Redone(b[4..8]);
    var k := 8 + KeyLength(b);
    var v := k + ValueLength(b);
    assert b == b[..4] + b[4..8] + b[8..k] + b[k..v] + b[v..];
    hide FromLe32;
  }

  /** Replay takes bytes apart into the records it yields and a rest that holds no whole record. */
  lemma {:induction false} DecodeSplits(b: seq<Byte>) returns (rest: seq<Byte>)
    ensures b == EncodeLog(Decode(b)) + rest && !HasRecord(rest)
    decreases |b|
  {
    hide EncodeRecord, HasRecord, FirstRecord, AfterRecord;
    if HasRecord(b) {
      RecordRedone(b);
      rest := DecodeSplits(AfterRecord(b));
      var r, rs := FirstRecord(b), Decode(AfterRecord(b));
      assert Decode(b) == [r] + rs && ([r] + rs)[1..] == rs;
      assert EncodeRecord(r) + (EncodeLog(rs) + rest) == (EncodeRecord(r) + EncodeLog(rs)) + rest;
    } else {
      rest := b;
      assert Decode(b) == [] && [] + b == b;
    }
  }

  /** Bytes replay as `rs` exactly when they are its encoding and a rest without a whole record. */
  lemma DecodeExactly(b: seq<Byte>, rs: seq<Record>)
    ensures Decode(b) == rs <==> EncodeLog(rs) <= b && !HasRecord(b[|EncodeLog(rs)|..])
  {
    hide HasRecord, Decode, EncodeLog;
    if Decode(b) == rs {
      var rest := DecodeSplits(b);
      assert b[|EncodeLog(rs)|..] == rest;
    }
    if EncodeLog(rs) <= b && !HasRecord(b[|EncodeLog(rs)|..]) {
      assert b == EncodeLog(rs) + b[|EncodeLog(rs)|..];
      DecodeLog(rs, b[|EncodeLog(rs)|..]);
    }
  }

  /**
   A log whose last record was cut short by a crash is opened and read, and then used: what is put goes behind the
   torn bytes. The old records stay readable; what follows them is read from the torn bytes on.
   */
  lemma TornReopened(rs: seq<Record>, torn: seq<Byte>, first: Op, ops: seq<Op>, key: CString, length: nat)
    requires first.GetOp? && !HasRecord(torn) && length < SIZE_MOD
    ensures var db := Run(Apply(Open(EncodeLog(rs) + torn), first), ops);
            var replayed := rs + Decode(torn + EncodeLog(Puts(ops)));
            && Log(db) == EncodeLog(rs) + torn + EncodeLog(Puts(ops)) && db.pos == |db.file|
            && Answer(db, key, length) == match LastWrite(replayed, key)
                                          case None => None
                                          case Some(v) => Some(v[..Copied(|v|, length)])
  {
    hide Puts, EncodeLog, HasRecord, Decode, LastWrite, Table, Lookup;
    var file := EncodeLog(rs) + torn;
    var db0 := Get(Open(file));
    assert db0 == Db(file, |file|, [], 0);
    AtEndIsSafe(db0, ops);
    RunLogExactly(db0, ops);
    RunLength(db0, ops);
    var db := Run(db0, ops);
    assert Log(db0) == file;
    AnswerReplays(db, key, length);
    assert Log(db) == EncodeLog(rs) + (torn + EncodeLog(Puts(ops)));
    DecodeBehind(rs, torn + EncodeLog(Puts(ops)));
  }

  lemma AnswerReplays(db: Db, key: CString, length: nat)
    requires ValidDb(db) && db.pos == |db.file| && length < SIZE_MOD
    ensures Answer(db, key, length) == match LastWrite(Decode(Log(db)), key)
                                       case None => None
                                       case Some(v) => Some(v[..Copied(|v|, length)])
  {
    hide Decode, LastWrite, Table, Lookup;
    FlushAppendsExactly(db);
    assert Get(db).file == Log(Flush(db)) by {
      assert Flush(db).buffer == [];
    }
    TableIsLastWrite(Decode(Log(db)), key);
  }

  /**
   What was put behind a torn tail is read back as it was put exactly when the new records' bytes, shifted by the torn
   ones, begin with themselves and no record is left over: with nothing torn, or with nothing put, for example.
   */
  lemma TornReadsBackExactly(rs: seq<Record>, torn: seq<Byte>, ps: seq<Record>)
    ensures Decode(EncodeLog(rs) + torn + EncodeLog(ps)) == rs + ps <==>
              var log := EncodeLog(ps);
              log <= torn + log && !HasRecord((torn + log)[|log|..])
  {
    hide HasRecord, Decode, EncodeLog;
    var log := EncodeLog(ps);
    assert EncodeLog(rs) + torn + log == EncodeLog(rs) + (torn + log);
    DecodeBehind(rs, torn + log);
    DecodeExactly(torn + log, ps);
    assert rs + Decode(torn + log) == rs + ps ==> Decode(torn + log) == ps by {
      if rs + Decode(torn + log) == rs + ps {
        assert Decode(torn + log) == (rs + Decode(torn + log))[|rs|..] == (rs + ps)[|rs|..] == ps;
      }
    }
  }

  /** A record lost that way: one torn byte, and the put that follows is not found, not even after a flush. */
  lemma TornLosesRecord()
    ensures var db := Flush(Put(Get(Open([1])), [2], [9]));
            !HasRecord([1]) && db.file == [1] + EncodeLog([Record([2], [9])]) && Answer(db, [2], 10) == None
  {
    hide Put, Decode, EncodeLog, EncodeRecord;
    var db0 := Get(Open([1]));
    assert Clip([2]) == [2] && Clip([9]) == [9];
    OneRecordLog(Record([2], [9]));
    PutAppends(db0, [2], [9]);
    FlushAppendsExactly(Put(db0, [2], [9]));
    var db := Flush(Put(db0, [2], [9]));
    assert db.file + [] == db.file;
    NoRecordFound();
    assert Get(db).file == db.file;
  }

  lemma NoRecordFound()
    ensures Decode([1] + EncodeRecord(Record([2], [9]))) == []
  {
    var b := [1] + EncodeRecord(Record([2], [9]));
    assert b == [1, 1, 0, 0, 0, 1, 0, 0, 0, 2, 9];
    assert b[..4] == [1, 1, 0, 0] && FromLe32([1, 1, 0, 0]) == 257;
  }
}
