/** libkvdb/kvdb.c on its own data: a growing byte buffer, a file with an offset, and loops that read it back. */
module Kvdb {
  import opened KvdbLog
  import M = KvdbModel

  /** An open file descriptor. Reads may be short or interrupted; writes are assumed to succeed. */
  class File {
    var bytes: seq<Byte>
    var pos: nat
    // What the kernel will do with the next reads: 0 for EINTR, n for at most n bytes; afterwards it gives all.
    var schedule: seq<nat>

    ghost predicate Valid()
      reads this
    {
      pos <= |bytes|
    }

    constructor (existing: seq<Byte>, reads_: seq<nat>)
      ensures Valid() && bytes == existing && pos == 0 && schedule == reads_
    {
      bytes, pos, schedule := existing, 0, reads_;
    }

    /** read(2): None for EINTR; otherwise some bytes, and none only at the end of the file. */
    method Read(count: nat) returns (got: Option<seq<Byte>>)
      requires Valid() && count > 0
      modifies this`pos, this`schedule
      ensures Valid() && |schedule| <= |old(schedule)|
      ensures got.None? ==> pos == old(pos) && |schedule| < |old(schedule)|
      ensures got.Some? ==> pos == old(pos) + |got.value| && got.value == bytes[old(pos)..pos] && |got.value| <= count
      ensures got == Some([]) ==> pos == |bytes|
    {
      var most := count;
      if schedule != [] {
        most := schedule[0];
        schedule := schedule[1..];
        if most == 0 {
          return None;
        }
      }
      var n := if most < count then most else count;
      n := if n < |bytes| - pos then n else |bytes| - pos;
      got := Some(bytes[pos..pos + n]);
      pos := pos + n;
    }

    /** read_exact: keeps reading until it has `count` bytes or the file ends, whatever the kernel does. */
    method ReadExact(count: nat) returns (got: seq<Byte>)
      requires Valid()
      modifies this`pos, this`schedule
      ensures Valid() && old(pos) <= pos && got == bytes[old(pos)..pos]
      ensures pos == if old(pos) + count <= |bytes| then old(pos) + count else |bytes|
    {
      got := [];
      while |got| < count
        invariant Valid() && old(pos) <= pos && got == bytes[old(pos)..pos] && |got| <= count
        decreases |schedule|, count - |got|
      {
        var n := Read(count - |got|);
        if n == None {
          continue;
        }
        if n == Some([]) {
          break;
        }
        got := got + n.value;
      }
    }

    /** write(2) at the offset. */
    method Write(b: seq<Byte>)
      requires Valid()
      modifies this`bytes, this`pos
      ensures Valid() && bytes == M.WriteAt(old(bytes), old(pos), b) && pos == old(pos) + |b|
    {
      bytes := M.WriteAt(bytes, pos, b);
      pos := pos + |b|;
    }
  }

  class Database {
    const file: File
    var data: array<Byte>  // its length is the buffer's capacity
    var size: nat

    ghost predicate Valid()
      reads this, file
    {
      file.Valid() && size <= data.Length
    }

    ghost function View(): M.Db
      requires Valid()
      reads this, file, data
    {
      M.Db(file.bytes, file.pos, data[..size], data.Length)
    }

    /** kvdb_open. */
    constructor (existing: seq<Byte>, reads_: seq<nat>)
      ensures Valid() && fresh(file) && fresh(data) && View() == M.Open(existing)
    {
      file := new File(existing, reads_);
      data := new Byte[0];
      size := 0;
    }

    /** flush_buffer and kvdb_flush. */
    method Flush()
      requires Valid()
      modifies this`size, file`bytes, file`pos
      ensures Valid() && View() == M.Flush(old(View()))
    {
      if size == 0 {
        return;
      }
      file.Write(data[..size]);
      size := 0;
    }

    /** expand_buffer: realloc to twice the capacity, or more if that is not enough. */
    method ExpandBuffer(minCapacity: nat)
      requires Valid() && minCapacity >= size
      modifies this`data
      ensures Valid() && fresh(data) && data[..size] == old(data[..size])
      ensures var doubled := if old(data.Length) == 0 then M.FIRST_CAPACITY else 2 * old(data.Length);
              data.Length == if doubled < minCapacity then minCapacity else doubled
    {
      var newCapacity := if data.Length != 0 then data.Length * 2 else M.FIRST_CAPACITY;
      if newCapacity < minCapacity {
        newCapacity := minCapacity;
      }
      var newData := new Byte[newCapacity];
      forall i | 0 <= i < size {
        newData[i] := data[i];
      }
      data := newData;
    }

    /** append_to_buffer. */
    method AppendToBuffer(b: seq<Byte>)
      requires Valid()
      modifies this`data, this`size, data
      ensures Valid() && (data == old(data) || fresh(data)) && View() == M.Append(old(View()), b)
    {
      ghost var before := data[..size];
      var needed := size + |b|;
      if needed > data.Length {
        ExpandBuffer(needed);
      }
      assert data[..size] == before;
      forall i | 0 <= i < |b| {
        data[size + i] := b[i];
      }
      size := size + |b|;
      assert data[..size] == before + b;
    }

    /** kvdb_put. */
    method Put(key: CString, value: CString)
      requires Valid()
      modifies this`data, this`size, data, file`bytes, file`pos
      ensures Valid() && (data == old(data) || fresh(data)) && View() == M.Put(old(View()), key, value)
    {
      var keyLen := |key| % U32;
      var valueLen := |value| % U32;
      var totalSize := 8 + keyLen + valueLen;
      if size + totalSize > data.Length || size > M.FLUSH_THRESHOLD {
        Flush();
      }
      AppendToBuffer(Le32(keyLen));
      AppendToBuffer(Le32(valueLen));
      AppendToBuffer(key[..keyLen]);
      AppendToBuffer(value[..valueLen]);
    }

    /** One turn of the reading loop of kvdb_get: a whole record, or None at the first short read. */
    method ReadRecord() returns (r: Option<Record>)
      requires file.Valid()
      modifies file`pos, file`schedule
      ensures file.Valid() && old(file.pos) <= file.pos
      ensures var rest := file.bytes[old(file.pos)..];
              if HasRecord(rest) then r == Some(FirstRecord(rest)) && file.bytes[file.pos..] == AfterRecord(rest)
              else r == None && file.pos == |file.bytes|
    {
      hide HasRecord, FirstRecord, AfterRecord, FromLe32;
      ghost var p, bytes := file.pos, file.bytes;
      var keyLenBytes := file.ReadExact(4);
      if |keyLenBytes| != 4 {
        CutInKeyLength(bytes, p);
        return None;
      }
      var keyLen := FromLe32(keyLenBytes);
      var valueLenBytes := file.ReadExact(4);
      if |valueLenBytes| != 4 {
        CutInValueLength(bytes, p);
        return None;
      }
      var valueLen := FromLe32(valueLenBytes);
      Lengths(bytes, p);
      var key := file.ReadExact(keyLen);
      if |key| != keyLen {
        CutInText(bytes, p);
        return None;
      }
      var value := file.ReadExact(valueLen);
      if |value| != valueLen {
        CutInText(bytes, p);
        return None;
      }
      Whole(bytes, p);
      r := Some(Record(key, value));
    }

    /** The two inner loops of kvdb_get: index of the entry whose key strcmp finds equal, or the number of entries. */
    method FindEntry(entries: seq<Record>, key: seq<Byte>) returns (i: nat)
      ensures i == Find(entries, key)
    {
      i := 0;
      while i < |entries|
        invariant i <= |entries| && Find(entries, key) == i + Find(entries[i..], key)
      {
        if CStr(entries[i].key) == CStr(key) {
          return;
        }
        assert entries[i..][1..] == entries[i + 1..];
        i := i + 1;
      }
    }

    /** The reading loop of kvdb_get: the whole file replayed into the entry table. */
    method ReadAll() returns (entries: seq<Record>)
      requires file.Valid() && file.pos == 0
      modifies file`pos, file`schedule
      ensures file.Valid() && file.pos == |file.bytes| && entries == Table(Decode(file.bytes))
    {
      entries := [];
      ghost var done: seq<Record> := [];
      ghost var log := file.bytes;
      assert log[0..] == log && [] + Decode(log) == Decode(log) && Table([]) == [];
      hide Decode, Table, Upsert, HasRecord, FirstRecord, AfterRecord;
      while true
        invariant file.Valid() && Decode(log) == done + Decode(log[file.pos..]) && entries == Table(done)
        decreases |log| - file.pos
      {
        DecodeStep(done, log[file.pos..]);
        var r := ReadRecord();
        if r == None {
          break;
        }
        TableStep(done, r.value);
        entries := UpdateEntries(entries, r.value);
        done := done + [r.value];
      }
    }

    /** Lines 191-216: replace the value of the entry with this key, or add an entry. */
    method UpdateEntries(entries: seq<Record>, r: Record) returns (after: seq<Record>)
      ensures after == Upsert(entries, r)
    {
      var i := FindEntry(entries, r.key);
      if i < |entries| {
        after := entries[i := entries[i].(value := r.value)];
      } else {
        after := entries + [r];
      }
    }

    /** kvdb_get: the number of bytes copied in front of a NUL, or -1. */
    method Get(key: CString, buf: array<Byte>, length: nat) returns (ret: int)
      requires Valid() && length < SIZE_MOD && buf != data
      // The caller's buffer holds what is copied into it; any buffer of `length` >= 1 bytes does.
      requires M.Fits(View(), key, length, buf.Length)
      modifies this`size, file, buf
      ensures Valid() && View() == M.Get(old(View()))
      ensures match M.Answer(old(View()), key, length)
              case None => ret == -1 && buf[..] == old(buf[..])
              case Some(v) => ret == |v| && |v| < buf.Length && buf[..] == v + [0] + old(buf[|v| + 1..])
    {
      hide Table, Decode, M.Flush, M.Answer, M.Fits;
      M.AnswerIs(View(), key, length, buf.Length);
      Flush();
      file.pos := 0;
      var entries := ReadAll();
      ret := -1;
      var i := FindEntry(entries, key);
      if i < |entries| {
        var toCopy, room := |entries[i].value|, (length - 1) % SIZE_MOD;
        if toCopy > room {
          toCopy := room;
        }
        CopyOut(entries[i].value[..toCopy], buf);
        ret := toCopy;
      }
    }

    /** memcpy of the value and the NUL behind it. */
    method CopyOut(v: seq<Byte>, buf: array<Byte>)
      requires |v| < buf.Length
      modifies buf
      ensures buf[..] == v + [0] + old(buf[|v| + 1..])
    {
      forall j | 0 <= j < |v| {
        buf[j] := v[j];
      }
      buf[|v|] := 0;
    }
  }

  lemma CutInKeyLength(b: seq<Byte>, p: nat)
    requires p <= |b| < p + 4
    ensures !HasRecord(b[p..])
  {
    hide FromLe32;
  }

  lemma CutInValueLength(b: seq<Byte>, p: nat)
    requires p <= |b| < p + 8
    ensures !HasRecord(b[p..])
  {
    hide FromLe32;
  }

  /** The two length fields of what begins at p. */
  lemma Lengths(b: seq<Byte>, p: nat)
    requires p + 8 <= |b|
    ensures KeyLength(b[p..]) == FromLe32(b[p..p + 4]) && ValueLength(b[p..]) == FromLe32(b[p + 4..p + 8])
  {
    hide FromLe32;
    Sliced(b, p, 0, 4);
    Sliced(b, p, 4, 8);
  }

  lemma CutInText(b: seq<Byte>, p: nat)
    requires p + 8 <= |b| < p + 8 + KeyLength(b[p..]) + ValueLength(b[p..])
    ensures !HasRecord(b[p..])
  {
    hide KeyLength, ValueLength;
  }

  lemma Whole(b: seq<Byte>, p: nat)
    requires p + 8 <= |b| && p + 8 + KeyLength(b[p..]) + ValueLength(b[p..]) <= |b|
    ensures HasRecord(b[p..])
    ensures var k := p + 8 + KeyLength(b[p..]);
            var v := k + ValueLength(b[p..]);
            && FirstRecord(b[p..]) == Record(b[p + 8..k], b[k..v]) && AfterRecord(b[p..]) == b[v..]
  {
    hide KeyLength, ValueLength;
    var k := 8 + KeyLength(b[p..]);
    Sliced(b, p, 8, k);
    Sliced(b, p, k, k + ValueLength(b[p..]));
  }

  lemma Sliced(b: seq<Byte>, p: nat, i: nat, j: nat)
    requires p <= |b| && i <= j <= |b| - p
    ensures b[p..][i..j] == b[p + i..p + j]
  {
  }
}
