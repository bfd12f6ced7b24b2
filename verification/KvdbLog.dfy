/** The bytes of a kvdb file: records one after another, and what replaying them yields. */
module KvdbLog {
  type Byte = n: nat | n < 256

  /** A C string: no NUL before its end. */
  type CString = s: seq<Byte> | 0 !in s

  const U32: nat := 0x1_0000_0000
  const SIZE_MOD: nat := 0x1_0000_0000_0000_0000

  type Bytes32 = s: seq<Byte> | |s| < U32

  datatype Record = Record(key: Bytes32, value: Bytes32)

  datatype Option<T> = None | Some(value: T)

  // ----- lengths -----

  /** A uint32_t in memory, low byte first. */
  function Le32(n: nat): (b: seq<Byte>)
    requires n < U32
    ensures |b| == 4
  {
    [n % 256, n / 256 % 256, n / 0x1_0000 % 256, n / 0x100_0000]
  }

  function FromLe32(b: seq<Byte>): (n: nat)
    requires |b| == 4
    ensures n < U32
  {
    var b0: nat, b1: nat, b2: nat, b3: nat := b[0], b[1], b[2], b[3];
    b0 + 256 * b1 + 0x1_0000 * b2 + 0x100_0000 * b3
  }

  lemma Le32Undone(n: nat)
    requires n < U32
    ensures FromLe32(Le32(n)) == n
  {
    assert n / 256 / 256 == n / 0x1_0000 && n / 0x1_0000 / 256 == n / 0x100_0000;
    assert n == 256 * (n / 256) + n % 256;
    assert n / 256 == 256 * (n / 0x1_0000) + n / 256 % 256;
    assert n / 0x1_0000 == 256 * (n / 0x100_0000) + n / 0x1_0000 % 256;
  }

  // ----- encoding and replay -----

  function EncodeRecord(r: Record): (b: seq<Byte>)
    ensures |b| == 8 + |r.key| + |r.value|
  {
    Le32(|r.key|) + Le32(|r.value|) + r.key + r.value
  }

  function EncodeLog(rs: seq<Record>): seq<Byte> {
    if rs == [] then [] else EncodeRecord(rs[0]) + EncodeLog(rs[1..])
  }

  function KeyLength(b: seq<Byte>): nat
    requires |b| >= 8
  {
    FromLe32(b[..4])
  }

  function ValueLength(b: seq<Byte>): nat
    requires |b| >= 8
  {
    FromLe32(b[4..8])
  }

  /** b starts with a whole record. */
  predicate HasRecord(b: seq<Byte>) {
    |b| >= 8 && |b| >= 8 + KeyLength(b) + ValueLength(b)
  }

  function FirstRecord(b: seq<Byte>): Record
    requires HasRecord(b)
  {
    var k := 8 + KeyLength(b);
    Record(b[8..k], b[k..k + ValueLength(b)])
  }

  function AfterRecord(b: seq<Byte>): (rest: seq<Byte>)
    requires HasRecord(b)
    ensures |rest| < |b|
  {
    b[8 + KeyLength(b) + ValueLength(b)..]
  }

  /** Replay: whole records up to the first that is cut short. */
  function Decode(b: seq<Byte>): seq<Record>
    decreases |b|
  {
    if HasRecord(b) then [FirstRecord(b)] + Decode(AfterRecord(b)) else []
  }

  /** The records from here on, one taken off. */
  lemma DecodeStep(done: seq<Record>, b: seq<Byte>)
    ensures done + Decode(b) == if HasRecord(b) then (done + [FirstRecord(b)]) + Decode(AfterRecord(b)) else done
  {
  }

  lemma TableStep(done: seq<Record>, r: Record)
    ensures Table(done + [r]) == Upsert(Table(done), r)
  {
    assert (done + [r])[..|done|] == done;
  }

  lemma HeadOfRecord(r: Record, rest: seq<Byte>)
    ensures var b := EncodeRecord(r) + rest;
            && KeyLength(b) == |r.key| && ValueLength(b) == |r.value|
            && HasRecord(b) && FirstRecord(b) == r && AfterRecord(b) == rest
  {
    var b := EncodeRecord(r) + rest;
    Le32Undone(|r.key|);
    Le32Undone(|r.value|);
    assert b[..4] == Le32(|r.key|) && b[4..8] == Le32(|r.value|);
    assert b[8..8 + |r.key|] == r.key;
    assert b[8 + |r.key|..8 + |r.key| + |r.value|] == r.value;
  }

  lemma {:induction false} EncodeAppend(rs: seq<Record>, qs: seq<Record>)
    ensures EncodeLog(rs + qs) == EncodeLog(rs) + EncodeLog(qs)
  {
    if rs == [] {
      assert rs + qs == qs;
    } else {
      EncodeAppend(rs[1..], qs);
      assert (rs + qs)[1..] == rs[1..] + qs;
    }
  }

  /** A log read back, with anything behind it that is not a whole record, is the records that were written. */
  lemma {:induction false} DecodeLog(rs: seq<Record>, torn: seq<Byte>)
    requires !HasRecord(torn)
    ensures Decode(EncodeLog(rs) + torn) == rs
  {
    if rs == [] {
      assert EncodeLog(rs) + torn == torn;
    } else {
      var rest := EncodeLog(rs[1..]) + torn;
      assert EncodeLog(rs) + torn == EncodeRecord(rs[0]) + rest;
      HeadOfRecord(rs[0], rest);
      DecodeLog(rs[1..], torn);
    }
  }

  lemma DecodeUndoesEncode(rs: seq<Record>)
    ensures Decode(EncodeLog(rs)) == rs
  {
    DecodeLog(rs, []);
    assert EncodeLog(rs) + [] == EncodeLog(rs);
  }

  /** How many records lie wholly inside the first n bytes of the log. */
  function WholeRecords(rs: seq<Record>, n: nat): (m: nat)
    ensures m <= |rs|
  {
    if rs == [] || n < |EncodeRecord(rs[0])| then 0 else 1 + WholeRecords(rs[1..], n - |EncodeRecord(rs[0])|)
  }

  /** WholeRecords counts the longest run of records whose encoding fits. */
  lemma {:induction false} WholeRecordsFit(rs: seq<Record>, n: nat)
    ensures var m := WholeRecords(rs, n);
            && |EncodeLog(rs[..m])| <= n
            && (m < |rs| ==> n < |EncodeLog(rs[..m + 1])|)
  {
    var m := WholeRecords(rs, n);
    if rs == [] || n < |EncodeRecord(rs[0])| {
      if rs != [] {
        assert rs[..1] == [rs[0]] && EncodeLog(rs[..1]) == EncodeRecord(rs[0]) + EncodeLog([]);
      }
    } else {
      WholeRecordsFit(rs[1..], n - |EncodeRecord(rs[0])|);
      assert rs[..m][1..] == rs[1..][..m - 1];
      if m < |rs| {
        assert rs[..m + 1][1..] == rs[1..][..m];
      }
    }
  }

  /** A proper prefix of one record is no record: its length fields are cut off or ask for more. */
  lemma TornRecord(r: Record, n: nat)
    requires n < |EncodeRecord(r)|
    ensures !HasRecord(EncodeRecord(r)[..n])
  {
    var b := EncodeRecord(r);
    if n >= 8 {
      HeadOfRecord(r, []);
      assert b + [] == b;
      assert b[..n][..4] == b[..4] && b[..n][4..8] == b[4..8];
    }
  }

  /** A crash may cut the log anywhere: replay yields exactly the records wholly inside the prefix. */
  lemma {:induction false} DecodePrefix(rs: seq<Record>, n: nat)
    requires n <= |EncodeLog(rs)|
    ensures Decode(EncodeLog(rs)[..n]) == rs[..WholeRecords(rs, n)]
  {
    hide EncodeRecord, HasRecord, FirstRecord, AfterRecord;
    if rs == [] {
    } else if n < |EncodeRecord(rs[0])| {
      assert EncodeLog(rs)[..n] == EncodeRecord(rs[0])[..n];
      TornRecord(rs[0], n);
    } else {
      var m := n - |EncodeRecord(rs[0])|;
      DecodePrefix(rs[1..], m);
      PrefixStep(rs[0], EncodeLog(rs[1..]), m);
      TakeCons(rs, WholeRecords(rs[1..], m));
    }
  }

  lemma PrefixStep(r: Record, log: seq<Byte>, m: nat)
    requires m <= |log|
    ensures Decode((EncodeRecord(r) + log)[..|EncodeRecord(r)| + m]) == [r] + Decode(log[..m])
  {
    assert (EncodeRecord(r) + log)[..|EncodeRecord(r)| + m] == EncodeRecord(r) + log[..m];
    HeadOfRecord(r, log[..m]);
  }

  lemma TakeCons(rs: seq<Record>, m: nat)
    requires rs != [] && m < |rs|
    ensures rs[..m + 1] == [rs[0]] + rs[1..][..m]
  {
  }

  // ----- the entry table -----

  /** What strcmp sees of a NUL-terminated buffer holding s. */
  function CStr(s: seq<Byte>): (c: CString) {
    if s == [] || s[0] == 0 then [] else [s[0]] + CStr(s[1..])
  }

  lemma {:induction false} CStrOfCString(s: CString)
    ensures CStr(s) == s
  {
    if s != [] {
      CStrOfCString(s[1..]);
    }
  }

  /** Index of the entry whose key reads the same as `key`, or the table's length. */
  function Find(table: seq<Record>, key: seq<Byte>): (i: nat)
    ensures i <= |table|
    ensures i < |table| ==> CStr(table[i].key) == CStr(key)
    ensures forall j :: 0 <= j < i ==> CStr(table[j].key) != CStr(key)
  {
    if table == [] || CStr(table[0].key) == CStr(key) then 0 else 1 + Find(table[1..], key)
  }

  /** Replace the value of the entry with the same key, or add an entry. */
  function Upsert(table: seq<Record>, r: Record): seq<Record> {
    var i := Find(table, r.key);
    if i < |table| then table[i := table[i].(value := r.value)] else table + [r]
  }

  function Table(rs: seq<Record>): seq<Record> {
    if rs == [] then [] else Upsert(Table(rs[..|rs| - 1]), rs[|rs| - 1])
  }

  function Lookup(table: seq<Record>, key: seq<Byte>): Option<seq<Byte>> {
    var i := Find(table, key);
    if i < |table| then Some(table[i].value) else None
  }

  /** The value of the last record whose key reads as `key`. */
  function LastWrite(rs: seq<Record>, key: seq<Byte>): Option<seq<Byte>> {
    if rs == [] then None
    else if CStr(rs[|rs| - 1].key) == CStr(key) then Some(rs[|rs| - 1].value)
    else LastWrite(rs[..|rs| - 1], key)
  }

  ghost predicate UniqueKeys(table: seq<Record>) {
    forall i, j :: 0 <= i < j < |table| ==> CStr(table[i].key) != CStr(table[j].key)
  }

  lemma FindUnique(table: seq<Record>, key: seq<Byte>, i: nat)
    requires UniqueKeys(table) && i < |table| && CStr(table[i].key) == CStr(key)
    ensures Find(table, key) == i
  {
    KeysBefore(table, i);
  }

  lemma KeysBefore(table: seq<Record>, i: nat)
    requires UniqueKeys(table) && i < |table|
    ensures forall j :: 0 <= j < i ==> CStr(table[j].key) != CStr(table[i].key)
  {
  }

  lemma FoundKey(table: seq<Record>, key: seq<Byte>)
    requires Find(table, key) < |table|
    ensures CStr(table[Find(table, key)].key) == CStr(key)
  {
  }

  lemma UpsertLookup(table: seq<Record>, r: Record, key: seq<Byte>)
    requires UniqueKeys(table)
    ensures UniqueKeys(Upsert(table, r))
    ensures Lookup(Upsert(table, r), key) == if CStr(r.key) == CStr(key) then Some(r.value) else Lookup(table, key)
  {
    var i, after := Find(table, r.key), Upsert(table, r);
    assert UniqueKeys(after);
    if CStr(r.key) == CStr(key) {
      FindUnique(after, key, i);
    } else {
      var j := Find(table, key);
      if j < |table| {
        FindUnique(after, key, j);
      } else if Find(after, key) < |after| {
        FoundKey(after, key);
      }
    }
  }

  /** The table has one entry for each key, and looking a key up gives its last write. */
  lemma {:induction false} TableIsLastWrite(rs: seq<Record>, key: seq<Byte>)
    ensures UniqueKeys(Table(rs)) && Lookup(Table(rs), key) == LastWrite(rs, key)
  {
    if rs != [] {
      TableIsLastWrite(rs[..|rs| - 1], key);
      UpsertLookup(Table(rs[..|rs| - 1]), rs[|rs| - 1], key);
    }
  }
}
