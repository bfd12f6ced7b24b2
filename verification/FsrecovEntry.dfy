/**
 Directory slots of 32 bytes, read as short or as long entries (Microsoft FAT32 File System Specification 1.03,
 "FAT Directory Structure" and "FAT Long Directory Entries").
 */
module FsrecovEntry {
  type Byte = x: int | 0 <= x < 256
  type Entry = e: seq<Byte> | |e| == 32 witness Blank()

  function Blank(): (e: seq<Byte>)
    ensures |e| == 32
  {
    seq(32, _ => 0)
  }

  const LONG_NAME_FLAGS: int := 0x0F
  const FINAL_LONG_ENTRY: int := 0x40
  const MAX_SIZE: int := 0x400_0000
  const DELETED: int := 0xE5
  const DOT: int := 0x2E

  // ----- the fields -----

  function Word(e: Entry, at: nat): nat
    requires at + 2 <= 32
  {
    (e[at] as int) + 256 * (e[at + 1] as int)
  }

  /** First cluster: high word at 20, low word at 26. */
  function Cluster(e: Entry): nat {
    0x1_0000 * Word(e, 20) + Word(e, 26)
  }

  function FileSize(e: Entry): nat {
    Word(e, 28) + 0x1_0000 * Word(e, 30)
  }

  function Name(e: Entry): (n: seq<Byte>)
    ensures |n| == 11
  {
    e[..11]
  }

  /** Bit 6 of the sequence byte: the last long entry of a name, which is stored first. */
  predicate Final(e: Entry) {
    (e[0] / FINAL_LONG_ENTRY) % 2 == 1
  }

  /** The sequence byte without bit 6. */
  function Number(e: Entry): nat {
    if Final(e) then e[0] - FINAL_LONG_ENTRY else e[0]
  }

  // ----- the validators -----

  /** validate_short_entry, for a volume of `total` clusters. */
  predicate IsShort(e: Entry, total: nat) {
    && e[0] != 0 && e[11] < 0x40 && e[12] == 0
    && (e[0] == DOT || e[0] == DELETED || (2 <= Cluster(e) <= total + 1 && FileSize(e) <= MAX_SIZE))
  }

  /** validate_long_entry. */
  predicate IsLong(e: Entry) {
    0 < Number(e) <= 20 && e[11] == LONG_NAME_FLAGS && e[12] == 0 && Word(e, 26) == 0
  }

  function FourBytes(e: Entry, a: nat, b: nat, c: nat, d: nat): int
    requires a < 32 && b < 32 && c < 32 && d < 32
  {
    (e[a] as int) + 256 * (e[b] as int) + 65536 * (e[c] as int) + 16777216 * (e[d] as int)
  }

  /**
   The validators by the bytes: a long entry has a sequence number of 1 to 20, with or without the mark of the last
   one; a short entry that is neither deleted nor a dot names a cluster of the volume and at most 64 MB.
   */
  lemma SlotBytes(e: Entry, total: nat)
    ensures IsLong(e) <==>
              (1 <= e[0] <= 20 || 65 <= e[0] <= 84) && e[11] == 15 && e[12] == 0 && e[26] == 0 && e[27] == 0
    ensures e[0] != 0x2E && e[0] != 0xE5 ==>
              (IsShort(e, total) <==>
                 && e[0] != 0 && e[11] < 64 && e[12] == 0
                 && 2 <= FourBytes(e, 26, 27, 20, 21) <= total + 1 && FourBytes(e, 28, 29, 30, 31) <= 64 * 1024 * 1024)
    ensures e[0] == 0x2E || e[0] == 0xE5 ==> (IsShort(e, total) <==> e[11] < 64 && e[12] == 0)
  {
  }

  /** A slot that passes both: a long entry whose name characters read as the high word 1. */
  function Ambiguous(): (e: Entry) {
    seq(32, i => if i == 0 || i == 20 then 1 else if i == 11 then LONG_NAME_FLAGS else 0)
  }

  /** The validators exclude each other exactly when every cluster number of the volume fits in 16 bits. */
  lemma KindsExclusive(total: nat)
    ensures (forall e: Entry :: !(IsLong(e) && IsShort(e, total))) <==> total + 1 < 0x1_0000
  {
    if total + 1 >= 0x1_0000 {
      var e := Ambiguous();
      assert e[0] == 1 && e[11] == LONG_NAME_FLAGS && e[12] == 0 && Word(e, 20) == 1 && Word(e, 26) == 0
          && FileSize(e) == 0;
      assert IsLong(e) && IsShort(e, total);
    }
  }

  // ----- the checksum of a short name -----

  function Rotate(c: Byte): Byte {
    (c % 2) * 128 + c / 2
  }

  function Round(c: Byte, b: Byte): Byte {
    (Rotate(c) + b) % 256
  }

  /** The checksum of a name: one rotate-and-add for each byte. */
  function Checksum(name: seq<Byte>): Byte {
    if name == [] then 0 else Round(Checksum(name[..|name| - 1]), name[|name| - 1])
  }

  /** calculate_name_checksum. */
  method CalculateNameChecksum(name: seq<Byte>) returns (chk: Byte)
    requires |name| == 11
    ensures chk == Checksum(name)
  {
    chk := 0;
    for i := 0 to 11
      invariant chk == Checksum(name[..i])
    {
      chk := (chk % 2) * 128 + chk / 2;
      chk := (chk + name[i]) % 256;
      assert name[..i + 1][..i] == name[..i];
    }
    assert name[..11] == name;
  }

  /** The rotation is to the right: it halves the sum, with the bit that falls out worth 128. */
  lemma RotatesRight(c: Byte)
    ensures 2 * Rotate(c) == c + 255 * (c % 2)
  {
    assert c == 2 * (c / 2) + c % 2;
  }

  lemma RotateInjective(c: Byte, c': Byte)
    ensures Rotate(c) == Rotate(c') <==> c == c'
  {
    assert c == 2 * (c / 2) + c % 2 && c' == 2 * (c' / 2) + c' % 2;
  }

  lemma AddInjective(c: Byte, c': Byte, b: Byte, b': Byte)
    ensures (c + b) % 256 == (c' + b) % 256 <==> c == c'
    ensures (c + b) % 256 == (c + b') % 256 <==> b == b'
  {
  }

  /** A round is a bijection of the sum so far, and of the byte added. */
  lemma RoundInjective(c: Byte, c': Byte, b: Byte, b': Byte)
    ensures Round(c, b) == Round(c', b) <==> c == c'
    ensures Round(c, b) == Round(c, b') <==> b == b'
  {
    hide Rotate;
    RotateInjective(c, c');
    AddInjective(Rotate(c), Rotate(c'), b, b');
  }

  /** One more byte: the sum so far is halved, the bit that falls out worth 128, and the byte added. */
  lemma ChecksumOfNext(name: seq<Byte>, b: Byte) returns (half: Byte)
    ensures 2 * half == Checksum(name) + 255 * (Checksum(name) % 2)
    ensures Checksum(name + [b]) == (half + b) % 256
  {
    RotatesRight(Checksum(name));
    half := Rotate(Checksum(name));
    assert (name + [b])[..|name|] == name;
  }

  /** Names that agree on the bytes from n on have equal checksums exactly when their first n bytes do. */
  lemma {:induction false} ChecksumSuffix(a: seq<Byte>, b: seq<Byte>, n: nat)
    requires |a| == |b| && n <= |a| && a[n..] == b[n..]
    ensures Checksum(a) == Checksum(b) <==> Checksum(a[..n]) == Checksum(b[..n])
  {
    hide Round;
    if n == |a| {
      assert a[..n] == a && b[..n] == b;
    } else {
      var m := |a| - 1;
      assert a[m] == a[n..][m - n] == b[m];
      assert a[..m][n..] == a[n..][..m - n] == b[..m][n..];
      ChecksumSuffix(a[..m], b[..m], n);
      assert a[..m][..n] == a[..n] && b[..m][..n] == b[..n];
      RoundInjective(Checksum(a[..m]), Checksum(b[..m]), a[m], a[m]);
    }
  }

  /** Two names of the same length that differ in exactly one byte have different checksums. */
  lemma OneByteMatters(a: seq<Byte>, b: seq<Byte>, i: nat)
    requires |a| == |b| && i < |a| && a[i] != b[i]
    requires forall j :: 0 <= j < |a| && j != i ==> a[j] == b[j]
    ensures Checksum(a) != Checksum(b)
  {
    hide Round;
    assert a[i + 1..] == b[i + 1..] && a[..i] == b[..i];
    assert a[..i + 1][..i] == a[..i] && b[..i + 1][..i] == b[..i];
    RoundInjective(Checksum(a[..i]), Checksum(b[..i]), a[i], b[i]);
    ChecksumSuffix(a, b, i + 1);
  }

  // ----- which parts of a name go together -----

  /** entries_compatible: the first slot of a prefix and the first slot of a suffix. */
  predicate Compatible(first: Entry, second: Entry, total: nat) {
    if IsLong(second) then first[13] == second[13]
    else IsShort(second, total) && first[13] == Checksum(Name(second))
  }
}
