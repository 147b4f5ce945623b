/**
 Disk addressing in kernel/hd.c: the partition tables that partition() collects, and the split
 of a sector number over the registers of an ATA disk in hd_rdwt() and get_part_table().
 */
module Disks {
  type byte = b: nat | b < 256

  const SECTOR_SIZE: nat := 512

  type Sector = s: seq<byte> | |s| == SECTOR_SIZE witness seq(512, i => 0)

  const NR_PART_PER_DRIVE: nat := 4
  const NR_PRIM_PER_DRIVE: nat := 5
  const NR_SUB_PER_PART: nat := 16
  const NR_SUB_PER_DRIVE: nat := 64
  const MAX_PRIM: nat := 9
  const MINOR_HD1A: nat := 0x10
  const PARTITION_TABLE_OFFSET: nat := 0x1BE
  const NO_PART: byte := 0x00
  const EXT_PART: byte := 0x05

  /** Sector numbers have 28 bits. */
  const LBA_LIMIT: nat := 0x1000_0000

  const WORD_LIMIT: nat := 0x1_0000_0000

  // ---------------------------------------------------------------- words in memory

  /** A 32-bit word as it stands in memory, lowest byte first. */
  function WordBytes(n: nat): seq<byte>
  {
    [n % 0x100, n / 0x100 % 0x100, n / 0x1_0000 % 0x100, n / 0x100_0000 % 0x100]
  }

  // ---------------------------------------------------------------- the device

  /** struct hd_cmd, without the features and the command, which is always a read. */
  datatype HdCmd = HdCmd(count: byte, lbaLow: byte, lbaMid: byte, lbaHigh: byte, device: byte)

  /** The sector that a command addresses. */
  function LbaOf(cmd: HdCmd): nat {
    cmd.lbaLow + 0x100 * cmd.lbaMid + 0x1_0000 * cmd.lbaHigh + 0x100_0000 * (cmd.device % 16)
  }

  /** A count of 0 stands for 256 sectors. */
  function SectorsOf(count: byte): nat {
    if count == 0 then 256 else count
  }

  /** The command that the driver makes up for `sectors` sectors from `sectNr`, drive 0, LBA mode. */
  function CommandFor(sectNr: nat, sectors: nat): HdCmd {
    HdCmd(sectors % 256, sectNr % 256, sectNr / 0x100 % 256, sectNr / 0x1_0000 % 256,
          0xE0 + sectNr / 0x100_0000 % 16)
  }

  /** The registers hold the low 28 bits of the sector number. */
  lemma CommandAddresses(sectNr: nat, sectors: nat)
    ensures LbaOf(CommandFor(sectNr, sectors)) == sectNr % LBA_LIMIT
  {
    var a, b := sectNr / 0x100, sectNr / 0x1_0000;
    assert b == a / 0x100 && sectNr / 0x100_0000 == b / 0x100;
  }

  /** Register by register: the bytes of the sector number, the highest cut to 4 bits, drive 0, LBA mode. */
  lemma RegistersAreBytes(sectNr: nat, sectors: nat)
    ensures var cmd, w := CommandFor(sectNr, sectors), WordBytes(sectNr);
            && cmd.lbaLow == w[0] && cmd.lbaMid == w[1] && cmd.lbaHigh == w[2] && cmd.device % 16 == w[3] % 16
            && cmd.device / 16 == 0xE
  {
    var top := sectNr / 0x100_0000;
    assert top % 0x100 % 16 == top % 16;
  }

  /** The disk transfers as many sectors as the driver waits for exactly up to 256 of them. */
  lemma EnoughSectorsIff(sectors: nat)
    ensures SectorsOf(CommandFor(0, sectors).count) >= sectors <==> sectors <= 256
  {
  }

  /** An ATA disk that is reading: the next sector and how many are still to be transferred. */
  class Disk {
    const sectors: seq<Sector>
    var next: nat
    var left: nat

    constructor (sectors: seq<Sector>)
      ensures this.sectors == sectors && left == 0
    {
      this.sectors, next, left := sectors, 0, 0;
    }

    /** hd_cmd_out with ATA_READ */
    method Command(cmd: HdCmd)
      modifies this
      ensures next == LbaOf(cmd) && left == SectorsOf(cmd.count)
    {
      next, left := LbaOf(cmd), SectorsOf(cmd.count);
    }

    /** interrupt_wait and port_read: one sector. No interrupt comes when none is left. */
    method Transfer(hdbuf: array<byte>)
      requires left > 0 && next < |sectors| && hdbuf.Length >= SECTOR_SIZE
      modifies this, hdbuf
      ensures hdbuf[..SECTOR_SIZE] == sectors[old(next)]
      ensures next == old(next) + 1 && left == old(left) - 1
    {
      var s := sectors[next];
      forall i | 0 <= i < SECTOR_SIZE {
        hdbuf[i] := s[i];
      }
      next, left := next + 1, left - 1;
    }
  }

  // ---------------------------------------------------------------- partition tables

  /** The fields of struct part_ent that the driver uses. */
  datatype PartEnt = PartEnt(sysId: byte, startSect: nat, nrSects: nat)

  /** struct part_info */
  datatype PartInfo = PartInfo(base: nat, size: nat)

  function Word(s: Sector, at: nat): nat
    requires at + 4 <= SECTOR_SIZE
  {
    var b0: nat, b1: nat, b2: nat, b3: nat := s[at], s[at + 1], s[at + 2], s[at + 3];
    b0 + 0x100 * b1 + 0x1_0000 * b2 + 0x100_0000 * b3
  }

  /** Entry `i` of the partition table in a sector. */
  function Entry(s: Sector, i: nat): PartEnt
    requires i < NR_PART_PER_DRIVE
  {
    var at := PARTITION_TABLE_OFFSET + 16 * i;
    PartEnt(s[at + 4], Word(s, at + 8), Word(s, at + 12))
  }

  lemma WordRoundTrip(s: Sector, at: nat, n: nat)
    requires at + 4 <= SECTOR_SIZE && n < WORD_LIMIT && s[at..at + 4] == WordBytes(n)
    ensures Word(s, at) == n
  {
    var w := s[at..at + 4];
    assert s[at] == w[0] && s[at + 1] == w[1] && s[at + 2] == w[2] && s[at + 3] == w[3];
    var a, b, c := n / 0x100, n / 0x1_0000, n / 0x100_0000;
    assert n == 0x100 * a + n % 0x100 && a == 0x100 * b + a % 0x100 && b == 0x100 * c + b % 0x100 by {
      assert b == a / 0x100 && c == b / 0x100;
    }
  }

  /**
   struct part_ent as its 16 bytes: `head` are the boot indicator and the start in cylinders,
   heads and sectors, `mid` the end in these terms.
   */
  function EntryBytes(head: seq<byte>, mid: seq<byte>, e: PartEnt): seq<byte> {
    head + [e.sysId] + mid + WordBytes(e.startSect) + WordBytes(e.nrSects)
  }

  lemma SliceOfSlice(s: seq<byte>, at: nat, n: nat, i: nat, j: nat)
    requires at + n <= |s| && i <= j <= n
    ensures s[at..at + n][i..j] == s[at + i..at + j]
  {
    var a, b := s[at..at + n][i..j], s[at + i..at + j];
    forall k | 0 <= k < j - i ensures a[k] == b[k] {
      assert a[k] == s[at..at + n][i + k] == s[at + (i + k)];
    }
  }

  lemma PartsOfEntry(head: seq<byte>, mid: seq<byte>, e: PartEnt)
    requires |head| == 4 && |mid| == 3
    ensures var b := EntryBytes(head, mid, e);
            && |b| == 16 && b[4] == e.sysId && b[8..12] == WordBytes(e.startSect) && b[12..16] == WordBytes(e.nrSects)
  {
    assert |WordBytes(e.startSect)| == 4 == |WordBytes(e.nrSects)|;
    hide WordBytes;
    var front := head + [e.sysId] + mid;
    assert |front| == 8;
    assert (front + WordBytes(e.startSect))[8..] == WordBytes(e.startSect);
  }

  /** The entry read is the one whose bytes stand in the sector. */
  lemma EntryRoundTrip(s: Sector, i: nat, head: seq<byte>, mid: seq<byte>, e: PartEnt)
    requires i < NR_PART_PER_DRIVE && |head| == 4 && |mid| == 3
    requires e.startSect < WORD_LIMIT && e.nrSects < WORD_LIMIT
    requires var at := PARTITION_TABLE_OFFSET + 16 * i; s[at..at + 16] == EntryBytes(head, mid, e)
    ensures Entry(s, i) == e
  {
    hide WordBytes, Word;
    var at := PARTITION_TABLE_OFFSET + 16 * i;
    var bytes := s[at..at + 16];
    PartsOfEntry(head, mid, e);
    SliceOfSlice(s, at, 16, 8, 12);
    SliceOfSlice(s, at, 16, 12, 16);
    assert s[at + 4] == bytes[4];
    WordRoundTrip(s, at + 8, e.startSect);
    WordRoundTrip(s, at + 12, e.nrSects);
  }

  function TableIn(s: Sector): (t: seq<PartEnt>)
    ensures |t| == NR_PART_PER_DRIVE
  {
    [Entry(s, 0), Entry(s, 1), Entry(s, 2), Entry(s, 3)]
  }

  function SectorAt(disk: seq<Sector>, lba: nat): Sector {
    if lba < |disk| then disk[lba] else seq(512, i => 0)
  }

  /**
   The logical partitions of the extended partition at `ext`, read from the table in sector `s`
   on: each table holds one of them, at a distance from the table, and the distance of the next
   table from the start of the extended partition. At most `n` are read.
   */
  ghost function Logicals(disk: seq<Sector>, ext: nat, s: nat, n: nat): (l: seq<PartInfo>)
    ensures |l| <= n
    decreases n
  {
    if n == 0 then []
    else
      var t := TableIn(SectorAt(disk, s));
      [PartInfo(s + t[0].startSect, t[0].nrSects)] +
      if t[1].sysId == NO_PART then [] else Logicals(disk, ext, ext + t[1].startSect, n - 1)
  }

  /** The sector of the `i`-th table of the chain that starts at `ext`. */
  ghost function TableSector(disk: seq<Sector>, ext: nat, i: nat): nat {
    if i == 0 then ext
    else ext + TableIn(SectorAt(disk, TableSector(disk, ext, i - 1)))[1].startSect
  }

  ghost function ChainTable(disk: seq<Sector>, ext: nat, i: nat): seq<PartEnt> {
    TableIn(SectorAt(disk, TableSector(disk, ext, i)))
  }

  /** The logical partition of the `i`-th table, by its absolute start sector. */
  ghost function InfoAt(disk: seq<Sector>, ext: nat, i: nat): PartInfo {
    var e := ChainTable(disk, ext, i)[0];
    PartInfo(TableSector(disk, ext, i) + e.startSect, e.nrSects)
  }

  /** The `i`-th table names a successor. */
  ghost predicate HasNext(disk: seq<Sector>, ext: nat, i: nat) {
    ChainTable(disk, ext, i)[1].sysId != NO_PART
  }

  /**
   A table of the chain in bytes: its first entry is the logical partition, counted from the
   table, its second the next table, counted from the start of the extended partition.
   */
  lemma ChainFromBytes(disk: seq<Sector>, ext: nat, i: nat, head: seq<byte>, mid: seq<byte>, part: PartEnt,
                       head': seq<byte>, mid': seq<byte>, link: PartEnt)
    requires |head| == |head'| == 4 && |mid| == |mid'| == 3 && TableSector(disk, ext, i) < |disk|
    requires part.startSect < WORD_LIMIT && part.nrSects < WORD_LIMIT
    requires link.startSect < WORD_LIMIT && link.nrSects < WORD_LIMIT
    requires var s := disk[TableSector(disk, ext, i)];
             && s[0x1BE..0x1CE] == EntryBytes(head, mid, part) && s[0x1CE..0x1DE] == EntryBytes(head', mid', link)
    ensures InfoAt(disk, ext, i) == PartInfo(TableSector(disk, ext, i) + part.startSect, part.nrSects)
    ensures HasNext(disk, ext, i) <==> link.sysId != 0
    ensures TableSector(disk, ext, i + 1) == ext + link.startSect
  {
    hide Entry, EntryBytes;
    var s := disk[TableSector(disk, ext, i)];
    EntryRoundTrip(s, 0, head, mid, part);
    EntryRoundTrip(s, 1, head', mid', link);
  }

  /** `l` are the partitions of tables `k`, `k + 1` and so on, as far as they are linked. */
  ghost predicate IsChainFrom(disk: seq<Sector>, ext: nat, k: nat, l: seq<PartInfo>) {
    && (forall i :: k <= i < k + |l| ==> InfoAt(disk, ext, i) == l[i - k])
    && (forall i :: k <= i < k + |l| - 1 ==> HasNext(disk, ext, i))
  }

  lemma ChainExtended(disk: seq<Sector>, ext: nat, k: nat, l: seq<PartInfo>)
    requires IsChainFrom(disk, ext, k + 1, l) && HasNext(disk, ext, k)
    ensures IsChainFrom(disk, ext, k, [InfoAt(disk, ext, k)] + l)
  {
    hide InfoAt, HasNext;
  }

  lemma SingletonChain(disk: seq<Sector>, ext: nat, k: nat)
    ensures IsChainFrom(disk, ext, k, [InfoAt(disk, ext, k)])
  {
    hide InfoAt, HasNext;
  }

  lemma {:induction false} LogicalsUnfold(disk: seq<Sector>, ext: nat, k: nat, n: nat)
    requires n > 0
    ensures Logicals(disk, ext, TableSector(disk, ext, k), n) ==
              if HasNext(disk, ext, k) && n > 1
              then [InfoAt(disk, ext, k)] + Logicals(disk, ext, TableSector(disk, ext, k + 1), n - 1)
              else [InfoAt(disk, ext, k)]
  {
    hide TableIn, SectorAt, Entry;
  }

  lemma {:induction false} LogicalsFrom(disk: seq<Sector>, ext: nat, k: nat, n: nat)
    requires n > 0
    ensures var l := Logicals(disk, ext, TableSector(disk, ext, k), n);
            && 1 <= |l| <= n && IsChainFrom(disk, ext, k, l)
            && (|l| < n ==> !HasNext(disk, ext, k + |l| - 1))
    decreases n
  {
    hide Logicals, TableSector, HasNext, InfoAt, IsChainFrom, ChainTable, TableIn, Entry;
    LogicalsUnfold(disk, ext, k, n);
    if HasNext(disk, ext, k) && n > 1 {
      var rest := Logicals(disk, ext, TableSector(disk, ext, k + 1), n - 1);
      LogicalsFrom(disk, ext, k + 1, n - 1);
      ChainExtended(disk, ext, k, rest);
    } else {
      SingletonChain(disk, ext, k);
    }
  }

  /**
   Which logical partitions are found: one for each table of the chain, as far as every table
   before it names a successor, up to 16; with their absolute start sectors.
   */
  lemma LogicalsAreChain(disk: seq<Sector>, ext: nat)
    ensures var l := Logicals(disk, ext, ext, NR_SUB_PER_PART);
            && 1 <= |l| <= NR_SUB_PER_PART && IsChainFrom(disk, ext, 0, l)
            && (|l| < NR_SUB_PER_PART ==> !HasNext(disk, ext, |l| - 1))
  {
    hide Logicals, HasNext, InfoAt, IsChainFrom;
    LogicalsFrom(disk, ext, 0, NR_SUB_PER_PART);
    assert TableSector(disk, ext, 0) == ext;
  }

  /** All tables of the chain are on the disk, and no sector number overflows a word. */
  ghost predicate ChainOnDisk(disk: seq<Sector>, ext: nat, s: nat, n: nat)
    decreases n
  {
    n == 0 ||
    (&& s < |disk|
     && var t := TableIn(SectorAt(disk, s));
        && s + t[0].startSect < WORD_LIMIT
        && (t[1].sysId == NO_PART || ChainOnDisk(disk, ext, ext + t[1].startSect, n - 1)))
  }

  lemma ChainStep(disk: seq<Sector>, ext: nat, s: nat, n: nat)
    requires n > 0 && ChainOnDisk(disk, ext, s, n)
    ensures s < |disk|
    ensures var t := TableIn(disk[s]);
            && s + t[0].startSect < WORD_LIMIT
            && (t[1].sysId != NO_PART ==> ChainOnDisk(disk, ext, ext + t[1].startSect, n - 1))
            && Logicals(disk, ext, s, n) ==
                 [PartInfo(s + t[0].startSect, t[0].nrSects)] +
                 if t[1].sysId == NO_PART then [] else Logicals(disk, ext, ext + t[1].startSect, n - 1)
  {
  }

  /** The table of the disk, and the chains of its extended partitions, are on the disk. */
  ghost predicate TablesOnDisk(disk: seq<Sector>) {
    && 0 < |disk| < LBA_LIMIT
    && forall i :: 0 <= i < NR_PART_PER_DRIVE && Entry(disk[0], i).sysId == EXT_PART ==>
         ChainOnDisk(disk, Entry(disk[0], i).startSect, Entry(disk[0], i).startSect, NR_SUB_PER_PART)
  }

  /** The logical partitions of the extended partition in entry `j` of the disk's table, if it is one. */
  ghost function LogicalsOf(disk: seq<Sector>, j: nat): (l: seq<PartInfo>)
    requires disk != [] && j < NR_PART_PER_DRIVE
    ensures |l| <= NR_SUB_PER_PART
  {
    var e := Entry(disk[0], j);
    if e.sysId == EXT_PART then Logicals(disk, e.startSect, e.startSect, NR_SUB_PER_PART) else []
  }

  /** Entry `k` of the range of the logical table that belongs to entry `j` of the disk's table. */
  ghost function SubAt(v: seq<PartInfo>, j: nat, k: nat): PartInfo
    requires |v| == NR_SUB_PER_DRIVE && j < NR_PART_PER_DRIVE && k < NR_SUB_PER_PART
  {
    v[NR_SUB_PER_PART * j + k]
  }

  /** The range that belongs to entry `j` shows its logical partitions. */
  ghost predicate RangeFilled(disk: seq<Sector>, before: seq<PartInfo>, after: seq<PartInfo>, j: nat)
    requires disk != [] && j < NR_PART_PER_DRIVE && |before| == |after| == NR_SUB_PER_DRIVE
  {
    forall k :: 0 <= k < NR_SUB_PER_PART ==>
      SubAt(after, j, k) ==
        if k < |LogicalsOf(disk, j)| then LogicalsOf(disk, j)[k] else SubAt(before, j, k)
  }

  ghost predicate RangeUntouched(before: seq<PartInfo>, after: seq<PartInfo>, j: nat)
    requires j < NR_PART_PER_DRIVE && |before| == |after| == NR_SUB_PER_DRIVE
  {
    forall k :: 0 <= k < NR_SUB_PER_PART ==> SubAt(after, j, k) == SubAt(before, j, k)
  }

  /** The first `n` ranges are filled and the others untouched. */
  ghost predicate FilledUpTo(disk: seq<Sector>, before: seq<PartInfo>, after: seq<PartInfo>, n: nat)
    requires disk != [] && |before| == |after| == NR_SUB_PER_DRIVE
  {
    forall j :: 0 <= j < NR_PART_PER_DRIVE ==>
      if j < n then RangeFilled(disk, before, after, j) else RangeUntouched(before, after, j)
  }

  lemma PlacedInRange(v: seq<PartInfo>, i: nat, l: seq<PartInfo>, j: nat, k: nat)
    requires |v| == NR_SUB_PER_DRIVE && |l| <= NR_SUB_PER_PART
    requires i < NR_PART_PER_DRIVE && j < NR_PART_PER_DRIVE && k < NR_SUB_PER_PART
    ensures NR_SUB_PER_PART * i + |l| <= |v|
    ensures SubAt(Placed(v, NR_SUB_PER_PART * i, l), j, k) == if j == i && k < |l| then l[k] else SubAt(v, j, k)
  {
  }

  /** Filling the range of entry `i` leaves the ranges of the other entries alone. */
  lemma FillRange(disk: seq<Sector>, before: seq<PartInfo>, v: seq<PartInfo>, i: nat)
    requires disk != [] && i < NR_PART_PER_DRIVE && |before| == |v| == NR_SUB_PER_DRIVE
    requires FilledUpTo(disk, before, v, i)
    ensures NR_SUB_PER_PART * i + |LogicalsOf(disk, i)| <= |v|
    ensures FilledUpTo(disk, before, Placed(v, NR_SUB_PER_PART * i, LogicalsOf(disk, i)), i + 1)
  {
    hide LogicalsOf, Placed, SubAt;
    var l := LogicalsOf(disk, i);
    var w := Placed(v, NR_SUB_PER_PART * i, l);
    forall j | 0 <= j < NR_PART_PER_DRIVE
      ensures if j < i + 1 then RangeFilled(disk, before, w, j) else RangeUntouched(before, w, j)
    {
      forall k | 0 <= k < NR_SUB_PER_PART
        ensures SubAt(w, j, k) == if j == i && k < |l| then l[k] else SubAt(v, j, k)
      {
        PlacedInRange(v, i, l, j, k);
      }
      assert if j < i then RangeFilled(disk, before, v, j) else RangeUntouched(before, v, j);
      if j == i {
        assert LogicalsOf(disk, j) == l;
      }
    }
  }

  /** `v` with the entries of `l` in place of its own from `first` on. */
  ghost function Placed<T>(v: seq<T>, first: nat, l: seq<T>): (w: seq<T>)
    requires first + |l| <= |v|
    ensures |w| == |v|
    ensures forall k :: 0 <= k < |v| ==> w[k] == if first <= k < first + |l| then l[k - first] else v[k]
  {
    v[..first] + l + v[first + |l|..]
  }

  lemma PlacedNext<T>(v: seq<T>, first: nat, l: seq<T>, x: T)
    requires first + |l| < |v|
    ensures Placed(v, first, l)[first + |l| := x] == Placed(v, first, l + [x])
  {
  }

  lemma SubIsLogical(disk: seq<Sector>, before: seq<PartInfo>, after: seq<PartInfo>, j: nat, k: nat)
    requires disk != [] && |before| == |after| == NR_SUB_PER_DRIVE
    requires FilledUpTo(disk, before, after, NR_PART_PER_DRIVE)
    requires j < NR_PART_PER_DRIVE && k < |LogicalsOf(disk, j)|
    ensures NR_SUB_PER_PART * j + k < NR_SUB_PER_DRIVE
    ensures after[NR_SUB_PER_PART * j + k] == LogicalsOf(disk, j)[k]
  {
    hide LogicalsOf, RangeUntouched;
    assert RangeFilled(disk, before, after, j);
    assert SubAt(after, j, k) == LogicalsOf(disk, j)[k];
  }

  lemma LogicalIsChainEntry(disk: seq<Sector>, j: nat, k: nat)
    requires disk != [] && j < NR_PART_PER_DRIVE
    requires Entry(disk[0], j).sysId == EXT_PART && k < |LogicalsOf(disk, j)|
    ensures LogicalsOf(disk, j)[k] == InfoAt(disk, Entry(disk[0], j).startSect, k)
  {
    hide Logicals, InfoAt, Entry, HasNext;
    LogicalsAreChain(disk, Entry(disk[0], j).startSect);
  }

  // ---------------------------------------------------------------- bytes of a disk

  function Min(a: nat, b: nat): nat {
    if a < b then a else b
  }

  /** The number of sectors that hold `cnt` bytes from the start of a sector. */
  function SectorsFor(cnt: nat): nat {
    (cnt + SECTOR_SIZE - 1) / SECTOR_SIZE
  }

  /** The minor devices of the first drive: hd0 to hd4, and hd1a to hd4p. */
  predicate IsMinor(device: nat) {
    device < NR_PRIM_PER_DRIVE || MINOR_HD1A <= device < MINOR_HD1A + NR_SUB_PER_DRIVE
  }

  /** `n` bytes of the disk from byte `from` on, as if its sectors were one sequence. */
  ghost function Bytes(disk: seq<Sector>, from: nat, n: nat): (b: seq<byte>)
    requires from + n <= |disk| * SECTOR_SIZE
    ensures |b| == n
  {
    seq(n, i requires 0 <= i < n => disk[(from + i) / SECTOR_SIZE][(from + i) % SECTOR_SIZE])
  }

  /** The bytes of the next sector are those at its index. */
  lemma BytesNext(disk: seq<Sector>, start: nat, k: nat, m: nat)
    requires start + k < |disk| && m <= SECTOR_SIZE
    ensures Bytes(disk, start * SECTOR_SIZE, SECTOR_SIZE * k + m)
            == Bytes(disk, start * SECTOR_SIZE, SECTOR_SIZE * k) + disk[start + k][..m]
  {
    var all, s := Bytes(disk, start * SECTOR_SIZE, SECTOR_SIZE * k + m), disk[start + k];
    forall i | 0 <= i < m ensures all[SECTOR_SIZE * k + i] == s[..m][i] {
      var at := start * SECTOR_SIZE + SECTOR_SIZE * k + i;
      assert at == (start + k) * SECTOR_SIZE + i;
      assert at / SECTOR_SIZE == start + k && at % SECTOR_SIZE == i;
    }
  }

  lemma PlacedAppend<T>(v: seq<T>, first: nat, a: seq<T>, b: seq<T>)
    requires first + |a| + |b| <= |v|
    ensures Placed(Placed(v, first, a), first + |a|, b) == Placed(v, first, a + b)
  {
  }

  /** `k` sectors hold all of the bytes exactly from SectorsFor on. */
  lemma SectorsCover(cnt: nat, k: nat)
    ensures SECTOR_SIZE * k >= cnt <==> k >= SectorsFor(cnt)
  {
  }

  lemma StartPlaced(disk: seq<Sector>, start: nat, before: seq<byte>, la: nat)
    requires start <= |disk| && la <= |before|
    ensures before == Placed(before, la, Bytes(disk, start * SECTOR_SIZE, 0))
  {
  }

  /** One more round of the loop of hd_rdwt. */
  lemma NextSector(disk: seq<Sector>, start: nat, k: nat, cnt: nat, before: seq<byte>, la: nat)
    requires SECTOR_SIZE * k < cnt && start + SectorsFor(cnt) <= |disk| && la + cnt <= |before|
    ensures start + k < |disk| && k < SectorsFor(cnt)
    ensures var m := Min(SECTOR_SIZE, cnt - SECTOR_SIZE * k);
            && SECTOR_SIZE * k + m == Min(cnt, SECTOR_SIZE * (k + 1))
            && Placed(Placed(before, la, Bytes(disk, start * SECTOR_SIZE, SECTOR_SIZE * k)),
                      la + SECTOR_SIZE * k, disk[start + k][..m])
               == Placed(before, la, Bytes(disk, start * SECTOR_SIZE, Min(cnt, SECTOR_SIZE * (k + 1))))
  {
    var m := Min(SECTOR_SIZE, cnt - SECTOR_SIZE * k);
    BytesNext(disk, start, k, m);
    PlacedAppend(before, la, Bytes(disk, start * SECTOR_SIZE, SECTOR_SIZE * k), disk[start + k][..m]);
  }

  // ---------------------------------------------------------------- devices, by the disk alone

  /** Entry `j` of the disk's table is an extended partition whose chain has a `k`-th table. */
  ghost predicate IsLogical(disk: seq<Sector>, j: nat, k: nat)
    requires disk != []
  {
    && j < NR_PART_PER_DRIVE && k < NR_SUB_PER_PART && Entry(disk[0], j).sysId == EXT_PART
    && forall i :: 0 <= i < k ==> HasNext(disk, Entry(disk[0], j).startSect, i)
  }

  /**
   Minor device `device` begins at sector `start`, as the tables on the disk say: hd0 is the whole
   disk, hd1 to hd4 are the entries of its table, and hd1a and the following 15 minor devices,
   hd2a and so on, the logical partitions of the extended ones.
   */
  ghost predicate BeginsAt(disk: seq<Sector>, device: nat, start: nat)
    requires disk != []
  {
    || (device == 0 && start == 0)
    || (&& 1 <= device <= NR_PART_PER_DRIVE && Entry(disk[0], device - 1).sysId != NO_PART
        && start == Entry(disk[0], device - 1).startSect)
    || exists j: nat, k: nat ::
         && IsLogical(disk, j, k) && device == MINOR_HD1A + NR_SUB_PER_PART * j + k
         && var ext := Entry(disk[0], j).startSect;
            start == TableSector(disk, ext, k) + ChainTable(disk, ext, k)[0].startSect
  }

  lemma LogicalIsFound(disk: seq<Sector>, j: nat, k: nat)
    requires disk != [] && IsLogical(disk, j, k)
    ensures k < |LogicalsOf(disk, j)|
  {
    hide Logicals, InfoAt, Entry, HasNext;
    LogicalsAreChain(disk, Entry(disk[0], j).startSect);
  }

  lemma ByteOfDevice(disk: seq<Sector>, start: nat, pos: nat, n: nat, i: nat)
    requires start * SECTOR_SIZE + pos + n <= |disk| * SECTOR_SIZE && i < n
    ensures start + (pos + i) / SECTOR_SIZE < |disk|
    ensures Bytes(disk, start * SECTOR_SIZE + pos, n)[i]
            == disk[start + (pos + i) / SECTOR_SIZE][(pos + i) % SECTOR_SIZE]
  {
    var at := start * SECTOR_SIZE + pos + i;
    assert at / SECTOR_SIZE == start + (pos + i) / SECTOR_SIZE && at % SECTOR_SIZE == (pos + i) % SECTOR_SIZE;
  }

  /** struct hd_info of the only drive. */
  class HdDriver {
    const disk: Disk
    const hdbuf: array<byte>
    const primary: array<PartInfo>
    const logical: array<PartInfo>
    var openCnt: int

    ghost predicate Valid() {
      && hdbuf.Length == 2 * SECTOR_SIZE
      && primary.Length == NR_PRIM_PER_DRIVE && logical.Length == NR_SUB_PER_DRIVE
      && primary != logical && |disk.sectors| < LBA_LIMIT
    }

    /** init_hd */
    constructor (disk: Disk)
      requires |disk.sectors| < LBA_LIMIT
      ensures Valid() && this.disk == disk && fresh(hdbuf) && fresh(primary) && fresh(logical)
      ensures forall i :: 0 <= i < NR_PRIM_PER_DRIVE ==> primary[i] == PartInfo(0, 0)
      ensures forall i :: 0 <= i < NR_SUB_PER_DRIVE ==> logical[i] == PartInfo(0, 0)
      ensures openCnt == 0
    {
      this.disk, openCnt := disk, 0;
      hdbuf := new byte[2 * SECTOR_SIZE];
      primary := new PartInfo[NR_PRIM_PER_DRIVE](_ => PartInfo(0, 0));
      logical := new PartInfo[NR_SUB_PER_DRIVE](_ => PartInfo(0, 0));
    }

    /** Split the sector number over the registers and tell the disk to read. */
    method Issue(sectNr: nat, sectors: nat)
      modifies disk
      ensures disk.next == sectNr % LBA_LIMIT
      ensures sectors <= 256 ==> disk.left >= sectors && disk.left > 0
    {
      CommandAddresses(sectNr, sectors);
      disk.Command(CommandFor(sectNr, sectors));
    }

    method GetPartTable(sectNr: nat) returns (entries: seq<PartEnt>)
      requires Valid() && sectNr < |disk.sectors|
      modifies disk, hdbuf
      ensures entries == TableIn(disk.sectors[sectNr])
    {
      Issue(sectNr, 1);
      disk.Transfer(hdbuf);
      entries := TableIn(hdbuf[..SECTOR_SIZE]);
    }

    /** partition() with P_EXTENDED, for primary partition `j`. */
    method PartitionExtended(j: nat)
      requires Valid() && 1 <= j <= NR_PART_PER_DRIVE
      requires ChainOnDisk(disk.sectors, primary[j].base, primary[j].base, NR_SUB_PER_PART)
      modifies disk, hdbuf, logical
      ensures var first, l := (j - 1) * NR_SUB_PER_PART,
                              Logicals(disk.sectors, primary[j].base, primary[j].base, NR_SUB_PER_PART);
              logical[..] == Placed(old(logical[..]), first, l)
    {
      hide TableIn, Logicals, ChainOnDisk, Placed;
      var extStart := primary[j].base;
      var s: nat := extStart;
      var first := (j - 1) * NR_SUB_PER_PART;
      ghost var before := logical[..];
      ghost var all := Logicals(disk.sectors, extStart, extStart, NR_SUB_PER_PART);
      ghost var found: seq<PartInfo> := [];
      var i := 0;
      while i < NR_SUB_PER_PART
        invariant 0 <= i == |found| <= NR_SUB_PER_PART
        invariant ChainOnDisk(disk.sectors, extStart, s, NR_SUB_PER_PART - i)
        invariant all == found + Logicals(disk.sectors, extStart, s, NR_SUB_PER_PART - i)
        invariant logical[..] == Placed(before, first, found)
      {
        ChainStep(disk.sectors, extStart, s, NR_SUB_PER_PART - i);
        var table := GetPartTable(s);
        var info := PartInfo((s + table[0].startSect) % WORD_LIMIT, table[0].nrSects);
        logical[first + i] := info;
        PlacedNext(before, first, found, info);
        found := found + [info];
        i := i + 1;
        s := extStart + table[1].startSect;
        if table[1].sysId == NO_PART {
          assert all == found;
          return;
        }
      }
      assert all == found;
    }

    /** The body of the loop of partition() with P_PRIMARY. */
    method PartitionEntry(i: nat, entry: PartEnt)
      requires Valid() && TablesOnDisk(disk.sectors)
      requires i < NR_PART_PER_DRIVE && entry == Entry(disk.sectors[0], i)
      modifies disk, hdbuf, primary, logical
      ensures primary[..] == if entry.sysId == NO_PART then old(primary[..])
                             else old(primary[..])[i + 1 := PartInfo(entry.startSect, entry.nrSects)]
      ensures NR_SUB_PER_PART * i + |LogicalsOf(disk.sectors, i)| <= logical.Length
      ensures logical[..] == Placed(old(logical[..]), NR_SUB_PER_PART * i, LogicalsOf(disk.sectors, i))
    {
      hide Entry, Logicals, ChainOnDisk;
      if entry.sysId == NO_PART {
        return;
      }
      var devNr := i + 1;
      primary[devNr] := PartInfo(entry.startSect, entry.nrSects);
      if entry.sysId == EXT_PART {
        PartitionExtended(devNr);
      }
    }

    /** partition() with P_PRIMARY. */
    method Partition()
      requires Valid() && TablesOnDisk(disk.sectors)
      modifies disk, hdbuf, primary, logical
      ensures primary[0] == old(primary[0])
      ensures forall j :: 1 <= j < NR_PRIM_PER_DRIVE ==>
                var e := Entry(disk.sectors[0], j - 1);
                primary[j] == if e.sysId == NO_PART then old(primary[j]) else PartInfo(e.startSect, e.nrSects)
      ensures FilledUpTo(disk.sectors, old(logical[..]), logical[..], NR_PART_PER_DRIVE)
    {
      hide Entry, Placed, LogicalsOf;
      ghost var before, primaries := logical[..], primary[..];
      var table := GetPartTable(0);
      for i := 0 to NR_PART_PER_DRIVE
        invariant primary[0] == primaries[0]
        invariant forall j :: 1 <= j < NR_PRIM_PER_DRIVE ==>
          primary[j] ==
            if j <= i && table[j - 1].sysId != NO_PART then PartInfo(table[j - 1].startSect, table[j - 1].nrSects)
            else primaries[j]
        invariant FilledUpTo(disk.sectors, before, logical[..], i)
      {
        FillRange(disk.sectors, before, logical[..], i);
        PartitionEntry(i, table[i]);
      }
    }

    /** hd_info shows the tables of the disk. */
    ghost predicate Collected()
      requires Valid() && disk.sectors != []
      reads primary, logical
    {
      && (forall i :: 1 <= i < NR_PRIM_PER_DRIVE ==>
            var e := Entry(disk.sectors[0], i - 1);
            e.sysId != NO_PART ==> primary[i] == PartInfo(e.startSect, e.nrSects))
      && (forall j, k :: 0 <= j < NR_PART_PER_DRIVE && 0 <= k < |LogicalsOf(disk.sectors, j)| ==>
            SubAt(logical[..], j, k) == LogicalsOf(disk.sectors, j)[k])
    }

    /** Whoever has the disk open can rely on hd_info. */
    ghost predicate Opened()
      requires Valid() && disk.sectors != []
      reads this`openCnt, primary, logical
    {
      primary[0].base == 0 && (openCnt > 0 ==> Collected())
    }

    /** hd_open, without hd_identify. */
    method Open()
      requires Valid() && TablesOnDisk(disk.sectors) && Opened()
      modifies this`openCnt, disk, hdbuf, primary, logical
      ensures openCnt == old(openCnt) + 1 && Opened()
    {
      hide LogicalsOf, Entry;
      openCnt := openCnt + 1;
      if openCnt - 1 == 0 {
        ghost var before := logical[..];
        Partition();
        forall j, k | 0 <= j < NR_PART_PER_DRIVE && 0 <= k < |LogicalsOf(disk.sectors, j)|
          ensures SubAt(logical[..], j, k) == LogicalsOf(disk.sectors, j)[k]
        {
          SubIsLogical(disk.sectors, before, logical[..], j, k);
        }
      }
    }

    /** hd_close */
    method Close()
      requires Valid() && disk.sectors != [] && Opened()
      modifies this`openCnt
      ensures openCnt == old(openCnt) - 1 && Opened()
    {
      openCnt := openCnt - 1;
    }

    /** Where a minor device starts: the whole disk or a primary partition, or a logical one. */
    function BaseOf(device: nat): nat
      requires Valid() && IsMinor(device)
      reads primary, logical
    {
      if device < MAX_PRIM then primary[device].base
      else logical[(device - MINOR_HD1A) % NR_SUB_PER_DRIVE].base
    }

    /** The loop body of hd_rdwt: one sector, of which at most `left` bytes are copied to `mem`. */
    method CopySector(mem: array<byte>, la: nat, left: nat)
      requires Valid() && disk.left > 0 && disk.next < |disk.sectors|
      requires mem != hdbuf && la + Min(SECTOR_SIZE, left) <= mem.Length
      modifies disk, hdbuf, mem
      ensures disk.next == old(disk.next) + 1 && disk.left == old(disk.left) - 1
      ensures mem[..] == Placed(old(mem[..]), la, disk.sectors[old(disk.next)][..Min(SECTOR_SIZE, left)])
    {
      var bytes := Min(SECTOR_SIZE, left);
      ghost var s := disk.sectors[disk.next];
      disk.Transfer(hdbuf);
      assert hdbuf[..bytes] == s[..bytes] by {
        assert hdbuf[..SECTOR_SIZE][..bytes] == hdbuf[..bytes];
      }
      forall i | 0 <= i < bytes {
        mem[la + i] := hdbuf[i];
      }
      assert forall i :: 0 <= i < bytes ==> hdbuf[..bytes][i] == s[..bytes][i];
    }

    /** The loop of hd_rdwt, once the disk has been told to read from sector `start`. */
    method CopySectors(start: nat, cnt: nat, mem: array<byte>, la: nat)
      requires Valid() && disk.next == start && disk.left >= SectorsFor(cnt)
      requires start + SectorsFor(cnt) <= |disk.sectors|
      requires mem != hdbuf && la + cnt <= mem.Length
      modifies disk, hdbuf, mem
      ensures mem[..] == Placed(old(mem[..]), la, Bytes(disk.sectors, start * SECTOR_SIZE, cnt))
    {
      hide Placed, Bytes, SectorsFor;
      ghost var before := mem[..];
      ghost var k := 0;
      SectorsCover(cnt, 0);
      SectorsCover(cnt, SectorsFor(cnt));
      StartPlaced(disk.sectors, start, before, la);
      var bytesLeft: int, at := cnt, la;
      while bytesLeft > 0
        invariant bytesLeft == cnt - SECTOR_SIZE * k && at == la + SECTOR_SIZE * k
        invariant k <= SectorsFor(cnt) && disk.next == start + k && disk.left >= SectorsFor(cnt) - k
        invariant start * SECTOR_SIZE + Min(cnt, SECTOR_SIZE * k) <= |disk.sectors| * SECTOR_SIZE
        invariant mem[..] == Placed(before, la, Bytes(disk.sectors, start * SECTOR_SIZE, Min(cnt, SECTOR_SIZE * k)))
        decreases bytesLeft
      {
        NextSector(disk.sectors, start, k, cnt, before, la);
        CopySector(mem, at, bytesLeft);
        bytesLeft := bytesLeft - SECTOR_SIZE;
        at := at + SECTOR_SIZE;
        k := k + 1;
        SectorsCover(cnt, k);
      }
    }

    /** hd_rdwt with DEV_READ: `cnt` bytes from byte `pos` of a minor device to `mem` at `la`. */
    method Read(device: nat, pos: nat, cnt: nat, mem: array<byte>, la: nat)
      requires Valid() && IsMinor(device) && pos % SECTOR_SIZE == 0
      requires SectorsFor(cnt) <= 256
      requires BaseOf(device) + pos / SECTOR_SIZE + SectorsFor(cnt) <= |disk.sectors|
      requires mem != hdbuf && la + cnt <= mem.Length
      modifies disk, hdbuf, mem
      ensures BaseOf(device) * SECTOR_SIZE + pos + cnt <= |disk.sectors| * SECTOR_SIZE
      ensures mem[..] == Placed(old(mem[..]), la, Bytes(disk.sectors, BaseOf(device) * SECTOR_SIZE + pos, cnt))
    {
      hide Placed, Bytes, SectorsFor;
      SectorsCover(cnt, SectorsFor(cnt));
      ghost var base, at := BaseOf(device), pos / SECTOR_SIZE;
      assert base * SECTOR_SIZE + pos == (base + at) * SECTOR_SIZE;
      var sectNr := pos / SECTOR_SIZE % WORD_LIMIT;
      var logIdx := (device - MINOR_HD1A) % NR_SUB_PER_DRIVE;
      sectNr := (sectNr + if device < MAX_PRIM then primary[device].base else logical[logIdx].base) % WORD_LIMIT;
      Issue(sectNr, SectorsFor(cnt));
      CopySectors(sectNr, cnt, mem, la);
    }

    lemma BaseOfLogical(j: nat, k: nat)
      requires Valid() && disk.sectors != [] && Collected() && j < NR_PART_PER_DRIVE
      requires k < |LogicalsOf(disk.sectors, j)|
      ensures var device := MINOR_HD1A + NR_SUB_PER_PART * j + k;
              IsMinor(device) && BaseOf(device) == LogicalsOf(disk.sectors, j)[k].base
    {
      hide LogicalsOf, Entry;
      assert SubAt(logical[..], j, k) == LogicalsOf(disk.sectors, j)[k];
      assert (NR_SUB_PER_PART * j + k) % NR_SUB_PER_DRIVE == NR_SUB_PER_PART * j + k;
    }

    /** The start that hd_info gives a device is the one that the disk gives it. */
    lemma BaseIsStart(device: nat, start: nat)
      requires Valid() && disk.sectors != [] && Opened() && openCnt > 0 && BeginsAt(disk.sectors, device, start)
      ensures IsMinor(device) && BaseOf(device) == start
    {
      hide Logicals, LogicalsOf, Entry, TableSector, HasNext, TableIn, SubAt;
      if device >= MINOR_HD1A {
        var j: nat, k: nat :|
          && IsLogical(disk.sectors, j, k) && device == MINOR_HD1A + NR_SUB_PER_PART * j + k
          && var ext := Entry(disk.sectors[0], j).startSect;
             start == TableSector(disk.sectors, ext, k) + ChainTable(disk.sectors, ext, k)[0].startSect;
        LogicalIsFound(disk.sectors, j, k);
        LogicalIsChainEntry(disk.sectors, j, k);
        BaseOfLogical(j, k);
      }
    }

    /**
     hd_rdwt with DEV_READ while the disk is open, in terms of the disk alone: the bytes read are
     those of the device from byte `pos` on, and no other byte of memory changes.
     */
    method ReadDevice(device: nat, pos: nat, cnt: nat, mem: array<byte>, la: nat, ghost start: nat)
      requires Valid() && disk.sectors != [] && Opened() && openCnt > 0
      requires BeginsAt(disk.sectors, device, start)
      requires pos % SECTOR_SIZE == 0 && SectorsFor(cnt) <= 256
      requires start + pos / SECTOR_SIZE + SectorsFor(cnt) <= |disk.sectors|
      requires mem != hdbuf && la + cnt <= mem.Length
      modifies disk, hdbuf, mem
      ensures forall at :: la <= at < la + cnt ==>
                var i := pos + at - la;
                && start + i / SECTOR_SIZE < |disk.sectors|
                && mem[at] == disk.sectors[start + i / SECTOR_SIZE][i % SECTOR_SIZE]
      ensures forall at :: 0 <= at < mem.Length && !(la <= at < la + cnt) ==> mem[at] == old(mem[at])
    {
      hide BeginsAt, Collected, SectorsFor, Bytes, BaseOf;
      BaseIsStart(device, start);
      ghost var before := mem[..];
      Read(device, pos, cnt, mem, la);
      forall at | la <= at < la + cnt
        ensures var i := pos + at - la;
                && start + i / SECTOR_SIZE < |disk.sectors|
                && mem[at] == disk.sectors[start + i / SECTOR_SIZE][i % SECTOR_SIZE]
      {
        ByteOfDevice(disk.sectors, start, pos, cnt, at - la);
        assert mem[..][at] == Bytes(disk.sectors, start * SECTOR_SIZE + pos, cnt)[at - la];
      }
      assert forall at :: 0 <= at < mem.Length && !(la <= at < la + cnt) ==> mem[..][at] == before[at];
    }
  }
}
