/** The layout that format_fat32.c computes for a FAT32 volume, and the sectors it writes. */
module Fat32 {
  import Padding

  const MB := 0x10_0000
  const NUM_FATS := 2
  const BACKUP := 6
  const BURST := 128

  /** GetFATSizeSectors. */
  function FatSize(disk: nat, reserved: nat, perCluster: nat, fats: nat, sector: nat): (r: nat)
    requires reserved <= disk && fats > 0
  {
    (disk - reserved + 2 * perCluster) / (perCluster * sector / 4 + fats) + 1
  }

  /** The multiple of align at or before x. */
  function Down(x: nat, align: nat): (r: nat)
    requires align > 0
  {
    x / align * align
  }

  /** The sectors before the data area for a volume of total sectors: at first 32 reserved ones
      and the FATs, then up to the next megabyte. */
  function SystemArea(total: nat, perCluster: nat, sector: nat): (r: nat)
    requires 0 < sector <= MB
  {
    Down(32 + NUM_FATS * FatSize(total, 0, perCluster, NUM_FATS, sector) + MB / sector - 1, MB / sector)
  }

  /** The next multiple of align. */
  lemma RoundUp(n: nat, align: nat)
    requires align > 0
    ensures var r := Down(n + align - 1, align); n <= r < n + align && r % align == 0
  {
    var q := (n + align - 1) / align;
    assert n + align - 1 == align * q + (n + align - 1) % align;
    assert q * align == align * q;
    Padding.Remainder(q * align, align, q, 0);
  }

  /** What the program accepts as a volume: 64K sectors and less than 2 TB of 512-byte ones. */
  predicate Volume(total: nat, perCluster: nat, sector: nat) {
    65536 <= total < 0xFFFF_FFFF && 512 <= sector <= MB && 1 <= perCluster <= 255
  }

  /** Nothing underflows, and the reserved sectors, enough for both copies of the boot sector,
      fit a 16-bit count; the data area starts at a multiple of the alignment. */
  lemma LayoutFits(total: nat, perCluster: nat, sector: nat)
    requires Volume(total, perCluster, sector)
    ensures var fat, system := FatSize(total, 0, perCluster, NUM_FATS, sector), SystemArea(total, perCluster, sector);
            32 <= system - NUM_FATS * fat < 32 + MB / sector <= 0x1_0000 && system < total && system % (MB / sector) == 0
  {
    var fat, align := FatSize(total, 0, perCluster, NUM_FATS, sector), MB / sector;
    FatBound(total, perCluster, sector);
    AlignBound(sector);
    RoundUp(32 + NUM_FATS * fat, align);
  }

  /** In bytes, where sectors divide a megabyte, that is a whole number of megabytes. */
  lemma DataAligned(total: nat, perCluster: nat, sector: nat)
    requires Volume(total, perCluster, sector) && MB % sector == 0
    ensures SystemArea(total, perCluster, sector) * sector % MB == 0
  {
    hide SystemArea;
    var align, system := MB / sector, SystemArea(total, perCluster, sector);
    LayoutFits(total, perCluster, sector);
    var q := system / align;
    assert MB == align * sector && system == align * q;
    assert system * sector == MB * q by { assert align * q * sector == align * sector * q; }
    Padding.Remainder(system * sector, MB, q, 0);
  }

  lemma AlignBound(sector: nat)
    requires 512 <= sector <= MB
    ensures 1 <= MB / sector <= 2048
  {
    var q := MB / sector;
    assert MB == sector * q + MB % sector;
    assert sector * q == 512 * q + (sector - 512) * q;
  }

  /** A FAT takes less than a 64th of the volume and a little. */
  lemma FatBound(total: nat, perCluster: nat, sector: nat)
    requires Volume(total, perCluster, sector)
    ensures 64 * FatSize(total, 0, perCluster, NUM_FATS, sector) <= total + 600
  {
    var d := perCluster * sector / 4 + NUM_FATS;
    var n := total + 2 * perCluster;
    Denominator(perCluster, sector);
    var q := n / d;
    assert n == d * q + n % d;
    Padding.MoreTimes(q, 129, d);
  }

  lemma Denominator(perCluster: nat, sector: nat)
    requires 512 <= sector && 1 <= perCluster
    ensures perCluster * sector / 4 + NUM_FATS >= 130
  {
    Padding.MoreTimes(sector, 0, perCluster);
    assert perCluster * sector == sector * perCluster;
  }

  /** The clusters in the data area. */
  function Clusters(user: nat, perCluster: nat): (r: nat)
    requires perCluster > 0
  {
    user / perCluster
  }

  /** Each FAT has room for an entry for every cluster and the two reserved entries. */
  lemma FatsHoldAll(total: nat, perCluster: nat, sector: nat)
    requires Volume(total, perCluster, sector)
    ensures var fat, system := FatSize(total, 0, perCluster, NUM_FATS, sector), SystemArea(total, perCluster, sector);
            system <= total && (Clusters(total - system, perCluster) + 2) * 4 <= fat * sector
  {
    hide FatSize, SystemArea, Clusters;
    var fat, system := FatSize(total, 0, perCluster, NUM_FATS, sector), SystemArea(total, perCluster, sector);
    SystemHolds(total, perCluster, sector);
    FatIs(total, perCluster, sector);
    var e, user := perCluster * sector / 4, total - system;
    FatCovers(total + 2 * perCluster, e, fat);
    EntriesFit(perCluster, sector, e, fat, user);
  }

  lemma SystemHolds(total: nat, perCluster: nat, sector: nat)
    requires Volume(total, perCluster, sector)
    ensures NUM_FATS * FatSize(total, 0, perCluster, NUM_FATS, sector) + 32 <= SystemArea(total, perCluster, sector) < total
  {
    hide FatSize, SystemArea;
    LayoutFits(total, perCluster, sector);
  }

  lemma FatIs(total: nat, perCluster: nat, sector: nat)
    ensures FatSize(total, 0, perCluster, NUM_FATS, sector) ==
            (total + 2 * perCluster) / (perCluster * sector / 4 + NUM_FATS) + 1
  {
  }

  /** Rounded up, the FATs cover what they were computed from. */
  lemma FatCovers(n: nat, e: nat, fat: nat)
    requires fat == n / (e + NUM_FATS) + 1
    ensures e * fat + NUM_FATS * fat > n
  {
    var d := e + NUM_FATS;
    assert n == d * (n / d) + n % d;
    assert d * fat == d * (n / d) + d;
    assert d * fat == e * fat + NUM_FATS * fat;
  }

  lemma EntriesFit(perCluster: nat, sector: nat, e: nat, fat: nat, user: nat)
    requires perCluster > 0 && e == perCluster * sector / 4 && e * fat >= user + 2 * perCluster
    ensures (Clusters(user, perCluster) + 2) * 4 <= fat * sector
  {
    var count := Clusters(user, perCluster);
    assert user == perCluster * count + user % perCluster;
    assert 4 * (e * fat) <= perCluster * sector * fat by { assert 4 * e <= perCluster * sector; }
    assert perCluster * ((count + 2) * 4) == 4 * (perCluster * count + 2 * perCluster);
    assert perCluster * sector * fat == perCluster * (fat * sector);
    if (count + 2) * 4 > fat * sector {
      Padding.MoreTimes(perCluster, fat * sector, (count + 2) * 4);
      assert false;
    }
  }

  // ---- The cluster size ----

  const GB := 0x4000_0000
  const TB := 0x100_0000_0000

  /** The cluster size for a volume of so many bytes. */
  function DefaultCluster(length: nat): (r: nat) {
    if length < 64 * MB then 512
    else if length < 128 * MB then 1024
    else if length < 256 * MB then 2048
    else if length < 8 * GB then 4096
    else if length < 16 * GB then 8192
    else if length < 32 * GB then 16384
    else if length < 2 * TB then 32768
    else 65536
  }

  /** Where the range of volume sizes with the same default cluster size begins, in megabytes. */
  function ClassStart(length: nat): (r: nat) {
    if length < 64 * MB then 32 else if length < 128 * MB then 64 else if length < 256 * MB then 128 else 256
  }

  /** The sector sizes that drives have. */
  predicate UsualSector(sector: nat) {
    sector in {512, 1024, 2048, 4096}
  }

  /** The number of clusters of a volume. */
  function ClusterCount(total: nat, perCluster: nat, sector: nat): (r: nat)
    requires Volume(total, perCluster, sector)
  {
    LayoutFits(total, perCluster, sector);
    Clusters(total - SystemArea(total, perCluster, sector), perCluster)
  }

  /** Of the volumes that are not too small or too big, whatever the sector size, the default
      cluster size is refused, for giving less than 65536 clusters, to exactly those below 8 GB
      that are in the first megabyte of their range. */
  lemma DefaultRefused(length: nat, sector: nat)
    requires UsualSector(sector) && 65536 <= length / sector < 0xFFFF_FFFF
    ensures Volume(length / sector, DefaultCluster(length) / sector, sector)
    ensures ClusterCount(length / sector, DefaultCluster(length) / sector, sector) < 65536 <==>
            length < 8 * GB && length < (ClassStart(length) + 1) * MB
  {
    hide ClusterCount, SystemArea, FatSize, Volume, ClassStart;
    var total, perCluster := length / sector, DefaultCluster(length) / sector;
    DefaultWhole(length, sector);
    TooFew(total, perCluster, sector);
    QuotientBelow(length, sector, 65536 * perCluster + MB / sector);
    Bytes(perCluster, sector, DefaultCluster(length));
    FirstMegabyte(length);
  }

  lemma FirstMegabyte(length: nat)
    requires length >= 32 * MB
    ensures length < 65536 * DefaultCluster(length) + MB <==> length < 8 * GB && length < (ClassStart(length) + 1) * MB
  {
  }

  /** 65536 clusters and a megabyte, in bytes. */
  lemma Bytes(perCluster: nat, sector: nat, cluster: nat)
    requires UsualSector(sector) && perCluster * sector == cluster
    ensures (65536 * perCluster + MB / sector) * sector == 65536 * cluster + MB
  {
  }

  /** The default cluster is whole sectors, one at least, of a volume that is large enough. */
  lemma DefaultWhole(length: nat, sector: nat)
    requires UsualSector(sector) && 65536 <= length / sector < 0xFFFF_FFFF
    ensures var perCluster := DefaultCluster(length) / sector;
            perCluster * sector == DefaultCluster(length) && Volume(length / sector, perCluster, sector)
    ensures length >= 32 * MB
  {
    QuotientBelow(length, sector, 65536);
    WholeSectors(DefaultCluster(length), sector);
  }

  lemma WholeSectors(cluster: nat, sector: nat)
    requires UsualSector(sector) && sector <= cluster
    requires cluster in {512, 1024, 2048, 4096, 8192, 16384, 32768, 65536}
    ensures cluster / sector * sector == cluster && 1 <= cluster / sector <= 128
  {
  }

  /** A volume has 65536 clusters from one megabyte above their size on. */
  lemma TooFew(total: nat, perCluster: nat, sector: nat)
    requires UsualSector(sector) && Volume(total, perCluster, sector)
    ensures ClusterCount(total, perCluster, sector) < 65536 <==> total < 65536 * perCluster + MB / sector
  {
    hide SystemArea, FatSize, Clusters;
    var system, fat, a := SystemArea(total, perCluster, sector), FatSize(total, 0, perCluster, NUM_FATS, sector), MB / sector;
    LayoutFits(total, perCluster, sector);
    FatBound(total, perCluster, sector);
    FewClusters(total - system, perCluster);
    SystemIs(total, perCluster, sector);
    if 32 + NUM_FATS * fat <= a {
      OneMegabyte(system, 32 + NUM_FATS * fat, a);
    } else {
      LargeVolume(total, perCluster, sector, fat);
    }
  }

  lemma SystemIs(total: nat, perCluster: nat, sector: nat)
    requires Volume(total, perCluster, sector)
    ensures var a, n := MB / sector, 32 + NUM_FATS * FatSize(total, 0, perCluster, NUM_FATS, sector);
            a > 0 && n <= SystemArea(total, perCluster, sector) < n + a && SystemArea(total, perCluster, sector) % a == 0 &&
            SystemArea(total, perCluster, sector) >= a
  {
    hide FatSize;
    AlignBound(sector);
    var system, a := SystemArea(total, perCluster, sector), MB / sector;
    RoundUp(32 + NUM_FATS * FatSize(total, 0, perCluster, NUM_FATS, sector), a);
    if system < a { Padding.Remainder(system, a, 0, system); }
  }

  /** A system area that needs no more than a megabyte is one. */
  lemma OneMegabyte(system: nat, n: nat, a: nat)
    requires a > 0 && n <= a && n <= system < n + a && system % a == 0 && system >= a
    ensures system == a
  {
    if system > a { Padding.Remainder(system, a, 1, system - a); }
  }

  /** FATs that need more belong to volumes of many more clusters. */
  lemma LargeVolume(total: nat, perCluster: nat, sector: nat, fat: nat)
    requires UsualSector(sector) && Volume(total, perCluster, sector)
    requires fat == FatSize(total, 0, perCluster, NUM_FATS, sector) && 32 + NUM_FATS * fat > MB / sector
    ensures total + 2 * perCluster >= 114688 * perCluster
  {
    hide FatSize;
    FatIs(total, perCluster, sector);
    Entries(perCluster, sector);
    var d := perCluster * (sector / 4) + NUM_FATS;
    var k := (MB / sector - 32) / 2;
    QuotientBelow(total + 2 * perCluster, d, k);
    EnoughEntries(perCluster, sector);
  }

  lemma Entries(perCluster: nat, sector: nat)
    requires UsualSector(sector)
    ensures perCluster * sector / 4 == perCluster * (sector / 4)
  {
    if sector == 512 {
      assert perCluster * 512 / 4 == perCluster * 128;
    } else if sector == 1024 {
      assert perCluster * 1024 / 4 == perCluster * 256;
    } else if sector == 2048 {
      assert perCluster * 2048 / 4 == perCluster * 512;
    } else {
      assert perCluster * 4096 / 4 == perCluster * 1024;
    }
  }

  lemma EnoughEntries(perCluster: nat, sector: nat)
    requires UsualSector(sector)
    ensures (MB / sector - 32) / 2 * (perCluster * (sector / 4) + NUM_FATS) >= 114688 * perCluster
  {
    if sector == 512 {
      assert 1008 * (perCluster * 128 + 2) >= 114688 * perCluster;
    } else if sector == 1024 {
      assert 496 * (perCluster * 256 + 2) >= 114688 * perCluster;
    } else if sector == 2048 {
      assert 240 * (perCluster * 512 + 2) >= 114688 * perCluster;
    } else {
      assert 112 * (perCluster * 1024 + 2) >= 114688 * perCluster;
    }
  }

  lemma QuotientBelow(n: nat, d: nat, k: nat)
    requires d > 0
    ensures n / d < k <==> n < k * d
  {
    var q := n / d;
    assert n == d * q + n % d;
    if q < k { Padding.MoreTimes(d, q, k); } else { assert d * q == d * k + d * (q - k); }
  }

  lemma FewClusters(user: nat, perCluster: nat)
    requires perCluster > 0
    ensures Clusters(user, perCluster) < 65536 <==> user < 65536 * perCluster
  {
    QuotientBelow(user, perCluster, 65536);
  }

  // ---- Formatting ----

  datatype Sector = Other | Zero | Boot | FsInfo | FatStart

  /** NoCluster is the program's own assertion, WriteFault a write behind the end of the volume. */
  datatype Outcome =
    | TooSmall
    | TooBig
    | NoCluster
    | TooManyClusters
    | TooFewClusters
    | FatTooSmall
    | WriteFault
    | Formatted(reserved: nat, fat: nat, clusters: nat, cleared: nat, disk: seq<Sector>)

  const DWORD := 0x1_0000_0000

  /** An unsigned sum or product of 32 bits. */
  function Wrap(x: int): (r: nat)
    ensures 0 <= x < DWORD ==> r == x
    ensures r < DWORD
  {
    x % DWORD
  }

  function PerCluster(length: nat, sector: nat, clusterSize: nat): (r: nat)
    requires sector > 0
  {
    (if clusterSize == 0 then DefaultCluster(length) else clusterSize) / sector
  }

  /** The boot sector has a byte for the number of sectors per cluster, and the size of a FAT is
      computed from that byte. */
  function InByte(perCluster: nat): (r: nat) {
    perCluster % 256
  }

  /** With zero in that byte the FATs alone are larger than the volume. */
  lemma ZeroByte(total: nat, sector: nat)
    ensures FatSize(total, 0, 0, NUM_FATS, sector) == total / 2 + 1
    ensures NUM_FATS * FatSize(total, 0, 0, NUM_FATS, sector) > total
  {
    assert 0 * sector / 4 == 0;
  }

  /** All that callers ask for leaves the byte above zero: no size, or one that is offered, of at
      least a sector. */
  lemma RequestedHeld(length: nat, sector: nat, clusterSize: nat)
    requires UsualSector(sector) && 65536 <= length / sector < 0xFFFF_FFFF
    requires clusterSize == 0 || (clusterSize >= sector && clusterSize in {512, 1024, 2048, 4096, 8192, 16384, 32768, 65536})
    ensures InByte(PerCluster(length, sector, clusterSize)) > 0
  {
    if clusterSize == 0 { DefaultWhole(length, sector); } else { WholeSectors(clusterSize, sector); }
  }

  lemma FewerClusters(user: nat, perCluster: nat)
    requires InByte(perCluster) > 0
    ensures perCluster > 0 && Clusters(user, perCluster) <= Clusters(user, InByte(perCluster))
  {
    var q := Clusters(user, perCluster);
    assert user == perCluster * q + user % perCluster;
    assert perCluster * q == InByte(perCluster) * q + (perCluster - InByte(perCluster)) * q;
    QuotientBelow(user, InByte(perCluster), q);
  }

  /** The first sector of the data area, as computed with 32 bits. */
  function DataStart(fat: nat, sector: nat): (r: nat)
    requires 0 < sector <= MB
  {
    Down(Wrap(32 + NUM_FATS * fat + MB / sector - 1), MB / sector)
  }

  /** The number of sectors that is cleared in bursts to clear the first so many and a burst. */
  function Bursts(bound: nat): (r: nat) {
    (bound + BURST - 1) / BURST * BURST
  }

  lemma BurstsPass(bound: nat, i: nat)
    requires i % BURST == 0
    ensures bound <= Bursts(bound) < bound + BURST && Bursts(bound) % BURST == 0
    ensures i < bound ==> i + BURST <= Bursts(bound)
    ensures i >= bound && i < bound + BURST ==> i == Bursts(bound)
  {
  }

  /** What the volume holds: boot sectors and their copies, the first sector of each FAT that can
      be written, zeros up to where it was cleared, and behind that what it held before. */
  predicate Laid(disk: seq<Sector>, volume: seq<Sector>, cleared: nat, reserved: nat, fat: nat) {
    |disk| == |volume| &&
    forall s :: 0 <= s < |disk| ==>
      disk[s] == if Starts(reserved, 0, fat, s) || Starts(reserved, 1, fat, s) then FatStart
                 else if s == 0 || s == BACKUP then Boot
                 else if s == 1 || s == BACKUP + 1 then FsInfo
                 else if s < cleared then Zero
                 else volume[s]
  }

  /** FAT number i starts at sector s: a sum of 32 bits that is then taken as signed. */
  predicate Starts(reserved: nat, i: nat, fat: nat, s: nat) {
    s == Wrap(reserved + i * fat) && s < 0x8000_0000
  }

  /** FATs of half the volume each, which are computed from a zero, are noticed neither by the checks
      on the layout nor by a write. */
  predicate Slips(total: nat, perCluster: nat, sector: nat)
    requires 0 < sector <= MB && perCluster > 0
  {
    var fat, data := total / 2 + 1, DataStart(total / 2 + 1, sector);
    var clusters := Clusters(Wrap(total - data), perCluster);
    65536 <= clusters && clusters * 4 <= fat * sector && Bursts(Wrap(data + perCluster + BURST - 1)) <= total
  }

  /** They are noticed unless the number of sectors is less than a cluster and two megabytes, and
      three bursts, from 2^32. */
  lemma SlipsNear(total: nat, perCluster: nat, sector: nat)
    requires 65536 <= total < 0xFFFF_FFFF && 512 <= sector <= MB && perCluster > 0
    requires total + perCluster + 2 * (MB / sector) + 3 * BURST <= DWORD
    ensures !Slips(total, perCluster, sector)
  {
    var align, n := MB / sector, 32 + NUM_FATS * (total / 2 + 1);
    AlignBound(sector);
    RoundUp(n, align);
    var data := DataStart(total / 2 + 1, sector);
    assert total < n <= data < n + align;
    BurstsPass(data + perCluster + BURST - 1, 0);
  }

  /** Nearer to it they can slip. */
  lemma SlipsThere()
    ensures Slips(0xFFFF_FFFE, 256, 512)
  {
    assert DataStart(0x8000_0000, 512) == 2048;
    assert Clusters(0xFFFF_F7FE, 256) == 0xFF_FFF7;
    assert Bursts(2048 + 256 + BURST - 1) == 2432;
  }

  /** FormatLargeFAT32: accepts exactly the volumes of the right size that get from 65536 to
      2^28 - 1 clusters, never finds its FATs too small, and clears the whole system area and the
      root directory's cluster, and less than two bursts behind them. Only a number of sectors per
      cluster with a low byte of zero is different: with that, what is accepted gets FATs that are
      larger than the volume. */
  method Format(volume: seq<Sector>, length: nat, sector: nat, clusterSize: nat) returns (r: Outcome)
    requires 512 <= sector <= MB && |volume| == length / sector && clusterSize < DWORD
    ensures var total, perCluster := length / sector, PerCluster(length, sector, clusterSize);
            if total < 65536 then r == TooSmall
            else if total >= 0xFFFF_FFFF then r == TooBig
            else if perCluster == 0 then r == NoCluster
            else if InByte(perCluster) == 0 then
              r in {TooFewClusters, FatTooSmall, WriteFault} ||
              (r.Formatted? && NUM_FATS * r.fat > total && Laid(r.disk, volume, r.cleared, r.reserved, r.fat))
            else
              var system := SystemArea(total, InByte(perCluster), sector);
              system <= total &&
              var clusters := Clusters(total - system, perCluster);
              if clusters > 0x0FFF_FFFF then r == TooManyClusters
              else if clusters < 65536 then r == TooFewClusters
              else
                r.Formatted? && r.clusters == clusters && r.reserved + NUM_FATS * r.fat == system &&
                32 <= r.reserved < 0x1_0000 && (clusters + 2) * 4 <= r.fat * sector &&
                system + perCluster <= r.cleared < system + perCluster + 2 * BURST && r.cleared <= total &&
                r.reserved + r.fat < 0x8000_0000 && Laid(r.disk, volume, r.cleared, r.reserved, r.fat)
    ensures var total, perCluster := length / sector, PerCluster(length, sector, clusterSize);
            65536 <= total < 0xFFFF_FFFF && perCluster > 0 && InByte(perCluster) == 0 ==>
            (r.Formatted? <==> Slips(total, perCluster, sector))
  {
    hide SystemArea, FatSize, Laid, Clusters, Starts, Bursts, DataStart, Wrap;
    var total := length / sector;
    if total < 65536 {
      return TooSmall;
    }
    if total >= 0xFFFF_FFFF {
      return TooBig;
    }
    var perCluster := PerCluster(length, sector, clusterSize);
    var fat := FatSize(total, 0, InByte(perCluster), NUM_FATS, sector);
    var data := DataStart(fat, sector);
    var reserved := Wrap(data - NUM_FATS * fat);
    var user := Wrap(total - reserved - NUM_FATS * fat);
    if perCluster == 0 {
      return NoCluster;
    }
    var clusters := Clusters(user, perCluster);
    Layout(total, perCluster, sector, fat, data, reserved, user, clusters);
    FatEnough(clusters, fat, sector);
    if clusters > 0x0FFF_FFFF {
      return TooManyClusters;
    }
    if clusters < 65536 {
      return TooFewClusters;
    }
    if (clusters * 4 + sector - 1) / sector > fat {
      return FatTooSmall;
    }
    var bound := Wrap(reserved + NUM_FATS * fat + perCluster + BURST - 1);
    BurstsPass(bound, 0);
    var cleared, disk := Clear(volume, bound);
    if !cleared {
      return WriteFault;
    }
    disk := WriteStart(disk, volume, Bursts(bound), reserved, fat);
    r := Formatted(reserved, fat, clusters, Bursts(bound), disk);
  }

  /** What the 32-bit arithmetic comes to: nothing wraps where the byte is not zero. */
  lemma Layout(total: nat, perCluster: nat, sector: nat, fat: nat, data: nat, reserved: nat, user: nat, clusters: nat)
    requires 65536 <= total < 0xFFFF_FFFF && 512 <= sector <= MB && perCluster > 0
    requires fat == FatSize(total, 0, InByte(perCluster), NUM_FATS, sector) && data == DataStart(fat, sector)
    requires reserved == Wrap(data - NUM_FATS * fat) && user == Wrap(total - reserved - NUM_FATS * fat)
    requires clusters == Clusters(user, perCluster)
    ensures user == Wrap(total - data)
    ensures Wrap(reserved + NUM_FATS * fat + perCluster + BURST - 1) == Wrap(data + perCluster + BURST - 1)
    ensures InByte(perCluster) == 0 ==> fat == total / 2 + 1 && NUM_FATS * fat > total && clusters <= 0x0FFF_FFFF
    ensures InByte(perCluster) > 0 ==>
      data == SystemArea(total, InByte(perCluster), sector) <= total && user == total - data &&
      reserved + NUM_FATS * fat == data && 32 <= reserved < 0x1_0000 && reserved + fat < 0x8000_0000 &&
      (clusters + 2) * 4 <= fat * sector && clusters * 4 <= fat * sector &&
      (clusters >= 65536 ==> data + perCluster + 2 * BURST <= total)
  {
    hide SystemArea, FatSize, Clusters, DataStart, Wrap, InByte, Down;
    WrapTwice(total, data, NUM_FATS * fat, 0);
    WrapTwice(total, data, NUM_FATS * fat, perCluster + BURST - 1);
    if InByte(perCluster) == 0 {
      ZeroByte(total, sector);
      ManyToOne(user, perCluster);
    } else {
      HeldLayout(total, perCluster, sector, fat, data);
      if clusters >= 65536 { RoomBehind(user, perCluster); }
      assert user == total - data && clusters * 4 + 8 == (clusters + 2) * 4;
    }
  }

  lemma FatEnough(clusters: nat, fat: nat, sector: nat)
    requires sector > 0
    ensures (clusters * 4 + sector - 1) / sector > fat <==> clusters * 4 > fat * sector
  {
    QuotientBelow(clusters * 4 + sector - 1, sector, fat + 1);
  }

  lemma ManyToOne(user: nat, perCluster: nat)
    requires user < DWORD && perCluster > 0 && InByte(perCluster) == 0
    ensures Clusters(user, perCluster) <= 0x0FFF_FFFF
  {
    QuotientBelow(user, perCluster, 0x100_0000);
  }

  lemma HeldLayout(total: nat, perCluster: nat, sector: nat, fat: nat, data: nat)
    requires 65536 <= total < 0xFFFF_FFFF && 512 <= sector <= MB && InByte(perCluster) > 0
    requires fat == FatSize(total, 0, InByte(perCluster), NUM_FATS, sector) && data == DataStart(fat, sector)
    ensures data == SystemArea(total, InByte(perCluster), sector) <= total && Wrap(total - data) == total - data
    ensures 32 <= data - NUM_FATS * fat < 0x1_0000 && Wrap(data - NUM_FATS * fat) == data - NUM_FATS * fat
    ensures data - NUM_FATS * fat + fat < 0x8000_0000
    ensures (Clusters(total - data, perCluster) + 2) * 4 <= fat * sector
  {
    hide SystemArea, FatSize, Clusters, DataStart, Wrap;
    NoWrap(total, InByte(perCluster), sector);
    FewerClusters(total - data, perCluster);
    FatsHoldAll(total, InByte(perCluster), sector);
  }

  /** Subtracted and added again, a number is gone. */
  lemma WrapTwice(total: nat, data: nat, fats: nat, more: nat)
    ensures Wrap(total - Wrap(data - fats) - fats) == Wrap(total - data)
    ensures Wrap(Wrap(data - fats) + fats + more) == Wrap(data + more)
  {
    var k := (data - fats) / DWORD;
    assert Wrap(data - fats) == data - fats - DWORD * k;
  }

  lemma NoWrap(total: nat, perCluster: nat, sector: nat)
    requires Volume(total, perCluster, sector)
    ensures var fat, data := FatSize(total, 0, perCluster, NUM_FATS, sector), SystemArea(total, perCluster, sector);
            DataStart(fat, sector) == data <= total && Wrap(data - NUM_FATS * fat) == data - NUM_FATS * fat &&
            Wrap(total - data) == total - data && 32 <= data - NUM_FATS * fat < 0x1_0000 &&
            data - NUM_FATS * fat + fat < 0x8000_0000
  {
    hide FatSize;
    FatBound(total, perCluster, sector);
    LayoutFits(total, perCluster, sector);
    AlignBound(sector);
  }

  lemma RoomBehind(user: nat, perCluster: nat)
    requires 0 < perCluster && Clusters(user, perCluster) >= 65536
    ensures perCluster + 2 * BURST <= user
  {
    FewClusters(user, perCluster);
  }

  /** The clearing loop: bursts of zeros, until one ends behind the volume. */
  method Clear(volume: seq<Sector>, bound: nat) returns (ok: bool, disk: seq<Sector>)
    ensures |disk| == |volume| && (ok <==> Bursts(bound) <= |volume|)
    ensures ok ==> forall s :: 0 <= s < |disk| ==> disk[s] == if s < Bursts(bound) then Zero else volume[s]
  {
    hide Bursts;
    disk := volume;
    var i := 0;
    BurstsPass(bound, i);
    while i < bound
      invariant i % BURST == 0 && i <= Bursts(bound) && i <= |volume| && i < bound + BURST
      invariant |disk| == |volume| && forall s :: 0 <= s < |disk| ==> disk[s] == if s < i then Zero else volume[s]
    {
      BurstsPass(bound, i);
      if i + BURST > |disk| {
        return false, disk;
      }
      disk := disk[..i] + seq(BURST, _ => Zero) + disk[i + BURST..];
      i := i + BURST;
    }
    BurstsPass(bound, i);
    ok := true;
  }

  /** Both copies of the boot sector and of the FS info, and the first sector of each FAT. Whether
      the last can be written is not looked at. */
  method WriteStart(clear: seq<Sector>, ghost volume: seq<Sector>, cleared: nat, reserved: nat, fat: nat)
    returns (disk: seq<Sector>)
    requires |clear| == |volume| >= 65536
    requires forall s :: 0 <= s < |clear| ==> clear[s] == if s < cleared then Zero else volume[s]
    ensures Laid(disk, volume, cleared, reserved, fat)
  {
    hide Starts;
    disk := clear;
    for i := 0 to 2
      invariant |disk| == |clear|
      invariant forall s :: 0 <= s < |disk| ==>
        disk[s] == if (i >= 1 && s == 0) || (i >= 2 && s == BACKUP) then Boot
                   else if (i >= 1 && s == 1) || (i >= 2 && s == BACKUP + 1) then FsInfo else clear[s]
    {
      var start := if i == 0 then 0 else BACKUP;
      disk := disk[start := Boot][start + 1 := FsInfo];
    }
    for i := 0 to NUM_FATS
      invariant |disk| == |clear|
      invariant forall s :: 0 <= s < |disk| ==>
        disk[s] == if (i >= 1 && Starts(reserved, 0, fat, s)) || (i >= 2 && Starts(reserved, 1, fat, s)) then FatStart
                   else if s == 0 || s == BACKUP then Boot
                   else if s == 1 || s == BACKUP + 1 then FsInfo
                   else clear[s]
    {
      var start := Wrap(reserved + i * fat);
      StartsAt(reserved, i, fat, start);
      if start < 0x8000_0000 && start < |disk| {
        disk := disk[start := FatStart];
      }
    }
  }

  lemma StartsAt(reserved: nat, i: nat, fat: nat, start: nat)
    requires start == Wrap(reserved + i * fat)
    ensures forall s: nat :: Starts(reserved, i, fat, s) <==> s == start && s < 0x8000_0000
  {
  }
}
