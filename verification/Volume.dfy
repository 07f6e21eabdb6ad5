/**
 Mounting a FAT32 volume: the geometry read from the boot sector, and what it guarantees about
 every later disk access. Field names follow the boot sector and BPB of the Microsoft FAT32
 File System Specification, version 1.03.
 */
module Volume {
  import opened Options
  import opened Bytes

  /** The disk: a sequence of 512-byte sectors. `read_sectors` succeeds exactly in range. */
  type Sector = s: seq<byte> | |s| == SECTOR witness seq(SECTOR, _ => 0)

  predicate Readable(disk: seq<Sector>, lba: nat, count: nat) {
    lba <= |disk| && count <= |disk| - lba
  }

  datatype Meta = Meta(
    sectorsPerCluster: nat,
    reservedSectors: nat,
    numFats: nat,
    sectorsPerFat: nat,
    rootCluster: nat,
    totalSectors: nat,
    dataStartSector: nat,
    clusterCount: nat)

  datatype Volume = Volume(disk: seq<Sector>, meta: Meta)

  /** "FAT32   " */
  const FILE_SYSTEM_TYPE: seq<byte> := [0x46, 0x41, 0x54, 0x33, 0x32, 0x20, 0x20, 0x20]

  predicate IsFat32(boot: Sector) {
    && boot[510] == 0x55 && boot[511] == 0xAA
    && Le16(boot, 11) == SECTOR
    && Le16(boot, 17) == 0
    && Le16(boot, 22) == 0
    && Le32(boot, 36) != 0
    && boot[82..90] == FILE_SYSTEM_TYPE
  }

  /** x & (x - 1) == 0 for a byte that is not zero. */
  predicate PowerOfTwo(x: byte) { x in {1, 2, 4, 8, 16, 32, 64, 128} }

  lemma PowerOfTwoBits(x: bv8)
    requires x != 0
    ensures x & (x - 1) == 0 <==> x as int in {1, 2, 4, 8, 16, 32, 64, 128}
  {
    assert x & (x - 1) == 0 <==>
        x == 1 || x == 2 || x == 4 || x == 8 || x == 16 || x == 32 || x == 64 || x == 128;
  }

  function TotalSectors(boot: Sector): nat {
    if Le16(boot, 19) != 0 then Le16(boot, 19) else Le32(boot, 32)
  }

  /** In 64-bit arithmetic: num_fats is widened before the product. */
  function DataStart(reserved: nat, numFats: nat, sectorsPerFat: nat): nat {
    reserved + numFats * sectorsPerFat
  }

  /** valid_cluster: the sum is a 32-bit one. */
  predicate ValidIn(meta: Meta, cluster: nat) {
    2 <= cluster < (meta.clusterCount + 2) % TWO_32
  }

  /** The derived fields, truncated to the 32 bits they are stored in. */
  function Derive(spc: nat, reserved: nat, numFats: nat, spf: nat, root: nat, total: nat): (m: Meta)
    requires spc != 0 && DataStart(reserved, numFats, spf) <= total
    ensures m.rootCluster == root
  {
    var start := DataStart(reserved, numFats, spf);
    Meta(spc, reserved, numFats, spf, root, total, start % TWO_32, ((total - start) / spc) % TWO_32)
  }

  /** Fat32::Fat32: the metadata if every check passes. */
  function Mount(disk: seq<Sector>): Option<Meta> {
    if !Readable(disk, 0, 1) then None
    else
      var boot := disk[0];
      var spc, reserved, numFats, spf := boot[13], Le16(boot, 14), boot[16], Le32(boot, 36);
      var root, total := Le32(boot, 44), TotalSectors(boot);
      if !IsFat32(boot) then None
      else if spc == 0 || !PowerOfTwo(spc) || numFats == 0 || reserved == 0 then None
      else if DataStart(reserved, numFats, spf) >= total || total > |disk| then None
      else
        var meta := Derive(spc, reserved, numFats, spf, root, total);
        if !ValidIn(meta, meta.rootCluster) then None else Some(meta)
  }

  // ---------------------------------------------------------------- what mounting guarantees

  /** No field was truncated, no later 32-bit sum wraps, and the data region holds every
      cluster. */
  predicate SafeGeometry(v: Volume) {
    var m := v.meta;
    && 1 <= m.sectorsPerCluster <= 128
    && 1 <= m.reservedSectors < 0x1_0000 && 1 <= m.numFats && 1 <= m.sectorsPerFat
    && m.dataStartSector == m.reservedSectors + m.numFats * m.sectorsPerFat
    && m.clusterCount == (m.totalSectors - m.dataStartSector) / m.sectorsPerCluster
    && m.reservedSectors + m.sectorsPerFat <= m.dataStartSector < m.totalSectors < TWO_32
    && m.totalSectors <= |v.disk|
    && m.clusterCount + 2 < TWO_32
    && 2 <= m.rootCluster < m.clusterCount + 2
  }

  lemma MountIsSafe(disk: seq<Sector>)
    requires Mount(disk).Some?
    ensures SafeGeometry(Volume(disk, Mount(disk).value))
  {
    hide Le32; hide Le16; hide IsFat32; hide SafeGeometry; hide DataStart; hide Derive;
    var boot := disk[0];
    BootHasFat(boot);
    DeriveIsSafe(disk, boot[13], Le16(boot, 14), boot[16], Le32(boot, 36), Le32(boot, 44), TotalSectors(boot));
  }

  /** The copies of the FAT follow one another from the reserved sectors up to the data region. */
  lemma FatsBeforeData(v: Volume, i: nat)
    requires SafeGeometry(v) && i < v.meta.numFats
    ensures v.meta.reservedSectors + (i + 1) * v.meta.sectorsPerFat <= v.meta.dataStartSector
    ensures i == v.meta.numFats - 1 ==>
              v.meta.reservedSectors + (i + 1) * v.meta.sectorsPerFat == v.meta.dataStartSector
  {
    MulMonotone(i + 1, v.meta.numFats, v.meta.sectorsPerFat);
  }

  /** What a boot sector describes, in exact arithmetic. */
  function Described(boot: Sector): Meta
    requires boot[13] != 0
  {
    var spc, reserved, numFats, spf := boot[13], Le16(boot, 14), boot[16], Le32(boot, 36);
    var total := if boot[19] != 0 || boot[20] != 0 then Le16(boot, 19) else Le32(boot, 32);
    MulMonotone(0, numFats, spf);
    var start := reserved + numFats * spf;
    Meta(spc, reserved, numFats, spf, Le32(boot, 44), total, start, ClustersIn(start, total, spc))
  }

  function ClustersIn(start: nat, total: nat, spc: nat): (count: nat)
    requires spc > 0
    ensures start <= total ==> count * spc <= total - start < count * spc + spc
  {
    if start <= total then
      DivShrinks(total - start, spc);
      (total - start) / spc
    else 0
  }

  /** A boot sector that is signed and labelled as FAT32, with 512-byte sectors and without the
      fields of FAT16. */
  predicate Labelled(boot: Sector) {
    && boot[510] == 0x55 && boot[511] == 0xAA
    && boot[11] == 0 && boot[12] == 2
    && boot[17] == 0 && boot[18] == 0 && boot[22] == 0 && boot[23] == 0
    && boot[82] == 'F' as int && boot[83] == 'A' as int && boot[84] == 'T' as int && boot[85] == '3' as int
    && boot[86] == '2' as int && boot[87] == ' ' as int && boot[88] == ' ' as int && boot[89] == ' ' as int
  }

  /** A FAT32 volume that fits the disk and has clusters, its root among them. */
  predicate Mountable(disk: seq<Sector>) {
    && disk != [] && Labelled(disk[0]) && disk[0][13] in {1, 2, 4, 8, 16, 32, 64, 128}
    && var m := Described(disk[0]);
    && m.reservedSectors >= 1 && m.numFats >= 1 && m.sectorsPerFat >= 1
    && m.dataStartSector < m.totalSectors <= |disk|
    && 2 <= m.rootCluster < m.clusterCount + 2
  }

  lemma LabelledIs(boot: Sector)
    ensures IsFat32(boot) <==> Labelled(boot) && Le32(boot, 36) != 0
    ensures boot[13] != 0 ==> TotalSectors(boot) == Described(boot).totalSectors
  {
    hide Le32;
    var name := boot[82..90];
    assert name == [boot[82], boot[83], boot[84], boot[85], boot[86], boot[87], boot[88], boot[89]];
  }

  /** The 32-bit arithmetic of mounting accepts exactly the disks that exact arithmetic accepts,
      with the same metadata. */
  lemma MountIsExact(disk: seq<Sector>)
    ensures Mount(disk) == if Mountable(disk) then Some(Described(disk[0])) else None
  {
    hide Le32; hide Le16; hide IsFat32; hide Labelled; hide TotalSectors;
    if disk != [] { LabelledIs(disk[0]); }
    if disk != [] && IsFat32(disk[0]) && disk[0][13] != 0 {
      var boot := disk[0];
      BootHasFat(boot);
      var start, total := DataStart(Le16(boot, 14), boot[16], Le32(boot, 36)), TotalSectors(boot);
      if start < total {
        DivShrinks(total - start, boot[13]);
        SmallMod(start);
        SmallMod((total - start) / boot[13]);
        GeometryBounds(Le16(boot, 14), if boot[16] == 0 then 1 else boot[16], Le32(boot, 36));
        SmallMod((total - start) / boot[13] + 2);
      }
    }
  }

  lemma DeriveIsSafe(disk: seq<Sector>, spc: nat, reserved: nat, numFats: nat, spf: nat, root: nat, total: nat)
    requires 1 <= spc <= 128 && 1 <= reserved < 0x1_0000 && numFats >= 1 && spf >= 1
    requires DataStart(reserved, numFats, spf) < total <= |disk| && total < TWO_32
    requires ValidIn(Derive(spc, reserved, numFats, spf, root, total), root)
    ensures SafeGeometry(Volume(disk, Derive(spc, reserved, numFats, spf, root, total)))
  {
    var start := DataStart(reserved, numFats, spf);
    assert start == reserved + numFats * spf;
    hide DataStart;
    GeometryBounds(reserved, numFats, spf);
    DivShrinks(total - start, spc);
    SmallMod(start);
    SmallMod((total - start) / spc);
    SmallMod((total - start) / spc + 2);
  }

  lemma SmallMod(x: nat)
    ensures x < TWO_32 ==> x % TWO_32 == x
  {
  }

  lemma BootHasFat(boot: Sector)
    requires IsFat32(boot)
    ensures Le32(boot, 36) != 0 && TotalSectors(boot) < TWO_32
  {
  }

  lemma GeometryBounds(reserved: nat, numFats: nat, spf: nat)
    requires numFats >= 1
    ensures reserved + spf <= DataStart(reserved, numFats, spf)
  {
    MulMonotone(1, numFats, spf);
  }

  lemma DivShrinks(x: nat, d: nat)
    requires d >= 1
    ensures 0 <= x / d <= x
  {
    DivThenMul(x, d);
    MulMonotone(1, d, x / d);
  }

  predicate ValidCluster(v: Volume, cluster: nat) { ValidIn(v.meta, cluster) }

  function ClusterLba(v: Volume, cluster: nat): nat
    requires cluster >= 2
  {
    v.meta.dataStartSector + (cluster - 2) * v.meta.sectorsPerCluster
  }

  /** Every sector of every valid cluster lies in the data region, and on the disk. */
  lemma ClusterOnDisk(v: Volume, cluster: nat)
    requires SafeGeometry(v) && ValidCluster(v, cluster)
    ensures cluster < v.meta.clusterCount + 2
    ensures v.meta.dataStartSector <= ClusterLba(v, cluster)
    ensures ClusterLba(v, cluster) + v.meta.sectorsPerCluster <= v.meta.totalSectors <= |v.disk|
  {
    var spc, count := v.meta.sectorsPerCluster, v.meta.clusterCount;
    MulMonotone(cluster - 1, count, spc);
    assert (cluster - 1) * spc == (cluster - 2) * spc + spc;
    DivThenMul(v.meta.totalSectors - v.meta.dataStartSector, spc);
    MulMonotone(0, cluster - 2, spc);
  }

  lemma MulMonotone(a: nat, b: nat, n: nat)
    requires a <= b
    ensures a * n <= b * n
  {
    assert b * n == a * n + (b - a) * n;
  }

  lemma DivThenMul(x: nat, d: nat)
    requires d >= 1
    ensures x / d * d <= x
  {
  }

  /** Distinct clusters share no sector. */
  lemma ClustersDisjoint(v: Volume, a: nat, b: nat)
    requires SafeGeometry(v) && 2 <= a < b
    ensures ClusterLba(v, a) + v.meta.sectorsPerCluster <= ClusterLba(v, b)
  {
    var spc := v.meta.sectorsPerCluster;
    MulMonotone(a - 1, b - 2, spc);
    assert (a - 1) * spc == (a - 2) * spc + spc;
  }

  // ---------------------------------------------------------------- the FAT

  /** fat_next: cluster * 4 is a 32-bit product. */
  function FatByteOffset(cluster: nat): (r: nat)
    ensures r < TWO_32 && r % 4 == 0
    ensures cluster < 0x4000_0000 ==> r == cluster * 4
  {
    WrapsByFours(cluster);
    cluster * 4 % TWO_32
  }

  lemma WrapsByFours(cluster: nat)
    ensures cluster * 4 % TWO_32 == cluster % 0x4000_0000 * 4
  {
    var q, r := cluster / 0x4000_0000, cluster % 0x4000_0000;
    assert cluster * 4 == q * TWO_32 + r * 4;
  }

  function FatSector(v: Volume, cluster: nat): nat { v.meta.reservedSectors + FatByteOffset(cluster) / SECTOR }

  function FatWithin(cluster: nat): (r: nat)
    ensures r + 4 <= SECTOR
  {
    var r := FatByteOffset(cluster) % SECTOR;
    FourApart(FatByteOffset(cluster));
    r
  }

  lemma FourApart(x: nat)
    requires x % 4 == 0
    ensures x % SECTOR + 4 <= SECTOR
  {
    assert x % SECTOR % 4 == 0;
  }

  function FatNext(v: Volume, cluster: nat): (next: Option<nat>)
    ensures next.Some? ==> next.value < 0x1000_0000
  {
    if !Readable(v.disk, FatSector(v, cluster), 1) then None
    else Some(Le32(v.disk[FatSector(v, cluster)], FatWithin(cluster)) % 0x1000_0000)
  }

  /** The entry read is entry number `cluster` of the first FAT. */
  predicate ReadsOwnEntry(v: Volume, cluster: nat) {
    var sector := FatSector(v, cluster);
    && v.meta.reservedSectors <= sector < v.meta.reservedSectors + v.meta.sectorsPerFat
    && (sector - v.meta.reservedSectors) * SECTOR + FatWithin(cluster) == cluster * 4
  }

  /** Exactly when fat_next reads the right entry: the FAT must be long enough to hold it, which
      mounting does not check, and the byte offset must not wrap. */
  lemma OwnEntryIff(v: Volume, cluster: nat)
    requires SafeGeometry(v) && cluster < TWO_32
    ensures ReadsOwnEntry(v, cluster) <==> cluster < 0x4000_0000 && cluster < v.meta.sectorsPerFat * 128
  {
    if cluster < 0x4000_0000 {
      assert FatByteOffset(cluster) == cluster * 4;
    }
  }

  const END_OF_CHAIN: nat := 0x0FFF_FFF8

  /** An end-of-chain value is never taken for a cluster exactly when there are not too many
      clusters; mounting does not check this either. */
  lemma EndOfChainIff(v: Volume)
    requires SafeGeometry(v)
    ensures (forall x :: END_OF_CHAIN <= x < 0x1000_0000 ==> !ValidCluster(v, x))
            <==> v.meta.clusterCount + 2 <= END_OF_CHAIN
  {
    if v.meta.clusterCount + 2 > END_OF_CHAIN {
      assert ValidCluster(v, END_OF_CHAIN);
    }
  }

  /** Every valid cluster's own entry is read exactly when the FAT has an entry for each of them and
      no byte offset wraps. */
  lemma OwnEntriesIff(v: Volume)
    requires SafeGeometry(v)
    ensures (forall cluster: nat :: ValidCluster(v, cluster) ==> ReadsOwnEntry(v, cluster))
            <==> v.meta.clusterCount + 2 <= 0x4000_0000 && v.meta.clusterCount + 2 <= v.meta.sectorsPerFat * 128
  {
    hide ReadsOwnEntry;
    var last := v.meta.clusterCount + 1;
    OwnEntryIff(v, last);
    assert ValidCluster(v, last);
    forall cluster: nat | ValidCluster(v, cluster)
      ensures ReadsOwnEntry(v, cluster) <==> cluster < 0x4000_0000 && cluster < v.meta.sectorsPerFat * 128
    {
      OwnEntryIff(v, cluster);
    }
  }

  /** With a FAT of clusterCount + 2 entries and no more clusters than FAT32 allows, every valid
      cluster's own entry is read, and reading it cannot fail. */
  lemma FatIsSound(v: Volume, cluster: nat)
    requires SafeGeometry(v) && ValidCluster(v, cluster)
    requires v.meta.clusterCount + 2 <= v.meta.sectorsPerFat * 128 && v.meta.clusterCount + 2 <= END_OF_CHAIN
    ensures ReadsOwnEntry(v, cluster) && FatNext(v, cluster).Some?
    ensures FatNext(v, cluster).value >= END_OF_CHAIN ==> !ValidCluster(v, FatNext(v, cluster).value)
  {
    OwnEntryIff(v, cluster);
    EndOfChainIff(v);
  }

  // ---------------------------------------------------------------- formatting and mounting

  /** What a volume is formatted with. */
  datatype Geometry = Geometry(
    sectorsPerCluster: nat,
    reserved: nat,
    numFats: nat,
    sectorsPerFat: nat,
    root: nat,
    total: nat)

  predicate Formattable(g: Geometry) {
    && g.sectorsPerCluster in {1, 2, 4, 8, 16, 32, 64, 128}
    && 1 <= g.reserved < 0x1_0000 && 1 <= g.numFats < 0x100 && 1 <= g.sectorsPerFat < TWO_32
    && g.reserved + g.numFats * g.sectorsPerFat < g.total < TWO_32
    && 2 <= g.root < ClustersIn(g.reserved + g.numFats * g.sectorsPerFat, g.total, g.sectorsPerCluster) + 2
  }

  /** The boot sector of a volume, field by field. */
  function FormattedByte(g: Geometry, i: nat): byte
    requires g.sectorsPerCluster < 0x100 && g.reserved < 0x1_0000 && g.numFats < 0x100
    requires g.sectorsPerFat < TWO_32 && g.root < TWO_32 && g.total < TWO_32
  {
    if i == 12 then 2
    else if i == 13 then g.sectorsPerCluster
    else if 14 <= i < 16 then ToLe16(g.reserved)[i - 14]
    else if i == 16 then g.numFats
    else if 32 <= i < 36 then ToLe32(g.total)[i - 32]
    else if 36 <= i < 40 then ToLe32(g.sectorsPerFat)[i - 36]
    else if 44 <= i < 48 then ToLe32(g.root)[i - 44]
    else if 82 <= i < 90 then ['F', 'A', 'T', '3', '2', ' ', ' ', ' '][i - 82] as int
    else if i == 510 then 0x55
    else if i == 511 then 0xAA
    else 0
  }

  lemma FormattableFits(g: Geometry)
    requires Formattable(g)
    ensures g.root < TWO_32 && 1 <= g.total < TWO_32 && g.sectorsPerFat < TWO_32
    ensures g.reserved < 0x1_0000 && g.numFats < 0x100 && g.sectorsPerCluster < 0x100
  {
    var start := g.reserved + g.numFats * g.sectorsPerFat;
    DivShrinks(g.total - start, g.sectorsPerCluster);
    MulMonotone(1, g.numFats, g.sectorsPerFat);
  }

  function FormattedBoot(g: Geometry): Sector
    requires Formattable(g)
  {
    FormattableFits(g);
    seq(SECTOR, i requires 0 <= i < SECTOR => FormattedByte(g, i))
  }

  function BlankSector(): Sector { seq(SECTOR, _ => 0) }

  function FormattedDisk(g: Geometry): seq<Sector>
    requires Formattable(g)
  {
    FormattableFits(g);
    [FormattedBoot(g)] + seq(g.total - 1, _ => BlankSector())
  }

  function FormattedVolume(g: Geometry): Volume
    requires Formattable(g)
  {
    var start := g.reserved + g.numFats * g.sectorsPerFat;
    Volume(FormattedDisk(g),
           Meta(g.sectorsPerCluster, g.reserved, g.numFats, g.sectorsPerFat, g.root, g.total, start,
                ClustersIn(start, g.total, g.sectorsPerCluster)))
  }

  lemma Field16(boot: Sector, at: nat, n: nat)
    requires n < 0x1_0000 && at + 2 <= SECTOR && boot[at..at + 2] == ToLe16(n)
    ensures Le16(boot, at) == n
  {
    FieldsRoundTrip(boot[..at], boot[at + 2..], n);
    assert boot == boot[..at] + ToLe16(n) + boot[at + 2..];
  }

  lemma Field32(boot: Sector, at: nat, n: nat)
    requires n < TWO_32 && at + 4 <= SECTOR && boot[at..at + 4] == ToLe32(n)
    ensures Le32(boot, at) == n
  {
    FieldsRoundTrip(boot[..at], boot[at + 4..], n);
    assert boot == boot[..at] + ToLe32(n) + boot[at + 4..];
  }

  lemma FormattedFields(g: Geometry)
    requires Formattable(g)
    ensures
      var boot := FormattedBoot(g);
      && Labelled(boot) && boot[13] == g.sectorsPerCluster && boot[16] == g.numFats
      && boot[19] == 0 && boot[20] == 0
      && Le16(boot, 14) == g.reserved && Le32(boot, 36) == g.sectorsPerFat
      && Le32(boot, 32) == g.total && Le32(boot, 44) == g.root
  {
    hide Le16; hide Le32; hide ToLe16; hide ToLe32; hide Formattable;
    FormattableFits(g);
    var boot := FormattedBoot(g);
    assert boot[14..16] == ToLe16(g.reserved) && boot[32..36] == ToLe32(g.total);
    assert boot[36..40] == ToLe32(g.sectorsPerFat) && boot[44..48] == ToLe32(g.root);
    Field16(boot, 14, g.reserved);
    Field32(boot, 32, g.total);
    Field32(boot, 36, g.sectorsPerFat);
    Field32(boot, 44, g.root);
  }

  lemma FormattedIsDescribed(g: Geometry)
    requires Formattable(g)
    ensures FormattedBoot(g)[13] != 0 && Described(FormattedBoot(g)) == FormattedVolume(g).meta
  {
    hide Le16; hide Le32; hide FormattedBoot; hide ClustersIn; hide Labelled;
    FormattedFields(g);
  }

  lemma FormattedIsMountable(g: Geometry)
    requires Formattable(g)
    ensures Mountable(FormattedDisk(g)) && FormattedDisk(g)[0] == FormattedBoot(g)
  {
    hide Le16; hide Le32; hide FormattedBoot; hide ClustersIn; hide Labelled; hide Described;
    FormattableFits(g);
    FormattedFields(g);
    FormattedIsDescribed(g);
  }

  /** Every volume mounts as it was formatted, whatever its geometry. */
  lemma FormattedMounts(g: Geometry)
    requires Formattable(g)
    ensures
      var v := FormattedVolume(g);
      && Mount(v.disk) == Some(v.meta) && SafeGeometry(v)
      && v.meta.dataStartSector == g.reserved + g.numFats * g.sectorsPerFat
      && v.meta.clusterCount == (g.total - v.meta.dataStartSector) / g.sectorsPerCluster
  {
    hide FormattedBoot; hide FormattedDisk; hide Mount; hide SafeGeometry; hide Mountable; hide Described;
    FormattedIsMountable(g);
    FormattedIsDescribed(g);
    MountIsExact(FormattedDisk(g));
    MountIsSafe(FormattedDisk(g));
  }

  // ---------------------------------------------------------------- disks on which they fail

  /** One reserved sector, one FAT and one sector per cluster. */
  function Small(total: nat, spf: nat): Geometry { Geometry(1, 1, 1, spf, 2, total) }

  /** Mounting accepts a disk whose FAT has 128 entries and whose clusters go up to 199: for cluster
      199 a sector of the data region is read as if it were FAT. */
  lemma ShortFatMounts()
    ensures
      var v := FormattedVolume(Small(200, 1));
      && Mount(v.disk) == Some(v.meta)
      && ValidCluster(v, 199) && !ReadsOwnEntry(v, 199) && FatSector(v, 199) == ClusterLba(v, 2)
  {
    hide FormattedDisk; hide Mount;
    FormattedMounts(Small(200, 1));
  }

  /** Mounting accepts a disk with so many clusters that an end-of-chain value is one of them: a
      chain that should end there goes on. Its FAT has an entry for every cluster. */
  lemma ManyClustersMount()
    ensures
      var v := FormattedVolume(Small(0x2000_0000, 0x40_0000));
      && Mount(v.disk) == Some(v.meta) && v.meta.clusterCount + 2 <= v.meta.sectorsPerFat * 128
      && ValidCluster(v, END_OF_CHAIN)
  {
    hide FormattedDisk; hide Mount;
    FormattedMounts(Small(0x2000_0000, 0x40_0000));
  }

  /** Mounting accepts a disk on which the byte offset of a FAT entry wraps, although the FAT has
      that entry: cluster 2^30 + 2 is followed through the entry of cluster 2. */
  lemma WrappedEntryMounts()
    ensures
      var v := FormattedVolume(Small(0x8000_0000, 0x100_0000));
      && Mount(v.disk) == Some(v.meta) && v.meta.clusterCount + 2 <= v.meta.sectorsPerFat * 128
      && ValidCluster(v, 0x4000_0002) && !ReadsOwnEntry(v, 0x4000_0002)
      && FatNext(v, 0x4000_0002) == FatNext(v, 2)
  {
    hide FormattedDisk; hide Mount; hide SafeGeometry;
    FormattedMounts(Small(0x8000_0000, 0x100_0000));
    assert FatByteOffset(0x4000_0002) == 8 == FatByteOffset(2);
  }
}
