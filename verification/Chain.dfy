/**
 Cluster chains: following the FAT from a first cluster, the bytes a chain holds, and how far a
 bounded walk sees.
 */
module Chain {
  import opened Options
  import opened Bytes
  import opened Volume

  /** The cluster `k` links after `first`, if every link up to there can be followed. */
  function ClusterAt(v: Volume, first: nat, k: nat): Option<nat> {
    if k == 0 then Some(first)
    else
      var prev := ClusterAt(v, first, k - 1);
      if prev.Some? && ValidCluster(v, prev.value) then FatNext(v, prev.value) else None
  }

  /** Chain position `k` holds data. */
  predicate Usable(v: Volume, first: nat, k: nat) {
    ClusterAt(v, first, k).Some? && ValidCluster(v, ClusterAt(v, first, k).value)
  }

  lemma {:induction false} UsableBefore(v: Volume, first: nat, j: nat, k: nat)
    requires j <= k && Usable(v, first, k)
    ensures Usable(v, first, j)
    decreases k
  {
    if j < k { UsableBefore(v, first, j, k - 1); }
  }

  /** Walking on from a point of the chain. */
  lemma {:induction false} ClusterAtFrom(v: Volume, first: nat, j: nat, k: nat)
    requires Usable(v, first, j)
    ensures ClusterAt(v, ClusterAt(v, first, j).value, k) == ClusterAt(v, first, j + k)
    decreases k
  {
    if k > 0 { ClusterAtFrom(v, first, j, k - 1); }
  }

  // ---------------------------------------------------------------- bytes

  function SectorsBytes(disk: seq<Sector>, lba: nat, count: nat): (r: seq<byte>)
    requires Readable(disk, lba, count)
    ensures |r| == count * SECTOR
  {
    if count == 0 then [] else SectorsBytes(disk, lba, count - 1) + disk[lba + count - 1]
  }

  function ClusterSize(v: Volume): nat { v.meta.sectorsPerCluster * SECTOR }

  function ClusterBytes(v: Volume, cluster: nat): (r: seq<byte>)
    requires SafeGeometry(v) && ValidCluster(v, cluster)
    ensures |r| == ClusterSize(v)
  {
    ClusterOnDisk(v, cluster);
    SectorsBytes(v.disk, ClusterLba(v, cluster), v.meta.sectorsPerCluster)
  }

  /** The first `n` clusters of the chain, one after the other. */
  function ChainBytes(v: Volume, first: nat, n: nat): (r: seq<byte>)
    requires SafeGeometry(v) && (n > 0 ==> Usable(v, first, n - 1))
    ensures |r| == n * ClusterSize(v)
  {
    if n == 0 then []
    else
      UsableBefore(v, first, if n > 1 then n - 2 else 0, n - 1);
      ChainBytes(v, first, n - 1) + ClusterBytes(v, ClusterAt(v, first, n - 1).value)
  }

  lemma StepUp(k: nat, n: nat, size: nat)
    requires k < n
    ensures (k + 1) * size == k * size + size <= n * size
  {
    MulMonotone(k + 1, n, size);
  }

  /** Sectors s..s+n of a run of sectors. */
  lemma {:induction false} SectorsSlice(disk: seq<Sector>, lba: nat, count: nat, s: nat, n: nat)
    requires Readable(disk, lba, count) && s + n <= count
    ensures SectorsBytes(disk, lba, count)[s * SECTOR..(s + n) * SECTOR] == SectorsBytes(disk, lba + s, n)
    decreases count
  {
    if s + n < count {
      SectorsSlice(disk, lba, count - 1, s, n);
    } else if n > 0 {
      SectorsSlice(disk, lba, count - 1, s, n - 1);
    }
  }

  /** Cluster `k` of the chain, which starts at `lo`. */
  lemma {:induction false} ChainSlice(v: Volume, first: nat, n: nat, k: nat, lo: nat)
    requires SafeGeometry(v) && k < n && Usable(v, first, n - 1) && lo == k * ClusterSize(v)
    ensures Usable(v, first, k) && lo + ClusterSize(v) <= |ChainBytes(v, first, n)|
    ensures ChainBytes(v, first, n)[lo..lo + ClusterSize(v)] == ClusterBytes(v, ClusterAt(v, first, k).value)
    decreases n
  {
    hide SafeGeometry; hide ClusterSize; hide ClusterBytes; hide ValidCluster;
    UsableBefore(v, first, k, n - 1);
    StepUp(k, n, ClusterSize(v));
    if k < n - 1 {
      UsableBefore(v, first, n - 2, n - 1);
      ChainSlice(v, first, n - 1, k, lo);
    }
  }

  lemma SubSlice(s: seq<byte>, lo: nat, size: nat, from: nat, len: nat)
    requires lo + size <= |s| && from + len <= size
    ensures s[lo..lo + size][from..from + len] == s[lo + from..lo + from + len]
  {
    var part, whole := s[lo..lo + size][from..from + len], s[lo + from..lo + from + len];
    forall i | 0 <= i < len ensures part[i] == whole[i] {
      assert part[i] == s[lo..lo + size][from + i] == s[lo + (from + i)];
    }
  }

  /** A longer stretch of the chain starts with a shorter one. */
  lemma {:induction false} ChainGrows(v: Volume, first: nat, n: nat, m: nat)
    requires SafeGeometry(v) && n <= m && (m > 0 ==> Usable(v, first, m - 1))
    ensures n > 0 ==> Usable(v, first, n - 1)
    ensures ChainBytes(v, first, n) <= ChainBytes(v, first, m)
    decreases m
  {
    hide SafeGeometry; hide ClusterBytes; hide ClusterAt; hide ClusterSize; hide Usable;
    if n < m {
      if m > 1 { UsableBefore(v, first, m - 2, m - 1); }
      ChainGrows(v, first, n, m - 1);
      ChainSnoc(v, first, m - 1);
    }
  }

  lemma ChainSnoc(v: Volume, first: nat, n: nat)
    requires SafeGeometry(v) && Usable(v, first, n)
    ensures n > 0 ==> Usable(v, first, n - 1)
    ensures ChainBytes(v, first, n + 1) == ChainBytes(v, first, n) + ClusterBytes(v, ClusterAt(v, first, n).value)
  {
    if n > 0 { UsableBefore(v, first, n - 1, n); }
  }

  // ---------------------------------------------------------------- bounded walks

  /** How many clusters a walk of at most `hops` clusters visits. */
  function Reach(v: Volume, first: nat, hops: nat): nat {
    if hops == 0 then 0
    else
      var n := Reach(v, first, hops - 1);
      if n == hops - 1 && Usable(v, first, n) then hops else n
  }

  lemma {:induction false} ReachLimits(v: Volume, first: nat, hops: nat)
    ensures var n := Reach(v, first, hops);
      && n <= hops
      && (n > 0 ==> Usable(v, first, n - 1))
      && (n < hops ==> !Usable(v, first, n))
  {
    hide Usable; hide ClusterAt;
    if hops > 0 { ReachLimits(v, first, hops - 1); }
  }

  /** No cluster comes up twice. */
  ghost predicate Acyclic(v: Volume, first: nat) {
    forall i, j | 0 <= i < j && Usable(v, first, i) && Usable(v, first, j) ::
      ClusterAt(v, first, i) != ClusterAt(v, first, j)
  }

  lemma ReachIs(v: Volume, first: nat, hops: nat, k: nat)
    requires k <= hops && (k > 0 ==> Usable(v, first, k - 1)) && (k == hops || !Usable(v, first, k))
    ensures Reach(v, first, hops) == k
  {
    hide SafeGeometry; hide Usable; hide ClusterAt; hide Reach; hide ValidCluster;
    ReachLimits(v, first, hops);
    var n := Reach(v, first, hops);
    if n < k {
      UsableBefore(v, first, n, k - 1);
    } else if k < n {
      UsableBefore(v, first, k, n - 1);
    }
  }

  /** The first n clusters of the chain. */
  function Clusters(v: Volume, first: nat, n: nat): (s: seq<nat>)
    requires n > 0 ==> Usable(v, first, n - 1)
    ensures |s| == n
    ensures forall i :: 0 <= i < n ==> Usable(v, first, i) && s[i] == ClusterAt(v, first, i).value
  {
    if n == 0 then []
    else
      UsableBefore(v, first, if n > 1 then n - 2 else 0, n - 1);
      Clusters(v, first, n - 1) + [ClusterAt(v, first, n - 1).value]
  }

  predicate Repeats(s: seq<nat>, i: nat, j: nat) { i < j < |s| && s[i] == s[j] }

  /** More values than the range has room for: two of them agree. */
  lemma {:induction false} Pigeonhole(s: seq<nat>, lo: nat, size: nat) returns (i: nat, j: nat)
    requires |s| > size && forall k :: 0 <= k < |s| ==> lo <= s[k] < lo + size
    ensures Repeats(s, i, j)
    decreases size
  {
    assert s[0] < lo + size;
    var top := lo + size - 1;
    if a, b :| 0 <= a < b < |s| && s[a] == s[b] == top {
      i, j := a, b;
    } else if a :| 0 <= a < |s| && s[a] == top {
      var rest := s[..a] + s[a + 1..];
      forall k | 0 <= k < |rest| ensures lo <= rest[k] < lo + (size - 1) {
        assert rest[k] == s[if k < a then k else k + 1];
      }
      i, j := Pigeonhole(rest, lo, size - 1);
      i, j := if i < a then i else i + 1, if j < a then j else j + 1;
    } else {
      i, j := Pigeonhole(s, lo, size - 1);
    }
  }

  lemma InRange(v: Volume, cluster: nat)
    requires SafeGeometry(v) && ValidCluster(v, cluster)
    ensures 2 <= cluster < 2 + v.meta.clusterCount
  {
  }

  /** A chain longer than the volume has clusters revisits one of them. */
  lemma LongChainRepeats(v: Volume, first: nat) returns (i: nat, j: nat)
    requires SafeGeometry(v) && Usable(v, first, v.meta.clusterCount)
    ensures i < j <= v.meta.clusterCount && Usable(v, first, i) && Usable(v, first, j)
    ensures ClusterAt(v, first, i) == ClusterAt(v, first, j)
  {
    hide ClusterAt; hide Clusters; hide FatNext;
    var s := Clusters(v, first, v.meta.clusterCount + 1);
    forall k | 0 <= k < |s| ensures 2 <= s[k] < 2 + v.meta.clusterCount { InRange(v, s[k]); }
    i, j := Pigeonhole(s, 2, v.meta.clusterCount);
  }

  /** An acyclic chain ends by itself before the hop bound of lookup does: allowing any more hops
      makes no difference. */
  lemma AcyclicEndsFirst(v: Volume, first: nat, hops: nat)
    requires SafeGeometry(v) && Acyclic(v, first) && hops > v.meta.clusterCount
    ensures Reach(v, first, hops) <= v.meta.clusterCount
    ensures Reach(v, first, hops) == Reach(v, first, v.meta.clusterCount + 1)
    ensures !Usable(v, first, Reach(v, first, hops))
  {
    hide SafeGeometry; hide Usable; hide ClusterAt; hide Reach; hide ValidCluster;
    if Usable(v, first, v.meta.clusterCount) {
      var i, j := LongChainRepeats(v, first);
      assert false;
    }
    ReachLimits(v, first, hops);
    var n := Reach(v, first, hops);
    if n > v.meta.clusterCount {
      UsableBefore(v, first, v.meta.clusterCount, n - 1);
      assert false;
    }
    ReachIs(v, first, v.meta.clusterCount + 1, n);
  }

  /** Whatever the shape of the chain, every cluster it ever reaches is visited within the hop
      bound of lookup; the position returned is where. */
  lemma {:induction false} EveryClusterVisited(v: Volume, first: nat, k: nat) returns (i: nat)
    requires SafeGeometry(v) && Usable(v, first, k)
    ensures i < Reach(v, first, v.meta.clusterCount + 1) && Usable(v, first, i)
    ensures ClusterAt(v, first, i) == ClusterAt(v, first, k)
    decreases k
  {
    hide SafeGeometry; hide ClusterAt; hide Reach; hide ValidCluster;
    ReachLimits(v, first, v.meta.clusterCount + 1);
    var n := Reach(v, first, v.meta.clusterCount + 1);
    if k <= v.meta.clusterCount {
      if n <= k {
        UsableBefore(v, first, n, k);
        assert false;
      }
      i := k;
    } else {
      UsableBefore(v, first, v.meta.clusterCount, k);
      var a, b := LongChainRepeats(v, first);
      ClusterAtFrom(v, first, a, k - b);
      ClusterAtFrom(v, first, b, k - b);
      i := EveryClusterVisited(v, first, a + (k - b));
    }
  }

  // ---------------------------------------------------------------- the FAT as bytes

  /** The first FAT, all its sectors one after the other. */
  function FatBytes(v: Volume): (r: seq<byte>)
    requires SafeGeometry(v)
    ensures |r| == v.meta.sectorsPerFat * 512
  {
    SectorsBytes(v.disk, v.meta.reservedSectors, v.meta.sectorsPerFat)
  }

  /** Bytes 4N..4N + 4 of the FAT are the little-endian `x`. */
  predicate EntryIs(v: Volume, cluster: nat, x: nat)
    requires SafeGeometry(v) && x < TWO_32
  {
    && cluster < 0x4000_0000 && cluster < v.meta.sectorsPerFat * 128
    && FatBytes(v)[4 * cluster..4 * cluster + 4] == ToLe32(x)
  }

  lemma FatPosition(v: Volume, cluster: nat)
    requires cluster < 0x4000_0000
    ensures FatSector(v, cluster) == v.meta.reservedSectors + cluster / 128
    ensures FatWithin(cluster) == 4 * cluster - 512 * (cluster / 128)
  {
    assert FatByteOffset(cluster) == 4 * cluster;
    assert 4 * cluster / SECTOR == cluster / 128;
    assert 4 * cluster % SECTOR == 4 * cluster - 512 * (cluster / 128);
  }

  /** fat_next returns the low 28 bits of the cluster's entry. */
  lemma FatNextReads(v: Volume, cluster: nat, x: nat)
    requires SafeGeometry(v) && x < TWO_32 && EntryIs(v, cluster, x)
    ensures FatNext(v, cluster) == Some(x % 0x1000_0000)
  {
    FatPosition(v, cluster);
    hide FatSector; hide FatWithin; hide ToLe32; hide Le32; hide SectorsBytes;
    var s, at := cluster / 128, FatWithin(cluster);
    var sector := v.disk[v.meta.reservedSectors + s];
    SectorOfFat(v, s);
    SubSlice(FatBytes(v), 512 * s, 512, at, 4);
    assert sector[at..at + 4] == ToLe32(x);
    Field32(sector, at, x);
  }

  lemma SectorOfFat(v: Volume, s: nat)
    requires SafeGeometry(v) && s < v.meta.sectorsPerFat
    ensures 512 * s + 512 <= |FatBytes(v)|
    ensures FatBytes(v)[512 * s..512 * s + 512] == v.disk[v.meta.reservedSectors + s]
  {
    hide SectorsBytes;
    SectorsSlice(v.disk, v.meta.reservedSectors, v.meta.sectorsPerFat, s, 1);
    OneSector(v.disk, v.meta.reservedSectors + s);
  }

  lemma OneSector(disk: seq<Sector>, lba: nat)
    requires Readable(disk, lba, 1)
    ensures SectorsBytes(disk, lba, 1) == disk[lba]
  {
    assert SectorsBytes(disk, lba, 0) == [];
  }

  // ---------------------------------------------------------------- chains as lists of clusters

  /** The FAT links the clusters `cs` in order and ends after the last: `xs` are their entries. */
  ghost predicate Linked(v: Volume, cs: seq<nat>, xs: seq<nat>)
    requires SafeGeometry(v)
  {
    && |cs| == |xs| > 0
    && (forall i :: 0 <= i < |cs| ==> ValidCluster(v, cs[i]) && xs[i] < TWO_32 && EntryIs(v, cs[i], xs[i]))
    && (forall i :: 0 <= i < |cs| - 1 ==> xs[i] % 0x1000_0000 == cs[i + 1])
    && xs[|cs| - 1] % 0x1000_0000 >= 0x0FFF_FFF8
  }

  /** The bytes of clusters `cs`, one after the other. */
  function Concat(v: Volume, cs: seq<nat>): (r: seq<byte>)
    requires SafeGeometry(v) && forall i :: 0 <= i < |cs| ==> ValidCluster(v, cs[i])
    ensures |r| == |cs| * ClusterSize(v)
  {
    if cs == [] then []
    else
      StepUp(|cs| - 1, |cs|, ClusterSize(v));
      Concat(v, cs[..|cs| - 1]) + ClusterBytes(v, cs[|cs| - 1])
  }

  /** Sector s of a cluster, by its place on the disk. */
  lemma ClusterSector(v: Volume, cluster: nat, s: nat)
    requires SafeGeometry(v) && ValidCluster(v, cluster) && s < v.meta.sectorsPerCluster
    ensures 2 <= cluster < v.meta.clusterCount + 2
    ensures
      var lba := v.meta.dataStartSector + (cluster - 2) * v.meta.sectorsPerCluster + s;
      0 <= lba < |v.disk| && ClusterBytes(v, cluster)[512 * s..512 * s + 512] == v.disk[lba]
  {
    ClusterOnDisk(v, cluster);
    hide SafeGeometry; hide SectorsBytes;
    SectorsSlice(v.disk, ClusterLba(v, cluster), v.meta.sectorsPerCluster, s, 1);
    OneSector(v.disk, ClusterLba(v, cluster) + s);
  }

  lemma LinkedAreValid(v: Volume, cs: seq<nat>, xs: seq<nat>)
    requires SafeGeometry(v) && Linked(v, cs, xs)
    ensures forall i :: 0 <= i < |cs| ==> ValidCluster(v, cs[i])
  {
  }

  lemma {:induction false} LinkedAt(v: Volume, cs: seq<nat>, xs: seq<nat>, k: nat)
    requires SafeGeometry(v) && Linked(v, cs, xs) && k < |cs|
    ensures Usable(v, cs[0], k) && ClusterAt(v, cs[0], k) == Some(cs[k])
    decreases k
  {
    hide SafeGeometry; hide FatNext; hide EntryIs; hide ValidCluster;
    if k > 0 {
      LinkedAt(v, cs, xs, k - 1);
      FatNextReads(v, cs[k - 1], xs[k - 1]);
    }
  }

  /** The chain of linked clusters ends after the last of them. */
  lemma LinkedEnds(v: Volume, cs: seq<nat>, xs: seq<nat>)
    requires SafeGeometry(v) && Linked(v, cs, xs) && v.meta.clusterCount + 2 <= 0x0FFF_FFF8
    ensures !Usable(v, cs[0], |cs|)
  {
    hide FatNext; hide EntryIs;
    LinkedAt(v, cs, xs, |cs| - 1);
    FatNextReads(v, cs[|cs| - 1], xs[|cs| - 1]);
  }

  lemma {:induction false} LinkedBytes(v: Volume, cs: seq<nat>, xs: seq<nat>, n: nat)
    requires SafeGeometry(v) && Linked(v, cs, xs) && n <= |cs|
    ensures n > 0 ==> Usable(v, cs[0], n - 1)
    ensures ChainBytes(v, cs[0], n) == Concat(v, cs[..n])
    decreases n
  {
    hide SafeGeometry; hide ClusterAt; hide EntryIs; hide ValidCluster; hide ClusterBytes; hide Usable;
    if n > 0 {
      LinkedAt(v, cs, xs, n - 1);
      LinkedBytes(v, cs, xs, n - 1);
      ChainSnoc(v, cs[0], n - 1);
      assert cs[..n][..n - 1] == cs[..n - 1];
    }
  }

  /** No cluster is linked twice, so there are at most as many as the volume has. */
  lemma LinkedIsShort(v: Volume, cs: seq<nat>, xs: seq<nat>)
    requires SafeGeometry(v) && Linked(v, cs, xs) && v.meta.clusterCount + 2 <= 0x0FFF_FFF8
    ensures |cs| <= v.meta.clusterCount
  {
    hide SafeGeometry; hide ClusterAt; hide Linked; hide Usable;
    LinkedEnds(v, cs, xs);
    if |cs| > v.meta.clusterCount {
      LastUsable(v, cs, xs);
      UsableBefore(v, cs[0], v.meta.clusterCount, |cs| - 1);
      var i, j := LongChainRepeats(v, cs[0]);
      LoopGoesOn(v, cs[0], i, j, |cs|);
    }
  }

  lemma LastUsable(v: Volume, cs: seq<nat>, xs: seq<nat>)
    requires SafeGeometry(v) && Linked(v, cs, xs)
    ensures cs != [] && Usable(v, cs[0], |cs| - 1)
  {
    LinkedAt(v, cs, xs, |cs| - 1);
  }

  /** A chain that comes back to a cluster goes on for ever. */
  lemma LoopGoesOn(v: Volume, first: nat, i: nat, j: nat, n: nat)
    requires i < j < n && Usable(v, first, i) && Usable(v, first, j) && Usable(v, first, n - 1)
    requires ClusterAt(v, first, i) == ClusterAt(v, first, j)
    ensures Usable(v, first, n)
  {
    hide ClusterAt; hide ValidCluster;
    ClusterAtFrom(v, first, i, n - j);
    ClusterAtFrom(v, first, j, n - j);
    UsableBefore(v, first, i + (n - j), n - 1);
  }
}
