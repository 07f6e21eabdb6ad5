/**
 File::read: the bytes of a file through its cluster chain, with a cursor cache, a path for
 whole sectors and a bounce buffer for the rest.
 */
module FileRead {
  import opened Options
  import opened Bytes
  import opened Volume
  import opened Chain

  // ---------------------------------------------------------------- arithmetic of positions

  lemma DivMod(x: nat, d: nat)
    requires d > 0
    ensures 0 <= x % d < d && x == x / d * d + x % d
  {
  }

  // ---------------------------------------------------------------- slices of a chain

  /** A stretch inside cluster `k` of the chain is that stretch of the cluster. */
  lemma ClusterSlice(v: Volume, first: nat, n: nat, k: nat, from: nat, len: nat, at: nat)
    requires SafeGeometry(v) && k < n && Usable(v, first, n - 1)
    requires from + len <= ClusterSize(v) && at == k * ClusterSize(v) + from
    ensures Usable(v, first, k) && at + len <= |ChainBytes(v, first, n)|
    ensures ChainBytes(v, first, n)[at..at + len]
            == ClusterBytes(v, ClusterAt(v, first, k).value)[from..from + len]
  {
    hide SafeGeometry; hide ClusterSize; hide ClusterBytes; hide ChainBytes; hide Usable;
    ChainSlice(v, first, n, k, at - from);
    SubSlice(ChainBytes(v, first, n), at - from, ClusterSize(v), from, len);
  }

  // ---------------------------------------------------------------- the disk

  /** DiskReader::read_sectors into `buf` at `at`. */
  method ReadSectors(disk: seq<Sector>, lba: nat, count: nat, buf: array<byte>, at: nat) returns (ok: bool)
    requires Readable(disk, lba, count) ==> at + count * SECTOR <= buf.Length
    modifies buf
    ensures ok <==> lba + count <= |disk|
    ensures !ok ==> buf[..] == old(buf[..])
    ensures ok ==> buf[..at] == old(buf[..at]) && buf[at + count * SECTOR..] == old(buf[at + count * SECTOR..])
    ensures ok ==> buf[at..at + count * SECTOR] == SectorsBytes(disk, lba, count)
  {
    if lba > |disk| || count > |disk| - lba {
      return false;
    }
    for i := 0 to count
      invariant buf[..at] == old(buf[..at]) && buf[at + count * SECTOR..] == old(buf[at + count * SECTOR..])
      invariant buf[at..at + i * SECTOR] == SectorsBytes(disk, lba, i)
    {
      CopySector(disk[lba + i], buf, at + i * SECTOR, 0, SECTOR);
      assert buf[at..at + (i + 1) * SECTOR]
          == buf[at..at + i * SECTOR] + buf[at + i * SECTOR..at + (i + 1) * SECTOR];
      assert disk[lba + i][0..SECTOR] == disk[lba + i];
    }
    return true;
  }

  /** memcpy of part of a sector */
  method CopySector(sector: Sector, buf: array<byte>, at: nat, from: nat, len: nat)
    requires from + len <= SECTOR && at + len <= buf.Length
    modifies buf
    ensures buf[..at] == old(buf[..at]) && buf[at + len..] == old(buf[at + len..])
    ensures buf[at..at + len] == sector[from..from + len]
  {
    for i := 0 to len
      invariant buf[..at] == old(buf[..at]) && buf[at + len..] == old(buf[at + len..])
      invariant buf[at..at + i] == sector[from..from + i]
    {
      buf[at + i] := sector[from + i];
    }
  }

  // ---------------------------------------------------------------- File

  function Min(a: nat, b: nat): nat { if a < b then a else b }

  /** How many bytes a read of `len` at `offset` is for. */
  function Wanted(size: nat, offset: nat, len: nat): (n: nat)
    ensures offset >= size ==> n == 0
    ensures offset < size ==> n <= len && offset + n <= size && (n == len || offset + n == size)
  {
    if offset >= size then 0 else Min(len, size - offset)
  }

  /** Which cluster of a chain a byte position falls in. */
  function IndexOf(position: nat, clusterSize: nat): (k: nat)
    requires clusterSize > 0
    ensures k * clusterSize <= position < k * clusterSize + clusterSize
  {
    DivMod(position, clusterSize);
    position / clusterSize
  }

  /** Where in its cluster a byte position is. */
  function WithinOf(position: nat, clusterSize: nat): (r: nat)
    requires clusterSize > 0
    ensures r < clusterSize && position == IndexOf(position, clusterSize) * clusterSize + r
  {
    DivMod(position, clusterSize);
    position % clusterSize
  }

  /** Bytes offset..offset + n of the chain's clusters put one after the other. */
  function Content(v: Volume, first: nat, offset: nat, n: nat): (r: seq<byte>)
    requires SafeGeometry(v) && n > 0 && ClusterSize(v) > 0
    requires Usable(v, first, IndexOf(offset + n - 1, ClusterSize(v)))
    ensures |r| == n
  {
    var k := IndexOf(offset + n - 1, ClusterSize(v)) + 1;
    assert k * ClusterSize(v) == (k - 1) * ClusterSize(v) + ClusterSize(v);
    ChainBytes(v, first, k)[offset..offset + n]
  }

  /** Reading in parts gives the same bytes as reading at once, and succeeds if that does. */
  lemma ReadInParts(v: Volume, first: nat, offset: nat, a: nat, b: nat)
    requires SafeGeometry(v) && ClusterSize(v) > 0 && a > 0 && b > 0
    requires Usable(v, first, IndexOf(offset + a + b - 1, ClusterSize(v)))
    ensures Usable(v, first, IndexOf(offset + a - 1, ClusterSize(v)))
    ensures Content(v, first, offset, a) + Content(v, first, offset + a, b) == Content(v, first, offset, a + b)
  {
    hide SafeGeometry; hide ChainBytes; hide Usable; hide ClusterSize; hide Content; hide IndexOf;
    var near, far := IndexOf(offset + a - 1, ClusterSize(v)), IndexOf(offset + a + b - 1, ClusterSize(v));
    IndexBefore(offset + a - 1, offset + a + b - 1, ClusterSize(v), near);
    ChainGrows(v, first, near + 1, far + 1);
    ContentIs(v, first, offset, a);
    ContentIs(v, first, offset + a, b);
    ContentIs(v, first, offset, a + b);
    SliceInParts(ChainBytes(v, first, near + 1), ChainBytes(v, first, far + 1), offset, a, b);
  }

  lemma SliceInParts(p: seq<byte>, q: seq<byte>, o: nat, a: nat, b: nat)
    requires p <= q && o + a <= |p| && o + a + b <= |q|
    ensures p[o..o + a] + q[o + a..o + a + b] == q[o..o + a + b]
  {
    assert p[o..o + a] == q[o..o + a];
  }

  lemma ContentIs(v: Volume, first: nat, offset: nat, n: nat)
    requires SafeGeometry(v) && n > 0 && ClusterSize(v) > 0
    requires Usable(v, first, IndexOf(offset + n - 1, ClusterSize(v)))
    ensures var k := IndexOf(offset + n - 1, ClusterSize(v)) + 1;
      && offset + n <= |ChainBytes(v, first, k)|
      && Content(v, first, offset, n) == ChainBytes(v, first, k)[offset..offset + n]
  {
    hide SafeGeometry; hide ChainBytes; hide Usable; hide ClusterSize;
    var k := IndexOf(offset + n - 1, ClusterSize(v)) + 1;
    StepUp(k - 1, k, ClusterSize(v));
  }

  class File {
    const fs: Option<Volume>
    const firstCluster: nat
    const size: nat
    const dir: bool

    var cacheIndex: nat
    var cacheCluster: nat

    /** A cached cluster that is valid is the one cacheIndex links after the first. */
    ghost predicate Valid()
      reads this
    {
      && size < TWO_32
      && (fs.Some? ==>
            && SafeGeometry(fs.value)
            && (ValidCluster(fs.value, cacheCluster) ==>
                  ClusterAt(fs.value, firstCluster, cacheIndex) == Some(cacheCluster)))
    }

    constructor (fs: Option<Volume>, firstCluster: nat, size: nat, dir: bool)
      requires size < TWO_32 && (fs.Some? ==> SafeGeometry(fs.value))
      ensures Valid()
      ensures this.fs == fs && this.firstCluster == firstCluster && this.size == size && this.dir == dir
    {
      this.fs, this.firstCluster, this.size, this.dir := fs, firstCluster, size, dir;
      cacheIndex, cacheCluster := 0, 0;
    }

    /** The cluster at chain position `index`, walking on from the cache when it is not past it. */
    method Locate(v: Volume, index: nat) returns (r: Option<nat>)
      requires Valid() && fs == Some(v)
      ensures r.Some? == Usable(v, firstCluster, index)
      ensures r.Some? ==> r == ClusterAt(v, firstCluster, index) && ValidCluster(v, r.value)
    {
      var cluster, at := firstCluster, 0;
      if ValidCluster(v, cacheCluster) && cacheIndex <= index {
        cluster, at := cacheCluster, cacheIndex;
      }
      while at < index
        invariant at <= index && ClusterAt(v, firstCluster, at) == Some(cluster)
      {
        if !ValidCluster(v, cluster) {
          NotUsableAfter(v, firstCluster, at, index);
          return None;
        }
        var next := FatNext(v, cluster);
        if next.None? {
          NotUsableAfter(v, firstCluster, at + 1, index);
          return None;
        }
        cluster := next.value;
        at := at + 1;
      }
      if !ValidCluster(v, cluster) {
        return None;
      }
      return Some(cluster);
    }

    /** Copy from a cluster as much as one step of the loop takes: whole sectors up to the end of
        the cluster, or part of one sector. */
    method CopyStep(v: Volume, cluster: nat, within: nat, buf: array<byte>, done: nat, remaining: nat)
      returns (chunk: nat)
      requires SafeGeometry(v) && ValidCluster(v, cluster) && within < ClusterSize(v)
      requires remaining > 0 && done + remaining <= buf.Length
      modifies buf
      ensures 0 < chunk <= remaining && within + chunk <= ClusterSize(v)
      ensures buf[..done] == old(buf[..done]) && buf[done + chunk..] == old(buf[done + chunk..])
      ensures buf[done..done + chunk] == ClusterBytes(v, cluster)[within..within + chunk]
    {
      hide SafeGeometry; hide ClusterLba; hide ClusterBytes; hide ValidCluster;
      ClusterOnDisk(v, cluster);
      var sectorInCluster := within / SECTOR;
      var byteInSector := within % SECTOR;
      if byteInSector == 0 && remaining >= SECTOR {
        var n := Min(remaining / SECTOR, v.meta.sectorsPerCluster - sectorInCluster);
        CopyWhole(v, cluster, sectorInCluster, n, buf, done);
        chunk := n * SECTOR;
      } else {
        chunk := Min(SECTOR - byteInSector, remaining);
        CopyPart(v, cluster, sectorInCluster, byteInSector, buf, done, chunk);
      }
    }

    /** Whole sectors, straight into the caller's buffer. */
    method CopyWhole(v: Volume, cluster: nat, s: nat, n: nat, buf: array<byte>, done: nat)
      requires SafeGeometry(v) && ValidCluster(v, cluster) && s + n <= v.meta.sectorsPerCluster
      requires done + n * SECTOR <= buf.Length
      modifies buf
      ensures buf[..done] == old(buf[..done]) && buf[done + n * SECTOR..] == old(buf[done + n * SECTOR..])
      ensures buf[done..done + n * SECTOR] == ClusterBytes(v, cluster)[s * SECTOR..s * SECTOR + n * SECTOR]
    {
      hide SafeGeometry; hide ClusterLba; hide ClusterBytes; hide SectorsBytes;
      WholeSectors(v, cluster, s, n);
      var _ := ReadSectors(v.disk, ClusterLba(v, cluster) + s, n, buf, done);
    }

    /** Part of a sector, through the bounce buffer. */
    method CopyPart(v: Volume, cluster: nat, s: nat, b: nat, buf: array<byte>, done: nat, len: nat)
      requires SafeGeometry(v) && ValidCluster(v, cluster) && s < v.meta.sectorsPerCluster && b + len <= SECTOR
      requires done + len <= buf.Length
      modifies buf
      ensures buf[..done] == old(buf[..done]) && buf[done + len..] == old(buf[done + len..])
      ensures buf[done..done + len] == ClusterBytes(v, cluster)[s * SECTOR + b..s * SECTOR + b + len]
    {
      hide SafeGeometry; hide ClusterLba; hide ClusterBytes; hide SectorsBytes;
      PartOfSector(v, cluster, s, b, len);
      var lba := ClusterLba(v, cluster) + s;
      var sector := new byte[SECTOR];
      var _ := ReadSectors(v.disk, lba, 1, sector, 0);
      OneSector(v.disk, lba);
      assert sector[..] == sector[0..SECTOR];
      CopySector(sector[..], buf, done, b, len);
    }

    method Read(offset: nat, buf: array<byte>, len: nat) returns (r: int)
      requires Valid() && Wanted(size, offset, len) <= buf.Length
      modifies `cacheIndex, `cacheCluster, buf
      ensures Valid()
      ensures fs.None? || dir ==> r == -1
      ensures fs.Some? && !dir && (offset >= size || len == 0) ==> r == 0
      ensures fs.Some? && !dir && offset < size && len > 0 ==>
        var n := if len <= size - offset then len else size - offset;
        r == if Usable(fs.value, firstCluster, IndexOf(offset + n - 1, ClusterSize(fs.value))) then n else -1
      ensures buf[Wanted(size, offset, len)..] == old(buf[Wanted(size, offset, len)..])
      ensures r > 0 ==> buf[..r] == Content(fs.value, firstCluster, offset, r)
    {
      hide SafeGeometry; hide ChainBytes; hide Usable; hide ClusterAt; hide ClusterSize; hide ValidCluster;
      if fs.None? || dir {
        return -1;
      }
      if offset >= size || len == 0 {
        return 0;
      }
      var n := if len > size - offset then size - offset else len;
      SizePositive(fs.value);
      r := ReadClamped(fs.value, offset, buf, n);
    }

    method ReadClamped(v: Volume, offset: nat, buf: array<byte>, n: nat) returns (r: int)
      requires Valid() && fs == Some(v) && SafeGeometry(v) && 0 < n <= buf.Length && ClusterSize(v) > 0
      modifies `cacheIndex, `cacheCluster, buf
      ensures Valid()
      ensures r == if Usable(v, firstCluster, IndexOf(offset + n - 1, ClusterSize(v))) then n else -1
      ensures buf[n..] == old(buf[n..])
      ensures r > 0 ==> buf[..n] == Content(v, firstCluster, offset, n)
    {
      hide SafeGeometry; hide ChainBytes; hide Usable; hide ClusterAt; hide ClusterSize; hide ValidCluster;
      hide Content; hide IndexOf; hide Valid;
      ghost var last := IndexOf(offset + n - 1, ClusterSize(v));
      var done := 0;
      while done < n
        invariant done <= n && Valid() && buf[n..] == old(buf[n..])
        invariant done == n ==> Usable(v, firstCluster, last)
        invariant Usable(v, firstCluster, last) ==> Copied(v, firstCluster, last, offset, buf[..done])
      {
        ghost var before := buf[..];
        var chunk := ReadSome(v, offset, buf, n, done);
        if chunk == 0 {
          return -1;
        }
        if Usable(v, firstCluster, last) {
          CopiedMore(v, firstCluster, last, offset, before[..done], buf[..], chunk);
        }
        done := done + chunk;
      }
      ContentIs(v, firstCluster, offset, n);
      return done;
    }

    /** One step of the loop: find the cluster of the next byte and copy from it; 0 when it cannot
        be found. */
    method ReadSome(v: Volume, offset: nat, buf: array<byte>, n: nat, done: nat) returns (chunk: nat)
      requires Valid() && fs == Some(v) && done < n <= buf.Length && ClusterSize(v) > 0
      modifies `cacheIndex, `cacheCluster, buf
      ensures Valid() && done + chunk <= n
      ensures buf[..done] == old(buf[..done]) && buf[done + chunk..] == old(buf[done + chunk..])
      ensures var last := IndexOf(offset + n - 1, ClusterSize(v));
        && (chunk == 0 ==> !Usable(v, firstCluster, last))
        && (done + chunk == n ==> Usable(v, firstCluster, last))
        && (Usable(v, firstCluster, last) ==>
              && offset + done + chunk <= |ChainBytes(v, firstCluster, last + 1)|
              && buf[done..done + chunk]
                 == ChainBytes(v, firstCluster, last + 1)[offset + done..offset + done + chunk])
    {
      hide SafeGeometry; hide ChainBytes; hide ClusterBytes; hide Usable; hide ClusterAt; hide ClusterSize;
      hide ValidCluster; hide Content; hide IndexOf; hide WithinOf;
      ghost var last := IndexOf(offset + n - 1, ClusterSize(v));
      var pos := offset + done;
      var index := IndexOf(pos, ClusterSize(v));
      var within := WithinOf(pos, ClusterSize(v));
      var found := Locate(v, index);
      if found.None? {
        IndexBefore(pos, offset + n - 1, ClusterSize(v), index);
        NotUsableAfter(v, firstCluster, index, last);
        return 0;
      }
      cacheIndex, cacheCluster := index, found.value;
      chunk := CopyStep(v, found.value, within, buf, done, n - done);
      StepIsSlice(v, firstCluster, offset, n, done, chunk, index, within, found.value);
    }
  }

  /** `out` is the chain's bytes from `offset` on. */
  ghost predicate Copied(v: Volume, first: nat, last: nat, offset: nat, out: seq<byte>)
    requires SafeGeometry(v) && Usable(v, first, last)
  {
    && offset + |out| <= |ChainBytes(v, first, last + 1)|
    && out == ChainBytes(v, first, last + 1)[offset..offset + |out|]
  }

  lemma CopiedMore(v: Volume, first: nat, last: nat, offset: nat, out: seq<byte>, buf: seq<byte>, chunk: nat)
    requires SafeGeometry(v) && Usable(v, first, last) && Copied(v, first, last, offset, out)
    requires |out| + chunk <= |buf| && buf[..|out|] == out
    requires offset + |out| + chunk <= |ChainBytes(v, first, last + 1)|
    requires buf[|out|..|out| + chunk] == ChainBytes(v, first, last + 1)[offset + |out|..offset + |out| + chunk]
    ensures Copied(v, first, last, offset, buf[..|out| + chunk])
  {
    hide SafeGeometry; hide ChainBytes; hide Usable;
    Glue(buf, ChainBytes(v, first, last + 1), |out|, chunk, offset);
  }

  /** The cluster size of a safe geometry. */
  lemma SizePositive(v: Volume)
    requires SafeGeometry(v)
    ensures ClusterSize(v) >= SECTOR
  {
  }

  lemma Glue(a: seq<byte>, b: seq<byte>, d: nat, c: nat, o: nat)
    requires d + c <= |a| && o + d + c <= |b|
    requires a[..d] == b[o..o + d] && a[d..d + c] == b[o + d..o + d + c]
    ensures a[..d + c] == b[o..o + d + c]
  {
    assert a[..d + c] == a[..d] + a[d..d + c];
    assert b[o..o + d + c] == b[o..o + d] + b[o + d..o + d + c];
  }

  lemma IndexBefore(x: nat, y: nat, size: nat, k: nat)
    requires x <= y && size > 0 && k * size <= x
    ensures k <= IndexOf(y, size)
  {
    if IndexOf(y, size) < k { StepUp(IndexOf(y, size), k, size); }
  }

  lemma IndexAfter(y: nat, size: nat, k: nat)
    requires size > 0 && y < k * size + size
    ensures IndexOf(y, size) <= k
  {
    if k < IndexOf(y, size) { StepUp(k, IndexOf(y, size), size); }
  }

  /** What one step of the loop copies is the next stretch of the chain, and the step that
      completes the read is in the cluster of the last byte wanted. */
  lemma StepIsSlice(v: Volume, first: nat, offset: nat, n: nat, done: nat, chunk: nat, index: nat, within: nat,
                    cluster: nat)
    requires SafeGeometry(v) && 0 < ClusterSize(v) && 0 < chunk && done + chunk <= n
    requires offset + done == index * ClusterSize(v) + within && within + chunk <= ClusterSize(v)
    requires Usable(v, first, index) && ClusterAt(v, first, index) == Some(cluster) && ValidCluster(v, cluster)
    ensures var last := IndexOf(offset + n - 1, ClusterSize(v));
      && (done + chunk == n ==> Usable(v, first, last))
      && (Usable(v, first, last) ==>
            && offset + done + chunk <= |ChainBytes(v, first, last + 1)|
            && ChainBytes(v, first, last + 1)[offset + done..offset + done + chunk]
               == ClusterBytes(v, cluster)[within..within + chunk])
  {
    hide SafeGeometry; hide ChainBytes; hide ClusterBytes; hide Usable; hide ClusterAt; hide ClusterSize;
    hide ValidCluster;
    var last := IndexOf(offset + n - 1, ClusterSize(v));
    IndexBefore(offset + done, offset + n - 1, ClusterSize(v), index);
    if done + chunk == n {
      IndexAfter(offset + n - 1, ClusterSize(v), index);
    }
    if Usable(v, first, last) {
      ClusterSlice(v, first, last + 1, index, within, chunk, offset + done);
    }
  }

  lemma NotUsableAfter(v: Volume, first: nat, j: nat, k: nat)
    requires j <= k && !Usable(v, first, j)
    ensures !Usable(v, first, k)
  {
    if Usable(v, first, k) { UsableBefore(v, first, j, k); }
  }

  lemma ClusterIs(v: Volume, cluster: nat)
    requires SafeGeometry(v) && ValidCluster(v, cluster)
    ensures Readable(v.disk, ClusterLba(v, cluster), v.meta.sectorsPerCluster)
    ensures ClusterBytes(v, cluster) == SectorsBytes(v.disk, ClusterLba(v, cluster), v.meta.sectorsPerCluster)
  {
    ClusterOnDisk(v, cluster);
  }

  lemma WholeSectors(v: Volume, cluster: nat, s: nat, n: nat)
    requires SafeGeometry(v) && ValidCluster(v, cluster) && s + n <= v.meta.sectorsPerCluster
    ensures Readable(v.disk, ClusterLba(v, cluster) + s, n)
    ensures ClusterBytes(v, cluster)[s * SECTOR..s * SECTOR + n * SECTOR]
            == SectorsBytes(v.disk, ClusterLba(v, cluster) + s, n)
  {
    hide SafeGeometry; hide ClusterLba; hide ClusterBytes; hide SectorsBytes;
    ClusterIs(v, cluster);
    SectorsSlice(v.disk, ClusterLba(v, cluster), v.meta.sectorsPerCluster, s, n);
  }

  lemma PartOfSector(v: Volume, cluster: nat, s: nat, b: nat, len: nat)
    requires SafeGeometry(v) && ValidCluster(v, cluster) && s < v.meta.sectorsPerCluster && b + len <= SECTOR
    ensures Readable(v.disk, ClusterLba(v, cluster) + s, 1)
    ensures ClusterBytes(v, cluster)[s * SECTOR + b..s * SECTOR + b + len]
            == v.disk[ClusterLba(v, cluster) + s][b..b + len]
  {
    ClusterOnDisk(v, cluster);
    WholeSectors(v, cluster, s, 1);
    SubSlice(ClusterBytes(v, cluster), s * SECTOR, SECTOR, b, len);
    assert SectorsBytes(v.disk, ClusterLba(v, cluster) + s, 1) == v.disk[ClusterLba(v, cluster) + s];
  }

  // ---------------------------------------------------------------- files as lists of clusters

  /** The content of a file is the bytes of the clusters that the FAT links from its first, in that
      order, and there is none past the last of them. */
  lemma LinkedContent(v: Volume, cs: seq<nat>, xs: seq<nat>, offset: nat, n: nat)
    requires SafeGeometry(v) && Linked(v, cs, xs) && n > 0 && ClusterSize(v) > 0
    requires v.meta.clusterCount + 2 <= 0x0FFF_FFF8
    ensures Usable(v, cs[0], IndexOf(offset + n - 1, ClusterSize(v))) <==> offset + n <= |Concat(v, cs)|
    ensures offset + n <= |Concat(v, cs)| ==>
              Content(v, cs[0], offset, n) == Concat(v, cs)[offset..offset + n]
  {
    hide SafeGeometry; hide Linked; hide ClusterSize; hide IndexOf; hide Content; hide ClusterAt; hide Usable;
    hide ChainBytes; hide Concat; hide ValidCluster;
    LastUsable(v, cs, xs);
    LinkedAreValid(v, cs, xs);
    var size, k := ClusterSize(v), IndexOf(offset + n - 1, ClusterSize(v));
    if offset + n <= |Concat(v, cs)| {
      IndexBelow(offset + n - 1, size, |cs|);
      UsableBefore(v, cs[0], k, |cs| - 1);
      ContentIs(v, cs[0], offset, n);
      ChainGrows(v, cs[0], k + 1, |cs|);
      LinkedBytes(v, cs, xs, |cs|);
      assert cs[..|cs|] == cs;
    } else {
      IndexBefore(offset + n - 1, offset + n - 1, size, |cs|);
      LinkedEnds(v, cs, xs);
      NotUsableAfter(v, cs[0], |cs|, k);
    }
  }

  lemma IndexBelow(y: nat, size: nat, k: nat)
    requires size > 0 && y < k * size
    ensures IndexOf(y, size) < k
  {
    if k <= IndexOf(y, size) { MulMonotone(k, IndexOf(y, size), size); }
  }
}
