/**
 Directories: a cluster chain read as one stream of 32-byte slots, and the search of a name in it.
 */
module Directory {
  import opened Options
  import opened Bytes
  import opened Volume
  import opened Chain
  import opened LongNames

  // ---------------------------------------------------------------- the stream of slots

  function Slots(b: seq<byte>): (r: seq<Slot>)
    ensures |r| == |b| / 32
  {
    if |b| < 32 then [] else [b[..32]] + Slots(b[32..])
  }

  lemma {:induction false} SlotAt(b: seq<byte>, i: nat)
    requires i < |b| / 32
    ensures 32 * i + 32 <= |b| && Slots(b)[i] == b[32 * i..32 * i + 32]
    decreases i
  {
    if i > 0 {
      SlotAt(b[32..], i - 1);
      assert b[32..][32 * (i - 1)..32 * (i - 1) + 32] == b[32 * i..32 * i + 32];
    }
  }

  lemma {:induction false} SlotsConcat(a: seq<byte>, b: seq<byte>)
    requires |a| % 32 == 0
    ensures Slots(a + b) == Slots(a) + Slots(b)
    decreases |a|
  {
    if a == [] {
      assert a + b == b;
    } else {
      assert (a + b)[..32] == a[..32] && (a + b)[32..] == a[32..] + b;
      SlotsConcat(a[32..], b);
    }
  }

  /** Every slot of the directory whose first cluster is `dir`, in chain order, as far as the hop
      bound allows. */
  function DirSlots(v: Volume, dir: nat): seq<Slot>
    requires SafeGeometry(v)
  {
    ReachLimits(v, dir, v.meta.clusterCount + 1);
    Slots(ChainBytes(v, dir, Reach(v, dir, v.meta.clusterCount + 1)))
  }

  // ---------------------------------------------------------------- what a slot says

  type Word32 = n: nat | n < TWO_32

  datatype Entry = Entry(firstCluster: Word32, size: Word32, dir: bool)

  function EntryOf(e: Slot): Entry {
    Entry(0x1_0000 * Le16(e, 20) + Le16(e, 26), Le32(e, 28), e[11] / 16 % 2 == 1)
  }

  /** An 8.3 slot as the specification lays it out: name, attributes, eight bytes of times, the
      cluster's high half, four bytes of times, its low half, the size. */
  function ShortSlot(name11: seq<byte>, attr: byte, times: seq<byte>, cluster: Word32, size: Word32): Slot
    requires |name11| == 11 && |times| == 12
  {
    name11 + [attr] + times[..8] + ToLe16(cluster / 0x1_0000) + times[8..] + ToLe16(cluster % 0x1_0000) + ToLe32(size)
  }

  /** The entry of a slot is the one that was laid out in it. */
  lemma EntryRoundTrip(name11: seq<byte>, attr: byte, times: seq<byte>, cluster: Word32, size: Word32)
    requires |name11| == 11 && |times| == 12
    ensures EntryOf(ShortSlot(name11, attr, times, cluster, size)) == Entry(cluster, size, attr / 16 % 2 == 1)
  {
    hide Le16; hide Le32; hide ToLe16; hide ToLe32;
    var e := ShortSlot(name11, attr, times, cluster, size);
    var hi, lo := ToLe16(cluster / 0x1_0000), ToLe16(cluster % 0x1_0000);
    var head := name11 + [attr] + times[..8];
    FieldsRoundTrip(head, times[8..] + lo + ToLe32(size), cluster / 0x1_0000);
    assert e == head + hi + (times[8..] + lo + ToLe32(size));
    FieldsRoundTrip(head + hi + times[8..], ToLe32(size), cluster % 0x1_0000);
    FieldsRoundTrip(head + hi + times[8..] + lo, [], size);
    assert e == head + hi + times[8..] + lo + ToLe32(size) + [];
  }

  /** The pending long name is the one of the 8.3 entry `e`, and is `name`. */
  predicate LongMatch(st: Assembly, e: Slot, name: seq<byte>) {
    st.On? && Checksum(e[..11]) == st.checksum && SameName(LongName(st), name)
  }

  predicate IsVolumeLabel(e: Slot) { e[11] / 8 % 2 == 1 }

  predicate Matches(st: Assembly, e: Slot, name: seq<byte>) {
    && e[0] != 0 && e[0] != DELETED && !IsVolumeLabel(e)
    && (LongMatch(st, e, name) || SameName(ShortName(e[..11]), name))
  }

  // ---------------------------------------------------------------- the search as a fold

  datatype Outcome = Going(st: Assembly) | Ended | Found(entry: Entry)

  function Judge(st: Assembly, e: Slot, name: seq<byte>): Outcome {
    if e[0] == 0 then Ended
    else if Matches(st, e, name) then Found(EntryOf(e))
    else Going(Next(st, e))
  }

  function Scan(st: Assembly, slots: seq<Slot>, name: seq<byte>): Outcome {
    if slots == [] then Going(st)
    else
      var o := Scan(st, slots[..|slots| - 1], name);
      if o.Going? then Judge(o.st, slots[|slots| - 1], name) else o
  }

  lemma {:induction false} ScanConcat(st: Assembly, a: seq<Slot>, b: seq<Slot>, name: seq<byte>)
    ensures var o := Scan(st, a, name);
      Scan(st, a + b, name) == if o.Going? then Scan(o.st, b, name) else o
    decreases |b|
  {
    if b == [] {
      assert a + b == a;
    } else {
      assert (a + b)[..|a + b| - 1] == a + b[..|b| - 1];
      ScanConcat(st, a, b[..|b| - 1], name);
    }
  }

  /** The entry that `name` stands for in a directory. */
  function FirstMatch(v: Volume, dir: nat, name: seq<byte>): Option<Entry>
    requires SafeGeometry(v)
  {
    var o := Scan(Off, DirSlots(v, dir), name);
    if o.Found? then Some(o.entry) else None
  }

  // ---------------------------------------------------------------- the search in loops

  /** The long-name state of lookup. The buffer holds nothing in particular until a name starts. */
  class LongNameBuffer {
    const lfn: array<byte>
    var len: nat
    var ok: bool
    var checksum: byte

    ghost predicate Valid()
      reads this
    {
      lfn.Length == NAME_BUFFER && (ok ==> len < NAME_BUFFER)
    }

    ghost function State(): Assembly
      requires Valid()
      reads this, lfn
    {
      if ok then On(lfn[..], len, checksum) else Off
    }

    constructor ()
      ensures Valid() && fresh(lfn) && State() == Off
    {
      lfn := new byte[NAME_BUFFER];
      len, ok, checksum := 0, false, 0;
    }

    /** A long-name slot. */
    method TakePiece(e: Slot)
      requires Valid() && e[0] != DELETED && e[11] == ATTR_LONG
      modifies this, lfn
      ensures Valid() && State() == Next(old(State()), e)
    {
      var ordinal := Ordinal(e);
      if ordinal == 0 || ordinal * 13 > MAX_NAME + 13 {
        ok := false;
        return;
      }
      if StartsName(e) {
        for i := 0 to lfn.Length
          invariant forall j :: 0 <= j < i ==> lfn[j] == 0
        {
          lfn[i] := 0;
        }
        assert lfn[..] == Zeros();
        len, checksum, ok := ordinal * 13, e[13], true;
      } else if !ok || e[13] != checksum {
        ok := false;
        return;
      }
      CopyChars(ordinal, e);
    }

    method CopyChars(ordinal: nat, e: Slot)
      requires Valid() && 1 <= ordinal <= 20
      modifies lfn
      ensures lfn[..] == Put(old(lfn[..]), ordinal, e)
    {
      var at := (ordinal - 1) * 13;
      for i := 0 to 13
        invariant lfn[..at] == old(lfn[..at]) && lfn[at + 13..] == old(lfn[at + 13..])
        invariant lfn[at..at + i] == PieceChars(e)[..i]
      {
        lfn[at + i] := CharAt(e, i);
      }
      assert lfn[..] == lfn[..at] + lfn[at..at + 13] + lfn[at + 13..];
    }

    /** An 8.3 slot: does it bear `name`? Either way the pending long name is used up. */
    method Compare(e: Slot, name: seq<byte>) returns (matched: bool)
      requires Valid() && e[0] != 0 && e[0] != DELETED
      modifies `ok
      ensures Valid() && State() == Off
      ensures matched == Matches(old(State()), e, name)
    {
      var sum := ShortNameChecksum(e);
      var haveLong := ok && sum == checksum;
      ok := false;
      if IsVolumeLabel(e) {
        return false;
      }
      matched := false;
      if haveLong {
        var n := 0;
        while n < len && lfn[n] != 0
          invariant n <= len && 0 !in lfn[..n]
        {
          n := n + 1;
        }
        assert lfn[..len][..n] == lfn[..n];
        BeforeIs(lfn[..len], 0, n);
        matched := EqualNoCase(lfn[..n], name);
      }
      if !matched {
        var short := new byte[13];
        var n := FormatShortName(e, short);
        matched := EqualNoCase(short[..n], name);
      }
    }
  }

  /** The loops stop exactly when the fold does, with the same answer, and otherwise hold the
      fold's pending name. */
  ghost predicate Reports(o: Outcome, stop: bool, found: Option<Entry>, st: Assembly) {
    match o
    case Going(t) => !stop && t == st
    case Ended => stop && found == None
    case Found(entry) => stop && found == Some(entry)
  }

  method VisitSlot(e: Slot, name: seq<byte>, pending: LongNameBuffer) returns (stop: bool, found: Option<Entry>)
    requires pending.Valid()
    modifies pending, pending.lfn
    ensures pending.Valid() && Reports(Judge(old(pending.State()), e, name), stop, found, pending.State())
  {
    if e[0] == 0 {
      return true, None;
    }
    if e[0] == DELETED {
      pending.ok := false;
      return false, None;
    }
    if e[11] == ATTR_LONG {
      pending.TakePiece(e);
      return false, None;
    }
    var matched := pending.Compare(e, name);
    if matched {
      return true, Some(EntryOf(e));
    }
    return false, None;
  }

  method VisitSector(sector: Sector, name: seq<byte>, pending: LongNameBuffer)
    returns (stop: bool, found: Option<Entry>)
    requires pending.Valid()
    modifies pending, pending.lfn
    ensures pending.Valid()
    ensures Reports(Scan(old(pending.State()), Slots(sector), name), stop, found, pending.State())
  {
    hide Judge; hide Slots;
    ghost var st := pending.State();
    for i := 0 to 16
      invariant pending.Valid() && Scan(st, Slots(sector)[..i], name) == Going(pending.State())
    {
      SlotAt(sector, i);
      ScanSnoc(st, Slots(sector), i, name);
      stop, found := VisitSlot(sector[32 * i..32 * i + 32], name, pending);
      if stop {
        ScanPrefix(st, Slots(sector), i + 1, name);
        return;
      }
    }
    assert Slots(sector)[..16] == Slots(sector);
    return false, None;
  }

  lemma ScanSnoc(st: Assembly, slots: seq<Slot>, i: nat, name: seq<byte>)
    requires i < |slots| && Scan(st, slots[..i], name).Going?
    ensures Scan(st, slots[..i + 1], name) == Judge(Scan(st, slots[..i], name).st, slots[i], name)
  {
    assert slots[..i + 1][..i] == slots[..i];
  }

  lemma ScanPrefix(st: Assembly, slots: seq<Slot>, i: nat, name: seq<byte>)
    requires i <= |slots| && !Scan(st, slots[..i], name).Going?
    ensures Scan(st, slots, name) == Scan(st, slots[..i], name)
  {
    ScanConcat(st, slots[..i], slots[i..], name);
    assert slots == slots[..i] + slots[i..];
  }

  method VisitCluster(v: Volume, cluster: nat, name: seq<byte>, pending: LongNameBuffer)
    returns (stop: bool, found: Option<Entry>)
    requires SafeGeometry(v) && ValidCluster(v, cluster) && pending.Valid()
    modifies pending, pending.lfn
    ensures pending.Valid()
    ensures Reports(Scan(old(pending.State()), Slots(ClusterBytes(v, cluster)), name), stop, found, pending.State())
  {
    hide SafeGeometry; hide ClusterLba; hide Slots; hide Scan; hide SectorsBytes;
    ClusterOnDisk(v, cluster);
    ghost var st, lba := pending.State(), ClusterLba(v, cluster);
    NoSectors(v.disk, lba, st, name);
    for s := 0 to v.meta.sectorsPerCluster
      invariant pending.Valid() && Scan(st, Slots(SectorsBytes(v.disk, lba, s)), name) == Going(pending.State())
    {
      SectorSnoc(v.disk, lba, s, st, name);
      stop, found := VisitSector(v.disk[ClusterLba(v, cluster) + s], name, pending);
      if stop {
        SectorsStop(v.disk, lba, s + 1, v.meta.sectorsPerCluster, st, name);
        return;
      }
    }
    return false, None;
  }

  lemma NoSectors(disk: seq<Sector>, lba: nat, st: Assembly, name: seq<byte>)
    requires lba <= |disk|
    ensures Scan(st, Slots(SectorsBytes(disk, lba, 0)), name) == Going(st)
  {
  }

  lemma SectorSnoc(disk: seq<Sector>, lba: nat, s: nat, st: Assembly, name: seq<byte>)
    requires Readable(disk, lba, s + 1) && Scan(st, Slots(SectorsBytes(disk, lba, s)), name).Going?
    ensures Scan(st, Slots(SectorsBytes(disk, lba, s + 1)), name)
            == Scan(Scan(st, Slots(SectorsBytes(disk, lba, s)), name).st, Slots(disk[lba + s]), name)
  {
    hide Slots; hide Scan;
    var a, b := SectorsBytes(disk, lba, s), disk[lba + s];
    SectorsHoldSlots(s);
    SlotsConcat(a, b);
    ScanConcat(st, Slots(a), Slots(b), name);
  }

  lemma SectorsHoldSlots(s: nat)
    ensures s * SECTOR % 32 == 0
  {
    assert s * SECTOR == 32 * (16 * s);
  }

  lemma SectorsPrefix(disk: seq<Sector>, lba: nat, s: nat, count: nat)
    requires Readable(disk, lba, count) && s <= count
    ensures SectorsBytes(disk, lba, s) <= SectorsBytes(disk, lba, count)
    ensures |SectorsBytes(disk, lba, s)| % 32 == 0
  {
    hide SectorsBytes;
    SectorsHoldSlots(s);
    SectorsSlice(disk, lba, count, 0, s);
    assert SectorsBytes(disk, lba, count)[..s * SECTOR] == SectorsBytes(disk, lba, s);
  }

  lemma SectorsStop(disk: seq<Sector>, lba: nat, s: nat, count: nat, st: Assembly, name: seq<byte>)
    requires Readable(disk, lba, count) && s <= count
    requires !Scan(st, Slots(SectorsBytes(disk, lba, s)), name).Going?
    ensures Scan(st, Slots(SectorsBytes(disk, lba, count)), name) == Scan(st, Slots(SectorsBytes(disk, lba, s)), name)
  {
    hide Slots; hide Scan; hide SectorsBytes;
    SectorsPrefix(disk, lba, s, count);
    StopsEarly(SectorsBytes(disk, lba, s), SectorsBytes(disk, lba, count), st, name);
  }

  /** A search that stops in a prefix of the bytes stops there in all of them. */
  lemma StopsEarly(a: seq<byte>, whole: seq<byte>, st: Assembly, name: seq<byte>)
    requires a <= whole && |a| % 32 == 0 && !Scan(st, Slots(a), name).Going?
    ensures Scan(st, Slots(whole), name) == Scan(st, Slots(a), name)
  {
    hide Slots; hide Scan;
    assert whole == a + whole[|a|..];
    SlotsConcat(a, whole[|a|..]);
    ScanConcat(st, Slots(a), Slots(whole[|a|..]), name);
  }

  /** lookup: what the three nested loops find is what the fold over the whole stream finds. */
  method Lookup(v: Volume, dir: nat, name: seq<byte>) returns (r: Option<Entry>)
    requires SafeGeometry(v)
    ensures r == FirstMatch(v, dir, name)
  {
    hide SafeGeometry; hide ClusterAt; hide ValidCluster; hide Slots; hide Scan; hide ChainBytes; hide ClusterBytes;
    hide FirstMatch; hide FatNext;
    var pending := new LongNameBuffer();
    var cluster, hops := dir, 0;
    StartOfChain(v, dir, name);
    while ValidCluster(v, cluster) && hops <= v.meta.clusterCount
      invariant hops <= v.meta.clusterCount + 1 && pending.Valid() && fresh(pending) && fresh(pending.lfn)
      invariant ClusterAt(v, dir, hops) == Some(cluster) && (hops > 0 ==> Usable(v, dir, hops - 1))
      invariant Scan(Off, Slots(ChainBytes(v, dir, hops)), name) == Going(pending.State())
      decreases v.meta.clusterCount + 1 - hops
    {
      ClusterSnoc(v, dir, hops, name);
      var stop, found := VisitCluster(v, cluster, name, pending);
      if stop {
        StopsAt(v, dir, hops + 1, name);
        return found;
      }
      LinkIs(v, dir, hops, cluster);
      var next := FatNext(v, cluster);
      if next.None? {
        RunsOut(v, dir, hops + 1, name);
        return None;
      }
      cluster, hops := next.value, hops + 1;
    }
    RunsOut(v, dir, hops, name);
    return None;
  }

  lemma StartOfChain(v: Volume, dir: nat, name: seq<byte>)
    requires SafeGeometry(v)
    ensures ClusterAt(v, dir, 0) == Some(dir) && Scan(Off, Slots(ChainBytes(v, dir, 0)), name) == Going(Off)
  {
  }

  lemma LinkIs(v: Volume, dir: nat, k: nat, cluster: nat)
    requires ClusterAt(v, dir, k) == Some(cluster) && ValidCluster(v, cluster)
    ensures Usable(v, dir, k) && ClusterAt(v, dir, k + 1) == FatNext(v, cluster)
  {
  }

  lemma ClusterSnoc(v: Volume, dir: nat, k: nat, name: seq<byte>)
    requires SafeGeometry(v) && Usable(v, dir, k) && (k > 0 ==> Usable(v, dir, k - 1))
    requires Scan(Off, Slots(ChainBytes(v, dir, k)), name).Going?
    ensures Scan(Off, Slots(ChainBytes(v, dir, k + 1)), name)
            == Scan(Scan(Off, Slots(ChainBytes(v, dir, k)), name).st,
                    Slots(ClusterBytes(v, ClusterAt(v, dir, k).value)), name)
  {
    hide SafeGeometry; hide ClusterAt; hide Slots; hide Scan; hide ChainBytes; hide ClusterBytes;
    var a, b := ChainBytes(v, dir, k), ClusterBytes(v, ClusterAt(v, dir, k).value);
    ChainSnoc(v, dir, k);
    WholeSlots(v, dir, k);
    SlotsConcat(a, b);
    ScanConcat(Off, Slots(a), Slots(b), name);
  }

  lemma WholeSlots(v: Volume, dir: nat, k: nat)
    requires SafeGeometry(v) && (k > 0 ==> Usable(v, dir, k - 1))
    ensures |ChainBytes(v, dir, k)| % 32 == 0
  {
    hide SafeGeometry; hide ChainBytes; hide Usable;
    assert k * ClusterSize(v) == 32 * (k * v.meta.sectorsPerCluster * 16);
  }

  /** Stopping in cluster k - 1 of the chain is stopping in the directory. */
  lemma StopsAt(v: Volume, dir: nat, k: nat, name: seq<byte>)
    requires SafeGeometry(v) && 0 < k <= v.meta.clusterCount + 1 && Usable(v, dir, k - 1)
    requires !Scan(Off, Slots(ChainBytes(v, dir, k)), name).Going?
    ensures var o := Scan(Off, Slots(ChainBytes(v, dir, k)), name);
      FirstMatch(v, dir, name) == if o.Found? then Some(o.entry) else None
  {
    hide SafeGeometry; hide ClusterAt; hide Slots; hide Scan; hide ChainBytes; hide ClusterBytes; hide Usable;
    hide Reach;
    ReachLimits(v, dir, v.meta.clusterCount + 1);
    var n := Reach(v, dir, v.meta.clusterCount + 1);
    if n < k {
      UsableBefore(v, dir, n, k - 1);
      assert false;
    }
    ChainGrows(v, dir, k, n);
    WholeSlots(v, dir, k);
    StopsEarly(ChainBytes(v, dir, k), ChainBytes(v, dir, n), Off, name);
  }

  /** Running out of clusters or of hops without stopping is finding nothing. */
  lemma RunsOut(v: Volume, dir: nat, k: nat, name: seq<byte>)
    requires SafeGeometry(v) && k <= v.meta.clusterCount + 1 && (k > 0 ==> Usable(v, dir, k - 1))
    requires k == v.meta.clusterCount + 1 || !Usable(v, dir, k)
    requires Scan(Off, Slots(ChainBytes(v, dir, k)), name).Going?
    ensures FirstMatch(v, dir, name) == None
  {
    hide SafeGeometry; hide ClusterAt; hide Slots; hide Scan; hide ChainBytes; hide Usable; hide Reach;
    ReachIs(v, dir, v.meta.clusterCount + 1, k);
  }

  // ---------------------------------------------------------------- what the search finds

  /** The search stops at slot i: the directory ends there, or the slot bears the name, its own or
      the long one pending after all the slots before it. */
  ghost predicate StopsHere(slots: seq<Slot>, i: nat, name: seq<byte>)
    requires i < |slots|
  {
    slots[i][0] == 0 || Matches(Pending(slots[..i]), slots[i], name)
  }

  ghost predicate FirstStop(slots: seq<Slot>, i: nat, name: seq<byte>) {
    i < |slots| && StopsHere(slots, i, name) && forall j :: 0 <= j < i ==> !StopsHere(slots, j, name)
  }

  lemma PrefixStops(slots: seq<Slot>, n: nat, i: nat, name: seq<byte>)
    requires i < n <= |slots|
    ensures StopsHere(slots[..n], i, name) <==> StopsHere(slots, i, name)
  {
    assert slots[..n][..i] == slots[..i];
  }

  /** As long as nothing stops it, the fold holds the pending name of all the slots so far. */
  lemma {:induction false} ScanGoing(slots: seq<Slot>, name: seq<byte>)
    ensures Scan(Off, slots, name).Going? ==> Scan(Off, slots, name).st == Pending(slots)
    ensures Scan(Off, slots, name).Going? <==> forall i :: 0 <= i < |slots| ==> !StopsHere(slots, i, name)
  {
    hide Matches; hide Next;
    if slots != [] {
      var n := |slots| - 1;
      ScanGoing(slots[..n], name);
      forall i | 0 <= i < n ensures StopsHere(slots[..n], i, name) <==> StopsHere(slots, i, name) {
        PrefixStops(slots, n, i, name);
      }
      if Scan(Off, slots[..n], name).Going? {
        assert Scan(Off, slots, name).Going? <==> !StopsHere(slots, n, name);
      } else {
        var i :| 0 <= i < n && StopsHere(slots[..n], i, name);
        assert StopsHere(slots, i, name);
      }
    }
  }

  lemma {:induction false} ScanStopped(slots: seq<Slot>, name: seq<byte>) returns (i: nat)
    requires !Scan(Off, slots, name).Going?
    ensures FirstStop(slots, i, name)
    ensures Scan(Off, slots, name) == if slots[i][0] == 0 then Ended else Found(EntryOf(slots[i]))
    decreases |slots|
  {
    hide Matches; hide Next; hide EntryOf;
    var n := |slots| - 1;
    ScanGoing(slots[..n], name);
    if Scan(Off, slots[..n], name).Going? {
      i := n;
    } else {
      i := ScanStopped(slots[..n], name);
    }
    forall j | 0 <= j < n ensures StopsHere(slots[..n], j, name) <==> StopsHere(slots, j, name) {
      PrefixStops(slots, n, j, name);
    }
  }

  /** lookup finds the entry of the first slot that bears the name, if that comes before the end of
      the directory, and nothing otherwise. */
  lemma FirstMatchIff(v: Volume, dir: nat, name: seq<byte>, i: nat)
    requires SafeGeometry(v) && FirstStop(DirSlots(v, dir), i, name)
    ensures var e := DirSlots(v, dir)[i];
      FirstMatch(v, dir, name) == if e[0] == 0 then None else Some(EntryOf(e))
  {
    hide SafeGeometry; hide DirSlots; hide StopsHere; hide EntryOf;
    var slots := DirSlots(v, dir);
    ScanGoing(slots, name);
    var k := ScanStopped(slots, name);
    assert k == i;
  }

  lemma NoMatchIff(v: Volume, dir: nat, name: seq<byte>)
    requires SafeGeometry(v)
    ensures FirstMatch(v, dir, name) == None <==>
            forall i: nat :: FirstStop(DirSlots(v, dir), i, name) ==> DirSlots(v, dir)[i][0] == 0
  {
    hide SafeGeometry; hide DirSlots; hide StopsHere; hide EntryOf;
    var slots := DirSlots(v, dir);
    ScanGoing(slots, name);
    if !Scan(Off, slots, name).Going? {
      var k := ScanStopped(slots, name);
      assert forall i: nat :: FirstStop(slots, i, name) ==> i == k;
    }
  }

  /** The slot at i bears the name, read off the bytes: it is neither deleted nor a volume label, and
      its 8.3 name, or the name in a run of pieces that ends right before it and carries its
      checksum, is spelled like it but for the case of letters. */
  ghost predicate Bears(slots: seq<Slot>, i: nat, name: seq<byte>)
    requires i < |slots|
  {
    && slots[i][0] != 0xE5 && slots[i][11] / 8 % 2 == 0
    && (SameSpelling(ShortName(slots[i][..11]), name) || exists start :: BearsRun(slots, i, start, name))
  }

  ghost predicate BearsRun(slots: seq<Slot>, i: nat, start: nat, name: seq<byte>)
    requires i < |slots|
  {
    && PieceRun(slots[..i], start) && slots[start][13] == Checksum(slots[i][..11])
    && SameSpelling(RunName(slots[..i], start), name)
  }

  /** The search stops exactly at the end of the directory and at slots that bear the name. */
  lemma StopsIff(slots: seq<Slot>, i: nat, name: seq<byte>)
    requires i < |slots|
    ensures StopsHere(slots, i, name) <==> slots[i][0] == 0 || Bears(slots, i, name)
  {
    hide ShortName; hide SameName; hide SameSpelling; hide Checksum; hide PieceRun; hide RunName; hide LongName;
    hide Pending;
    SameNameIff(ShortName(slots[i][..11]), name);
    var st := Pending(slots[..i]);
    if start :| BearsRun(slots, i, start, name) {
      RunMatches(slots, i, start, name);
    }
    if st.On? {
      var start := PendingIsRun(slots[..i]);
      RunMatches(slots, i, start, name);
    }
  }

  lemma RunMatches(slots: seq<Slot>, i: nat, start: nat, name: seq<byte>)
    requires i < |slots| && PieceRun(slots[..i], start)
    ensures LongMatch(Pending(slots[..i]), slots[i], name) <==> BearsRun(slots, i, start, name)
  {
    hide SameName; hide SameSpelling; hide Checksum; hide RunName; hide LongName; hide Pending; hide RunLetter;
    RunIsPending(slots[..i], start);
    RunNameIs(slots[..i], start);
    SameNameIff(RunName(slots[..i], start), name);
  }

  // ---------------------------------------------------------------- short names end to end

  /** How an 8.3 name is spelled. */
  function Dotted(base: seq<byte>, ext: seq<byte>): seq<byte> {
    if ext == [] then base else base + ['.' as int] + ext
  }

  predicate IsShortName(base: seq<byte>, ext: seq<byte>) {
    && 1 <= |base| <= 8 && |ext| <= 3 && base[0] != 0 && base[0] != 0x05
    && (' ' as int) !in base && (' ' as int) !in ext
  }

  /** A file or directory stored under an 8.3 name is found by that name, in any case of its letters,
      with the cluster, size and kind it was stored with. */
  lemma ShortNameIsFound(pre: seq<Slot>, base: seq<byte>, ext: seq<byte>, attr: byte, times: seq<byte>,
                         cluster: Word32, size: Word32, post: seq<Slot>, query: seq<byte>)
    requires IsShortName(base, ext) && attr / 8 % 2 == 0 && |times| == 12
    requires SameSpelling(Dotted(base, ext), query)
    requires forall i :: 0 <= i < |pre| ==> !StopsHere(pre, i, query)
    ensures Scan(Off, pre + [ShortSlot(Stored(base, ext), attr, times, cluster, size)] + post, query)
            == Found(Entry(cluster, size, attr / 16 % 2 == 1))
  {
    hide StopsHere; hide Pending; hide LongMatch; hide ShortName; hide SameSpelling; hide SameName; hide EntryOf;
    var e := ShortSlot(Stored(base, ext), attr, times, cluster, size);
    ShortSlotMatches(base, ext, attr, times, cluster, size, query, Pending(pre));
    EntryRoundTrip(Stored(base, ext), attr, times, cluster, size);
    hide ShortSlot; hide Stored; hide Matches;
    ScanGoing(pre, query);
    assert (pre + [e])[..|pre|] == pre;
    ScanConcat(Off, pre + [e], post, query);
  }

  lemma ShortSlotMatches(base: seq<byte>, ext: seq<byte>, attr: byte, times: seq<byte>, cluster: Word32,
                         size: Word32, query: seq<byte>, st: Assembly)
    requires IsShortName(base, ext) && attr / 8 % 2 == 0 && |times| == 12
    requires SameSpelling(Dotted(base, ext), query)
    ensures
      var e := ShortSlot(Stored(base, ext), attr, times, cluster, size);
      e[0] != 0 && Matches(st, e, query)
  {
    hide LongMatch; hide ShortName; hide SameSpelling; hide SameName; hide ToLe16; hide ToLe32;
    var e := ShortSlot(Stored(base, ext), attr, times, cluster, size);
    assert e[..11] == Stored(base, ext) && e[11] == attr && e[0] == Stored(base, ext)[0];
    ShortNameRoundTrip(base, ext);
    SameNameIff(Dotted(base, ext), query);
  }

  lemma ShortNameInDirectory(v: Volume, dir: nat, pre: seq<Slot>, base: seq<byte>, ext: seq<byte>, attr: byte,
                             times: seq<byte>, cluster: Word32, size: Word32, post: seq<Slot>, query: seq<byte>)
    requires SafeGeometry(v) && IsShortName(base, ext) && attr / 8 % 2 == 0 && |times| == 12
    requires DirSlots(v, dir) == pre + [ShortSlot(Stored(base, ext), attr, times, cluster, size)] + post
    requires SameSpelling(Dotted(base, ext), query)
    requires forall i :: 0 <= i < |pre| ==> !StopsHere(pre, i, query)
    ensures FirstMatch(v, dir, query) == Some(Entry(cluster, size, attr / 16 % 2 == 1))
  {
    hide SafeGeometry; hide DirSlots; hide StopsHere; hide Scan; hide ShortSlot; hide Stored; hide SameSpelling;
    ShortNameIsFound(pre, base, ext, attr, times, cluster, size, post, query);
  }

  // ---------------------------------------------------------------- long names end to end

  lemma {:induction false} PiecesPass(st: Assembly, name: seq<byte>, k: nat, checksum: byte, query: seq<byte>)
    requires |name| <= MAX_NAME && k > 0
    ensures Scan(st, PiecesDownTo(name, k, checksum), query).Going?
    decreases PieceCount(name) + 1 - k
  {
    hide Piece; hide Judge; hide Scan;
    if k > PieceCount(name) {
      ScanNothing(st, query);
    } else {
      PiecesPass(st, name, k + 1, checksum, query);
      PieceHeader(name, k, checksum);
      var slots := PiecesDownTo(name, k, checksum);
      assert slots[..|slots| - 1] == PiecesDownTo(name, k + 1, checksum);
      ScanSnoc(st, slots, |slots| - 1, query);
      assert slots[..|slots|] == slots;
      LongSlotPasses(Scan(st, slots[..|slots| - 1], query).st, slots[|slots| - 1], query);
    }
  }

  lemma ScanNothing(st: Assembly, query: seq<byte>)
    ensures Scan(st, [], query) == Going(st)
  {
  }

  lemma LongSlotPasses(st: Assembly, e: Slot, query: seq<byte>)
    requires e[0] != 0 && e[11] == ATTR_LONG
    ensures Judge(st, e, query).Going?
  {
    assert IsVolumeLabel(e);
  }

  /** A name written as long-name pieces before its 8.3 entry is found there, in any letter case, if
      the search gets that far: whatever is before it that neither ends the directory nor bears the
      name, and whatever is after it. */
  lemma EncodedNameIsFound(pre: seq<Slot>, name: seq<byte>, e: Slot, post: seq<Slot>, query: seq<byte>)
    requires Spellable(name) && SameSpelling(name, query)
    requires e[0] != 0 && e[0] != DELETED && !IsVolumeLabel(e)
    requires forall i :: 0 <= i < |pre| ==> !StopsHere(pre, i, query)
    ensures Scan(Off, pre + Encode(name, Checksum(e[..11])) + [e] + post, query) == Found(EntryOf(e))
  {
    ScanGoing(pre, query);
    SameNameIff(name, query);
    hide StopsHere; hide SameSpelling;
    hide Next; hide EntryOf; hide PiecesDownTo; hide Checksum; hide ShortName; hide LongName; hide SameName;
    var pieces := Encode(name, Checksum(e[..11]));
    ScanConcat(Off, pre, pieces, query);
    PiecesPass(Scan(Off, pre, query).st, name, 1, Checksum(e[..11]), query);
    ScanGoing(pre + pieces, query);
    RoundTrip(pre, name, Checksum(e[..11]));
    assert (pre + pieces + [e])[..|pre + pieces|] == pre + pieces;
    ScanConcat(Off, pre + pieces + [e], post, query);
  }

  /** In a directory: the pieces and the entry are found wherever the sectors and clusters of its
      chain divide them. */
  lemma EncodedNameInDirectory(v: Volume, dir: nat, pre: seq<Slot>, name: seq<byte>, e: Slot, post: seq<Slot>,
                               query: seq<byte>)
    requires SafeGeometry(v) && Spellable(name) && SameSpelling(name, query)
    requires DirSlots(v, dir) == pre + Encode(name, Checksum(e[..11])) + [e] + post
    requires e[0] != 0 && e[0] != DELETED && !IsVolumeLabel(e)
    requires forall i :: 0 <= i < |pre| ==> !StopsHere(pre, i, query)
    ensures FirstMatch(v, dir, query) == Some(EntryOf(e))
  {
    hide SafeGeometry; hide DirSlots; hide StopsHere; hide EntryOf; hide Scan; hide Encode; hide Checksum;
    hide SameSpelling;
    EncodedNameIsFound(pre, name, e, post, query);
  }

  /** The slots of a directory are those of the clusters that the FAT links from its first. */
  lemma LinkedSlots(v: Volume, cs: seq<nat>, xs: seq<nat>)
    requires SafeGeometry(v) && Linked(v, cs, xs) && v.meta.clusterCount + 2 <= 0x0FFF_FFF8
    ensures forall i :: 0 <= i < |cs| ==> ValidCluster(v, cs[i])
    ensures DirSlots(v, cs[0]) == Slots(Concat(v, cs))
  {
    hide SafeGeometry; hide Linked; hide ClusterAt; hide Usable; hide ChainBytes; hide Concat; hide ValidCluster;
    hide Slots; hide Reach;
    LinkedAreValid(v, cs, xs);
    LastUsable(v, cs, xs);
    LinkedEnds(v, cs, xs);
    LinkedIsShort(v, cs, xs);
    ReachIs(v, cs[0], v.meta.clusterCount + 1, |cs|);
    LinkedBytes(v, cs, xs, |cs|);
    assert cs[..|cs|] == cs;
  }

  /** A chain that never ends is searched for one cluster more than the volume has. */
  lemma EndlessSlots(v: Volume, dir: nat)
    requires SafeGeometry(v) && Usable(v, dir, v.meta.clusterCount)
    ensures DirSlots(v, dir) == Slots(ChainBytes(v, dir, v.meta.clusterCount + 1))
  {
    hide SafeGeometry; hide ClusterAt; hide Usable; hide ChainBytes; hide Slots; hide Reach;
    ReachIs(v, dir, v.meta.clusterCount + 1, v.meta.clusterCount + 1);
  }

  // ---------------------------------------------------------------- the hop bound

  /** Even on a cyclic chain every slot of every cluster the chain reaches is in the stream. */
  lemma EverySlotScanned(v: Volume, dir: nat, k: nat, j: nat)
    requires SafeGeometry(v) && Usable(v, dir, k)
    requires j < |Slots(ClusterBytes(v, ClusterAt(v, dir, k).value))|
    ensures Slots(ClusterBytes(v, ClusterAt(v, dir, k).value))[j] in DirSlots(v, dir)
  {
    hide SafeGeometry; hide ClusterAt; hide Slots; hide ChainBytes; hide ClusterBytes; hide ValidCluster; hide Reach;
    var i := EveryClusterVisited(v, dir, k);
    ReachLimits(v, dir, v.meta.clusterCount + 1);
    var n := Reach(v, dir, v.meta.clusterCount + 1);
    ChainSnoc(v, dir, i);
    ChainGrows(v, dir, i + 1, n);
    WholeSlots(v, dir, i);
    WholeSlots(v, dir, i + 1);
    var a, b, all := ChainBytes(v, dir, i), ClusterBytes(v, ClusterAt(v, dir, k).value), ChainBytes(v, dir, n);
    InTheMiddle(a, b, all, j);
  }

  lemma InTheMiddle(a: seq<byte>, b: seq<byte>, all: seq<byte>, j: nat)
    requires a + b <= all && |a| % 32 == 0 && |a + b| % 32 == 0 && j < |Slots(b)|
    ensures Slots(b)[j] in Slots(all)
  {
    hide Slots;
    assert all == (a + b) + all[|a + b|..];
    SlotsConcat(a + b, all[|a + b|..]);
    SlotsConcat(a, b);
    assert Slots(all)[|Slots(a)| + j] == Slots(b)[j];
  }
}
