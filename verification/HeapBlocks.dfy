/**
 The heap as a list of blocks, front to back: what malloc and free do to the list, and what
 the list is determined by.
 */
module HeapBlocks {

  const ARENA_SIZE: nat := 2 * 1024 * 1024
  const ALIGNMENT: nat := 16
  const TAG_SIZE: nat := 16
  const MIN_BLOCK_SIZE: nat := 2 * TAG_SIZE
  const TWO_64: nat := 0x1_0000_0000_0000_0000

  /** size_t */
  type Size = n: nat | n < TWO_64

  // ---------------------------------------------------------------- request sizes

  /** align_up(n, 16) on 64-bit words: the sum wraps, the mask clears the low four bits. */
  function AlignUp(n: nat): nat {
    (n + ALIGNMENT - 1) % TWO_64 / ALIGNMENT * ALIGNMENT
  }

  /** The block size malloc looks for, as computed: a sum that wraps. */
  function Needed(size: nat): nat {
    (AlignUp(size) + 2 * TAG_SIZE) % TWO_64
  }

  /** The largest request whose block size does not wrap. */
  const MAX_REQUEST: nat := TWO_64 - 48

  /** `Needed` has room for the request and its two tags exactly up to MAX_REQUEST; then it is
      the smallest such multiple of 16. Beyond, malloc looks for a block of at most 32 bytes. */
  lemma NeededFits(size: nat)
    requires 0 < size < TWO_64
    ensures Needed(size) >= size + 2 * TAG_SIZE <==> size <= MAX_REQUEST
    ensures size <= MAX_REQUEST ==>
              && Needed(size) % ALIGNMENT == 0 && Needed(size) < size + 2 * TAG_SIZE + ALIGNMENT
              && Needed(size) == AlignUp(size) + 2 * TAG_SIZE
    ensures size > MAX_REQUEST ==> Needed(size) <= MIN_BLOCK_SIZE < size
  {
    if size + 15 < TWO_64 {
      assert (size + 15) % TWO_64 == size + 15;
    } else {
      assert (size + 15) % TWO_64 == size + 15 - TWO_64;
    }
  }

  /** What the wrapped computation asks for: nothing, half a block, or an empty one. */
  lemma NeededBeyond(size: Size)
    requires size > MAX_REQUEST
    ensures Needed(size) == if size <= TWO_64 - 32 then 0 else if size <= TWO_64 - 16 then 16 else 32
  {
    if size + 15 < TWO_64 {
      assert (size + 15) % TWO_64 == size + 15;
      assert (size + 15) / ALIGNMENT == if size <= TWO_64 - 32 then 0xFFF_FFFF_FFFF_FFFE else 0xFFF_FFFF_FFFF_FFFF;
    } else {
      assert (size + 15) % TWO_64 == size + 15 - TWO_64;
    }
  }

  // ---------------------------------------------------------------- block lists

  /** `size` counts the header and the footer, as the tag's block_size does. */
  datatype Block = Block(size: nat, inUse: bool)

  function Span(bs: seq<Block>): nat {
    if bs == [] then 0 else bs[0].size + Span(bs[1..])
  }

  /** Address of block `i`, counted from the start of the arena. */
  function Start(bs: seq<Block>, i: nat): nat
    requires i <= |bs|
  {
    Span(bs[..i])
  }

  predicate GoodBlock(b: Block) { b.size % ALIGNMENT == 0 && b.size >= MIN_BLOCK_SIZE }

  /** Sizes are multiples of 16 and hold both tags; no two free blocks touch. */
  ghost predicate WellFormed(bs: seq<Block>) {
    && (forall i :: 0 <= i < |bs| ==> GoodBlock(bs[i]))
    && (forall i :: 0 <= i < |bs| - 1 ==> bs[i].inUse || bs[i + 1].inUse)
  }

  /** The blocks in use, by address and size. */
  function Live(bs: seq<Block>, base: nat): set<(nat, nat)> {
    if bs == [] then {}
    else (if bs[0].inUse then {(base, bs[0].size)} else {}) + Live(bs[1..], base + bs[0].size)
  }

  lemma {:induction false} SpanConcat(xs: seq<Block>, ys: seq<Block>)
    ensures Span(xs + ys) == Span(xs) + Span(ys)
  {
    if xs == [] {
      assert xs + ys == ys;
    } else {
      assert (xs + ys)[1..] == xs[1..] + ys;
      SpanConcat(xs[1..], ys);
    }
  }

  lemma {:induction false} LiveConcat(xs: seq<Block>, ys: seq<Block>, base: nat)
    ensures Live(xs + ys, base) == Live(xs, base) + Live(ys, base + Span(xs))
  {
    if xs == [] {
      assert xs + ys == ys;
    } else {
      assert (xs + ys)[1..] == xs[1..] + ys;
      LiveConcat(xs[1..], ys, base + xs[0].size);
    }
  }

  lemma OneBlock(b: Block, base: nat)
    ensures Span([b]) == b.size
    ensures Live([b], base) == if b.inUse then {(base, b.size)} else {}
  {
    assert [b][1..] == [];
  }

  lemma {:induction false} LiveBounds(bs: seq<Block>, base: nat, x: nat, size: nat)
    requires (x, size) in Live(bs, base)
    ensures base <= x && x + size <= base + Span(bs)
  {
    if bs != [] && (x, size) in Live(bs[1..], base + bs[0].size) {
      LiveBounds(bs[1..], base + bs[0].size, x, size);
    }
  }

  lemma WellFormedTail(bs: seq<Block>)
    requires WellFormed(bs) && bs != []
    ensures WellFormed(bs[1..])
  {
  }

  /** The heap is canonical: the blocks in use determine the whole list. */
  lemma {:induction false} Canonical(xs: seq<Block>, ys: seq<Block>, base: nat)
    requires WellFormed(xs) && WellFormed(ys)
    requires Span(xs) == Span(ys) && Live(xs, base) == Live(ys, base)
    ensures xs == ys
    decreases |xs|
  {
    if xs == [] || ys == [] {
      assert xs == [] || GoodBlock(xs[0]);
      assert ys == [] || GoodBlock(ys[0]);
    } else {
      SameHead(xs, ys, base);
      LiveTail(xs, base);
      LiveTail(ys, base);
      WellFormedTail(xs);
      WellFormedTail(ys);
      Canonical(xs[1..], ys[1..], base + xs[0].size);
      assert xs == [xs[0]] + xs[1..] && ys == [ys[0]] + ys[1..];
    }
  }

  lemma LiveTail(bs: seq<Block>, base: nat)
    requires WellFormed(bs) && bs != []
    ensures Live(bs[1..], base + bs[0].size) == Live(bs, base) - {(base, bs[0].size)}
  {
    assert GoodBlock(bs[0]);
    if (base, bs[0].size) in Live(bs[1..], base + bs[0].size) {
      LiveBounds(bs[1..], base + bs[0].size, base, bs[0].size);
    }
  }

  /** In a well-formed list an address at the very front is in use only as the first block. */
  lemma LiveAtFront(bs: seq<Block>, base: nat, size: nat)
    requires WellFormed(bs) && bs != [] && (base, size) in Live(bs, base)
    ensures bs[0] == Block(size, true)
  {
    assert GoodBlock(bs[0]);
    if (base, size) in Live(bs[1..], base + bs[0].size) {
      LiveBounds(bs[1..], base + bs[0].size, base, size);
    }
  }

  /** A free block is followed by a block in use, unless it is the last. */
  lemma LiveAfterFree(xs: seq<Block>, ys: seq<Block>, base: nat)
    requires WellFormed(xs) && WellFormed(ys) && xs != [] && ys != []
    requires Span(xs) == Span(ys) && Live(xs, base) == Live(ys, base)
    requires !xs[0].inUse && !ys[0].inUse
    ensures xs[0].size >= ys[0].size
  {
    if xs[0].size < ys[0].size {
      assert Span(xs[1..]) > 0 && xs[1..] != [];
      assert xs[1].inUse;
      var x := (base + xs[0].size, xs[1].size);
      assert x in Live(xs[1..], base + xs[0].size);
      assert x in Live(ys[1..], base + ys[0].size);
      LiveBounds(ys[1..], base + ys[0].size, x.0, x.1);
    }
  }

  lemma SameHead(xs: seq<Block>, ys: seq<Block>, base: nat)
    requires WellFormed(xs) && WellFormed(ys) && xs != [] && ys != []
    requires Span(xs) == Span(ys) && Live(xs, base) == Live(ys, base)
    ensures xs[0] == ys[0]
  {
    if xs[0].inUse {
      LiveAtFront(ys, base, xs[0].size);
    } else if ys[0].inUse {
      LiveAtFront(xs, base, ys[0].size);
    } else {
      LiveAfterFree(xs, ys, base);
      LiveAfterFree(ys, xs, base);
    }
  }

  // ---------------------------------------------------------------- malloc

  predicate Fits(b: Block, need: nat) { !b.inUse && b.size >= need }

  /** The scan: the first free block that is large enough, or |bs|. */
  function FirstFit(bs: seq<Block>, need: nat): (i: nat)
    ensures i <= |bs|
    ensures i < |bs| ==> Fits(bs[i], need)
    ensures forall j :: 0 <= j < i ==> !Fits(bs[j], need)
  {
    if bs == [] || Fits(bs[0], need) then 0 else 1 + FirstFit(bs[1..], need)
  }

  /** What malloc takes from a block: the rest is split off if it can stand alone. */
  function Taken(size: nat, need: nat): nat
    requires size >= need
  {
    if size - need >= MIN_BLOCK_SIZE then need else size
  }

  /** The part taken can stand alone, if a part is taken. */
  predicate CleanCut(size: nat, need: nat)
    requires size >= need
  {
    size - need >= MIN_BLOCK_SIZE ==> need % ALIGNMENT == 0 && need >= MIN_BLOCK_SIZE
  }

  /** What a block becomes. A cut that is not clean gives no blocks: its tags overlap. */
  function Carved(b: Block, need: nat): seq<Block>
    requires Fits(b, need) && CleanCut(b.size, need)
  {
    [Block(Taken(b.size, need), true)]
    + (if b.size - need >= MIN_BLOCK_SIZE then [Block(b.size - need, false)] else [])
  }

  function Carve(bs: seq<Block>, i: nat, need: nat): seq<Block>
    requires i < |bs| && Fits(bs[i], need) && CleanCut(bs[i].size, need)
  {
    bs[..i] + Carved(bs[i], need) + bs[i + 1..]
  }

  /** Live blocks of a list with one block replaced by others. */
  lemma LiveReplace(pre: seq<Block>, mid: seq<Block>, post: seq<Block>)
    ensures Live(pre + mid + post, 0)
            == Live(pre, 0) + Live(mid, Span(pre)) + Live(post, Span(pre) + Span(mid))
    ensures Span(pre + mid + post) == Span(pre) + Span(mid) + Span(post)
  {
    LiveConcat(pre + mid, post, 0);
    LiveConcat(pre, mid, 0);
    SpanConcat(pre + mid, post);
    SpanConcat(pre, mid);
  }

  lemma CarvedIs(b: Block, need: nat, base: nat)
    requires Fits(b, need) && CleanCut(b.size, need)
    ensures Span(Carved(b, need)) == b.size
    ensures Live(Carved(b, need), base) == {(base, Taken(b.size, need))}
  {
    var first := Block(Taken(b.size, need), true);
    OneBlock(first, base);
    if b.size - need >= MIN_BLOCK_SIZE {
      var rest := Block(b.size - need, false);
      OneBlock(rest, base + first.size);
      SpanConcat([first], [rest]);
      LiveConcat([first], [rest], base);
    } else {
      assert Carved(b, need) == [first];
    }
  }

  /** malloc adds one block to the blocks in use and changes nothing else about them. */
  lemma CarveKeeps(bs: seq<Block>, i: nat, need: nat)
    requires WellFormed(bs) && i < |bs| && Fits(bs[i], need) && CleanCut(bs[i].size, need)
    ensures WellFormed(Carve(bs, i, need)) && Span(Carve(bs, i, need)) == Span(bs)
    ensures Live(Carve(bs, i, need), 0) == Live(bs, 0) + {(Start(bs, i), Taken(bs[i].size, need))}
  {
    hide WellFormed; hide Live; hide Span; hide GoodBlock; hide Carve; hide Carved; hide Taken; hide Start;
    hide CleanCut;
    CarveWellFormed(bs, i, need);
    var pre, post := CarveParts(bs, i, need);
    CarvedIs(bs[i], need, Span(pre));
    OneBlock(bs[i], Span(pre));
    LiveReplace(pre, [bs[i]], post);
    LiveReplace(pre, Carved(bs[i], need), post);
  }

  lemma CarveParts(bs: seq<Block>, i: nat, need: nat) returns (pre: seq<Block>, post: seq<Block>)
    requires i < |bs| && Fits(bs[i], need) && CleanCut(bs[i].size, need)
    ensures bs == pre + [bs[i]] + post && Span(pre) == Start(bs, i)
    ensures Carve(bs, i, need) == pre + Carved(bs[i], need) + post
  {
    pre, post := bs[..i], bs[i + 1..];
  }

  lemma CarveWellFormed(bs: seq<Block>, i: nat, need: nat)
    requires WellFormed(bs) && i < |bs| && Fits(bs[i], need) && CleanCut(bs[i].size, need)
    ensures WellFormed(Carve(bs, i, need))
  {
    var cs := Carve(bs, i, need);
    var d := |cs| - |bs|;
    assert GoodBlock(bs[i]);
    forall j | 0 <= j < |cs| ensures GoodBlock(cs[j]) {
      if j < i { assert cs[j] == bs[j]; } else if j > i + d { assert cs[j] == bs[j - d]; }
    }
    forall j | 0 <= j < |cs| - 1 ensures cs[j].inUse || cs[j + 1].inUse {
      if j + 1 < i { assert bs[j].inUse || bs[j + 1].inUse; }
      if j > i + d { assert bs[j - d].inUse || bs[j - d + 1].inUse; }
      if j == i + d { assert bs[i].inUse || bs[i + 1].inUse; }
    }
  }

  /** The scan finds room exactly when there is any, unless the request wraps: a request beyond
      MAX_REQUEST is granted whenever any block is free, though none can hold it. */
  lemma ScanIsExact(bs: seq<Block>, size: nat)
    requires WellFormed(bs) && Span(bs) == ARENA_SIZE && 0 < size < TWO_64
    ensures
      var room := exists j :: 0 <= j < |bs| && Fits(bs[j], size + 2 * TAG_SIZE);
      && (size <= MAX_REQUEST ==> (FirstFit(bs, Needed(size)) < |bs| <==> room))
      && (size > MAX_REQUEST ==> !room && (FirstFit(bs, Needed(size)) < |bs| <==> exists j :: 0 <= j < |bs| && !bs[j].inUse))
  {
    hide Needed; hide Span; hide GoodBlock; hide WellFormed; hide Fits;
    var i := FirstFit(bs, Needed(size));
    forall j | 0 <= j < |bs|
      ensures size <= MAX_REQUEST ==> (Fits(bs[j], Needed(size)) <==> Fits(bs[j], size + 2 * TAG_SIZE))
      ensures size > MAX_REQUEST ==> (Fits(bs[j], Needed(size)) <==> !bs[j].inUse) && !Fits(bs[j], size + 2 * TAG_SIZE)
    {
      BlockFitsArena(bs, j);
      SameFit(bs[j], size);
    }
    if i < |bs| { assert Fits(bs[i], Needed(size)); }
  }

  /** A concrete one: the empty heap grants a request for all but one of 2^64 bytes. */
  lemma WrappedRequestGranted()
    ensures FirstFit(EmptyHeap(), Needed(TWO_64 - 1)) == 0
    ensures Taken(ARENA_SIZE, Needed(TWO_64 - 1)) == MIN_BLOCK_SIZE
  {
    assert Needed(TWO_64 - 1) == 32;
  }

  lemma SameFit(b: Block, size: nat)
    requires GoodBlock(b) && b.size <= ARENA_SIZE && 0 < size < TWO_64
    ensures size <= MAX_REQUEST ==> (Fits(b, Needed(size)) <==> Fits(b, size + 2 * TAG_SIZE))
    ensures size > MAX_REQUEST ==> (Fits(b, Needed(size)) <==> !b.inUse) && !Fits(b, size + 2 * TAG_SIZE)
  {
    NeededFits(size);
    hide Needed;
  }

  lemma BlockFitsArena(bs: seq<Block>, j: nat)
    requires WellFormed(bs) && j < |bs|
    ensures GoodBlock(bs[j]) && bs[j].size <= Span(bs)
  {
    var pre, post := BlockParts(bs, j);
    SpanConcat(pre + [bs[j]], post);
    SpanConcat(pre, [bs[j]]);
    OneBlock(bs[j], 0);
  }

  lemma TakenIsTight(b: Block, size: nat)
    requires GoodBlock(b) && 0 < size <= MAX_REQUEST && Fits(b, Needed(size))
    ensures size <= Taken(b.size, Needed(size)) - 2 * TAG_SIZE <= AlignUp(size) + 16
  {
    NeededFits(size);
    hide Needed; hide AlignUp;
  }

  /** What malloc hands out has a payload that holds the request and is at most 16 bytes larger
      than the request rounded up. */
  lemma GrantIsTight(bs: seq<Block>, size: nat)
    requires WellFormed(bs) && 0 < size <= MAX_REQUEST && FirstFit(bs, Needed(size)) < |bs|
    ensures
      var i := FirstFit(bs, Needed(size));
      var payload := Taken(bs[i].size, Needed(size)) - 2 * TAG_SIZE;
      size <= payload <= AlignUp(size) + 16
  {
    hide Needed; hide AlignUp; hide Span; hide Taken; hide GoodBlock; hide WellFormed; hide Fits;
    var i := FirstFit(bs, Needed(size));
    BlockFitsArena(bs, i);
    TakenIsTight(bs[i], size);
  }

  /** No block that fits lies below the one malloc takes. */
  lemma GrantIsLowest(bs: seq<Block>, needed: nat, j: nat)
    requires WellFormed(bs) && j < |bs| && Fits(bs[j], needed)
    ensures FirstFit(bs, needed) <= j && Fits(bs[FirstFit(bs, needed)], needed)
    ensures Start(bs, FirstFit(bs, needed)) <= Start(bs, j)
  {
    hide Span; hide Start; hide GoodBlock; hide WellFormed;
    var i := FirstFit(bs, needed);
    if i < j { LiveDisjoint(bs, i, j); }
  }

  lemma {:induction false} StartAligned(bs: seq<Block>, i: nat)
    requires WellFormed(bs) && i <= |bs|
    ensures Start(bs, i) % ALIGNMENT == 0
  {
    if i > 0 {
      StartAligned(bs, i - 1);
      assert GoodBlock(bs[i - 1]) && bs[..i] == bs[..i - 1] + [bs[i - 1]];
      SpanConcat(bs[..i - 1], [bs[i - 1]]);
      OneBlock(bs[i - 1], 0);
    }
  }

  /** Every payload is 16-aligned. */
  lemma PayloadAligned(bs: seq<Block>, i: nat)
    requires WellFormed(bs) && i < |bs|
    ensures (Start(bs, i) + TAG_SIZE) % ALIGNMENT == 0
  {
    StartAligned(bs, i);
  }

  // ---------------------------------------------------------------- free

  /** The run of blocks that become one when block `i` is freed. */
  function Lo(bs: seq<Block>, i: nat): nat
    requires i < |bs|
  {
    if i > 0 && !bs[i - 1].inUse then i - 1 else i
  }

  function Hi(bs: seq<Block>, i: nat): nat
    requires i < |bs|
  {
    if i + 1 < |bs| && !bs[i + 1].inUse then i + 2 else i + 1
  }

  function Release(bs: seq<Block>, i: nat): seq<Block>
    requires i < |bs|
  {
    bs[..Lo(bs, i)] + [Block(Span(bs[Lo(bs, i)..Hi(bs, i)]), false)] + bs[Hi(bs, i)..]
  }

  lemma MergedRun(bs: seq<Block>, i: nat, base: nat)
    requires WellFormed(bs) && i < |bs| && bs[i].inUse
    ensures
      var run := bs[Lo(bs, i)..Hi(bs, i)];
      && GoodBlock(Block(Span(run), false))
      && Live(run, base) == {(base + Span(bs[Lo(bs, i)..i]), bs[i].size)}
  {
    var lo, hi := Lo(bs, i), Hi(bs, i);
    var before, after := bs[lo..i], bs[i + 1..hi];
    assert GoodBlock(bs[i]);
    hide WellFormed; hide Live; hide Span; hide GoodBlock;
    FreeNeighbour(bs, lo, i, base);
    FreeNeighbour(bs, i + 1, hi, base + Span(before) + bs[i].size);
    MergedParts(before, bs[i], after, base);
    MergedGood(bs[i], Span(before), Span(after));
    assert bs[lo..hi] == before + [bs[i]] + after;
  }

  lemma MergedGood(b: Block, before: nat, after: nat)
    requires GoodBlock(b) && before % ALIGNMENT == 0 && after % ALIGNMENT == 0
    ensures GoodBlock(Block(before + b.size + after, false))
  {
  }

  lemma MergedParts(before: seq<Block>, b: Block, after: seq<Block>, base: nat)
    ensures Span(before + [b] + after) == Span(before) + b.size + Span(after)
    ensures b.inUse && Live(before, base) == {} && Live(after, base + Span(before) + b.size) == {} ==>
              Live(before + [b] + after, base) == {(base + Span(before), b.size)}
  {
    hide Live; hide Span;
    OneBlock(b, base + Span(before));
    SpanConcat(before + [b], after);
    SpanConcat(before, [b]);
    LiveConcat(before + [b], after, base);
    LiveConcat(before, [b], base);
  }

  /** The part of the run before, or after, the freed block: nothing or one free block. */
  lemma FreeNeighbour(bs: seq<Block>, lo: nat, hi: nat, base: nat)
    requires WellFormed(bs) && lo <= hi <= |bs|
    requires lo == hi || (hi == lo + 1 && !bs[lo].inUse)
    ensures Span(bs[lo..hi]) % ALIGNMENT == 0 && Live(bs[lo..hi], base) == {}
  {
    if lo < hi {
      assert GoodBlock(bs[lo]) && bs[lo..hi] == [bs[lo]];
      OneBlock(bs[lo], base);
    }
  }

  /** free takes one block out of the blocks in use and changes nothing else about them. */
  lemma ReleaseKeeps(bs: seq<Block>, i: nat)
    requires WellFormed(bs) && i < |bs| && bs[i].inUse
    ensures WellFormed(Release(bs, i)) && Span(Release(bs, i)) == Span(bs)
    ensures Live(Release(bs, i), 0) == Live(bs, 0) - {(Start(bs, i), bs[i].size)}
  {
    hide WellFormed; hide Live; hide Span; hide GoodBlock; hide Release; hide Start;
    ReleaseWellFormed(bs, i);
    var pre, run, post := ReleaseParts(bs, i);
    MergeRun(pre, run, post, (Start(bs, i), bs[i].size));
  }

  /** The list around the run, and that the freed block is the only one in use in it. */
  lemma ReleaseParts(bs: seq<Block>, i: nat) returns (pre: seq<Block>, run: seq<Block>, post: seq<Block>)
    requires WellFormed(bs) && i < |bs| && bs[i].inUse
    ensures bs == pre + run + post && Release(bs, i) == pre + [Block(Span(run), false)] + post
    ensures
      var x := (Start(bs, i), bs[i].size);
      && Live(run, Span(pre)) == {x}
      && x !in Live(pre, 0) && x !in Live(post, Span(pre) + Span(run))
  {
    hide WellFormed; hide Live; hide Span; hide GoodBlock;
    var lo, hi := Lo(bs, i), Hi(bs, i);
    pre, run, post := bs[..lo], bs[lo..hi], bs[hi..];
    RunIsLive(bs, i);
    NotElsewhere(bs, lo, hi, (Start(bs, i), bs[i].size), i);
  }

  /** A run with one block in use, `x`, becomes one free block. */
  lemma MergeRun(pre: seq<Block>, run: seq<Block>, post: seq<Block>, x: (nat, nat))
    requires Live(run, Span(pre)) == {x} && x !in Live(pre, 0) && x !in Live(post, Span(pre) + Span(run))
    ensures
      var merged := pre + [Block(Span(run), false)] + post;
      && Live(merged, 0) == Live(pre + run + post, 0) - {x}
      && Span(merged) == Span(pre + run + post)
  {
    hide Live; hide Span;
    OneBlock(Block(Span(run), false), Span(pre));
    LiveReplace(pre, run, post);
    LiveReplace(pre, [Block(Span(run), false)], post);
  }

  lemma RunIsLive(bs: seq<Block>, i: nat)
    requires WellFormed(bs) && i < |bs| && bs[i].inUse
    ensures
      var lo := Lo(bs, i);
      Live(bs[lo..Hi(bs, i)], Span(bs[..lo])) == {(Start(bs, i), bs[i].size)}
  {
    hide WellFormed; hide Live; hide Span; hide GoodBlock;
    var lo := Lo(bs, i);
    MergedRun(bs, i, Span(bs[..lo]));
    assert bs[..i] == bs[..lo] + bs[lo..i];
    SpanConcat(bs[..lo], bs[lo..i]);
  }

  lemma SizeIsPositive(bs: seq<Block>, i: nat)
    requires WellFormed(bs) && i < |bs|
    ensures bs[i].size > 0
  {
    assert GoodBlock(bs[i]);
  }

  lemma NotElsewhere(bs: seq<Block>, lo: nat, hi: nat, x: (nat, nat), i: nat)
    requires WellFormed(bs) && lo <= i < hi <= |bs| && x == (Start(bs, i), bs[i].size)
    ensures x !in Live(bs[..lo], 0)
    ensures x !in Live(bs[hi..], Start(bs, lo) + Span(bs[lo..hi]))
  {
    hide WellFormed; hide GoodBlock; hide Live; hide Span;
    SizeIsPositive(bs, i);
    OneBlock(bs[i], 0);
    assert bs[..i] == bs[..lo] + bs[lo..i];
    SpanConcat(bs[..lo], bs[lo..i]);
    assert bs[lo..hi] == bs[lo..i] + [bs[i]] + bs[i + 1..hi];
    SpanConcat(bs[lo..i] + [bs[i]], bs[i + 1..hi]);
    SpanConcat(bs[lo..i], [bs[i]]);
    if x in Live(bs[..lo], 0) { LiveBounds(bs[..lo], 0, x.0, x.1); }
    if x in Live(bs[hi..], Start(bs, lo) + Span(bs[lo..hi])) {
      LiveBounds(bs[hi..], Start(bs, lo) + Span(bs[lo..hi]), x.0, x.1);
    }
  }

  lemma ReleaseWellFormed(bs: seq<Block>, i: nat)
    requires WellFormed(bs) && i < |bs| && bs[i].inUse
    ensures WellFormed(Release(bs, i))
  {
    var lo, hi := Lo(bs, i), Hi(bs, i);
    var cs := Release(bs, i);
    var d := hi - lo - 1;
    MergedRun(bs, i, 0);
    forall j | 0 <= j < |cs| ensures GoodBlock(cs[j]) {
      if j < lo { assert cs[j] == bs[j]; } else if j > lo { assert cs[j] == bs[j + d]; }
    }
    forall j | 0 <= j < |cs| - 1 ensures cs[j].inUse || cs[j + 1].inUse {
      if j + 1 < lo { assert bs[j].inUse || bs[j + 1].inUse; }
      if j > lo { assert bs[j + d].inUse || bs[j + d + 1].inUse; }
      if j == lo && hi == i + 2 { assert bs[i + 1].inUse || bs[i + 2].inUse; }
      if j + 1 == lo && lo == i - 1 { assert bs[lo - 1].inUse; }
    }
  }

  /** Freeing what malloc just returned restores the list. */
  lemma FreeUndoesMalloc(bs: seq<Block>, need: nat)
    requires WellFormed(bs) && FirstFit(bs, need) < |bs| && CleanCut(bs[FirstFit(bs, need)].size, need)
    ensures
      var i := FirstFit(bs, need);
      Release(Carve(bs, i, need), i) == bs
  {
    var i := FirstFit(bs, need);
    var cs := Carve(bs, i, need);
    CarveKeeps(bs, i, need);
    assert cs[..i] == bs[..i] && cs[i] == Block(Taken(bs[i].size, need), true);
    ReleaseKeeps(cs, i);
    var x := (Start(bs, i), Taken(bs[i].size, need));
    assert x !in Live(bs, 0) by { FreeIsNotLive(bs, i, x.1); }
    assert Live(Release(cs, i), 0) == Live(bs, 0);
    Canonical(Release(cs, i), bs, 0);
  }

  lemma FreeIsNotLive(bs: seq<Block>, i: nat, size: nat)
    requires WellFormed(bs) && i < |bs| && !bs[i].inUse && size >= MIN_BLOCK_SIZE
    ensures (Start(bs, i), size) !in Live(bs, 0)
  {
    assert bs[i].size > 0 by { assert GoodBlock(bs[i]); }
    hide WellFormed; hide Live; hide Span; hide Start; hide GoodBlock;
    var pre, post := BlockParts(bs, i);
    FreeGap(pre, bs[i], post, size);
  }

  lemma FreeGap(pre: seq<Block>, b: Block, post: seq<Block>, size: nat)
    requires !b.inUse && b.size > 0 && size > 0
    ensures (Span(pre), size) !in Live(pre + [b] + post, 0)
  {
    hide Live; hide Span;
    var x := Span(pre);
    OneBlock(b, x);
    LiveReplace(pre, [b], post);
    if (x, size) in Live(pre, 0) { LiveBounds(pre, 0, x, size); }
    if (x, size) in Live(post, x + b.size) { LiveBounds(post, x + b.size, x, size); }
  }

  lemma BlockParts(bs: seq<Block>, i: nat) returns (pre: seq<Block>, post: seq<Block>)
    requires i < |bs|
    ensures bs == pre + [bs[i]] + post && Span(pre) == Start(bs, i)
  {
    pre, post := bs[..i], bs[i + 1..];
  }

  // ---------------------------------------------------------------- any order, any history

  /** The block that starts at address `x`, or |bs|. */
  function IndexOf(bs: seq<Block>, base: nat, x: nat): (i: nat)
    ensures i <= |bs|
  {
    if bs == [] || base == x then 0 else 1 + IndexOf(bs[1..], base + bs[0].size, x)
  }

  lemma {:induction false} LiveIndex(bs: seq<Block>, base: nat, x: nat, size: nat)
    requires WellFormed(bs) && (x, size) in Live(bs, base)
    ensures
      var i := IndexOf(bs, base, x);
      i < |bs| && bs[i] == Block(size, true) && base + Start(bs, i) == x
  {
    if base == x {
      LiveAtFront(bs, base, size);
    } else {
      WellFormedTail(bs);
      LiveIndex(bs[1..], base + bs[0].size, x, size);
      var i := IndexOf(bs, base, x);
      assert bs[..i][0] == bs[0] && bs[..i][1..] == bs[1..][..i - 1];
    }
  }

  /** Some block in use starts at `x`. */
  ghost predicate InUseAt(bs: seq<Block>, x: nat) { exists b :: b in Live(bs, 0) && b.0 == x }

  lemma InUseIndex(bs: seq<Block>, x: nat)
    requires WellFormed(bs) && InUseAt(bs, x)
    ensures
      var i := IndexOf(bs, 0, x);
      i < |bs| && bs[i].inUse && Start(bs, i) == x
  {
    var b :| b in Live(bs, 0) && b.0 == x;
    LiveIndex(bs, 0, x, b.1);
  }

  /** free(x + 16) on the list; an address that is not in use is not freed by any caller. */
  function FreeAt(bs: seq<Block>, x: nat): seq<Block> {
    var i := IndexOf(bs, 0, x);
    if i < |bs| && bs[i].inUse && Start(bs, i) == x then Release(bs, i) else bs
  }

  ghost function Except(live: set<(nat, nat)>, gone: set<nat>): set<(nat, nat)> {
    set b | b in live && b.0 !in gone
  }

  lemma FreeAtKeeps(bs: seq<Block>, x: nat)
    requires WellFormed(bs)
    ensures WellFormed(FreeAt(bs, x)) && Span(FreeAt(bs, x)) == Span(bs)
    ensures Live(FreeAt(bs, x), 0) == Except(Live(bs, 0), {x})
  {
    var i := IndexOf(bs, 0, x);
    forall b | b in Live(bs, 0) && b.0 == x ensures i < |bs| && bs[i] == Block(b.1, true) && Start(bs, i) == x {
      LiveIndex(bs, 0, x, b.1);
    }
    if i < |bs| && bs[i].inUse && Start(bs, i) == x {
      ReleaseKeeps(bs, i);
    }
  }

  function FreeAll(bs: seq<Block>, xs: seq<nat>): seq<Block> {
    if xs == [] then bs else FreeAt(FreeAll(bs, xs[..|xs| - 1]), xs[|xs| - 1])
  }

  ghost function Members(xs: seq<nat>): set<nat> { set x | x in xs }

  lemma {:induction false} FreeAllLive(bs: seq<Block>, xs: seq<nat>)
    requires WellFormed(bs)
    ensures WellFormed(FreeAll(bs, xs)) && Span(FreeAll(bs, xs)) == Span(bs)
    ensures Live(FreeAll(bs, xs), 0) == Except(Live(bs, 0), Members(xs))
    decreases |xs|
  {
    if xs != [] {
      var rest, x := xs[..|xs| - 1], xs[|xs| - 1];
      FreeAllLive(bs, rest);
      FreeAtKeeps(FreeAll(bs, rest), x);
      assert xs == rest + [x];
      assert Members(xs) == Members(rest) + {x};
    }
  }

  /** Freeing a set of blocks gives the same heap in whatever order they are freed. */
  lemma FreeOrderIsIrrelevant(bs: seq<Block>, xs: seq<nat>, ys: seq<nat>)
    requires WellFormed(bs) && forall x :: x in xs <==> x in ys
    ensures FreeAll(bs, xs) == FreeAll(bs, ys)
  {
    FreeAllLive(bs, xs);
    FreeAllLive(bs, ys);
    assert Members(xs) == Members(ys);
    Canonical(FreeAll(bs, xs), FreeAll(bs, ys), 0);
  }

  function EmptyHeap(): seq<Block> { [Block(ARENA_SIZE, false)] }

  lemma EmptyHeapIs()
    ensures WellFormed(EmptyHeap()) && Span(EmptyHeap()) == ARENA_SIZE && Live(EmptyHeap(), 0) == {}
  {
    OneBlock(Block(ARENA_SIZE, false), 0);
  }

  /** Freeing every block in use gives back the heap that init made. */
  lemma FreeingAllRestores(bs: seq<Block>, xs: seq<nat>)
    requires WellFormed(bs) && Span(bs) == ARENA_SIZE
    requires forall b :: b in Live(bs, 0) ==> b.0 in xs
    ensures FreeAll(bs, xs) == EmptyHeap()
  {
    FreeAllLive(bs, xs);
    EmptyHeapIs();
    assert Live(FreeAll(bs, xs), 0) == {};
    Canonical(FreeAll(bs, xs), EmptyHeap(), 0);
  }

  datatype Op = Malloc(size: Size) | Free(x: nat)

  /** A request that is not granted, or that cuts the block it is granted from cleanly. */
  predicate Sound(bs: seq<Block>, op: Op) {
    op.Malloc? && op.size != 0 && FirstFit(bs, Needed(op.size)) < |bs| ==>
      CleanCut(bs[FirstFit(bs, Needed(op.size))].size, Needed(op.size))
  }

  /** Which granted requests are sound: the ones that do not wrap, the ones that wrap to the size of
      an empty block, and the ones that wrap to half of it if the first free block is an empty one. */
  lemma SoundIff(bs: seq<Block>, size: Size)
    requires WellFormed(bs) && size != 0 && FirstFit(bs, Needed(size)) < |bs|
    ensures Sound(bs, Malloc(size)) <==>
            || size <= MAX_REQUEST
            || size > TWO_64 - 16
            || (size > TWO_64 - 32 && bs[FirstFit(bs, Needed(size))].size == MIN_BLOCK_SIZE)
  {
    hide WellFormed; hide Needed; hide CleanCut; hide Span;
    var i := FirstFit(bs, Needed(size));
    BlockFitsArena(bs, i);
    CutIsClean(bs[i], size);
  }

  lemma CutIsClean(b: Block, size: Size)
    requires GoodBlock(b) && size != 0 && Fits(b, Needed(size))
    ensures CleanCut(b.size, Needed(size)) <==>
            size <= MAX_REQUEST || size > TWO_64 - 16 || (size > TWO_64 - 32 && b.size == MIN_BLOCK_SIZE)
  {
    hide Needed;
    NeededFits(size);
    if size > MAX_REQUEST { NeededBeyond(size); }
  }

  /** What one sound call does to the list. */
  function Apply(bs: seq<Block>, op: Op): seq<Block>
    requires Sound(bs, op)
  {
    match op
    case Malloc(size) =>
      var i := FirstFit(bs, Needed(size));
      if size == 0 || i == |bs| then bs else Carve(bs, i, Needed(size))
    case Free(x) => FreeAt(bs, x)
  }

  lemma ApplyKeeps(bs: seq<Block>, op: Op)
    requires WellFormed(bs) && Sound(bs, op)
    ensures WellFormed(Apply(bs, op)) && Span(Apply(bs, op)) == Span(bs)
  {
    hide WellFormed; hide Needed; hide Span; hide Carve; hide FreeAt; hide Fits; hide CleanCut;
    match op
    case Free(x) => FreeAtKeeps(bs, x);
    case Malloc(size) =>
      var i := FirstFit(bs, Needed(size));
      if size != 0 && i < |bs| { CarveKeeps(bs, i, Needed(size)); }
  }

  /** Every call is sound when it is made. */
  predicate SoundRun(bs: seq<Block>, ops: seq<Op>)
    decreases |ops|
  {
    ops == [] || (Sound(bs, ops[0]) && SoundRun(Apply(bs, ops[0]), ops[1..]))
  }

  function ApplyAll(bs: seq<Block>, ops: seq<Op>): seq<Block>
    requires SoundRun(bs, ops)
    decreases |ops|
  {
    if ops == [] then bs else ApplyAll(Apply(bs, ops[0]), ops[1..])
  }

  lemma {:induction false} ApplyAllKeeps(bs: seq<Block>, ops: seq<Op>)
    requires WellFormed(bs) && SoundRun(bs, ops)
    ensures WellFormed(ApplyAll(bs, ops)) && Span(ApplyAll(bs, ops)) == Span(bs)
    decreases |ops|
  {
    hide WellFormed; hide Span; hide Apply; hide Sound;
    if ops != [] {
      ApplyKeeps(bs, ops[0]);
      ApplyAllKeeps(Apply(bs, ops[0]), ops[1..]);
    }
  }

  lemma HistoryKeeps(ops: seq<Op>)
    requires SoundRun(EmptyHeap(), ops)
    ensures WellFormed(ApplyAll(EmptyHeap(), ops)) && Span(ApplyAll(EmptyHeap(), ops)) == ARENA_SIZE
  {
    EmptyHeapIs();
    ApplyAllKeeps(EmptyHeap(), ops);
  }

  /** Two histories that leave the same blocks in use leave the same heap. */
  lemma HistoriesAgree(ops: seq<Op>, ops': seq<Op>)
    requires SoundRun(EmptyHeap(), ops) && SoundRun(EmptyHeap(), ops')
    requires Live(ApplyAll(EmptyHeap(), ops), 0) == Live(ApplyAll(EmptyHeap(), ops'), 0)
    ensures ApplyAll(EmptyHeap(), ops) == ApplyAll(EmptyHeap(), ops')
  {
    hide WellFormed; hide Span; hide ApplyAll; hide SoundRun; hide Live; hide EmptyHeap;
    HistoryKeeps(ops);
    HistoryKeeps(ops');
    Canonical(ApplyAll(EmptyHeap(), ops), ApplyAll(EmptyHeap(), ops'), 0);
  }

  /** Two blocks in use do not overlap, and so neither do their payloads. */
  lemma LiveDisjoint(bs: seq<Block>, i: nat, j: nat)
    requires i < j < |bs|
    ensures Start(bs, i) + bs[i].size <= Start(bs, j)
  {
    assert bs[..j] == bs[..i] + bs[i..j];
    SpanConcat(bs[..i], bs[i..j]);
    assert bs[i..j][0] == bs[i];
  }
}
