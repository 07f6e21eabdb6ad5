/**
 The arena itself: an array of 64-bit words whose tags spell the block list. Pointers are byte
 offsets into the arena; a Tag is two words, block_size and in_use.
 */
module HeapArena {
  import opened Options
  import opened HeapBlocks

  type Word = x: int | 0 <= x < TWO_64

  const WORDS: nat := ARENA_SIZE / 8

  function Flag(inUse: bool): Word { if inUse then 1 else 0 }

  /** A block of the list stands at address `a`: its header and footer are equal and say so. */
  ghost predicate BlockAt(w: seq<Word>, a: nat, b: Block)
    requires |w| == WORDS
  {
    && a % ALIGNMENT == 0 && GoodBlock(b) && a + b.size <= ARENA_SIZE
    && w[a / 8] == b.size && w[a / 8 + 1] == Flag(b.inUse)
    && w[(a + b.size) / 8 - 2] == b.size && w[(a + b.size) / 8 - 1] == Flag(b.inUse)
  }

  /** The blocks tile [lo, hi) exactly, one after the other. */
  ghost predicate Tiles(w: seq<Word>, lo: nat, hi: nat, bs: seq<Block>)
    requires |w| == WORDS
    decreases |bs|
  {
    if bs == [] then lo == hi
    else BlockAt(w, lo, bs[0]) && Tiles(w, lo + bs[0].size, hi, bs[1..])
  }

  lemma {:induction false} TilesSpan(w: seq<Word>, lo: nat, hi: nat, bs: seq<Block>)
    requires |w| == WORDS && Tiles(w, lo, hi, bs)
    ensures hi == lo + Span(bs)
    ensures forall i :: 0 <= i < |bs| ==> GoodBlock(bs[i])
    decreases |bs|
  {
    if bs != [] {
      TilesSpan(w, lo + bs[0].size, hi, bs[1..]);
      forall i | 0 <= i < |bs| ensures GoodBlock(bs[i]) {
        if i > 0 { assert bs[i] == bs[1..][i - 1]; }
      }
    }
  }

  lemma {:induction false} TilesConcat(w: seq<Word>, lo: nat, mid: nat, hi: nat, xs: seq<Block>, ys: seq<Block>)
    requires |w| == WORDS && Tiles(w, lo, mid, xs) && Tiles(w, mid, hi, ys)
    ensures Tiles(w, lo, hi, xs + ys)
    decreases |xs|
  {
    if xs == [] {
      assert xs + ys == ys;
    } else {
      assert (xs + ys)[1..] == xs[1..] + ys;
      TilesConcat(w, lo + xs[0].size, mid, hi, xs[1..], ys);
    }
  }

  lemma {:induction false} TilesSplit(w: seq<Word>, lo: nat, hi: nat, bs: seq<Block>, i: nat)
    requires |w| == WORDS && Tiles(w, lo, hi, bs) && i <= |bs|
    ensures Tiles(w, lo, lo + Start(bs, i), bs[..i]) && Tiles(w, lo + Start(bs, i), hi, bs[i..])
    decreases |bs|
  {
    if i > 0 {
      TilesSplit(w, lo + bs[0].size, hi, bs[1..], i - 1);
      assert bs[..i][0] == bs[0] && bs[..i][1..] == bs[1..][..i - 1] && bs[1..][i - 1..] == bs[i..];
    }
  }

  lemma FrameBlock(w: seq<Word>, w': seq<Word>, a: nat, hi: nat, b: Block)
    requires |w| == WORDS == |w'| && BlockAt(w, a, b) && a + b.size <= hi
    requires forall j :: 0 <= j < WORDS && a <= 8 * j < hi ==> w'[j] == w[j]
    ensures BlockAt(w', a, b)
  {
  }

  /** Tags outside [lo, hi) do not matter to it. */
  lemma {:induction false} TilesFrame(w: seq<Word>, w': seq<Word>, lo: nat, hi: nat, bs: seq<Block>)
    requires |w| == WORDS == |w'| && Tiles(w, lo, hi, bs)
    requires forall j :: 0 <= j < WORDS && lo <= 8 * j < hi ==> w'[j] == w[j]
    ensures Tiles(w', lo, hi, bs)
    decreases |bs|
  {
    if bs != [] {
      TilesSpan(w, lo, hi, bs);
      FrameBlock(w, w', lo, hi, bs[0]);
      TilesFrame(w, w', lo + bs[0].size, hi, bs[1..]);
    }
  }

  /** Block `i` of a tiled arena. */
  lemma TilesAt(w: seq<Word>, bs: seq<Block>, i: nat)
    requires |w| == WORDS && Tiles(w, 0, ARENA_SIZE, bs) && i < |bs|
    ensures BlockAt(w, Start(bs, i), bs[i])
    ensures Start(bs, i + 1) == Start(bs, i) + bs[i].size
    ensures i + 1 == |bs| <==> Start(bs, i + 1) == ARENA_SIZE
  {
    TilesSplit(w, 0, ARENA_SIZE, bs, i);
    TilesHead(w, Start(bs, i), bs[i..]);
    hide Tiles; hide BlockAt; hide Span;
    assert bs[i..][0] == bs[i] && bs[i..][1..] == bs[i + 1..];
    assert bs[..i + 1] == bs[..i] + [bs[i]];
    SpanConcat(bs[..i], [bs[i]]);
    OneBlock(bs[i], 0);
  }

  lemma TilesHead(w: seq<Word>, lo: nat, bs: seq<Block>)
    requires |w| == WORDS && Tiles(w, lo, ARENA_SIZE, bs) && bs != []
    ensures BlockAt(w, lo, bs[0])
    ensures bs[1..] == [] <==> lo + bs[0].size == ARENA_SIZE
  {
    TilesSpan(w, lo + bs[0].size, ARENA_SIZE, bs[1..]);
    if bs[1..] != [] { assert GoodBlock(bs[1..][0]); }
  }

  lemma StartIsZero(w: seq<Word>, bs: seq<Block>, i: nat)
    requires |w| == WORDS && Tiles(w, 0, ARENA_SIZE, bs) && i < |bs|
    ensures Start(bs, i) == 0 <==> i == 0
  {
    if i > 0 { TilesAt(w, bs, i - 1); }
  }

  lemma BlockBounds(w: seq<Word>, a: nat, b: Block)
    requires |w| == WORDS && BlockAt(w, a, b)
    ensures a % ALIGNMENT == 0 && GoodBlock(b) && a + b.size <= ARENA_SIZE && a / 8 + 1 < WORDS
    ensures w[a / 8] == b.size && w[a / 8 + 1] == Flag(b.inUse)
  {
  }

  /** The word indices of the two tags. */
  lemma TagIndices(header: nat, size: nat)
    requires header % ALIGNMENT == 0 && size % ALIGNMENT == 0 && MIN_BLOCK_SIZE <= size && header + size <= ARENA_SIZE
    ensures header == 8 * (header / 8)
    ensures
      var f := (header + size - TAG_SIZE) / 8;
      header + size - TAG_SIZE == 8 * f && (header + size) / 8 == f + 2 && header / 8 + 2 <= f <= WORDS - 2
  {
    var h, n := header / 16, size / 16;
    assert header == 16 * h && size == 16 * n;
    assert header / 8 == 2 * h && (header + size) / 8 == 2 * (h + n);
    assert (header + size - TAG_SIZE) / 8 == 2 * (h + n - 1);
  }

  /** What write_tags leaves: the header, then the footer its size leads to. A footer below the
      header of the first block is outside the arena. */
  function Tagged(w: seq<Word>, header: nat, size: nat, inUse: bool): (r: seq<Word>)
    requires |w| == WORDS && header % ALIGNMENT == 0 && size % ALIGNMENT == 0
    requires header + TAG_SIZE <= ARENA_SIZE && header + size <= ARENA_SIZE
    ensures |r| == WORDS
  {
    var t := w[header / 8 := size][header / 8 + 1 := Flag(inUse)];
    if header + size < TAG_SIZE then t
    else
      var footer := header + size - TAG_SIZE;
      t[footer / 8 := size][footer / 8 + 1 := Flag(inUse)]
  }

  lemma TagsWritten(w: seq<Word>, header: nat, b: Block)
    requires |w| == WORDS && header % ALIGNMENT == 0 && GoodBlock(b) && header + b.size <= ARENA_SIZE
    ensures
      var w' := Tagged(w, header, b.size, b.inUse);
      && BlockAt(w', header, b) && OnlyIn(w, w', header, header + b.size)
      && forall j :: 0 <= j < WORDS && InPayload(header, b, j) ==> w'[j] == w[j]
  {
    TagIndices(header, b.size);
  }

  lemma NeededIsGood(size: nat, needed: nat)
    requires GoodBlock(Block(size, false)) && needed <= size && CleanCut(size, needed)
    ensures GoodBlock(Block(size, true)) && size % ALIGNMENT == 0
    ensures size - needed >= MIN_BLOCK_SIZE ==>
              needed % ALIGNMENT == 0 && GoodBlock(Block(needed, true)) && GoodBlock(Block(size - needed, false))
  {
  }

  lemma GoodIs(b: Block)
    requires GoodBlock(b)
    ensures b.size % ALIGNMENT == 0 && b.size >= MIN_BLOCK_SIZE
  {
  }

  lemma OneTile(w: seq<Word>, a: nat, b: Block)
    requires |w| == WORDS && BlockAt(w, a, b)
    ensures Tiles(w, a, a + b.size, [b])
  {
    assert [b][1..] == [];
  }

  lemma WholeTile(w: seq<Word>, a: nat, size: nat, needed: nat)
    requires |w| == WORDS && BlockAt(w, a, Block(size, true)) && needed <= size < needed + MIN_BLOCK_SIZE
    ensures CleanCut(size, needed) && Tiles(w, a, a + size, Carved(Block(size, false), needed))
  {
    OneTile(w, a, Block(size, true));
    assert Carved(Block(size, false), needed) == [Block(size, true)];
  }

  /** After a split the second write leaves the first block's tags alone. */
  lemma TwoWrites(w: seq<Word>, w1: seq<Word>, w2: seq<Word>, a: nat, needed: nat, size: nat)
    requires OnlyIn(w, w1, a, a + needed) && OnlyIn(w1, w2, a + needed, a + size) && needed <= size
    requires BlockAt(w1, a, Block(needed, true))
    ensures OnlyIn(w, w2, a, a + size) && BlockAt(w2, a, Block(needed, true))
  {
  }

  lemma TwoTiles(w: seq<Word>, a: nat, needed: nat, size: nat)
    requires |w| == WORDS && needed + MIN_BLOCK_SIZE <= size && CleanCut(size, needed)
    requires BlockAt(w, a, Block(needed, true)) && BlockAt(w, a + needed, Block(size - needed, false))
    ensures Tiles(w, a, a + size, Carved(Block(size, false), needed))
  {
    hide BlockAt; hide Tiles;
    OneTile(w, a, Block(needed, true));
    OneTile(w, a + needed, Block(size - needed, false));
    TilesConcat(w, a, a + needed, a + size, [Block(needed, true)], [Block(size - needed, false)]);
  }

  /** Only words of [lo, hi) differ. */
  ghost predicate OnlyIn(w: seq<Word>, w': seq<Word>, lo: nat, hi: nat) {
    && |w| == WORDS == |w'|
    && forall j :: 0 <= j < WORDS && !(lo <= 8 * j < hi) ==> w'[j] == w[j]
  }

  lemma StartUpTo(bs: seq<Block>, lo: nat, hi: nat)
    requires lo <= hi <= |bs|
    ensures Start(bs, hi) == Start(bs, lo) + Span(bs[lo..hi])
  {
    assert bs[..hi] == bs[..lo] + bs[lo..hi];
    SpanConcat(bs[..lo], bs[lo..hi]);
  }

  /** Retagging the stretch of blocks lo..hi as `mid` replaces them in the list. */
  lemma ReplaceTiles(w: seq<Word>, w': seq<Word>, bs: seq<Block>, lo: nat, hi: nat, mid: seq<Block>)
    requires lo <= hi <= |bs| && OnlyIn(w, w', Start(bs, lo), Start(bs, hi))
    requires Tiles(w, 0, ARENA_SIZE, bs) && Tiles(w', Start(bs, lo), Start(bs, hi), mid)
    ensures Tiles(w', 0, ARENA_SIZE, bs[..lo] + mid + bs[hi..])
  {
    hide Tiles;
    TilesSplit(w, 0, ARENA_SIZE, bs, lo);
    TilesSplit(w, 0, ARENA_SIZE, bs, hi);
    StartUpTo(bs, lo, hi);
    TilesFrame(w, w', 0, Start(bs, lo), bs[..lo]);
    TilesFrame(w, w', Start(bs, hi), ARENA_SIZE, bs[hi..]);
    TilesConcat(w', 0, Start(bs, lo), Start(bs, hi), bs[..lo], mid);
    TilesConcat(w', 0, Start(bs, hi), ARENA_SIZE, bs[..lo] + mid, bs[hi..]);
  }

  /** The words of the payload of the block at address `a`. */
  ghost predicate InPayload(a: nat, b: Block, j: nat) {
    a + TAG_SIZE <= 8 * j < a + b.size - TAG_SIZE
  }

  /** Every block in use, but `gone`, has the payload it had. */
  ghost predicate PayloadsKept(w: seq<Word>, w': seq<Word>, bs: seq<Block>, gone: nat) {
    && |w| == WORDS == |w'|
    && forall k, j :: 0 <= k < |bs| && bs[k].inUse && k != gone && 0 <= j < WORDS && InPayload(Start(bs, k), bs[k], j)
         ==> w'[j] == w[j]
  }

  lemma OthersKept(w: seq<Word>, w': seq<Word>, bs: seq<Block>, lo: nat, hi: nat, gone: nat)
    requires lo <= hi <= |bs| && OnlyIn(w, w', Start(bs, lo), Start(bs, hi))
    requires forall k :: lo <= k < hi && k != gone ==> !bs[k].inUse
    ensures PayloadsKept(w, w', bs, gone)
  {
    forall k, j | 0 <= k < |bs| && bs[k].inUse && k != gone && 0 <= j < WORDS && InPayload(Start(bs, k), bs[k], j)
      ensures w'[j] == w[j]
    {
      if k < lo {
        StartUpTo(bs, k, lo);
        assert bs[k..lo][0] == bs[k];
      } else {
        StartUpTo(bs, hi, k);
      }
    }
  }

  class Heap {
    var words: array<Word>
    ghost var blocks: seq<Block>

    ghost predicate Valid()
      reads this, words
    {
      && words.Length == WORDS
      && WellFormed(blocks) && Span(blocks) == ARENA_SIZE
      && Tiles(words[..], 0, ARENA_SIZE, blocks)
    }

    method WriteTag(at: nat, size: Word, inUse: bool)
      requires words.Length == WORDS && at / 8 + 1 < WORDS
      modifies words
      ensures words[..] == old(words[..])[at / 8 := size][at / 8 + 1 := Flag(inUse)]
    {
      words[at / 8] := size;
      words[at / 8 + 1] := Flag(inUse);
    }

    /** write_tags */
    method WriteTags(header: nat, size: nat, inUse: bool)
      requires words.Length == WORDS && header % ALIGNMENT == 0 && size % ALIGNMENT == 0
      requires header + TAG_SIZE <= ARENA_SIZE && header + size <= ARENA_SIZE
      modifies words
      ensures words[..] == Tagged(old(words[..]), header, size, inUse)
      ensures GoodBlock(Block(size, inUse)) ==>
                && BlockAt(words[..], header, Block(size, inUse))
                && OnlyIn(old(words[..]), words[..], header, header + size)
                && forall j :: 0 <= j < WORDS && InPayload(header, Block(size, inUse), j) ==> words[j] == old(words[j])
    {
      if GoodBlock(Block(size, inUse)) { TagsWritten(words[..], header, Block(size, inUse)); }
      hide BlockAt; hide OnlyIn; hide InPayload;
      WriteTag(header, size, inUse);
      var footer: int := header + words[header / 8] - TAG_SIZE;
      if footer >= 0 {
        WriteTag(footer, size, inUse);
      }
    }

    /** next_block: the block after the one whose header is at `header`, if any. */
    method NextBlock(header: nat, ghost size: nat) returns (next: Option<nat>)
      requires words.Length == WORDS && header / 8 < WORDS && words[header / 8] == size
      ensures next == if header + size < ARENA_SIZE then Some(header + size) else None
    {
      var at := header + words[header / 8];
      next := if at < ARENA_SIZE then Some(at) else None;
    }

    /** prev_block: found through the footer just before `header`. */
    method PrevBlock(header: nat, ghost i: nat) returns (prev: Option<nat>)
      requires Valid() && i < |blocks| && header == Start(blocks, i)
      ensures prev == if i == 0 then None else Some(Start(blocks, i - 1))
    {
      StartIsZero(words[..], blocks, i);
      if header == 0 {
        return None;
      }
      TilesAt(words[..], blocks, i);
      TilesAt(words[..], blocks, i - 1);
      prev := Some(header - words[header / 8 - 2]);
    }

    /** init: one free block. */
    method Init()
      requires words.Length == WORDS
      modifies words, `blocks
      ensures Valid() && blocks == EmptyHeap()
    {
      WriteTags(0, ARENA_SIZE, false);
      blocks := EmptyHeap();
      EmptyHeapIs();
      assert Tiles(words[..], ARENA_SIZE, ARENA_SIZE, blocks[1..]);
    }

    /** Tag the chosen block, split if the rest can stand alone. */
    method Split(block: nat, needed: nat, ghost size: nat)
      requires words.Length == WORDS && Divisible(block, size, needed) && words[block / 8] == size
      modifies words
      ensures words[..] == SplitWords(old(words[..]), block, size, needed)
      ensures BlockAt(old(words[..]), block, Block(size, false)) && CleanCut(size, needed) ==>
                && OnlyIn(old(words[..]), words[..], block, block + size)
                && Tiles(words[..], block, block + size, Carved(Block(size, false), needed))
    {
      hide Tagged; hide OnlyIn; hide BlockAt; hide Tiles; hide Carved; hide CleanCut; hide GoodBlock; hide InPayload;
      if BlockAt(words[..], block, Block(size, false)) && CleanCut(size, needed) {
        SplitTiles(words[..], block, size, needed);
      }
      DivisibleParts(block, size, needed);
      var remainder := words[block / 8] - needed;
      if remainder >= MIN_BLOCK_SIZE {
        TaggedHeader(words[..], block, needed, true);
        WriteTags(block, needed, true);
        var next := NextBlock(block, needed);
        WriteTags(next.value, remainder, false);
      } else {
        WriteTags(block, words[block / 8], true);
      }
    }

    /** malloc: exact first fit. A request that cuts cleanly leaves a heap with the block in use. No
        other request that is granted does: the words then spell no heap at all, unless it asks for
        nothing of the arena's first block, and then they are as they were. In any case nobody's
        payload changes. */
    method Malloc(size: Size) returns (p: Option<nat>)
      requires Valid()
      modifies words, `blocks
      ensures p.None? <==> size == 0 || FirstFit(old(blocks), Needed(size)) == |old(blocks)|
      ensures p.None? ==> words[..] == old(words[..])
      ensures p.Some? ==> p.value == Start(old(blocks), FirstFit(old(blocks), Needed(size))) + TAG_SIZE
      ensures PayloadsKept(old(words[..]), words[..], old(blocks), |old(blocks)|)
      ensures Sound(old(blocks), Op.Malloc(size)) ==> Valid() && blocks == Apply(old(blocks), Op.Malloc(size))
      ensures p.Some? ==> (HandedOut(words[..], p.value - TAG_SIZE) <==> Sound(old(blocks), Op.Malloc(size)))
      ensures !Sound(old(blocks), Op.Malloc(size)) ==>
                if size <= TWO_64 - 32 && p == Some(TAG_SIZE) then words[..] == old(words[..])
                else forall cs :: !SpelledBy(words[..], cs)
    {
      hide BlockAt; hide Tiles; hide WellFormed; hide Span; hide PayloadsKept; hide AlignUp; hide FirstFit; hide Carve;
      hide CleanCut; hide HandedOut; hide Tagged; hide SplitWords; hide Divisible;
      NothingWritten(words[..], blocks);
      if size == 0 {
        return None;
      }
      var needed := (AlignUp(size) + 2 * TAG_SIZE) % TWO_64;
      StartAtZero(blocks);
      var block: Option<nat> := Some(0);
      ghost var i := 0;
      while block.Some?
        invariant 0 <= i <= |blocks| && words[..] == old(words[..]) && blocks == old(blocks)
        invariant block.Some? <==> i < |blocks|
        invariant block.Some? ==> block.value == Start(blocks, i)
        invariant forall j :: 0 <= j < i ==> !Fits(blocks[j], needed)
        decreases |blocks| - i
      {
        TilesAt(words[..], blocks, i);
        var at := block.value;
        BlockBounds(words[..], at, blocks[i]);
        if words[at / 8 + 1] == 0 && words[at / 8] >= needed {
          FitIsFirst(blocks, i, needed);
          BlockDivides(words[..], blocks, i, size);
          SplitKeepsPayloads(words[..], blocks, i, needed);
          ghost var w := words[..];
          Split(at, needed, blocks[i].size);
          if CleanCut(blocks[i].size, needed) {
            CleanSplit(w, blocks, i, needed);
            blocks := Carve(blocks, i, needed);
          } else {
            OverlappingSplit(w, blocks, i, size);
            WordsAfterOverlap(w, blocks, i, size);
          }
          return Some(at + TAG_SIZE);
        }
        block := NextBlock(at, blocks[i].size);
        i := i + 1;
      }
      FitIsFirst(blocks, |blocks|, needed);
      return None;
    }

    /** free: a null pointer, or the payload of a block in use. */
    method Free(p: Option<nat>)
      requires Valid()
      requires p.Some? ==> p.value >= TAG_SIZE && InUseAt(blocks, p.value - TAG_SIZE)
      modifies words, `blocks
      ensures Valid()
      ensures blocks == if p.None? then old(blocks) else Apply(old(blocks), Op.Free(p.value - TAG_SIZE))
      ensures p.None? ==> words[..] == old(words[..])
      ensures p.Some? ==>
                PayloadsKept(old(words[..]), words[..], old(blocks), IndexOf(old(blocks), 0, p.value - TAG_SIZE))
    {
      hide BlockAt; hide Tiles; hide WellFormed; hide Span; hide Live; hide OnlyIn; hide PayloadsKept; hide InUseAt;
      hide Apply; hide Release; hide IndexOf;
      if p.None? {
        return;
      }
      var block := p.value - TAG_SIZE;
      ghost var i := IndexOf(blocks, 0, block);
      InUseIndex(blocks, block);
      FreeIsRelease(blocks, block);
      TilesAt(words[..], blocks, i);
      BlockBounds(words[..], block, blocks[i]);
      var size := words[block / 8];
      var after := FreeAfter(block, i);
      var before := FreeBefore(block, i);
      RunSize(words[..], blocks, i);
      Merge(block - before, size + after + before, i);
    }

    /** The size of the next block, if there is one and it is free. */
    method FreeAfter(block: nat, ghost i: nat) returns (size: nat)
      requires Valid() && i < |blocks| && block == Start(blocks, i)
      ensures size == if i + 1 < Hi(blocks, i) then blocks[i + 1].size else 0
    {
      hide BlockAt; hide Tiles; hide WellFormed; hide Span;
      TilesAt(words[..], blocks, i);
      BlockBounds(words[..], block, blocks[i]);
      var next := NextBlock(block, blocks[i].size);
      size := 0;
      if next.Some? {
        TilesAt(words[..], blocks, i + 1);
        BlockBounds(words[..], next.value, blocks[i + 1]);
        if words[next.value / 8 + 1] == 0 {
          size := words[next.value / 8];
        }
      }
    }

    /** The size of the previous block, if there is one and it is free. */
    method FreeBefore(block: nat, ghost i: nat) returns (size: nat)
      requires Valid() && i < |blocks| && block == Start(blocks, i)
      ensures size == if Lo(blocks, i) < i then blocks[i - 1].size else 0
      ensures Lo(blocks, i) < i ==> Start(blocks, i) == Start(blocks, i - 1) + blocks[i - 1].size
    {
      hide BlockAt; hide Tiles; hide WellFormed; hide Span;
      var prev := PrevBlock(block, i);
      size := 0;
      if prev.Some? {
        TilesAt(words[..], blocks, i - 1);
        BlockBounds(words[..], prev.value, blocks[i - 1]);
        if words[prev.value / 8 + 1] == 0 {
          size := words[prev.value / 8];
        }
      }
    }

    /** Tag the run of blocks around block `i` as one free block. */
    method Merge(lo: nat, size: nat, ghost i: nat)
      requires Valid() && i < |blocks| && blocks[i].inUse
      requires lo == Start(blocks, Lo(blocks, i)) && lo + size == Start(blocks, Hi(blocks, i))
      modifies words, `blocks
      ensures Valid() && blocks == Release(old(blocks), i)
      ensures PayloadsKept(old(words[..]), words[..], old(blocks), i)
    {
      hide BlockAt; hide Tiles; hide WellFormed; hide Span; hide OnlyIn; hide PayloadsKept; hide GoodBlock;
      ghost var before := words[..];
      ghost var l, h := Lo(blocks, i), Hi(blocks, i);
      StartUpTo(blocks, l, h);
      StartUpTo(blocks, h, |blocks|);
      assert blocks[..|blocks|] == blocks;
      MergedRun(blocks, i, 0);
      StartAligned(blocks, l);
      GoodIs(Block(size, false));
      WriteTags(lo, size, false);
      OneTile(words[..], lo, Block(size, false));
      ReplaceTiles(before, words[..], blocks, l, h, [Block(size, false)]);
      OthersKept(before, words[..], blocks, l, h, i);
      ReleaseKeeps(blocks, i);
      blocks := Release(blocks, i);
    }

    /** A client writes word `j` of the payload of a block in use. */
    method Store(ghost i: nat, j: nat, value: Word)
      requires Valid() && i < |blocks| && blocks[i].inUse && j < WORDS && InPayload(Start(blocks, i), blocks[i], j)
      modifies words
      ensures Valid() && words[..] == old(words[..])[j := value]
    {
      ghost var before := words[..];
      words[j] := value;
      StoreTiles(before, blocks, i, j, value);
    }
  }

  // ---------------------------------------------------------------- what malloc leaves

  /** The words spell a heap in which the block at `x` is in use. */
  ghost predicate HandedOut(w: seq<Word>, x: nat)
    requires |w| == WORDS
  {
    exists cs :: SpelledBy(w, cs) && InUseAt(cs, x)
  }

  ghost predicate SpelledBy(w: seq<Word>, cs: seq<Block>)
    requires |w| == WORDS
  {
    WellFormed(cs) && Tiles(w, 0, ARENA_SIZE, cs)
  }

  /** `needed` bytes may be asked of the block of `size` bytes at `block`. */
  predicate Divisible(block: nat, size: nat, needed: nat) {
    && block % ALIGNMENT == 0 && size % ALIGNMENT == 0 && needed % ALIGNMENT == 0
    && MIN_BLOCK_SIZE <= size && needed <= size && block + size <= ARENA_SIZE
  }

  lemma DivisibleParts(block: nat, size: nat, needed: nat)
    requires Divisible(block, size, needed)
    ensures (block + needed) % ALIGNMENT == 0 && (size - needed) % ALIGNMENT == 0 && block / 8 + 1 < WORDS
    ensures size - needed >= MIN_BLOCK_SIZE ==> block + needed + TAG_SIZE <= ARENA_SIZE
  {
  }

  /** The words after the tags of a grant, whatever `needed` is. */
  function SplitWords(w: seq<Word>, block: nat, size: nat, needed: nat): (r: seq<Word>)
    requires |w| == WORDS && Divisible(block, size, needed)
    ensures |r| == WORDS
  {
    DivisibleParts(block, size, needed);
    if size - needed >= MIN_BLOCK_SIZE then
      Tagged(Tagged(w, block, needed, true), block + needed, size - needed, false)
    else
      Tagged(w, block, size, true)
  }

  lemma TaggedHeader(w: seq<Word>, header: nat, size: nat, inUse: bool)
    requires |w| == WORDS && header % ALIGNMENT == 0 && size % ALIGNMENT == 0
    requires header + TAG_SIZE <= ARENA_SIZE && header + size <= ARENA_SIZE
    ensures
      var w' := Tagged(w, header, size, inUse);
      header / 8 + 1 < WORDS && w'[header / 8] == size && w'[header / 8 + 1] == Flag(inUse)
    ensures
      var lo := if size >= TAG_SIZE then header else if header >= TAG_SIZE then header - TAG_SIZE else 0;
      OnlyIn(w, Tagged(w, header, size, inUse), lo, header + if size >= TAG_SIZE then size else TAG_SIZE)
  {
    var h, n := header / 16, size / 16;
    assert header == 16 * h && size == 16 * n && header / 8 == 2 * h;
    if header + size >= TAG_SIZE { assert (header + size - TAG_SIZE) / 8 == 2 * (h + n - 1); }
  }

  lemma SplitTiles(w: seq<Word>, block: nat, size: nat, needed: nat)
    requires |w| == WORDS && BlockAt(w, block, Block(size, false)) && Divisible(block, size, needed)
    requires CleanCut(size, needed)
    ensures
      var w' := SplitWords(w, block, size, needed);
      && OnlyIn(w, w', block, block + size)
      && Tiles(w', block, block + size, Carved(Block(size, false), needed))
  {
    hide BlockAt; hide OnlyIn; hide Tiles; hide InPayload; hide Carved; hide GoodBlock; hide Tagged;
    DivisibleParts(block, size, needed);
    BlockBounds(w, block, Block(size, false));
    NeededIsGood(size, needed);
    hide CleanCut; hide Divisible;
    if size - needed >= MIN_BLOCK_SIZE {
      var w1 := Tagged(w, block, needed, true);
      TagsWritten(w, block, Block(needed, true));
      TagsWritten(w1, block + needed, Block(size - needed, false));
      var w2 := Tagged(w1, block + needed, size - needed, false);
      TwoWrites(w, w1, w2, block, needed, size);
      TwoTiles(w2, block, needed, size);
    } else {
      TagsWritten(w, block, Block(size, true));
      WholeTile(Tagged(w, block, size, true), block, size, needed);
    }
  }

  lemma NeededAligned(size: Size)
    requires size != 0
    ensures Needed(size) % ALIGNMENT == 0
  {
    NeededFits(size);
    if size > MAX_REQUEST { NeededBeyond(size); }
  }

  lemma BlockDivides(w: seq<Word>, bs: seq<Block>, i: nat, size: Size)
    requires |w| == WORDS && Tiles(w, 0, ARENA_SIZE, bs) && i < |bs| && size != 0 && Needed(size) <= bs[i].size
    ensures Divisible(Start(bs, i), bs[i].size, Needed(size))
  {
    hide Tiles; hide BlockAt; hide Needed; hide Span;
    TilesAt(w, bs, i);
    BlockBounds(w, Start(bs, i), bs[i]);
    NeededAligned(size);
  }

  /** A clean cut leaves a heap, with the block in use. */
  lemma CleanSplit(w: seq<Word>, bs: seq<Block>, i: nat, needed: nat)
    requires |w| == WORDS && WellFormed(bs) && Span(bs) == ARENA_SIZE && Tiles(w, 0, ARENA_SIZE, bs)
    requires i < |bs| && Fits(bs[i], needed) && CleanCut(bs[i].size, needed)
    requires Divisible(Start(bs, i), bs[i].size, needed)
    ensures
      var w', cs := SplitWords(w, Start(bs, i), bs[i].size, needed), Carve(bs, i, needed);
      && Tiles(w', 0, ARENA_SIZE, cs) && WellFormed(cs) && Span(cs) == ARENA_SIZE
      && HandedOut(w', Start(bs, i))
  {
    hide Tiles; hide BlockAt; hide WellFormed; hide Span; hide OnlyIn; hide CleanCut; hide SplitWords; hide Divisible;
    hide Live; hide Carved;
    var at := Start(bs, i);
    var w', cs := SplitWords(w, at, bs[i].size, needed), Carve(bs, i, needed);
    TilesAt(w, bs, i);
    SplitTiles(w, at, bs[i].size, needed);
    ReplaceTiles(w, w', bs, i, i + 1, Carved(bs[i], needed));
    CarveKeeps(bs, i, needed);
    assert (at, Taken(bs[i].size, needed)) in Live(cs, 0);
    assert SpelledBy(w', cs) && InUseAt(cs, at);
  }

  /** A cut that is not clean leaves no heap with the block in use: its header is marked free again
      by the remainder's tags, or is too small to be a block. */
  lemma OverlappingSplit(w: seq<Word>, bs: seq<Block>, i: nat, size: Size)
    requires |w| == WORDS && i < |bs| && size != 0 && Needed(size) <= bs[i].size
    requires Divisible(Start(bs, i), bs[i].size, Needed(size)) && !CleanCut(bs[i].size, Needed(size))
    ensures !HandedOut(SplitWords(w, Start(bs, i), bs[i].size, Needed(size)), Start(bs, i))
  {
    var at, need := Start(bs, i), Needed(size);
    hide Needed; hide Start; hide Tiles; hide BlockAt; hide WellFormed; hide Tagged; hide InUseAt; hide Span;
    NeededAligned(size);
    assert need == 0 || need == 16;
    DivisibleParts(at, bs[i].size, need);
    var w' := SplitWords(w, at, bs[i].size, need);
    OverlapHeader(w, at, bs[i].size, need);
    forall cs | SpelledBy(w', cs) ensures !InUseAt(cs, at) {
      if InUseAt(cs, at) {
        InUseIndex(cs, at);
        var k := IndexOf(cs, 0, at);
        TilesAt(w', cs, k);
        BlockBounds(w', at, cs[k]);
        assert false;
      }
    }
  }

  lemma OverlapHeader(w: seq<Word>, at: nat, size: nat, need: nat)
    requires |w| == WORDS && Divisible(at, size, need) && size - need >= MIN_BLOCK_SIZE && (need == 0 || need == 16)
    ensures
      var w' := SplitWords(w, at, size, need);
      at / 8 + 1 < WORDS && if need == 0 then w'[at / 8 + 1] == 0 else w'[at / 8] == 16
  {
    hide Tagged;
    DivisibleParts(at, size, need);
    TaggedHeader(w, at, need, true);
    TaggedHeader(Tagged(w, at, need, true), at + need, size - need, false);
  }

  /** Whatever the cut, only a free block and the footer before it are written. */
  lemma SplitOnlyIn(w: seq<Word>, at: nat, size: nat, need: nat)
    requires |w| == WORDS && Divisible(at, size, need)
    ensures OnlyIn(w, SplitWords(w, at, size, need), if at >= TAG_SIZE then at - TAG_SIZE else 0, at + size)
  {
    hide Tagged;
    DivisibleParts(at, size, need);
    if size - need >= MIN_BLOCK_SIZE {
      TaggedHeader(w, at, need, true);
      TaggedHeader(Tagged(w, at, need, true), at + need, size - need, false);
    } else {
      TaggedHeader(w, at, size, true);
    }
  }

  lemma SplitKeepsPayloads(w: seq<Word>, bs: seq<Block>, i: nat, need: nat)
    requires |w| == WORDS && i < |bs| && !bs[i].inUse && Divisible(Start(bs, i), bs[i].size, need)
    ensures PayloadsKept(w, SplitWords(w, Start(bs, i), bs[i].size, need), bs, |bs|)
  {
    hide SplitWords; hide Divisible; hide Span; hide Start;
    var at := Start(bs, i);
    var w' := SplitWords(w, at, bs[i].size, need);
    SplitOnlyIn(w, at, bs[i].size, need);
    forall k, j | 0 <= k < |bs| && bs[k].inUse && 0 <= j < WORDS && InPayload(Start(bs, k), bs[k], j)
      ensures w'[j] == w[j]
    {
      if k < i { LiveDisjoint(bs, k, i); } else { LiveDisjoint(bs, i, k); }
    }
  }

  /** Two tilings agree up to block n if the words do up to its header. */
  lemma {:induction false} SameWalk(w: seq<Word>, w': seq<Word>, lo: nat, bs: seq<Block>, cs: seq<Block>, n: nat,
                                    from: nat, hi: nat)
    requires |w| == WORDS == |w'| && Tiles(w, lo, ARENA_SIZE, bs) && Tiles(w', lo, ARENA_SIZE, cs)
    requires n <= |bs| && OnlyIn(w, w', from, hi) && lo + Start(bs, n) <= from + TAG_SIZE
    ensures n <= |cs| && cs[..n] == bs[..n]
    decreases n
  {
    if n > 0 {
      StartTail(bs, n);
      SameHeader(w, w', lo, bs, cs, from, hi);
      SameWalk(w, w', lo + bs[0].size, bs[1..], cs[1..], n - 1, from, hi);
      assert cs == [cs[0]] + cs[1..] && bs == [bs[0]] + bs[1..];
    }
  }

  lemma StartTail(bs: seq<Block>, n: nat)
    requires 0 < n <= |bs|
    ensures Start(bs, n) == bs[0].size + Start(bs[1..], n - 1)
  {
    assert bs[..n][1..] == bs[1..][..n - 1];
  }

  lemma SameHeader(w: seq<Word>, w': seq<Word>, lo: nat, bs: seq<Block>, cs: seq<Block>, from: nat, hi: nat)
    requires |w| == WORDS == |w'| && Tiles(w, lo, ARENA_SIZE, bs) && Tiles(w', lo, ARENA_SIZE, cs)
    requires bs != [] && OnlyIn(w, w', from, hi) && lo + bs[0].size <= from + TAG_SIZE
    ensures cs != [] && cs[0] == bs[0]
  {
    BlockBounds(w, lo, bs[0]);
    GoodIs(bs[0]);
    assert cs != [];
    BlockBounds(w', lo, cs[0]);
  }

  lemma WordsAfterOverlap(w: seq<Word>, bs: seq<Block>, i: nat, size: Size)
    requires |w| == WORDS && WellFormed(bs) && Tiles(w, 0, ARENA_SIZE, bs)
    requires i < |bs| && !bs[i].inUse && size != 0 && Needed(size) <= bs[i].size
    requires Divisible(Start(bs, i), bs[i].size, Needed(size)) && !CleanCut(bs[i].size, Needed(size))
    ensures
      var w' := SplitWords(w, Start(bs, i), bs[i].size, Needed(size));
      if size <= TWO_64 - 32 && Start(bs, i) == 0 then w' == w else forall cs :: !SpelledBy(w', cs)
  {
    hide Needed; hide Tiles; hide BlockAt; hide WellFormed; hide SplitWords; hide Divisible; hide Span; hide OnlyIn;
    hide Start; hide Tagged;
    var at, need := Start(bs, i), Needed(size);
    var w' := SplitWords(w, at, bs[i].size, need);
    WrapsToLess(bs[i].size, size);
    StartIsZero(w, bs, i);
    TilesAt(w, bs, i);
    if need == 0 && i == 0 {
      Retagged(w, bs[0].size);
    } else {
      forall cs ensures !SpelledBy(w', cs) {
        NotSpelled(w, bs, cs, i, need);
      }
    }
  }

  /** A cut that is not clean is one of a wrapped request. */
  lemma WrapsToLess(blockSize: nat, size: Size)
    requires size != 0 && Needed(size) <= blockSize && !CleanCut(blockSize, Needed(size))
    ensures size > MAX_REQUEST && blockSize - Needed(size) >= MIN_BLOCK_SIZE
    ensures Needed(size) == if size <= TWO_64 - 32 then 0 else 16
  {
    hide Needed;
    NeededFits(size);
    if size > MAX_REQUEST { NeededBeyond(size); }
  }

  lemma Retagged(w: seq<Word>, size: nat)
    requires |w| == WORDS && BlockAt(w, 0, Block(size, false))
    ensures Divisible(0, size, 0) && SplitWords(w, 0, size, 0) == w
  {
    TagIndices(0, size);
  }

  lemma NotSpelled(w: seq<Word>, bs: seq<Block>, cs: seq<Block>, i: nat, need: nat)
    requires |w| == WORDS && Tiles(w, 0, ARENA_SIZE, bs) && i < |bs| && Divisible(Start(bs, i), bs[i].size, need)
    requires bs[i].size - need >= MIN_BLOCK_SIZE && (need == 16 || (need == 0 && i > 0))
    ensures !SpelledBy(SplitWords(w, Start(bs, i), bs[i].size, need), cs)
  {
    hide Tiles; hide BlockAt; hide WellFormed; hide SplitWords; hide Divisible; hide Span; hide OnlyIn; hide GoodBlock;
    var at := Start(bs, i);
    var w' := SplitWords(w, at, bs[i].size, need);
    if SpelledBy(w', cs) {
      SplitOnlyIn(w, at, bs[i].size, need);
      SameWalk(w, w', 0, bs, cs, i, if at >= TAG_SIZE then at - TAG_SIZE else 0, at + bs[i].size);
      assert Start(cs, i) == at;
      if need == 16 {
        OverlapHeader(w, at, bs[i].size, need);
        WalkGoesOn(w', cs, i, w, bs);
        TilesAt(w', cs, i);
        BlockBounds(w', at, cs[i]);
      } else {
        TilesAt(w, bs, i - 1);
        BlockBounds(w, Start(bs, i - 1), bs[i - 1]);
        GoodIs(bs[i - 1]);
        OverlapFooter(w, at, bs[i].size);
        assert cs[i - 1] == bs[i - 1] && cs[..i - 1] == bs[..i - 1];
        TilesAt(w', cs, i - 1);
        FooterIs(w', Start(cs, i - 1), cs[i - 1]);
      }
    }
  }

  lemma WalkGoesOn(w': seq<Word>, cs: seq<Block>, i: nat, w: seq<Word>, bs: seq<Block>)
    requires |w| == WORDS == |w'| && Tiles(w, 0, ARENA_SIZE, bs) && Tiles(w', 0, ARENA_SIZE, cs)
    requires i < |bs| && i <= |cs| && Start(cs, i) == Start(bs, i)
    ensures i < |cs|
  {
    TilesAt(w, bs, i);
    BlockBounds(w, Start(bs, i), bs[i]);
    hide Tiles; hide BlockAt; hide Span;
    GoodIs(bs[i]);
    TilesSpan(w', 0, ARENA_SIZE, cs);
    assert cs[..|cs|] == cs;
  }

  lemma FooterIs(w: seq<Word>, a: nat, b: Block)
    requires |w| == WORDS && BlockAt(w, a, b)
    ensures (a + b.size) / 8 >= 2 && (a + b.size) / 8 <= WORDS && w[(a + b.size) / 8 - 2] == b.size >= MIN_BLOCK_SIZE
  {
  }

  /** Asking for nothing of a block destroys the footer before it. */
  lemma OverlapFooter(w: seq<Word>, at: nat, size: nat)
    requires |w| == WORDS && Divisible(at, size, 0) && at >= TAG_SIZE
    ensures 2 <= at / 8 <= WORDS && SplitWords(w, at, size, 0)[at / 8 - 2] == 0
  {
    TaggedHeader(Tagged(w, at, 0, true), at, size, false);
    assert (at - TAG_SIZE) / 8 == at / 8 - 2;
    assert Tagged(w, at, 0, true)[at / 8 - 2] == 0;
    hide Tagged;
  }

  /** For instance, 2^64 - 40 bytes are granted of an empty heap, which is then as it was. */
  lemma NothingTaken(w: seq<Word>)
    requires |w| == WORDS && Tiles(w, 0, ARENA_SIZE, EmptyHeap())
    ensures FirstFit(EmptyHeap(), Needed(TWO_64 - 40)) == 0 && !Sound(EmptyHeap(), Op.Malloc(TWO_64 - 40))
    ensures Divisible(0, ARENA_SIZE, Needed(TWO_64 - 40)) && SplitWords(w, 0, ARENA_SIZE, Needed(TWO_64 - 40)) == w
  {
    hide Tiles; hide BlockAt; hide SplitWords; hide Needed;
    NeededBeyond(TWO_64 - 40);
    StartAtZero(EmptyHeap());
    TilesAt(w, EmptyHeap(), 0);
    Retagged(w, ARENA_SIZE);
  }

  lemma FreeIsRelease(bs: seq<Block>, x: nat)
    requires WellFormed(bs) && InUseAt(bs, x)
    ensures
      var i := IndexOf(bs, 0, x);
      i < |bs| && bs[i].inUse && Start(bs, i) == x && Apply(bs, Op.Free(x)) == Release(bs, i)
  {
    hide WellFormed; hide InUseAt; hide Release; hide Start;
    InUseIndex(bs, x);
  }

  lemma StartAtZero(bs: seq<Block>)
    ensures Start(bs, 0) == 0
    ensures Span(bs) > 0 ==> bs != []
  {
    assert bs[..0] == [];
  }

  lemma NothingWritten(w: seq<Word>, bs: seq<Block>)
    requires |w| == WORDS
    ensures PayloadsKept(w, w, bs, |bs|)
  {
  }

  /** The sizes free adds up are those of the run. */
  lemma RunSize(w: seq<Word>, bs: seq<Block>, i: nat)
    requires |w| == WORDS && Tiles(w, 0, ARENA_SIZE, bs) && i < |bs|
    ensures
      var lo, hi := Lo(bs, i), Hi(bs, i);
      Start(bs, hi) == Start(bs, lo) + (if lo < i then bs[i - 1].size else 0) + bs[i].size
                       + (if i + 1 < hi then bs[i + 1].size else 0)
  {
    TilesAt(w, bs, i);
    if i > 0 { TilesAt(w, bs, i - 1); }
    if i + 1 < |bs| { TilesAt(w, bs, i + 1); }
  }

  lemma StoreBlock(w: seq<Word>, a: nat, b: Block, j: nat, value: Word)
    requires |w| == WORDS && BlockAt(w, a, b) && j < WORDS && InPayload(a, b, j)
    ensures BlockAt(w[j := value], a, b) && OnlyIn(w, w[j := value], a, a + b.size)
  {
  }

  /** A write inside a payload touches no tag. */
  lemma StoreTiles(w: seq<Word>, bs: seq<Block>, i: nat, j: nat, value: Word)
    requires |w| == WORDS && Tiles(w, 0, ARENA_SIZE, bs) && i < |bs| && j < WORDS
    requires InPayload(Start(bs, i), bs[i], j)
    ensures Tiles(w[j := value], 0, ARENA_SIZE, bs)
  {
    hide Tiles; hide BlockAt; hide Span;
    TilesAt(w, bs, i);
    var a, w' := Start(bs, i), w[j := value];
    StoreBlock(w, a, bs[i], j, value);
    OneTile(w', a, bs[i]);
    ReplaceTiles(w, w', bs, i, i + 1, [bs[i]]);
    assert bs[..i] + [bs[i]] + bs[i + 1..] == bs;
  }

  /** The scan stops where FirstFit says. */
  lemma FitIsFirst(bs: seq<Block>, i: nat, need: nat)
    requires i <= |bs| && (i < |bs| ==> Fits(bs[i], need)) && forall j :: 0 <= j < i ==> !Fits(bs[j], need)
    ensures FirstFit(bs, need) == i
  {
  }
}
