/**
 The heap over whole runs: any sequence of calls and of client writes that its callers may make.
 */
module HeapRuns {
  import opened Options
  import opened HeapBlocks
  import opened HeapArena

  /** What a client does: allocate, free the block whose header is at `x`, write a word. */
  datatype Call = Allocate(size: Size) | Release(x: nat) | Write(j: nat, value: Word)

  /** Word j belongs to the payload of block i, which is in use. */
  ghost predicate Holds(bs: seq<Block>, i: nat, j: nat) {
    i < |bs| && bs[i].inUse && j < WORDS && InPayload(Start(bs, i), bs[i], j)
  }

  ghost predicate InSomePayload(bs: seq<Block>, j: nat) { exists i :: Holds(bs, i, j) }

  /** What the heap asks of its clients: free only blocks in use, write only into payloads. */
  ghost predicate Legal(bs: seq<Block>, call: Call) {
    match call
    case Allocate(_) => true
    case Release(x) => InUseAt(bs, x)
    case Write(j, _) => InSomePayload(bs, j)
  }

  /** The call leaves a heap; of a request that does not, `Heap.Malloc` says what it leaves. */
  predicate LeavesHeap(bs: seq<Block>, call: Call) {
    call.Allocate? ==> Sound(bs, Op.Malloc(call.size))
  }

  function After(bs: seq<Block>, call: Call): seq<Block>
    requires LeavesHeap(bs, call)
  {
    match call
    case Allocate(size) => Apply(bs, Op.Malloc(size))
    case Release(x) => Apply(bs, Op.Free(x))
    case Write(_, _) => bs
  }

  ghost predicate LegalRun(bs: seq<Block>, calls: seq<Call>)
    decreases |calls|
  {
    calls != [] ==>
      && Legal(bs, calls[0])
      && (LeavesHeap(bs, calls[0]) ==> LegalRun(After(bs, calls[0]), calls[1..]))
  }

  /** How many calls there are before the first that leaves no heap. */
  function SoundCalls(bs: seq<Block>, calls: seq<Call>): (n: nat)
    ensures n <= |calls|
    decreases |calls|
  {
    if calls == [] || !LeavesHeap(bs, calls[0]) then 0
    else 1 + SoundCalls(After(bs, calls[0]), calls[1..])
  }

  /** The list after those calls. */
  function AfterSound(bs: seq<Block>, calls: seq<Call>): seq<Block>
    decreases |calls|
  {
    if calls == [] || !LeavesHeap(bs, calls[0]) then bs
    else AfterSound(After(bs, calls[0]), calls[1..])
  }

  /** A call that neither frees the payload word j is in nor writes the word. */
  ghost predicate Spares(bs: seq<Block>, call: Call, j: nat) {
    match call
    case Allocate(_) => InSomePayload(bs, j)
    case Release(x) => exists i :: Holds(bs, i, j) && Start(bs, i) != x
    case Write(k, _) => j < WORDS && k != j
  }

  ghost predicate SparesAll(bs: seq<Block>, calls: seq<Call>, j: nat)
    decreases |calls|
  {
    calls != [] ==>
      && Spares(bs, calls[0], j)
      && (LeavesHeap(bs, calls[0]) ==> SparesAll(After(bs, calls[0]), calls[1..], j))
  }

  /** The block a request is granted from. */
  function Granted(bs: seq<Block>, size: Size): nat { Start(bs, FirstFit(bs, Needed(size))) }

  /** One call. */
  method Perform(h: Heap, call: Call)
    requires h.Valid() && Legal(h.blocks, call)
    modifies h.words, h`blocks
    ensures LeavesHeap(old(h.blocks), call) ==> h.Valid() && h.blocks == After(old(h.blocks), call)
    ensures h.words.Length == WORDS
    ensures !LeavesHeap(old(h.blocks), call) ==> !HandedOut(h.words[..], Granted(old(h.blocks), call.size))
    ensures forall j: nat :: Spares(old(h.blocks), call, j) ==> j < WORDS && h.words[j] == old(h.words[j])
  {
    hide InPayload; hide Apply; hide Sound; hide HandedOut;
    ghost var bs, w := h.blocks, h.words[..];
    match call
    case Allocate(size) =>
      if !Sound(bs, Op.Malloc(size)) { UnsoundIsGranted(bs, size); }
      var _ := h.Malloc(size);
    case Release(x) =>
      h.Free(Some(x + TAG_SIZE));
      forall j: nat | Spares(bs, call, j) ensures j < WORDS && h.words[j] == w[j] {
        SparedByFree(w, h.words[..], bs, x, j);
      }
    case Write(j, value) =>
      ghost var i :| Holds(h.blocks, i, j);
      h.Store(i, j, value);
  }

  lemma UnsoundIsGranted(bs: seq<Block>, size: Size)
    requires !Sound(bs, Op.Malloc(size))
    ensures size != 0 && FirstFit(bs, Needed(size)) < |bs|
  {
  }

  lemma SparedByFree(w: seq<Word>, w': seq<Word>, bs: seq<Block>, x: nat, j: nat)
    requires WellFormed(bs) && InUseAt(bs, x) && PayloadsKept(w, w', bs, IndexOf(bs, 0, x))
    requires Spares(bs, Release(x), j)
    ensures j < WORDS == |w| == |w'| && w'[j] == w[j]
  {
    hide WellFormed; hide InUseAt; hide InPayload; hide IndexOf;
    InUseIndex(bs, x);
  }

  /** Any legal run, up to and including its first call that leaves no heap. If there is none, the
      words decode to the list the run stands for. After such a call, the block it was granted is in
      use in no heap that the words spell. Either way a payload word that the run neither frees nor
      writes keeps its value. */
  method Run(h: Heap, calls: seq<Call>)
    requires h.Valid() && LegalRun(h.blocks, calls) && |calls| <= SoundCalls(h.blocks, calls) + 1
    modifies h.words, h`blocks
    ensures h.words.Length == WORDS
    ensures |calls| == SoundCalls(old(h.blocks), calls) ==>
              h.Valid() && h.blocks == AfterSound(old(h.blocks), calls)
    ensures |calls| > SoundCalls(old(h.blocks), calls) ==>
              && calls[|calls| - 1].Allocate?
              && !HandedOut(h.words[..], Granted(AfterSound(old(h.blocks), calls), calls[|calls| - 1].size))
    ensures forall j: nat :: j < WORDS && SparesAll(old(h.blocks), calls, j) ==> h.words[j] == old(h.words[j])
  {
    assert h.words.Length == WORDS;
    hide After; hide Spares; hide Legal; hide h.Valid; hide Sound; hide HandedOut; hide Granted;
    ghost var bs, n := h.blocks, SoundCalls(h.blocks, calls);
    for i := 0 to |calls|
      invariant h.words == old(h.words) && h.words.Length == WORDS
      invariant i <= n ==> h.Valid() && LegalRun(h.blocks, calls[i..]) && n == i + SoundCalls(h.blocks, calls[i..])
      invariant i <= n ==> AfterSound(bs, calls) == AfterSound(h.blocks, calls[i..])
      invariant i > n ==>
                  && calls[|calls| - 1].Allocate?
                  && !HandedOut(h.words[..], Granted(AfterSound(bs, calls), calls[|calls| - 1].size))
      invariant forall j: nat :: j < WORDS && SparesAll(bs, calls, j) ==>
                  h.words[j] == old(h.words[j]) && (i <= n ==> SparesAll(h.blocks, calls[i..], j))
    {
      assert calls[i..][0] == calls[i] && calls[i..][1..] == calls[i + 1..];
      Perform(h, calls[i]);
    }
  }
}
