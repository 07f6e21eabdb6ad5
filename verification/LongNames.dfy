/**
 Long file names: the pieces of a name in the directory slots before its 8.3 entry, the state
 machine that reassembles them, and the encoding it undoes (FAT32 File System Specification 1.03,
 "FAT Long Directory Entries").
 */
module LongNames {
  import opened Bytes

  const MAX_NAME: nat := 255
  const NAME_BUFFER: nat := 269
  const ATTR_LONG: byte := 0x0F
  const DELETED: byte := 0xE5

  /** A directory slot. */
  type Slot = s: seq<byte> | |s| == 32 witness seq(32, _ => 0)

  type Chars = s: seq<byte> | |s| == NAME_BUFFER witness seq(NAME_BUFFER, _ => 0)

  type NameLen = n: nat | n < NAME_BUFFER

  /** The pending long name: none, or the buffer, how much of it is in use, and the checksum of the
      short name it belongs to. */
  datatype Assembly = Off | On(chars: Chars, len: NameLen, checksum: byte)

  /** Where character i of a piece is: 1 3 5 7 9, 14 16 18 20 22 24, 28 30. */
  function CharOffset(i: nat): nat
    requires i < 13
  {
    if i < 5 then 1 + 2 * i else if i < 11 then 14 + 2 * (i - 5) else 28 + 2 * (i - 11)
  }

  /** Padding becomes NUL, and anything past ASCII a question mark. */
  function Narrow(unit: nat): byte {
    if unit == 0xFFFF then 0 else if unit < 0x80 then unit else '?' as int
  }

  function CharAt(e: Slot, i: nat): byte
    requires i < 13
  {
    Narrow(Le16(e, CharOffset(i)))
  }

  function Ordinal(e: Slot): nat { e[0] % 64 }

  predicate StartsName(e: Slot) { e[0] / 64 % 2 == 1 }

  /** The buffer with the characters of piece `ordinal` in place. */
  function Put(chars: Chars, ordinal: nat, e: Slot): Chars
    requires 1 <= ordinal <= 20
  {
    chars[..13 * (ordinal - 1)] + PieceChars(e) + chars[13 * ordinal..]
  }

  function PieceChars(e: Slot): (r: seq<byte>)
    ensures |r| == 13
  {
    seq(13, i requires 0 <= i < 13 => CharAt(e, i))
  }

  function Zeros(): Chars { seq(NAME_BUFFER, _ => 0) }

  /** The pending name after slot `e`, which is not the end of the directory. */
  function Next(st: Assembly, e: Slot): Assembly {
    var ordinal := Ordinal(e);
    if e[0] == DELETED || e[11] != ATTR_LONG || ordinal == 0 || ordinal * 13 > MAX_NAME + 13 then Off
    else if StartsName(e) then On(Put(Zeros(), ordinal, e), ordinal * 13, e[13])
    else if st.On? && e[13] == st.checksum then st.(chars := Put(st.chars, ordinal, e))
    else Off
  }

  /** The pending name after a run of slots. */
  function Pending(slots: seq<Slot>): Assembly {
    if slots == [] then Off else Next(Pending(slots[..|slots| - 1]), slots[|slots| - 1])
  }

  function LongName(st: Assembly): seq<byte>
    requires st.On?
  {
    Before(st.chars[..st.len], 0)
  }

  // ---------------------------------------------------------------- encoding

  function PieceCount(name: seq<byte>): nat { (|name| + 12) / 13 }

  /** A NUL ends the name if there is room, and 0xFFFF fills the rest. */
  function Unit(name: seq<byte>, i: nat): (u: nat)
    ensures u < 0x1_0000
  {
    if i < |name| then name[i] else if i == |name| then 0 else 0xFFFF
  }

  /** Characters from..from + n, two bytes each, low byte first. */
  function Units(name: seq<byte>, from: nat, n: nat): seq<byte> {
    seq(2 * n, j requires 0 <= j < 2 * n =>
      if j % 2 == 0 then Unit(name, from + j / 2) % 256 else Unit(name, from + j / 2) / 256)
  }

  /** Piece k: the ordinal, marked on the last piece, five characters, the attribute, type and
      checksum, six characters, a zero cluster, two characters. */
  function Piece(name: seq<byte>, k: nat, checksum: byte): Slot
    requires 1 <= k <= 20
  {
    var at := 13 * (k - 1);
    [if k == PieceCount(name) then k + 64 else k] + Units(name, at, 5) + [ATTR_LONG, 0, checksum]
    + Units(name, at + 5, 6) + [0, 0] + Units(name, at + 11, 2)
  }

  /** The pieces from the last one down to piece k, in the order in which they are on disk. */
  function PiecesDownTo(name: seq<byte>, k: nat, checksum: byte): seq<Slot>
    requires |name| <= MAX_NAME && k > 0
    decreases PieceCount(name) + 1 - k
  {
    if k > PieceCount(name) then [] else PiecesDownTo(name, k + 1, checksum) + [Piece(name, k, checksum)]
  }

  function Encode(name: seq<byte>, checksum: byte): seq<Slot>
    requires |name| <= MAX_NAME
  {
    PiecesDownTo(name, 1, checksum)
  }

  /** A name the encoding can carry and a caller can spell. */
  predicate Spellable(name: seq<byte>) {
    1 <= |name| <= MAX_NAME && forall i :: 0 <= i < |name| ==> 0 < name[i] < 0x80
  }

  // ---------------------------------------------------------------- round trip

  lemma PieceHeader(name: seq<byte>, k: nat, checksum: byte)
    requires 1 <= k <= 20
    ensures var e := Piece(name, k, checksum);
      && e[0] != 0 && e[0] != DELETED && e[11] == ATTR_LONG && e[13] == checksum
      && Ordinal(e) == k && (StartsName(e) <==> k == PieceCount(name))
  {
    assert |Units(name, 13 * (k - 1), 5)| == 10;
  }

  lemma UnitsAre(name: seq<byte>, from: nat, n: nat, i: nat)
    requires i < n
    ensures |Units(name, from, n)| == 2 * n && Le16(Units(name, from, n), 2 * i) == Unit(name, from + i)
  {
    assert (2 * i) / 2 == i && (2 * i + 1) / 2 == i && (2 * i + 1) % 2 == 1;
  }

  /** Two bytes of a slot, seen in the part of the slot they are in. */
  lemma Le16In(e: Slot, lo: nat, part: seq<byte>, j: nat)
    requires lo + |part| <= 32 && e[lo..lo + |part|] == part && j + 2 <= |part|
    ensures Le16(e, lo + j) == Le16(part, j)
  {
    assert e[lo + j] == part[j] && e[lo + j + 1] == part[j + 1];
  }

  lemma Layout(e: Slot, head: byte, a: seq<byte>, mid: seq<byte>, b: seq<byte>, zero: seq<byte>, c: seq<byte>)
    requires |a| == 10 && |mid| == 3 && |b| == 12 && |zero| == 2 && |c| == 4
    requires e == [head] + a + mid + b + zero + c
    ensures e[1..11] == a && e[14..26] == b && e[28..32] == c
  {
  }

  lemma PieceChar(name: seq<byte>, k: nat, checksum: byte, i: nat)
    requires 1 <= k <= 20 && i < 13
    ensures CharAt(Piece(name, k, checksum), i) == Narrow(Unit(name, 13 * (k - 1) + i))
  {
    hide Units; hide Le16; hide Unit; hide Narrow; hide PieceCount;
    var e, at := Piece(name, k, checksum), 13 * (k - 1);
    var a, b, c := Units(name, at, 5), Units(name, at + 5, 6), Units(name, at + 11, 2);
    UnitsAre(name, at, 5, if i < 5 then i else 0);
    UnitsAre(name, at + 5, 6, if 5 <= i < 11 then i - 5 else 0);
    UnitsAre(name, at + 11, 2, if 11 <= i then i - 11 else 0);
    Layout(e, e[0], a, [ATTR_LONG, 0, checksum], b, [0, 0], c);
    if i < 5 {
      Le16In(e, 1, a, 2 * i);
    } else if i < 11 {
      Le16In(e, 14, b, 2 * (i - 5));
    } else {
      Le16In(e, 28, c, 2 * (i - 11));
    }
  }

  /** What the buffer holds once the pieces from the last down to k are in. */
  function Partial(name: seq<byte>, k: nat): Chars
    requires |name| <= MAX_NAME && 1 <= k
  {
    seq(NAME_BUFFER, i requires 0 <= i < NAME_BUFFER =>
      if 13 * (k - 1) <= i < 13 * PieceCount(name) then Narrow(Unit(name, i)) else 0)
  }

  lemma PutPiece(name: seq<byte>, k: nat, checksum: byte, chars: Chars)
    requires |name| <= MAX_NAME && 1 <= k <= PieceCount(name) && chars == Partial(name, k + 1)
    ensures Put(chars, k, Piece(name, k, checksum)) == Partial(name, k)
  {
    var e := Piece(name, k, checksum);
    forall i | 0 <= i < NAME_BUFFER ensures Put(chars, k, e)[i] == Partial(name, k)[i] {
      if 13 * (k - 1) <= i < 13 * k {
        PieceChar(name, k, checksum, i - 13 * (k - 1));
      }
    }
  }

  /** One more piece, after any pending name for the first of them and after the pieces above it
      for the others. */
  lemma NextPiece(st: Assembly, name: seq<byte>, checksum: byte, k: nat)
    requires |name| <= MAX_NAME && 1 <= k <= PieceCount(name)
    requires k < PieceCount(name) ==> st == On(Partial(name, k + 1), 13 * PieceCount(name), checksum)
    ensures Next(st, Piece(name, k, checksum)) == On(Partial(name, k), 13 * PieceCount(name), checksum)
  {
    hide Piece; hide Put; hide Partial; hide StartsName; hide Ordinal;
    PieceHeader(name, k, checksum);
    if k == PieceCount(name) {
      NothingYet(name);
      PutPiece(name, k, checksum, Zeros());
    } else {
      PutPiece(name, k, checksum, Partial(name, k + 1));
    }
  }

  lemma NothingYet(name: seq<byte>)
    requires |name| <= MAX_NAME
    ensures Zeros() == Partial(name, PieceCount(name) + 1)
  {
  }

  lemma PendingSnoc(slots: seq<Slot>, e: Slot)
    ensures Pending(slots + [e]) == Next(Pending(slots), e)
  {
    assert (slots + [e])[..|slots|] == slots;
  }

  /** The pieces put in so far leave the same pending name whatever came before them. */
  lemma {:induction false} AssembledDownTo(prior: seq<Slot>, name: seq<byte>, checksum: byte, k: nat)
    requires |name| <= MAX_NAME && 1 <= k <= PieceCount(name)
    ensures Pending(prior + PiecesDownTo(name, k, checksum))
            == On(Partial(name, k), 13 * PieceCount(name), checksum)
    decreases PieceCount(name) - k
  {
    hide Piece; hide Partial; hide Next; hide Pending;
    var e, above := Piece(name, k, checksum), PiecesDownTo(name, k + 1, checksum);
    if k < PieceCount(name) {
      AssembledDownTo(prior, name, checksum, k + 1);
    }
    NextPiece(Pending(prior + above), name, checksum, k);
    PendingSnoc(prior + above, e);
    assert prior + (above + [e]) == prior + above + [e];
  }

  lemma WholeNameReads(name: seq<byte>, checksum: byte)
    requires Spellable(name)
    ensures LongName(On(Partial(name, 1), 13 * PieceCount(name), checksum)) == name
  {
    var chars := Partial(name, 1)[..13 * PieceCount(name)];
    assert chars[..|name|] == name;
    BeforeIs(chars, 0, |name|);
  }

  /** A name that was encoded before an 8.3 entry with that checksum is read back exactly, whatever
      slots, complete or broken, came before. */
  lemma RoundTrip(prior: seq<Slot>, name: seq<byte>, checksum: byte)
    requires Spellable(name)
    ensures var st := Pending(prior + Encode(name, checksum));
      st.On? && st.checksum == checksum && LongName(st) == name
  {
    AssembledDownTo(prior, name, checksum, 1);
    WholeNameReads(name, checksum);
  }

  // ---------------------------------------------------------------- which name is pending

  /** A long-name slot that can belong to a name. */
  predicate IsPiece(e: Slot) { e[0] != 0xE5 && e[11] == 0x0F && 1 <= e[0] % 64 <= 20 }

  /** The slots from `start` to the end are one name's: the first is marked as the last piece, the
      others are not, and all carry one checksum. */
  ghost predicate PieceRun(slots: seq<Slot>, start: nat) {
    && start < |slots| && IsPiece(slots[start]) && slots[start][0] / 64 % 2 == 1
    && forall j :: start < j < |slots| ==>
         IsPiece(slots[j]) && slots[j][0] / 64 % 2 == 0 && slots[j][13] == slots[start][13]
  }

  /** Character i of a piece. */
  function PieceLetter(e: Slot, i: nat): byte
    requires i < 13
  {
    var unit := Le16(e, [1, 3, 5, 7, 9, 14, 16, 18, 20, 22, 24, 28, 30][i]);
    if unit == 0xFFFF then 0 else if unit < 0x80 then unit else '?' as int
  }

  /** Character i of the name in the slots from `start` on: the one in the latest piece with its
      ordinal, or NUL if there is no such piece. */
  function RunLetter(slots: seq<Slot>, start: nat, i: nat): byte
    decreases |slots|
  {
    if |slots| <= start then 0
    else
      var e := slots[|slots| - 1];
      if e[0] % 64 == i / 13 + 1 then PieceLetter(e, i % 13)
      else RunLetter(slots[..|slots| - 1], start, i)
  }

  /** The name in the slots from `start` on. */
  function RunName(slots: seq<Slot>, start: nat): seq<byte>
    requires start < |slots|
  {
    Before(seq(13 * (slots[start][0] % 64), i requires 0 <= i => RunLetter(slots, start, i)), 0)
  }

  lemma LetterIs(e: Slot, i: nat)
    requires i < 13
    ensures CharAt(e, i) == PieceLetter(e, i)
  {
  }

  lemma PutIs(chars: Chars, ordinal: nat, e: Slot, i: nat)
    requires 1 <= ordinal <= 20 && i < NAME_BUFFER
    ensures Put(chars, ordinal, e)[i] == if i / 13 + 1 == ordinal then PieceLetter(e, i % 13) else chars[i]
  {
    hide PieceLetter; hide CharAt;
    if i / 13 + 1 == ordinal { LetterIs(e, i % 13); }
  }

  /** A run of pieces is the pending name, whatever came before it. */
  lemma {:induction false} RunIsPending(slots: seq<Slot>, start: nat)
    requires PieceRun(slots, start)
    ensures
      var st, ordinal: int := Pending(slots), slots[start][0] % 64;
      && st.On? && st.len == 13 * ordinal && st.checksum == slots[start][13]
      && forall i :: 0 <= i < NAME_BUFFER ==> st.chars[i] == RunLetter(slots, start, i)
    decreases |slots|
  {
    hide Put; hide PieceLetter;
    var n := |slots| - 1;
    var before, e := Pending(slots[..n]), slots[n];
    var chars := Zeros();
    if n > start {
      assert PieceRun(slots[..n], start);
      RunIsPending(slots[..n], start);
      chars := before.chars;
    }
    var st := Pending(slots);
    assert st.On? && st.chars == Put(chars, e[0] % 64, e);
    forall i | 0 <= i < NAME_BUFFER ensures st.chars[i] == RunLetter(slots, start, i) {
      PutIs(chars, e[0] % 64, e, i);
    }
  }

  /** A pending name is that of a run of pieces. */
  lemma {:induction false} PendingIsRun(slots: seq<Slot>) returns (start: nat)
    requires Pending(slots).On?
    ensures PieceRun(slots, start)
    decreases |slots|
  {
    hide Put;
    var n := |slots| - 1;
    if StartsName(slots[n]) {
      start := n;
    } else {
      start := PendingIsRun(slots[..n]);
      RunIsPending(slots[..n], start);
    }
  }

  lemma RunNameIs(slots: seq<Slot>, start: nat)
    requires PieceRun(slots, start)
    ensures Pending(slots).On? && LongName(Pending(slots)) == RunName(slots, start)
  {
    RunIsPending(slots, start);
    var st := Pending(slots);
    hide Pending;
    assert st.chars[..st.len] == seq(13 * (slots[start][0] % 64), i requires 0 <= i => RunLetter(slots, start, i));
  }
}
