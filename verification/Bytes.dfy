/**
 The byte-level plumbing of the FAT32 reader: little-endian fields, ASCII case, 8.3 names and
 their checksum.
 */
module Bytes {

  type byte = x: int | 0 <= x < 256

  const TWO_32: nat := 0x1_0000_0000
  const SECTOR: nat := 512

  function Le16(s: seq<byte>, at: nat): (r: nat)
    requires at + 2 <= |s|
    ensures r < 0x1_0000
  {
    var lo: int, hi: int := s[at], s[at + 1];
    lo + 0x100 * hi
  }

  function Le32(s: seq<byte>, at: nat): (r: nat)
    requires at + 4 <= |s|
    ensures r < TWO_32
  {
    Le16(s, at) + 0x1_0000 * Le16(s, at + 2)
  }

  function ToLe16(n: nat): (r: seq<byte>)
    requires n < 0x1_0000
    ensures |r| == 2
  {
    [n % 0x100, n / 0x100]
  }

  function ToLe32(n: nat): (r: seq<byte>)
    requires n < TWO_32
    ensures |r| == 4
  {
    ToLe16(n % 0x1_0000) + ToLe16(n / 0x1_0000)
  }

  /** A little-endian field is read back wherever it is. */
  lemma FieldsRoundTrip(pre: seq<byte>, post: seq<byte>, n: nat)
    ensures n < 0x1_0000 ==> Le16(pre + ToLe16(n) + post, |pre|) == n
    ensures n < TWO_32 ==> Le32(pre + ToLe32(n) + post, |pre|) == n
  {
    if n < 0x1_0000 {
      var s := pre + ToLe16(n) + post;
      assert s[|pre|] == n % 0x100 && s[|pre| + 1] == n / 0x100;
    }
    if n < TWO_32 {
      var s, lo, hi := pre + ToLe32(n) + post, n % 0x1_0000, n / 0x1_0000;
      assert s[|pre|] == lo % 0x100 && s[|pre| + 1] == lo / 0x100;
      assert s[|pre| + 2] == hi % 0x100 && s[|pre| + 3] == hi / 0x100;
    }
  }

  /** Clears the sixth bit of a lower-case ASCII letter and leaves every other byte alone. */
  function Upper(c: byte): byte {
    if 'a' as int <= c <= 'z' as int then c - 32 else c
  }

  predicate SameName(a: seq<byte>, b: seq<byte>) {
    |a| == |b| && forall i :: 0 <= i < |a| ==> Upper(a[i]) == Upper(b[i])
  }

  const LOWER: string := "abcdefghijklmnopqrstuvwxyz"
  const UPPER: string := "ABCDEFGHIJKLMNOPQRSTUVWXYZ"

  /** The same byte, or the two cases of one letter. */
  ghost predicate SameLetter(x: byte, y: byte) {
    x == y || exists k :: 0 <= k < 26 && OneLetter(k, x, y)
  }

  predicate OneLetter(k: nat, x: byte, y: byte)
    requires k < 26
  {
    (x == LOWER[k] as int && y == UPPER[k] as int) || (x == UPPER[k] as int && y == LOWER[k] as int)
  }

  ghost predicate SameSpelling(a: seq<byte>, b: seq<byte>) {
    |a| == |b| && forall i :: 0 <= i < |a| ==> SameLetter(a[i], b[i])
  }

  lemma LetterCodes(k: nat)
    requires k < 26
    ensures LOWER[k] as int == 97 + k && UPPER[k] as int == 65 + k
  {
  }

  lemma UpperIff(x: byte, y: byte)
    ensures Upper(x) == Upper(y) <==> SameLetter(x, y)
  {
    if Upper(x) == Upper(y) && x != y {
      var k := Upper(x) - 65;
      LetterCodes(k);
      assert OneLetter(k, x, y);
    } else if Upper(x) != Upper(y) {
      forall k | 0 <= k < 26 ensures !OneLetter(k, x, y) { LetterCodes(k); }
    }
  }

  /** Names are the same exactly when they are spelled alike but for the case of ASCII letters. */
  lemma SameNameIff(a: seq<byte>, b: seq<byte>)
    ensures SameName(a, b) <==> SameSpelling(a, b)
  {
    if |a| == |b| {
      forall i | 0 <= i < |a| ensures Upper(a[i]) == Upper(b[i]) <==> SameLetter(a[i], b[i]) {
        UpperIff(a[i], b[i]);
      }
    }
  }

  /** equal_nocase */
  method EqualNoCase(a: seq<byte>, b: seq<byte>) returns (same: bool)
    ensures same == SameName(a, b)
  {
    if |a| != |b| {
      return false;
    }
    for i := 0 to |a|
      invariant forall j :: 0 <= j < i ==> Upper(a[j]) == Upper(b[j])
    {
      if Upper(a[i]) != Upper(b[i]) {
        return false;
      }
    }
    return true;
  }

  // ---------------------------------------------------------------- the 8.3 checksum

  /** One step of the checksum: rotate right by one bit, then add. */
  function Mix(sum: byte, b: byte): byte {
    ((if sum % 2 == 1 then 0x80 else 0) + sum / 2 + b) % 256
  }

  /** A byte's value, and byte addition, on their own so that the proof below can speak of them
      without the bits. */
  function Value(x: bv8): (r: int)
    ensures 0 <= r < 256
  {
    x as int
  }

  function Plus(x: bv8, y: bv8): bv8 { x + y }

  function Pred(x: bv8): bv8 { x - 1 }

  lemma PlusOne(x: bv8)
    ensures Value(Plus(x, 1)) == (Value(x) + 1) % 256
  {
  }

  lemma PredIs(x: bv8)
    ensures Value(x) == 0 <==> x == 0
    ensures x != 0 ==> Value(Pred(x)) == Value(x) - 1
  {
  }

  lemma PlusSteps(x: bv8, y: bv8)
    ensures Plus(x, 0) == x && Plus(x, y) == Plus(Plus(x, Pred(y)), 1)
  {
  }

  lemma StepMod(a: int, b: int)
    ensures ((a + b - 1) % 256 + 1) % 256 == (a + b) % 256
  {
  }

  lemma {:induction false} PlusWraps(x: bv8, y: bv8)
    ensures Value(Plus(x, y)) == (Value(x) + Value(y)) % 256
    decreases Value(y)
  {
    hide Value; hide Plus; hide Pred;
    PredIs(y);
    PlusSteps(x, y);
    if y != 0 {
      PlusWraps(x, Pred(y));
      PlusOne(Plus(x, Pred(y)));
      StepMod(Value(x), Value(y));
    }
  }

  function Rotated(x: bv8): bv8 { x.RotateRight(1) }

  lemma RotatedParts(x: bv8)
    ensures Value(x >> 1) == Value(x) / 2 && (Value(x) % 2 == 1 <==> x & 1 == 1)
    ensures Rotated(x) == Plus(x >> 1, if x & 1 == 1 then 0x80 else 0)
    ensures Value(0x80) == 0x80 && Value(0) == 0
  {
  }

  lemma RotatedValue(x: bv8)
    ensures Value(Rotated(x)) == Value(x) / 2 + (if Value(x) % 2 == 1 then 0x80 else 0)
  {
    hide Value; hide Plus; hide Rotated;
    RotatedParts(x);
    PlusWraps(x >> 1, if x & 1 == 1 then 0x80 else 0);
  }

  lemma MixIsRotation(x: bv8, b: bv8)
    ensures Mix(Value(x), Value(b)) == Value(Plus(Rotated(x), b))
  {
    hide Value; hide Plus; hide Rotated;
    RotatedValue(x);
    PlusWraps(Rotated(x), b);
  }

  /** One step of the checksum is a rotation to the right and a byte addition. */
  lemma MixRotates(x: bv8, b: bv8)
    ensures Mix(x as int, b as int) == (x.RotateRight(1) + b) as int
  {
    hide Mix;
    MixIsRotation(x, b);
  }

  function MixAll(sum: byte, name: seq<byte>): byte {
    if name == [] then sum else Mix(MixAll(sum, name[..|name| - 1]), name[|name| - 1])
  }

  function Checksum(name11: seq<byte>): byte
    requires |name11| == 11
  {
    MixAll(0, name11)
  }

  /** short_name_checksum, over the first eleven bytes of a directory entry */
  method ShortNameChecksum(e: seq<byte>) returns (sum: byte)
    requires |e| >= 11
    ensures sum == Checksum(e[..11])
  {
    sum := 0;
    for i := 0 to 11
      invariant sum == MixAll(0, e[..11][..i])
    {
      assert e[..11][..i + 1][..i] == e[..11][..i];
      sum := ((if sum % 2 == 1 then 0x80 else 0) + sum / 2 + e[i]) % 256;
    }
    assert e[..11][..11] == e[..11];
  }

  lemma MixInjective(s: byte, t: byte, b: byte, c: byte)
    ensures b == c && Mix(s, b) == Mix(t, c) ==> s == t
    ensures s == t && Mix(s, b) == Mix(t, c) ==> b == c
  {
  }

  lemma {:induction false} MixAllInjective(s: byte, t: byte, name: seq<byte>)
    requires s != t
    ensures MixAll(s, name) != MixAll(t, name)
    decreases |name|
  {
    if name != [] {
      MixAllInjective(s, t, name[..|name| - 1]);
      MixInjective(MixAll(s, name[..|name| - 1]), MixAll(t, name[..|name| - 1]), name[|name| - 1], name[|name| - 1]);
    }
  }

  lemma {:induction false} MixConcat(s: byte, a: seq<byte>, b: seq<byte>)
    ensures MixAll(s, a + b) == MixAll(MixAll(s, a), b)
    decreases |b|
  {
    if b == [] {
      assert a + b == a;
    } else {
      assert (a + b)[..|a + b| - 1] == a + b[..|b| - 1];
      MixConcat(s, a, b[..|b| - 1]);
    }
  }

  /** The checksum notices every change of a single byte of a short name: that is what ties long
      name pieces to the entry they were written for. */
  lemma ChecksumSeesOneByte(name: seq<byte>, i: nat, b: byte)
    requires |name| == 11 && i < 11 && b != name[i]
    ensures Checksum(name[i := b]) != Checksum(name)
  {
    var changed := name[i := b];
    var pre, post := name[..i], name[i + 1..];
    assert name == pre + [name[i]] + post && changed == pre + [b] + post;
    MixConcat(0, pre + [name[i]], post);
    MixConcat(0, pre + [b], post);
    assert (pre + [b])[..i] == pre && (pre + [name[i]])[..i] == pre;
    MixInjective(MixAll(0, pre), MixAll(0, pre), b, name[i]);
    MixAllInjective(MixAll(0, pre + [b]), MixAll(0, pre + [name[i]]), post);
  }

  // ---------------------------------------------------------------- 8.3 names

  const SPACE: byte := 0x20
  const DOT: byte := 0x2E

  /** The bytes before the first `stop`. */
  function Before(s: seq<byte>, stop: byte): (r: seq<byte>)
    ensures r <= s && stop !in r
    ensures |r| == |s| || s[|r|] == stop
  {
    if s == [] || s[0] == stop then [] else [s[0]] + Before(s[1..], stop)
  }

  /** A first byte of 0x05 stands for 0xE5. */
  function Unescape(s: seq<byte>): seq<byte> {
    if s != [] && s[0] == 0x05 then s[0 := 0xE5] else s
  }

  /** BASE.EXT, without the dot when the extension is empty. */
  function ShortName(name11: seq<byte>): (r: seq<byte>)
    requires |name11| == 11
    ensures |r| <= 12
  {
    var ext := Before(name11[8..], SPACE);
    Unescape(Before(name11[..8], SPACE)) + (if name11[8] == SPACE then [] else [DOT] + ext)
  }

  /** format_short_name: writes into `out` and returns the length. */
  method FormatShortName(e: seq<byte>, out: array<byte>) returns (n: nat)
    requires |e| >= 11 && out.Length >= 13
    modifies out
    ensures n <= 12 && out[..n] == ShortName(e[..11])
  {
    n := FormatBase(e, out);
    assert e[..11][..8] == e[..8] && e[..11][8..] == e[8..11];
    if e[8] != SPACE {
      n := FormatExtension(e, out, n);
    }
  }

  method FormatBase(e: seq<byte>, out: array<byte>) returns (n: nat)
    requires |e| >= 11 && out.Length >= 13
    modifies out
    ensures n <= 8 && out[..n] == Unescape(Before(e[..8], SPACE))
  {
    n := 0;
    while n < 8 && e[n] != SPACE
      invariant 0 <= n <= 8
      invariant SPACE !in e[..n]
      invariant out[..n] == Unescape(e[..n])
    {
      assert e[..n + 1] == e[..n] + [e[n]];
      out[n] := if n == 0 && e[n] == 0x05 then 0xE5 else e[n];
      n := n + 1;
    }
    assert e[..8][..n] == e[..n];
    BeforeIs(e[..8], SPACE, n);
  }

  method FormatExtension(e: seq<byte>, out: array<byte>, base: nat) returns (n: nat)
    requires |e| >= 11 && out.Length >= 13 && base <= 8
    modifies out
    ensures n <= base + 4 && out[..n] == old(out[..base]) + [DOT] + Before(e[8..11], SPACE)
  {
    n := base;
    out[n] := DOT;
    n := n + 1;
    var i := 8;
    while i < 11 && e[i] != SPACE
      invariant 8 <= i <= 11 && n == base + 1 + i - 8
      invariant SPACE !in e[8..i]
      invariant out[..n] == old(out[..base]) + [DOT] + e[8..i]
    {
      assert e[8..i + 1] == e[8..i] + [e[i]];
      out[n] := e[i];
      n := n + 1;
      i := i + 1;
    }
    assert e[8..11][..i - 8] == e[8..i];
    BeforeIs(e[8..11], SPACE, i - 8);
  }

  lemma {:induction false} BeforeIs(s: seq<byte>, stop: byte, i: nat)
    requires i <= |s| && stop !in s[..i] && (i < |s| ==> s[i] == stop)
    ensures Before(s, stop) == s[..i]
  {
    if i > 0 {
      assert s[0] == s[..i][0];
      assert s[1..][..i - 1] == s[..i][1..];
      BeforeIs(s[1..], stop, i - 1);
    }
  }

  // ---------------------------------------------------------------- the 8.3 form

  function Padded(s: seq<byte>, n: nat): (r: seq<byte>)
    requires |s| <= n
    ensures |r| == n
  {
    s + seq(n - |s|, _ => SPACE)
  }

  /** How a base and an extension are stored: padded with spaces, a leading 0xE5 as 0x05. */
  function Stored(base: seq<byte>, ext: seq<byte>): (r: seq<byte>)
    requires 1 <= |base| <= 8 && |ext| <= 3
    ensures |r| == 11
  {
    Padded(if base[0] == 0xE5 then base[0 := 0x05] else base, 8) + Padded(ext, 3)
  }

  lemma PaddedTrims(s: seq<byte>, n: nat)
    requires |s| <= n && SPACE !in s
    ensures Before(Padded(s, n), SPACE) == s
  {
    assert Padded(s, n)[..|s|] == s;
    BeforeIs(Padded(s, n), SPACE, |s|);
  }

  /** A stored short name is shown as base, and dot and extension if there is one. */
  lemma ShortNameRoundTrip(base: seq<byte>, ext: seq<byte>)
    requires 1 <= |base| <= 8 && |ext| <= 3 && SPACE !in base && SPACE !in ext && base[0] != 0x05
    ensures ShortName(Stored(base, ext)) == if ext == [] then base else base + [DOT] + ext
  {
    var name := Stored(base, ext);
    var first := if base[0] == 0xE5 then base[0 := 0x05] else base;
    assert SPACE !in first && Unescape(first) == base;
    assert name[..8] == Padded(first, 8) && name[8..] == Padded(ext, 3) && name[8] == Padded(ext, 3)[0];
    PaddedTrims(first, 8);
    PaddedTrims(ext, 3);
  }
}
