/**
 Paths: Fat32::find resolves a path one component at a time.
 */
module Path {
  import opened Options
  import opened Bytes
  import opened Volume
  import opened LongNames
  import opened Directory
  import opened FileRead

  const SLASH: byte := 0x2F

  // ---------------------------------------------------------------- components

  /** The non-empty stretches between slashes. */
  function Components(path: seq<byte>): seq<seq<byte>>
    decreases |path|
  {
    if path == [] then []
    else if path[0] == SLASH then Components(path[1..])
    else
      var head := Before(path, SLASH);
      [head] + Components(path[|head|..])
  }

  predicate IsComponent(c: seq<byte>) { c != [] && SLASH !in c }

  /** The path that names components `cs` from the root. */
  function Join(cs: seq<seq<byte>>): seq<byte> {
    if cs == [] then [] else [SLASH] + cs[0] + Join(cs[1..])
  }

  lemma HeadOf(c: seq<byte>, rest: seq<byte>)
    requires IsComponent(c) && (rest == [] || rest[0] == SLASH)
    ensures Components(c + rest) == [c] + Components(rest)
  {
    var path := c + rest;
    assert path[..|c|] == c && path[|c|..] == rest;
    assert path[0] == c[0];
    BeforeIs(path, SLASH, |c|);
  }

  /** Splitting undoes joining. */
  lemma {:induction false} ComponentsOfJoin(cs: seq<seq<byte>>)
    requires forall i :: 0 <= i < |cs| ==> IsComponent(cs[i])
    ensures Components(Join(cs)) == cs
  {
    if cs != [] {
      var rest := Join(cs[1..]);
      ComponentsOfJoin(cs[1..]);
      assert Join(cs) == [SLASH] + (cs[0] + rest);
      assert Join(cs)[1..] == cs[0] + rest;
      HeadOf(cs[0], rest);
    }
  }

  lemma NoPath()
    ensures Components([]) == []
  {
  }

  lemma LeadingSlash(path: seq<byte>)
    requires path != [] && path[0] == SLASH
    ensures Components(path) == Components(path[1..])
  {
  }

  /** A slash separates, and nothing else about it matters: each side may be empty, or end or start
      with more slashes. */
  lemma {:induction false} SlashSeparates(a: seq<byte>, b: seq<byte>)
    ensures Components(a + [SLASH] + b) == Components(a) + Components(b)
    decreases |a|
  {
    hide Components;
    var path := a + [SLASH] + b;
    if a == [] {
      assert path[1..] == b;
      LeadingSlash(path);
      NoPath();
    } else if a[0] == SLASH {
      assert path[1..] == a[1..] + [SLASH] + b;
      LeadingSlash(path);
      LeadingSlash(a);
      SlashSeparates(a[1..], b);
    } else {
      var head := Before(a, SLASH);
      var rest := a[|head|..];
      assert path == head + (rest + [SLASH] + b) && a == head + rest;
      HeadOf(head, rest + [SLASH] + b);
      HeadOf(head, rest);
      SlashSeparates(rest, b);
    }
  }

  /** Leading, trailing and repeated slashes make no difference. */
  lemma ExtraSlashes(a: seq<byte>, b: seq<byte>)
    ensures Components([SLASH] + a) == Components(a) == Components(a + [SLASH])
    ensures Components(a + [SLASH, SLASH] + b) == Components(a + [SLASH] + b)
  {
    hide Components;
    SlashSeparates([], a);
    NoPath();
    assert [] + [SLASH] + a == [SLASH] + a;
    SlashSeparates(a, []);
    assert a + [SLASH] + [] == a + [SLASH];
    SlashSeparates(a, b);
    SlashSeparates(a + [SLASH], b);
    assert a + [SLASH] + [SLASH] + b == a + [SLASH, SLASH] + b;
  }

  // ---------------------------------------------------------------- resolving

  function Root(v: Volume): Entry
    requires SafeGeometry(v)
  {
    Entry(v.meta.rootCluster, 0, true)
  }

  /** Cluster 0 in a directory entry stands for the root. */
  function DirCluster(v: Volume, e: Entry): nat {
    if e.firstCluster == 0 then v.meta.rootCluster else e.firstCluster
  }

  function Descend(v: Volume, e: Entry, name: seq<byte>): Option<Entry>
    requires SafeGeometry(v)
  {
    if !e.dir || |name| > MAX_NAME then None else FirstMatch(v, DirCluster(v, e), name)
  }

  /** The components, looked up one after the other from `e`. */
  function Walk(v: Volume, e: Entry, cs: seq<seq<byte>>): Option<Entry>
    requires SafeGeometry(v)
    decreases |cs|
  {
    if cs == [] then Some(e)
    else
      var next := Descend(v, e, cs[0]);
      if next.None? then None else Walk(v, next.value, cs[1..])
  }

  function Resolve(v: Volume, path: seq<byte>): Option<Entry>
    requires SafeGeometry(v)
  {
    Walk(v, Root(v), Components(path))
  }

  /** A path below a path: resolve the first, then walk on from what it named. */
  lemma {:induction false} WalkOn(v: Volume, e: Entry, a: seq<seq<byte>>, b: seq<seq<byte>>)
    requires SafeGeometry(v)
    ensures Walk(v, e, a + b)
            == if Walk(v, e, a).None? then None else Walk(v, Walk(v, e, a).value, b)
    decreases |a|
  {
    hide SafeGeometry; hide Descend;
    if a == [] {
      assert a + b == b;
    } else {
      assert (a + b)[0] == a[0] && (a + b)[1..] == a[1..] + b;
      var next := Descend(v, e, a[0]);
      if next.Some? { WalkOn(v, next.value, a[1..], b); }
    }
  }

  lemma ResolveBelow(v: Volume, a: seq<byte>, b: seq<byte>)
    requires SafeGeometry(v)
    ensures Resolve(v, a + [SLASH] + b)
            == if Resolve(v, a).None? then None else Walk(v, Resolve(v, a).value, Components(b))
  {
    hide SafeGeometry; hide Walk; hide Components;
    SlashSeparates(a, b);
    WalkOn(v, Root(v), Components(a), Components(b));
  }

  /** Walking on from a directory entry with cluster 0 is walking from the root. */
  lemma ZeroIsRoot(v: Volume, e: Entry, cs: seq<seq<byte>>)
    requires SafeGeometry(v) && e.dir && e.firstCluster == 0 && cs != []
    ensures Walk(v, e, cs) == Walk(v, Root(v), cs)
  {
    hide FirstMatch;
    assert Descend(v, e, cs[0]) == Descend(v, Root(v), cs[0]);
  }

  /** The path of no components is the root directory. */
  lemma ResolveRoot(v: Volume)
    requires SafeGeometry(v)
    ensures Resolve(v, []) == Some(Entry(v.meta.rootCluster, 0, true))
    ensures Resolve(v, ['/' as int]) == Some(Entry(v.meta.rootCluster, 0, true))
  {
    hide SafeGeometry;
    NoPath();
    LeadingSlash([SLASH]);
    assert [SLASH][1..] == [];
  }

  /** One component more: it is looked up in the directory named so far, in the root if that has
      cluster 0; a file has no components below it, and none is longer than 255 bytes. */
  lemma ResolveComponent(v: Volume, a: seq<byte>, b: seq<byte>)
    requires SafeGeometry(v) && b != [] && ('/' as int) !in b
    ensures
      var d := Resolve(v, a);
      Resolve(v, a + ['/' as int] + b) ==
        if d.None? || !d.value.dir || |b| > 255 then None
        else FirstMatch(v, if d.value.firstCluster != 0 then d.value.firstCluster else v.meta.rootCluster, b)
  {
    hide SafeGeometry; hide FirstMatch; hide Components;
    ResolveBelow(v, a, b);
    NoPath();
    HeadOf(b, []);
    assert b + [] == b;
    var d := Resolve(v, a);
    if d.Some? { WalkOne(v, d.value, b); }
  }

  lemma WalkOne(v: Volume, e: Entry, b: seq<byte>)
    requires SafeGeometry(v)
    ensures Walk(v, e, [b]) == Descend(v, e, b)
  {
    hide SafeGeometry; hide Descend;
    assert [b][1..] == [];
  }

  // ---------------------------------------------------------------- find

  /** The handle for what a path resolved to; without a volume when it did not. */
  ghost predicate Handles(f: File, fs: Option<Volume>, found: Option<Entry>) {
    match found
    case None => f.fs == None
    case Some(e) =>
      && fs.Some? && f.fs == fs && f.dir == e.dir
      && (e.firstCluster != 0 || !e.dir ==> f.firstCluster == e.firstCluster)
      && (e.firstCluster == 0 && e.dir ==> f.firstCluster == fs.value.meta.rootCluster)
      && f.size == (if e.dir then 0 else e.size)
  }

  method Find(fs: Option<Volume>, path: Option<seq<byte>>) returns (f: File)
    requires fs.Some? ==> SafeGeometry(fs.value)
    ensures fresh(f) && f.Valid()
    ensures Handles(f, fs, if fs.Some? && path.Some? then Resolve(fs.value, path.value) else None)
  {
    hide SafeGeometry; hide Components; hide Walk; hide Descend; hide FirstMatch;
    if fs.None? || path.None? {
      f := new File(None, 0, 0, false);
      return;
    }
    var v, text := fs.value, path.value;
    var cur, p := Root(v), 0;
    assert text[0..] == text;
    while true
      invariant p <= |text| && Resolve(v, text) == Walk(v, cur, Components(text[p..]))
      decreases |text| - p
    {
      p := SkipSlashes(text, p);
      if p == |text| {
        break;
      }
      var end := EndOfComponent(text, p);
      NextComponent(v, cur, text, p, end);
      if !cur.dir || end - p > MAX_NAME {
        f := new File(None, 0, 0, false);
        return;
      }
      var found := Lookup(v, DirCluster(v, cur), text[p..end]);
      if found.None? {
        f := new File(None, 0, 0, false);
        return;
      }
      cur, p := found.value, end;
    }
    NoComponents(v, cur, text);
    f := new File(fs, if cur.dir && cur.firstCluster == 0 then v.meta.rootCluster else cur.firstCluster,
                  if cur.dir then 0 else cur.size, cur.dir);
  }

  method SkipSlashes(text: seq<byte>, from: nat) returns (p: nat)
    requires from <= |text|
    ensures from <= p <= |text| && (p < |text| ==> text[p] != SLASH)
    ensures Components(text[p..]) == Components(text[from..])
  {
    p := from;
    while p < |text| && text[p] == SLASH
      invariant from <= p <= |text| && Components(text[p..]) == Components(text[from..])
    {
      assert text[p..][1..] == text[p + 1..];
      p := p + 1;
    }
  }

  method EndOfComponent(text: seq<byte>, p: nat) returns (end: nat)
    requires p < |text| && text[p] != SLASH
    ensures p < end <= |text| && SLASH !in text[p..end] && (end < |text| ==> text[end] == SLASH)
  {
    end := p;
    while end < |text| && text[end] != SLASH
      invariant p <= end <= |text| && SLASH !in text[p..end]
    {
      end := end + 1;
    }
  }

  lemma NextComponent(v: Volume, cur: Entry, text: seq<byte>, p: nat, end: nat)
    requires SafeGeometry(v)
    requires p < end <= |text| && SLASH !in text[p..end] && (end < |text| ==> text[end] == SLASH)
    ensures var name := text[p..end];
      Walk(v, cur, Components(text[p..]))
      == (if !cur.dir || end - p > MAX_NAME then None
          else
            var next := FirstMatch(v, DirCluster(v, cur), name);
            if next.None? then None else Walk(v, next.value, Components(text[end..])))
  {
    hide SafeGeometry; hide Components; hide FirstMatch;
    assert text[p..] == text[p..end] + text[end..];
    HeadOf(text[p..end], text[end..]);
    var cs := Components(text[p..]);
    assert cs[0] == text[p..end] && cs[1..] == Components(text[end..]);
  }

  lemma NoComponents(v: Volume, cur: Entry, text: seq<byte>)
    requires SafeGeometry(v)
    ensures Walk(v, cur, Components(text[|text|..])) == Some(cur)
  {
  }
}
