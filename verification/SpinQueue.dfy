/**
 The linked FIFO behind the ready queue and every semaphore. `push` allocates its node before
 it takes the lock and `pop` frees its node after it has released it, so the two critical
 sections are separate methods here; `Interleave` runs any interleaving of any clients' calls.
 */
module SpinQueues {

  class Node<T> {
    var value: T
    var next: Node?<T>

    constructor (value: T)
      ensures this.value == value && next == null
    {
      this.value := value;
      next := null;
    }
  }

  ghost function NodeSet<T>(nodes: seq<Node<T>>): set<Node<T>> {
    set n | n in nodes
  }

  lemma Shorter<T>(nodes: seq<Node<T>>, rest: seq<Node<T>>)
    requires nodes != [] && nodes == [nodes[0]] + rest
    ensures NodeSet(nodes) == {nodes[0]} + NodeSet(rest)
  {
  }

  class SpinQueue<T> {
    var head: Node?<T>
    var tail: Node?<T>

    /** The nodes from head to tail, and the nodes that pop has deleted. */
    ghost var spine: seq<Node<T>>
    ghost var freed: set<Node<T>>

    ghost predicate Valid()
      reads this, spine
    {
      && (head == null <==> tail == null)
      && (head == null <==> spine == [])
      && (spine != [] ==> head == spine[0] && tail == spine[|spine| - 1] && spine[|spine| - 1].next == null)
      && (forall i :: 0 <= i < |spine| - 1 ==> spine[i].next == spine[i + 1])
      && (forall i, j :: 0 <= i < j < |spine| ==> spine[i] != spine[j])
      && (forall n :: n in spine ==> n !in freed)
    }

    ghost function Contents(): (q: seq<T>)
      reads this, spine
      ensures |q| == |spine|
    {
      seq(|spine|, i requires 0 <= i < |spine| reads this, spine => spine[i].value)
    }

    constructor ()
      ensures Valid() && Contents() == [] && spine == [] && freed == {}
    {
      head, tail, spine, freed := null, null, [], {};
    }

    /** The critical section of push: append a node nobody else knows. */
    method Link(node: Node<T>)
      requires Valid() && node !in spine && node !in freed && node.next == null
      modifies this, spine`next
      ensures Valid() && spine == old(spine) + [node] && freed == old(freed)
      ensures Contents() == old(Contents()) + [node.value]
    {
      if tail == null {
        head := node;
        tail := node;
      } else {
        tail.next := node;
        tail := node;
      }
      spine := spine + [node];
    }

    /** The critical section of pop: take the first node off the list, if there is one. */
    method Unlink() returns (node: Node?<T>)
      requires Valid()
      modifies this
      ensures Valid() && freed == old(freed)
      ensures node == null <==> old(Contents()) == []
      ensures node == null ==> spine == old(spine)
      ensures node != null ==>
                && old(spine) == [node] + spine && node !in spine
                && old(Contents()) == [node.value] + Contents()
    {
      node := head;
      if node != null {
        assert |spine| > 1 ==> spine[0].next == spine[1];
        head := node.next;
        if head == null {
          tail := null;
        }
        spine := spine[1..];
      }
    }

    /** After the lock is released: copy the value out and delete the node, once. */
    method Consume(node: Node<T>) returns (value: T)
      requires Valid() && node !in spine && node !in freed
      modifies `freed
      ensures Valid() && freed == old(freed) + {node} && value == node.value
    {
      value := node.value;
      freed := freed + {node};
    }

    method Push(value: T)
      requires Valid()
      modifies this, spine`next
      ensures Valid() && Contents() == old(Contents()) + [value]
      ensures freed == old(freed) && fresh(spine[|spine| - 1]) && spine[..|spine| - 1] == old(spine)
    {
      var node := new Node(value);
      Link(node);
    }

    /** `out` keeps its value when the queue is empty. */
    method Pop(out: T) returns (ok: bool, value: T)
      requires Valid()
      modifies this
      ensures Valid() && ok == (old(Contents()) != [])
      ensures !ok ==> Contents() == old(Contents()) && value == out && freed == old(freed) && spine == old(spine)
      ensures ok ==> old(Contents()) == [value] + Contents()
      ensures ok ==> old(spine) == [old(spine)[0]] + spine && freed == old(freed) + {old(spine)[0]}
    {
      var node := Unlink();
      if node == null {
        return false, out;
      }
      value := Consume(node);
      ok := true;
    }

    method Empty() returns (isEmpty: bool)
      requires Valid()
      ensures isEmpty == (Contents() == [])
    {
      isEmpty := head == null;
    }

    /** The destructor: it ends, with the queue empty and exactly the queued nodes deleted. */
    method Drain(scratch: T)
      requires Valid()
      modifies this
      ensures Valid() && Contents() == [] && head == null && tail == null
      ensures freed == old(freed) + NodeSet(old(spine))
    {
      var ok, value := true, scratch;
      while ok
        invariant Valid() && NodeSet(spine) + freed == old(freed) + NodeSet(old(spine))
        invariant !ok ==> spine == []
        decreases |spine|, ok
      {
        ghost var left := spine;
        ok, value := Pop(value);
        if ok { Shorter(left, spine); }
      }
    }
  }

  // ---------------------------------------------------------------- every interleaving

  /** One client's next move: allocate a node for a push, or one of the three parts above. */
  datatype Move<T> =
    | Alloc(client: nat, value: T)
    | LinkIt(client: nat)
    | UnlinkOne(client: nat)
    | ConsumeIt(client: nat)

  /** Where a client is inside push or pop, and with which value or node. */
  datatype Phase<X> = Idle | Pushing(x: X) | Popping(x: X)

  /** The FIFO the queue stands for. `linked` are the values pushed so far, in the order of the
      critical sections; `taken` are the values popped, in that order, each with the client that
      took it; `delivered` are the values that pop has returned, with the client it returned to. */
  datatype Fifo<T> = Fifo(
    queue: seq<T>,
    linked: seq<T>,
    taken: seq<(nat, T)>,
    delivered: seq<(nat, T)>,
    phases: map<nat, Phase<T>>)

  function Start<T>(queue: seq<T>): Fifo<T> { Fifo(queue, [], [], [], map[]) }

  function Values<T>(s: seq<(nat, T)>): seq<T> {
    if s == [] then [] else Values(s[..|s| - 1]) + [s[|s| - 1].1]
  }

  /** The values of one client. */
  function Of<T>(s: seq<(nat, T)>, c: nat): seq<T> {
    if s == [] then []
    else Of(s[..|s| - 1], c) + (if s[|s| - 1].0 == c then [s[|s| - 1].1] else [])
  }

  function PhaseOf<X>(phases: map<nat, Phase<X>>, c: nat): Phase<X> {
    if c in phases then phases[c] else Idle
  }

  /** A move that does not fit the client's phase does nothing. */
  function Play1<T>(f: Fifo<T>, move: Move<T>): Fifo<T> {
    var phase := PhaseOf(f.phases, move.client);
    match move
    case Alloc(c, v) => if phase.Idle? then f.(phases := f.phases[c := Pushing(v)]) else f
    case LinkIt(c) =>
      if phase.Pushing? then
        f.(queue := f.queue + [phase.x], linked := f.linked + [phase.x], phases := f.phases[c := Idle])
      else f
    case UnlinkOne(c) =>
      if phase.Idle? && f.queue != [] then
        f.(queue := f.queue[1..], taken := f.taken + [(c, f.queue[0])],
           phases := f.phases[c := Popping(f.queue[0])])
      else f
    case ConsumeIt(c) =>
      if phase.Popping? then
        f.(delivered := f.delivered + [(c, phase.x)], phases := f.phases[c := Idle])
      else f
  }

  function Play<T>(f: Fifo<T>, moves: seq<Move<T>>): Fifo<T> {
    if moves == [] then f else Play1(Play(f, moves[..|moves| - 1]), moves[|moves| - 1])
  }

  lemma Snoc<T>(s: seq<(nat, T)>, x: (nat, T), c: nat)
    ensures Values(s + [x]) == Values(s) + [x.1]
    ensures Of(s + [x], c) == Of(s, c) + (if x.0 == c then [x.1] else [])
  {
    assert (s + [x])[..|s|] == s;
  }

  /** What went in is what was taken, in order, and then what is left. */
  predicate InOrder<T(==)>(start: seq<T>, f: Fifo<T>) { start + f.linked == Values(f.taken) + f.queue }

  lemma InOrderStep<T>(start: seq<T>, f: Fifo<T>, move: Move<T>)
    requires InOrder(start, f)
    ensures InOrder(start, Play1(f, move))
  {
    hide Values;
    var phase := PhaseOf(f.phases, move.client);
    if move.LinkIt? && phase.Pushing? {
      assert start + (f.linked + [phase.x]) == start + f.linked + [phase.x];
      assert Values(f.taken) + (f.queue + [phase.x]) == Values(f.taken) + f.queue + [phase.x];
    } else if move.UnlinkOne? && phase.Idle? && f.queue != [] {
      Snoc(f.taken, (move.client, f.queue[0]), 0);
      assert Values(f.taken) + [f.queue[0]] + f.queue[1..] == Values(f.taken) + f.queue;
    }
  }

  /** Values are taken in the order in which they went in, none lost and none twice. */
  lemma {:induction false} FirstInFirstOut<T>(start: seq<T>, moves: seq<Move<T>>)
    ensures
      var f := Play(Start(start), moves);
      start + f.linked == Values(f.taken) + f.queue
    decreases |moves|
  {
    if moves != [] {
      hide Play1; hide Values;
      FirstInFirstOut(start, moves[..|moves| - 1]);
      InOrderStep(start, Play(Start(start), moves[..|moves| - 1]), moves[|moves| - 1]);
    }
  }

  /** What a client took, it was given, in that order, but for the value it is about to be given. */
  predicate GetsItsOwn<T(==)>(f: Fifo<T>, c: nat) {
    var phase := PhaseOf(f.phases, c);
    Of(f.taken, c) == Of(f.delivered, c) + (if phase.Popping? then [phase.x] else [])
  }

  lemma GetsItsOwnStep<T>(f: Fifo<T>, move: Move<T>, c: nat)
    requires GetsItsOwn(f, c)
    ensures GetsItsOwn(Play1(f, move), c)
  {
    hide Of;
    var phase := PhaseOf(f.phases, move.client);
    if move.UnlinkOne? && phase.Idle? && f.queue != [] {
      Snoc(f.taken, (move.client, f.queue[0]), c);
    } else if move.ConsumeIt? && phase.Popping? {
      Snoc(f.delivered, (move.client, phase.x), c);
    }
  }

  lemma {:induction false} EachGetsItsOwn<T>(start: seq<T>, moves: seq<Move<T>>, c: nat)
    ensures GetsItsOwn(Play(Start(start), moves), c)
    decreases |moves|
  {
    if moves != [] {
      hide GetsItsOwn; hide Play1;
      EachGetsItsOwn(start, moves[..|moves| - 1], c);
      GetsItsOwnStep(Play(Start(start), moves[..|moves| - 1]), moves[|moves| - 1], c);
    }
  }

  /** The nodes in the clients' local variables. */
  ghost function Nodes<T>(held: map<nat, Phase<Node<T>>>): set<Node<T>> {
    set c | c in held && !held[c].Idle? :: held[c].x
  }

  /** A client's node is its own: not in the list, not deleted, and nobody else's. */
  ghost predicate Private<T>(q: SpinQueue<T>, held: map<nat, Phase<Node<T>>>, c: nat)
    requires c in held
    reads q, Nodes(held)
  {
    !held[c].Idle? ==>
      && held[c].x !in q.spine && held[c].x !in q.freed
      && (held[c].Pushing? ==> held[c].x.next == null)
      && forall d :: d in held && d != c && !held[d].Idle? ==> held[d].x != held[c].x
  }

  /** The same phase, with the node's value for the node. */
  ghost predicate SamePhase<T>(node: Phase<Node<T>>, value: Phase<T>)
    reads if node.Idle? then {} else {node.x}
  {
    match node
    case Idle => value.Idle?
    case Pushing(x) => value.Pushing? && value.x == x.value
    case Popping(x) => value.Popping? && value.x == x.value
  }

  /** The linked list and the clients' local variables stand for the FIFO. */
  ghost predicate Refines<T>(q: SpinQueue<T>, held: map<nat, Phase<Node<T>>>, f: Fifo<T>)
    reads q, q.spine, Nodes(held)
  {
    && q.Valid() && q.Contents() == f.queue
    && (forall c :: c in held ==> Private(q, held, c))
    && held.Keys == f.phases.Keys
    && (forall c :: c in held ==> SamePhase(held[c], f.phases[c]))
  }

  lemma NodesUpdate<T>(q: SpinQueue<T>, held: map<nat, Phase<Node<T>>>, c: nat, p: Phase<Node<T>>)
    requires c in held ==> Private(q, held, c)
    ensures
      var gone := if c in held && !held[c].Idle? then {held[c].x} else {};
      Nodes(held[c := p]) == Nodes(held) - gone + (if p.Idle? then {} else {p.x})
  {
    var held' := held[c := p];
    forall n | n in Nodes(held) && !(c in held && !held[c].Idle? && n == held[c].x)
      ensures n in Nodes(held')
    {
      var d :| d in held && !held[d].Idle? && held[d].x == n;
      assert held'[d] == held[d];
    }
    if !p.Idle? { assert held'[c].x == p.x; }
  }

  /** The list, the clients and the deleted nodes share no node. */
  lemma Apart<T>(q: SpinQueue<T>, held: map<nat, Phase<Node<T>>>, f: Fifo<T>)
    requires Refines(q, held, f)
    ensures NodeSet(q.spine) !! Nodes(held) && NodeSet(q.spine) !! q.freed && Nodes(held) !! q.freed
  {
    forall c | c in held && !held[c].Idle? ensures held[c].x !in q.spine && held[c].x !in q.freed {
      assert Private(q, held, c);
    }
  }

  method DoAlloc<T>(q: SpinQueue<T>, held: map<nat, Phase<Node<T>>>, ghost f: Fifo<T>, c: nat, v: T)
    returns (held': map<nat, Phase<Node<T>>>, ghost made: set<Node<T>>)
    requires Refines(q, held, f)
    ensures Refines(q, held', Play1(f, Alloc(c, v)))
    ensures fresh(made) && Nodes(held') == Nodes(held) + made
  {
    held', made := held, {};
    if PhaseOf(held, c).Idle? {
      var node := new Node(v);
      held', made := held[c := Pushing(node)], {node};
      NodesUpdate(q, held, c, Pushing(node));
    }
  }

  method DoLink<T>(q: SpinQueue<T>, held: map<nat, Phase<Node<T>>>, ghost f: Fifo<T>, c: nat)
    returns (held': map<nat, Phase<Node<T>>>)
    requires Refines(q, held, f)
    modifies q, q.spine`next
    ensures Refines(q, held', Play1(f, LinkIt(c)))
    ensures q.freed == old(q.freed)
    ensures NodeSet(q.spine) + Nodes(held') == old(NodeSet(q.spine)) + Nodes(held)
  {
    held' := held;
    if PhaseOf(held, c).Pushing? {
      assert Private(q, held, c);
      NodesUpdate(q, held, c, Idle);
      q.Link(held[c].x);
      held' := held[c := Idle];
    }
  }

  method DoUnlink<T>(q: SpinQueue<T>, held: map<nat, Phase<Node<T>>>, ghost f: Fifo<T>, c: nat)
    returns (held': map<nat, Phase<Node<T>>>, taken: seq<(nat, T)>)
    requires Refines(q, held, f)
    modifies q
    ensures Refines(q, held', Play1(f, UnlinkOne(c)))
    ensures Play1(f, UnlinkOne(c)).taken == f.taken + taken
    ensures q.freed == old(q.freed)
    ensures NodeSet(q.spine) + Nodes(held') == old(NodeSet(q.spine)) + Nodes(held)
  {
    held', taken := held, [];
    if PhaseOf(held, c).Idle? {
      ghost var before := q.spine;
      var node := q.Unlink();
      if node != null {
        Shorter(before, q.spine);
        NodesUpdate(q, held, c, Popping(node));
        held', taken := held[c := Popping(node)], [(c, node.value)];
      }
    }
  }

  method DoConsume<T>(q: SpinQueue<T>, held: map<nat, Phase<Node<T>>>, ghost f: Fifo<T>, c: nat)
    returns (held': map<nat, Phase<Node<T>>>, delivered: seq<(nat, T)>, ghost gone: seq<Node<T>>)
    requires Refines(q, held, f)
    modifies q`freed
    ensures Refines(q, held', Play1(f, ConsumeIt(c)))
    ensures Play1(f, ConsumeIt(c)).delivered == f.delivered + delivered
    ensures |gone| == |delivered| <= 1 && q.freed == old(q.freed) + NodeSet(gone)
    ensures NodeSet(gone) !! old(q.freed) && Nodes(held) == Nodes(held') + NodeSet(gone)
  {
    held', delivered, gone := held, [], [];
    if PhaseOf(held, c).Popping? {
      assert Private(q, held, c);
      NodesUpdate(q, held, c, Idle);
      gone := [held[c].x];
      assert NodeSet(gone) == {held[c].x};
      var value := q.Consume(held[c].x);
      held', delivered := held[c := Idle], [(c, value)];
    }
  }

  /** One move of one client. */
  method Do<T>(q: SpinQueue<T>, held: map<nat, Phase<Node<T>>>, ghost f: Fifo<T>, move: Move<T>)
    returns (held': map<nat, Phase<Node<T>>>, taken: seq<(nat, T)>, delivered: seq<(nat, T)>,
             ghost made: set<Node<T>>, ghost gone: seq<Node<T>>)
    requires Refines(q, held, f)
    modifies q, q.spine`next
    ensures Refines(q, held', Play1(f, move)) && fresh(made)
    ensures Play1(f, move).taken == f.taken + taken && Play1(f, move).delivered == f.delivered + delivered
    ensures |gone| == |delivered| <= 1 && q.freed == old(q.freed) + NodeSet(gone) && NodeSet(gone) !! old(q.freed)
    ensures NodeSet(q.spine) + Nodes(held') + NodeSet(gone) == old(NodeSet(q.spine)) + Nodes(held) + made
  {
    hide Refines; hide Nodes; hide NodeSet; hide q.Valid; hide q.Contents;
    held', taken, delivered, made, gone := held, [], [], {}, [];
    NoNodes<T>();
    match move
    case Alloc(c, v) => held', made := DoAlloc(q, held, f, c, v);
    case LinkIt(c) => held' := DoLink(q, held, f, c);
    case UnlinkOne(c) => held', taken := DoUnlink(q, held, f, c);
    case ConsumeIt(c) => held', delivered, gone := DoConsume(q, held, f, c);
  }

  lemma NoNodes<T>()
    ensures NodeSet<T>([]) == {} && Nodes<T>(map[]) == {}
  {
  }

  predicate NoneTwice<X(==)>(s: seq<X>) { forall i, j :: 0 <= i < j < |s| ==> s[i] != s[j] }

  lemma Longer<T>(s: seq<Node<T>>, more: seq<Node<T>>)
    requires NoneTwice(s) && |more| <= 1 && NodeSet(more) !! NodeSet(s)
    ensures NoneTwice(s + more) && NodeSet(s + more) == NodeSet(s) + NodeSet(more)
  {
    assert forall i :: 0 <= i < |s| ==> s[i] in NodeSet(s);
    assert forall i :: 0 <= i < |more| ==> more[i] in NodeSet(more);
  }

  lemma PlayNext<T>(f: Fifo<T>, moves: seq<Move<T>>, i: nat)
    requires i < |moves|
    ensures Play(f, moves[..i + 1]) == Play1(Play(f, moves[..i]), moves[i])
    ensures moves[..|moves|] == moves
  {
    assert moves[..i + 1][..i] == moves[..i];
  }

  /** However the clients' allocations, critical sections and deletions interleave, the linked list
      stays valid and holds what the FIFO holds, and the clients take and are given the values the
      FIFO says. Every node that was in the list or was made since is in the list, in the hands of
      one client, or deleted, and in only one of these; none is deleted twice, and the deleted ones
      are as many as the values given. */
  method Interleave<T>(q: SpinQueue<T>, moves: seq<Move<T>>)
    returns (held: map<nat, Phase<Node<T>>>, taken: seq<(nat, T)>, delivered: seq<(nat, T)>,
             ghost made: set<Node<T>>, ghost gone: seq<Node<T>>)
    requires q.Valid()
    modifies q, q.spine`next
    ensures q.Valid() && q.Contents() == Play(Start(old(q.Contents())), moves).queue
    ensures taken == Play(Start(old(q.Contents())), moves).taken
    ensures delivered == Play(Start(old(q.Contents())), moves).delivered
    ensures Refines(q, held, Play(Start(old(q.Contents())), moves))
    ensures fresh(made) && NodeSet(q.spine) + Nodes(held) + NodeSet(gone) == old(NodeSet(q.spine)) + made
    ensures NodeSet(q.spine) !! Nodes(held) && NodeSet(q.spine) !! NodeSet(gone) && Nodes(held) !! NodeSet(gone)
    ensures q.freed == old(q.freed) + NodeSet(gone) && NodeSet(gone) !! old(q.freed)
    ensures |gone| == |delivered| && NoneTwice(gone)
  {
    hide Refines; hide Nodes; hide NodeSet; hide q.Valid; hide q.Contents; hide Play1; hide NoneTwice; hide Play;
    held, taken, delivered, made, gone := map[], [], [], {}, [];
    ghost var start := Start(q.Contents());
    ghost var f := start;
    RefinesStart(q);
    NoNodes<T>();
    NothingYet(start);
    for i := 0 to |moves|
      invariant f == Play(start, moves[..i]) && Refines(q, held, f)
      invariant taken == f.taken && delivered == f.delivered
      invariant fresh(made) && NodeSet(q.spine) + Nodes(held) + NodeSet(gone) == old(NodeSet(q.spine)) + made
      invariant q.freed == old(q.freed) + NodeSet(gone) && NodeSet(gone) !! old(q.freed)
      invariant |gone| == |delivered| && NoneTwice(gone)
    {
      SpineIn(q.spine, old(q.spine), made);
      PlayNext(start, moves, i);
      ghost var more, ended;
      var out, given;
      held, out, given, more, ended := Do(q, held, f, moves[i]);
      Longer(gone, ended);
      f := Play1(f, moves[i]);
      taken, delivered, made, gone := taken + out, delivered + given, made + more, gone + ended;
    }
    assert moves[..|moves|] == moves;
    Apart(q, held, f);
    RefinesIs(q, held, f);
  }

  lemma NothingYet<T>(start: Fifo<T>)
    ensures Play(start, []) == start && NoneTwice<Node<T>>([])
  {
  }

  lemma RefinesStart<T>(q: SpinQueue<T>)
    requires q.Valid()
    ensures Refines(q, map[], Start(q.Contents()))
  {
  }

  lemma RefinesIs<T>(q: SpinQueue<T>, held: map<nat, Phase<Node<T>>>, f: Fifo<T>)
    requires Refines(q, held, f)
    ensures q.Valid() && q.Contents() == f.queue
  {
  }

  lemma SpineIn<T>(spine: seq<Node<T>>, before: seq<Node<T>>, made: set<Node<T>>)
    requires NodeSet(spine) <= NodeSet(before) + made
    ensures forall k :: 0 <= k < |spine| ==> spine[k] in before || spine[k] in made
  {
    forall k | 0 <= k < |spine| ensures spine[k] in before || spine[k] in made {
      assert spine[k] in NodeSet(spine);
    }
  }
}
