/**
 * The import-cycle scan: Tarjan's algorithm over the module graph, with an explicit stack, an
 * on-stack flag, and index and lowlink maps updated in place.
 */
module ImportCycles {
  import opened Graphs

  // --- the scan's state as a value ---------------------------------------------------------

  /** The six module-level variables that `connect` mutates. */
  datatype Scan = Scan(
    counter: nat,
    stack: seq<Node>,
    low: map<Node, nat>,
    idx: map<Node, nat>,
    on: map<Node, bool>,
    sccs: seq<seq<Node>>)
  {
    /** Visited and off the stack: their components are settled. */
    function Done(): set<Node> {
      idx.Keys - Elements(stack)
    }
  }

  function Elements(s: seq<Node>): set<Node> {
    set v <- s
  }

  /** The nodes above position `k` of the stack. */
  function Above(stack: seq<Node>, k: nat): set<Node> {
    if k < |stack| then Elements(stack[k + 1..]) else {}
  }

  // --- the invariant -----------------------------------------------------------------------

  /** Bookkeeping: indices below the counter, the stack in index order, flags that tell the truth. */
  predicate Shape(s: Scan) {
    && s.low.Keys == s.idx.Keys && s.on.Keys == s.idx.Keys
    && (forall v <- s.idx :: s.idx[v] < s.counter)
    && (forall v <- s.stack :: v in s.idx)
    && (forall i, j :: 0 <= i < j < |s.stack| ==> s.idx[s.stack[i]] < s.idx[s.stack[j]])
    && (forall v <- s.idx :: s.on[v] <==> v in s.stack)
  }

  /** Settled nodes lead only to settled nodes; finished ones only to visited ones. */
  predicate Explored(g: Graph, done: set<Node>, visited: set<Node>, gray: set<Node>) {
    && Closed(g, done)
    && forall v <- visited - gray :: Succ(g, v) <= visited
  }

  /** `x` was visited no later than `y`. */
  predicate NoLater(idx: map<Node, nat>, x: Node, y: Node) {
    x in idx && y in idx && idx[x] <= idx[y]
  }

  /** `y` leads back to some unfinished node visited no later than itself. */
  ghost predicate Anchored(g: Graph, idx: map<Node, nat>, gray: set<Node>, y: Node) {
    exists x :: x in gray && NoLater(idx, x, y) && Reach(g, y, x)
  }

  /** An unfinished node reaches everything above it; everything reaches an unfinished one below. */
  ghost predicate Linked(g: Graph, stack: set<Node>, idx: map<Node, nat>, gray: set<Node>) {
    && gray <= stack
    && (forall x, y {:trigger NoLater(idx, x, y)} ::
          x in gray && y in stack && NoLater(idx, x, y) ==> Reach(g, x, y))
    && (forall y {:trigger Anchored(g, idx, gray, y)} :: y in stack ==> Anchored(g, idx, gray, y))
  }

  /** A report is a whole component of several settled nodes, listed once. */
  ghost predicate GoodReport(g: Graph, done: set<Node>, scc: seq<Node>) {
    && |scc| > 1
    && (forall i, j :: 0 <= i < j < |scc| ==> scc[i] != scc[j])
    && IsComponent(g, Elements(scc))
    && Elements(scc) <= done
  }

  predicate Disjoint(sccs: seq<seq<Node>>) {
    forall i, j, v :: 0 <= i < j < |sccs| && v in sccs[i] ==> v !in sccs[j]
  }

  ghost predicate CoveredBy(sccs: seq<seq<Node>>, v: Node) {
    exists scc :: scc in sccs && v in scc
  }

  /** The reports are good, pairwise disjoint, and complete for the settled nodes. */
  ghost predicate Reported(g: Graph, done: set<Node>, sccs: seq<seq<Node>>) {
    && (forall scc <- sccs :: GoodReport(g, done, scc))
    && Disjoint(sccs)
    && (forall v, w :: v in done && Mutual(g, v, w) ==> w in done)
    && (forall v, w :: v in done && Mutual(g, v, w) && v != w ==> CoveredBy(sccs, v))
  }

  ghost predicate Inv(g: Graph, s: Scan, gray: set<Node>) {
    && Shape(s)
    && Explored(g, s.Done(), s.idx.Keys, gray)
    && Linked(g, Elements(s.stack), s.idx, gray)
    && Reported(g, s.Done(), s.sccs)
  }

  /** Earlier visits are remembered as they were. */
  predicate Extends(s: Scan, t: Scan) {
    && s.counter <= t.counter
    && s.idx.Keys <= t.idx.Keys && s.low.Keys <= t.low.Keys
    && (forall v <- s.idx :: t.idx[v] == s.idx[v])
    && (forall v <- t.idx :: v in s.idx || t.idx[v] >= s.counter)
    && (forall v <- s.low :: t.low[v] == s.low[v])
    && s.stack <= t.stack && s.sccs <= t.sccs
  }

  /** `n` is the index of some node of `pool` that `v` reaches. */
  ghost predicate IndexOfReached(g: Graph, idx: map<Node, nat>, pool: set<Node>, v: Node, n: nat) {
    exists y :: y in pool && y in idx && idx[y] == n && Reach(g, v, y)
  }

  /** Every edge from `sources` back into the old stack ends at an index of at least `n`. */
  predicate NoEdgeBelow(g: Graph, sources: set<Node>, s: Scan, n: nat) {
    forall x, y :: x in sources && y in s.stack && y in s.idx && y in Succ(g, x) ==> n <= s.idx[y]
  }

  /** How the scan has moved on once the visit of `v` is finished. */
  ghost predicate Left(g: Graph, s: Scan, t: Scan, v: Node) {
    && Extends(s, t)
    && v in t.idx && t.idx[v] == s.counter && v in t.low
    && (if v in t.stack
        then t.low[v] < t.idx[v] && IndexOfReached(g, s.idx, Elements(s.stack), v, t.low[v])
        else t.stack == s.stack && t.low[v] == t.idx[v])
    && NoEdgeBelow(g, Elements(t.stack[|s.stack|..]), s, t.low[v])
  }

  /** What finishing the visit of `v` gives its caller. */
  ghost predicate Finished(g: Graph, s: Scan, t: Scan, v: Node, gray: set<Node>) {
    Inv(g, t, gray) && Left(g, s, t, v)
  }

  /** `v` has been pushed since `s` and is still being visited. */
  predicate Entered(s: Scan, t: Scan, v: Node) {
    && v !in s.idx && Extends(s, t)
    && v in t.idx && t.idx[v] == s.counter && v in t.low && t.low[v] <= t.idx[v]
    && s.stack + [v] <= t.stack
  }

  /** The lowlink of `v` accounts for the successors in `seen` and for everything above `v`. */
  ghost predicate LowSound(g: Graph, s: Scan, t: Scan, v: Node, seen: set<Node>)
    requires v in t.low
  {
    && IndexOfReached(g, t.idx, Elements(s.stack) + {v}, v, t.low[v])
    && seen <= t.idx.Keys
    && (forall w :: w in seen && w in s.stack && w in s.idx ==> t.low[v] <= s.idx[w])
    && NoEdgeBelow(g, Above(t.stack, |s.stack|), s, t.low[v])
  }

  /** The invariant of the successor loop: `seen` are the successors already dealt with. */
  ghost predicate Visiting(g: Graph, s: Scan, t: Scan, v: Node, gray: set<Node>, seen: set<Node>) {
    Inv(g, t, gray + {v}) && gray <= Elements(s.stack) && Entered(s, t, v) && LowSound(g, s, t, v, seen)
  }

  function Push(s: Scan, v: Node): Scan {
    Scan(s.counter + 1, s.stack + [v], s.low[v := s.counter], s.idx[v := s.counter], s.on[v := true], s.sccs)
  }

  function Lower(s: Scan, v: Node, n: nat): Scan
    requires v in s.low
  {
    s.(low := s.low[v := if n < s.low[v] then n else s.low[v]])
  }

  // --- starting a visit --------------------------------------------------------------------

  lemma PushAnchors(g: Graph, s: Scan, v: Node, gray: set<Node>, y: Node)
    requires v !in s.idx && Linked(g, Elements(s.stack), s.idx, gray) && y in Elements(s.stack) + {v}
    ensures Anchored(g, s.idx[v := s.counter], gray + {v}, y)
  {
    var idx := s.idx[v := s.counter];
    if y == v {
      ReachSelf(g, v);
      assert NoLater(idx, v, v);
    } else {
      assert Anchored(g, s.idx, gray, y);
      var x :| x in gray && NoLater(s.idx, x, y) && Reach(g, y, x);
      assert NoLater(idx, x, y);
    }
  }

  lemma PushReaches(g: Graph, s: Scan, v: Node, gray: set<Node>, x: Node, y: Node)
    requires Shape(s) && v !in s.idx && Linked(g, Elements(s.stack), s.idx, gray) && (x in gray ==> Reach(g, x, v))
    requires x in gray + {v} && y in Elements(s.stack) + {v} && NoLater(s.idx[v := s.counter], x, y)
    ensures Reach(g, x, y)
  {
    if x == v {
      assert y == v;
      ReachSelf(g, v);
    } else if y != v {
      assert NoLater(s.idx, x, y);
    }
  }

  lemma PushLinks(g: Graph, s: Scan, v: Node, gray: set<Node>)
    requires Shape(s) && v !in s.idx && Linked(g, Elements(s.stack), s.idx, gray)
    requires forall x <- gray :: Reach(g, x, v)
    ensures Linked(g, Elements(s.stack + [v]), s.idx[v := s.counter], gray + {v})
  {
    var idx, stack := s.idx[v := s.counter], Elements(s.stack) + {v};
    assert Elements(s.stack + [v]) == stack;
    forall y | y in stack
      ensures Anchored(g, idx, gray + {v}, y)
    {
      PushAnchors(g, s, v, gray, y);
    }
    forall x, y | x in gray + {v} && y in stack && NoLater(idx, x, y)
      ensures Reach(g, x, y)
    {
      PushReaches(g, s, v, gray, x, y);
    }
  }

  lemma PushShapes(s: Scan, v: Node)
    requires Shape(s) && v !in s.idx
    ensures Shape(Push(s, v)) && Extends(s, Push(s, v)) && Push(s, v).Done() == s.Done()
  {
  }

  lemma PushStarts(g: Graph, s: Scan, v: Node, gray: set<Node>)
    requires Inv(g, s, gray) && v !in s.idx
    requires forall x <- gray :: Reach(g, x, v)
    ensures Visiting(g, s, Push(s, v), v, gray, {})
  {
    var t := Push(s, v);
    PushShapes(s, v);
    PushLinks(g, s, v, gray);
    ReachSelf(g, v);
    assert IndexOfReached(g, t.idx, Elements(s.stack) + {v}, v, t.low[v]);
  }

  // --- the successor loop ------------------------------------------------------------------

  lemma LowerKeeps(g: Graph, s: Scan, v: Node, n: nat, gray: set<Node>)
    requires Inv(g, s, gray) && v in s.low
    ensures Inv(g, Lower(s, v, n), gray)
  {
  }

  lemma ExtendsJoin(s: Scan, t: Scan, u: Scan)
    requires Extends(s, t) && Extends(t, u)
    ensures Extends(s, u)
  {
  }

  lemma LowerExtends(s: Scan, t: Scan, v: Node, n: nat)
    requires Shape(s) && Extends(s, t) && v !in s.idx && v in t.low
    ensures Extends(s, Lower(t, v, n))
  {
  }

  /** A node on the stack with a smaller index than `v` is below `v`. */
  lemma SmallerIsBelow(s: Scan, t: Scan, v: Node, y: Node)
    requires Shape(t) && s.stack + [v] <= t.stack && y in t.stack && v in t.idx && t.idx[y] < t.idx[v]
    ensures y in s.stack
  {
    var k := |s.stack|;
    assert t.stack[k] == v;
    var i :| 0 <= i < |t.stack| && t.stack[i] == y;
    assert i < k;
    assert s.stack[i] == t.stack[i];
  }

  /** After the call on an unvisited successor, the lowlink names a node at or below `v`. */
  lemma LowAfterTree(g: Graph, s: Scan, t: Scan, u: Scan, v: Node, w: Node)
    requires Shape(t) && Entered(s, t, v) && w in Succ(g, v) && w !in t.idx && Left(g, t, u, w)
    requires IndexOfReached(g, t.idx, Elements(s.stack) + {v}, v, t.low[v])
    ensures v in u.low && u.low[v] == t.low[v]
    ensures IndexOfReached(g, u.idx, Elements(s.stack) + {v}, v, Lower(u, v, u.low[w]).low[v])
  {
    var pool := Elements(s.stack) + {v};
    if u.low[w] < t.low[v] {
      assert w in u.stack;
      var y :| y in Elements(t.stack) && y in t.idx && t.idx[y] == u.low[w] && Reach(g, w, y);
      SmallerIsBelow(s, t, v, y);
      ReachEdge(g, v, w);
      ReachJoin(g, v, w, y);
    } else {
      var y :| y in pool && y in t.idx && t.idx[y] == t.low[v] && Reach(g, v, y);
      assert y in u.idx;
    }
  }

  lemma EdgesAfterTree(g: Graph, s: Scan, t: Scan, u: Scan, v: Node, w: Node, n: nat)
    requires Shape(s) && Extends(s, t) && Extends(t, u) && v in t.low && w in u.low
    requires s.stack + [v] <= t.stack
    requires NoEdgeBelow(g, Above(t.stack, |s.stack|), s, t.low[v])
    requires NoEdgeBelow(g, Elements(u.stack[|t.stack|..]), t, u.low[w])
    requires n <= t.low[v] && n <= u.low[w]
    ensures NoEdgeBelow(g, Above(u.stack, |s.stack|), s, n)
  {
    var k := |s.stack| + 1;
    assert u.stack[k..] == t.stack[k..] + u.stack[|t.stack|..];
    forall x, y | x in Above(u.stack, |s.stack|) && y in s.stack && y in s.idx && y in Succ(g, x)
      ensures n <= s.idx[y]
    {
      if x in Elements(t.stack[k..]) {
      } else {
        assert x in Elements(u.stack[|t.stack|..]);
        assert y in t.stack && t.idx[y] == s.idx[y];
      }
    }
  }

  lemma EnteredStays(s: Scan, t: Scan, u: Scan, v: Node, n: nat)
    requires Shape(s) && Entered(s, t, v) && Extends(t, u)
    ensures Entered(s, Lower(u, v, n), v)
  {
    ExtendsJoin(s, t, u);
    LowerExtends(s, u, v, n);
  }

  lemma SoundAfterTree(g: Graph, s: Scan, t: Scan, u: Scan, v: Node, w: Node, seen: set<Node>)
    requires Shape(s) && Shape(t) && Entered(s, t, v) && LowSound(g, s, t, v, seen)
    requires w in Succ(g, v) && w !in t.idx && Left(g, t, u, w)
    ensures v in u.low && LowSound(g, s, Lower(u, v, u.low[w]), v, seen + {w})
  {
    LowAfterTree(g, s, t, u, v, w);
    EdgesAfterTree(g, s, t, u, v, w, Lower(u, v, u.low[w]).low[v]);
    assert w !in s.idx;
  }

  lemma TreeSuccessor(g: Graph, s: Scan, t: Scan, u: Scan, v: Node, w: Node, gray: set<Node>, seen: set<Node>)
    requires Shape(s) && Visiting(g, s, t, v, gray, seen) && w in Succ(g, v) && w !in t.idx
    requires Finished(g, t, u, w, gray + {v})
    ensures v in u.low && Visiting(g, s, Lower(u, v, u.low[w]), v, gray, seen + {w})
  {
    SoundAfterTree(g, s, t, u, v, w, seen);
    EnteredStays(s, t, u, v, u.low[w]);
    LowerKeeps(g, u, v, u.low[w], gray + {v});
  }

  lemma StackedSuccessor(g: Graph, s: Scan, t: Scan, v: Node, w: Node, gray: set<Node>, seen: set<Node>)
    requires Shape(s) && Visiting(g, s, t, v, gray, seen) && w in Succ(g, v) && w in t.stack
    ensures w in t.idx && Visiting(g, s, Lower(t, v, t.idx[w]), v, gray, seen + {w})
  {
    LowerKeeps(g, t, v, t.idx[w], gray + {v});
    LowerExtends(s, t, v, t.idx[w]);
    SoundAfterStacked(g, s, t, v, w, seen);
  }

  lemma LowAfterStacked(g: Graph, s: Scan, t: Scan, v: Node, w: Node)
    requires Shape(t) && Entered(s, t, v) && w in Succ(g, v) && w in t.stack
    requires IndexOfReached(g, t.idx, Elements(s.stack) + {v}, v, t.low[v])
    ensures w in t.idx && IndexOfReached(g, t.idx, Elements(s.stack) + {v}, v, Lower(t, v, t.idx[w]).low[v])
  {
    if t.idx[w] < t.low[v] {
      SmallerIsBelow(s, t, v, w);
      ReachEdge(g, v, w);
      assert w in Elements(s.stack) + {v};
    }
  }

  lemma SoundAfterStacked(g: Graph, s: Scan, t: Scan, v: Node, w: Node, seen: set<Node>)
    requires Shape(s) && Shape(t) && Entered(s, t, v) && LowSound(g, s, t, v, seen) && w in Succ(g, v) && w in t.stack
    ensures w in t.idx && LowSound(g, s, Lower(t, v, t.idx[w]), v, seen + {w})
  {
    LowAfterStacked(g, s, t, v, w);
  }

  lemma SettledSuccessor(g: Graph, s: Scan, t: Scan, v: Node, w: Node, gray: set<Node>, seen: set<Node>)
    requires Visiting(g, s, t, v, gray, seen) && w in t.idx && w !in t.stack
    ensures Visiting(g, s, t, v, gray, seen + {w})
  {
  }

  // --- finishing a visit -------------------------------------------------------------------

  function Reversed(s: seq<Node>): seq<Node> {
    seq(|s|, i requires 0 <= i < |s| => s[|s| - 1 - i])
  }

  /** The on-stack flags once everything from position `k` up is off the stack. */
  function FlagsBelow(t: Scan, k: nat): map<Node, bool>
    requires k <= |t.stack|
  {
    map w | w in t.on :: t.on[w] && w !in t.stack[k..]
  }

  /** The state after the pop loop took everything from position `k` up. */
  function PopAll(t: Scan, k: nat): Scan
    requires k <= |t.stack|
  {
    var scc := Reversed(t.stack[k..]);
    t.(stack := t.stack[..k],
       on := FlagsBelow(t, k),
       sccs := if |scc| > 1 then t.sccs + [scc] else t.sccs)
  }

  /** The pop loop has taken everything from position `n` up. */
  predicate Popping(t: Scan, n: nat, stack: seq<Node>, scc: seq<Node>, on: map<Node, bool>) {
    && n <= |t.stack| && stack == t.stack[..n]
    && scc == Reversed(t.stack[n..]) && on == FlagsBelow(t, n)
  }

  lemma PopStarts(t: Scan)
    ensures Popping(t, |t.stack|, t.stack, [], t.on)
  {
    assert t.stack[..|t.stack|] == t.stack;
  }

  /** One turn of the pop loop. */
  lemma PopTurn(t: Scan, top: nat, stack: seq<Node>, scc: seq<Node>, on: map<Node, bool>)
    requires top < |t.stack| && t.stack[top] in t.on && Popping(t, top + 1, stack, scc, on)
    ensures stack[top] == t.stack[top]
    ensures Popping(t, top, stack[..top], scc + [stack[top]], on[stack[top] := false])
  {
    assert t.stack[top..] == [t.stack[top]] + t.stack[top + 1..];
  }

  /** The stack from position `k` up. */
  function Segment(stack: seq<Node>, k: nat): set<Node> {
    if k <= |stack| then Elements(stack[k..]) else {}
  }

  /** Every node of the stack has an index, and they grow from bottom to top. */
  predicate Ordered(stack: seq<Node>, idx: map<Node, nat>) {
    && (forall v <- stack :: v in idx)
    && (forall i, j :: 0 <= i < j < |stack| ==> idx[stack[i]] < idx[stack[j]])
  }

  lemma StackSplits(stack: seq<Node>, k: nat, idx: map<Node, nat>)
    requires Ordered(stack, idx) && k < |stack|
    ensures Elements(stack) == Elements(stack[..k]) + Segment(stack, k)
    ensures Elements(stack[..k]) !! Segment(stack, k)
    ensures Segment(stack, k) == Above(stack, k) + {stack[k]}
    ensures forall y <- Segment(stack, k) :: NoLater(idx, stack[k], y)
  {
    assert stack == stack[..k] + stack[k..];
    assert stack[k..] == [stack[k]] + stack[k + 1..];
    forall y | y in Segment(stack, k)
      ensures y !in stack[..k] && NoLater(idx, stack[k], y)
    {
      var j :| k <= j < |stack| && stack[j] == y;
    }
  }

  lemma EnteredSplits(s: Scan, t: Scan, v: Node)
    requires Shape(t) && Entered(s, t, v)
    ensures var k := |s.stack|;
      && k < |t.stack| && t.stack[k] == v && t.stack[..k] == s.stack && Ordered(t.stack, t.idx)
  {
    assert (s.stack + [v])[|s.stack|] == v;
  }

  /** With the lowlink still at its own index, no edge leaves the segment for the older stack. */
  lemma SegmentEdgeStays(g: Graph, s: Scan, t: Scan, v: Node, x: Node, y: Node)
    requires Entered(s, t, v) && LowSound(g, s, t, v, Succ(g, v)) && t.low[v] == t.idx[v]
    requires (x == v || x in Above(t.stack, |s.stack|)) && y in Succ(g, x) && y in s.idx && s.idx[y] < s.counter
    ensures y !in s.stack
  {
  }

  lemma SegmentIsClosed(g: Graph, s: Scan, t: Scan, v: Node, gray: set<Node>)
    requires Shape(s) && Visiting(g, s, t, v, gray, Succ(g, v)) && t.low[v] == t.idx[v]
    ensures Closed(g, t.Done() + Segment(t.stack, |s.stack|))
  {
    var segment := Segment(t.stack, |s.stack|);
    EnteredSplits(s, t, v);
    StackSplits(t.stack, |s.stack|, t.idx);
    forall x, y | x in segment && y in Succ(g, x)
      ensures y in t.Done() + segment
    {
      assert y in t.idx by {
        assert x == v || x in t.idx.Keys - (gray + {v});
      }
      if y in s.stack {
        SegmentEdgeStays(g, s, t, v, x, y);
      }
    }
  }

  /** A node of a closed segment leads back to `v`, the only unfinished node in it. */
  lemma LeadsBack(
    g: Graph, stack: set<Node>, idx: map<Node, nat>, gray: set<Node>, inside: set<Node>, v: Node, y: Node)
    requires Linked(g, stack, idx, gray + {v}) && Closed(g, inside) && gray !! inside
    requires y in inside && y in stack && NoLater(idx, v, y)
    ensures Mutual(g, v, y)
  {
    assert Anchored(g, idx, gray + {v}, y);
    var x :| x in gray + {v} && NoLater(idx, x, y) && Reach(g, y, x);
    ReachStaysInside(g, inside, y, x);
  }

  lemma SegmentIsComponent(g: Graph, s: Scan, t: Scan, v: Node, gray: set<Node>)
    requires Shape(s) && Visiting(g, s, t, v, gray, Succ(g, v)) && t.low[v] == t.idx[v]
    ensures IsComponent(g, Segment(t.stack, |s.stack|))
    ensures Closed(g, t.Done() + Segment(t.stack, |s.stack|))
  {
    var segment := Segment(t.stack, |s.stack|);
    SegmentIsClosed(g, s, t, v, gray);
    EnteredSplits(s, t, v);
    StackSplits(t.stack, |s.stack|, t.idx);
    forall y | y in segment
      ensures Mutual(g, v, y)
    {
      LeadsBack(g, Elements(t.stack), t.idx, gray, t.Done() + segment, v, y);
    }
    MutualSetIsComponent(g, t.Done(), segment, v);
  }

  lemma MutualSetIsComponent(g: Graph, done: set<Node>, c: set<Node>, v: Node)
    requires v in c && c !! done && Closed(g, done) && Closed(g, done + c)
    requires forall y <- c :: Mutual(g, v, y)
    ensures IsComponent(g, c)
  {
    forall a, b | a in c && b in c
      ensures Mutual(g, a, b)
    {
      ReachJoin(g, a, v, b);
      ReachJoin(g, b, v, a);
    }
    forall a, b | a in c && Mutual(g, a, b)
      ensures b in c
    {
      ReachStaysInside(g, done + c, a, b);
      if b in done {
        ReachStaysInside(g, done, b, a);
      }
    }
  }

  lemma {:induction false} ReversedElements(s: seq<Node>)
    ensures Elements(Reversed(s)) == Elements(s)
  {
    forall v | v in s
      ensures v in Reversed(s)
    {
      var i :| 0 <= i < |s| && s[i] == v;
      assert Reversed(s)[|s| - 1 - i] == v;
    }
  }

  /** Settling one more component keeps the reports good and complete. */
  lemma ReportsGrow(g: Graph, done: set<Node>, sccs: seq<seq<Node>>, scc: seq<Node>)
    requires Reported(g, done, sccs)
    requires forall i, j :: 0 <= i < j < |scc| ==> scc[i] != scc[j]
    requires IsComponent(g, Elements(scc)) && Elements(scc) !! done
    ensures Reported(g, done + Elements(scc), if |scc| > 1 then sccs + [scc] else sccs)
  {
    var c := Elements(scc);
    var all := if |scc| > 1 then sccs + [scc] else sccs;
    assert Disjoint(all) by {
      forall i, j, v | 0 <= i < j < |all| && v in all[i]
        ensures v !in all[j]
      {
        if j == |sccs| {
          assert GoodReport(g, done, sccs[i]);
          assert v in Elements(sccs[i]);
        }
      }
    }
    forall v, w | v in done + c && Mutual(g, v, w) && v != w
      ensures w in done + c && CoveredBy(all, v)
    {
      if v in c {
        var i :| 0 <= i < |scc| && scc[i] == v;
        var j :| 0 <= j < |scc| && scc[j] == w;
        assert scc in all && v in scc;
      } else {
        assert CoveredBy(sccs, v);
        var r :| r in sccs && v in r;
        assert r in all;
      }
    }
    forall r | r in all
      ensures GoodReport(g, done + c, r)
    {
      if r !in sccs {
        assert r == scc;
      }
    }
  }

  lemma FlagsTellTheRest(t: Scan, k: nat, w: Node)
    requires Shape(t) && k < |t.stack| && w in t.idx
    ensures FlagsBelow(t, k)[w] <==> w in t.stack[..k]
  {
    StackSplits(t.stack, k, t.idx);
    assert w in t.stack <==> w in Elements(t.stack);
  }

  lemma PopShapes(s: Scan, t: Scan, v: Node)
    requires Shape(t) && Entered(s, t, v)
    ensures Shape(PopAll(t, |s.stack|)) && PopAll(t, |s.stack|).stack == s.stack
  {
    EnteredSplits(s, t, v);
    forall w | w in t.idx
      ensures FlagsBelow(t, |s.stack|)[w] <==> w in s.stack
    {
      FlagsTellTheRest(t, |s.stack|, w);
    }
  }

  lemma PopSettlesSegment(s: Scan, t: Scan, v: Node)
    requires Shape(t) && Entered(s, t, v)
    ensures PopAll(t, |s.stack|).Done() == t.Done() + Segment(t.stack, |s.stack|)
  {
    EnteredSplits(s, t, v);
    StackSplits(t.stack, |s.stack|, t.idx);
  }

  lemma PopExtends(s: Scan, t: Scan, v: Node)
    requires Shape(t) && Entered(s, t, v)
    ensures Extends(s, PopAll(t, |s.stack|))
  {
    EnteredSplits(s, t, v);
  }

  lemma PopLinks(g: Graph, s: Scan, t: Scan, v: Node, gray: set<Node>)
    requires Shape(s) && Entered(s, t, v) && gray <= Elements(s.stack)
    requires Linked(g, Elements(t.stack), t.idx, gray + {v}) && Elements(s.stack) <= Elements(t.stack)
    ensures Linked(g, Elements(s.stack), t.idx, gray)
  {
    forall y | y in Elements(s.stack)
      ensures Anchored(g, t.idx, gray, y)
    {
      assert Anchored(g, t.idx, gray + {v}, y);
      var x :| x in gray + {v} && NoLater(t.idx, x, y) && Reach(g, y, x);
      assert t.idx[y] == s.idx[y] < s.counter;
    }
  }

  /** The pop branch: the segment is a component, reported when it has several members. */
  lemma PopFinishes(g: Graph, s: Scan, t: Scan, v: Node, gray: set<Node>)
    requires Shape(s) && Visiting(g, s, t, v, gray, Succ(g, v)) && t.low[v] == t.idx[v]
    ensures Finished(g, s, PopAll(t, |s.stack|), v, gray)
  {
    PopSettles(g, s, t, v, gray);
    PopShapes(s, t, v);
    PopSettlesSegment(s, t, v);
    PopExtends(s, t, v);
    EnteredSplits(s, t, v);
    StackSplits(t.stack, |s.stack|, t.idx);
    PopLinks(g, s, t, v, gray);
  }

  lemma PopSettles(g: Graph, s: Scan, t: Scan, v: Node, gray: set<Node>)
    requires Shape(s) && Visiting(g, s, t, v, gray, Succ(g, v)) && t.low[v] == t.idx[v]
    ensures |s.stack| <= |t.stack|
    ensures Reported(g, t.Done() + Segment(t.stack, |s.stack|), PopAll(t, |s.stack|).sccs)
    ensures Explored(g, t.Done() + Segment(t.stack, |s.stack|), t.idx.Keys, gray)
  {
    SegmentIsComponent(g, s, t, v, gray);
    EnteredSplits(s, t, v);
    SegmentReports(g, t.Done(), t.sccs, t.stack, |s.stack|, t.idx);
  }

  lemma SegmentReports(
    g: Graph, done: set<Node>, sccs: seq<seq<Node>>, stack: seq<Node>, k: nat, idx: map<Node, nat>)
    requires Reported(g, done, sccs) && Ordered(stack, idx) && k < |stack|
    requires IsComponent(g, Segment(stack, k)) && Elements(stack) !! done
    ensures var scc := Reversed(stack[k..]);
      Reported(g, done + Segment(stack, k), if |scc| > 1 then sccs + [scc] else sccs)
  {
    StackSplits(stack, k, idx);
    ReversedElements(stack[k..]);
    ReversedDistinct(stack, k, idx);
    ReportsGrow(g, done, sccs, Reversed(stack[k..]));
  }

  lemma ReversedDistinct(stack: seq<Node>, k: nat, idx: map<Node, nat>)
    requires Ordered(stack, idx) && k <= |stack|
    ensures var scc := Reversed(stack[k..]);
      forall i, j :: 0 <= i < j < |scc| ==> scc[i] != scc[j]
  {
    var scc := Reversed(stack[k..]);
    forall i, j | 0 <= i < j < |scc|
      ensures scc[i] != scc[j]
    {
      assert scc[i] == stack[|stack| - 1 - i] && scc[j] == stack[|stack| - 1 - j];
    }
  }

  /** `v` reaches a node below itself, so whatever it anchored is anchored there. */
  lemma Reanchors(
    g: Graph, stack: set<Node>, idx: map<Node, nat>, gray: set<Node>, v: Node, z: Node)
    requires Linked(g, stack, idx, gray + {v})
    requires z in stack && z in idx && v in idx && idx[z] < idx[v] && Reach(g, v, z)
    ensures Linked(g, stack, idx, gray)
  {
    assert Anchored(g, idx, gray + {v}, z);
    var a :| a in gray + {v} && NoLater(idx, a, z) && Reach(g, z, a);
    ReachJoin(g, v, z, a);
    forall y | y in stack
      ensures Anchored(g, idx, gray, y)
    {
      assert Anchored(g, idx, gray + {v}, y);
      AnchorMoves(g, idx, gray, v, a, y);
    }
  }

  /** What was anchored at `v` is anchored at the older `a` that `v` reaches. */
  lemma AnchorMoves(g: Graph, idx: map<Node, nat>, gray: set<Node>, v: Node, a: Node, y: Node)
    requires Anchored(g, idx, gray + {v}, y) && a in gray && NoLater(idx, a, v) && Reach(g, v, a)
    ensures Anchored(g, idx, gray, y)
  {
    var x :| x in gray + {v} && NoLater(idx, x, y) && Reach(g, y, x);
    if x == v {
      ReachJoin(g, y, v, a);
      assert NoLater(idx, a, y);
    }
  }

  lemma KeepLeft(g: Graph, s: Scan, t: Scan, v: Node)
    requires Shape(s) && Shape(t) && Entered(s, t, v) && LowSound(g, s, t, v, Succ(g, v))
    requires t.low[v] < t.idx[v]
    ensures Left(g, s, t, v)
  {
    EnteredSplits(s, t, v);
    StackSplits(t.stack, |s.stack|, t.idx);
    var z :| z in Elements(s.stack) + {v} && z in t.idx && t.idx[z] == t.low[v] && Reach(g, v, z);
    assert z in s.idx && s.idx[z] == t.low[v];
    assert IndexOfReached(g, s.idx, Elements(s.stack), v, t.low[v]);
  }

  lemma KeepExplored(g: Graph, done: set<Node>, visited: set<Node>, gray: set<Node>, v: Node)
    requires Explored(g, done, visited, gray + {v}) && Succ(g, v) <= visited
    ensures Explored(g, done, visited, gray)
  {
  }

  /** The other branch: `v` stays on the stack, finished, anchored below itself. */
  lemma KeepFinishes(g: Graph, s: Scan, t: Scan, v: Node, gray: set<Node>)
    requires Shape(s) && Visiting(g, s, t, v, gray, Succ(g, v)) && t.low[v] < t.idx[v]
    ensures Finished(g, s, t, v, gray)
  {
    KeepLeft(g, s, t, v);
    EnteredSplits(s, t, v);
    var z :| z in Elements(s.stack) + {v} && z in t.idx && t.idx[z] == t.low[v] && Reach(g, v, z);
    Reanchors(g, Elements(t.stack), t.idx, gray, v, z);
    KeepExplored(g, t.Done(), t.idx.Keys, gray, v);
  }

  // --- the scan ----------------------------------------------------------------------------

  /** Every module and everything a module imports. */
  function Universe(g: Graph): set<Node> {
    g.Keys + set m, n | m in g && n in g[m] :: n
  }

  /** Successors stay inside. */
  ghost predicate LeadsInto(g: Graph, universe: set<Node>) {
    forall v :: Succ(g, v) <= universe
  }

  /** What the edge builder hands over: edges between known modules, none from a module to itself. */
  predicate IsModuleGraph(g: Graph, mods: seq<Node>) {
    && g.Keys == Elements(mods)
    && forall m <- g :: g[m] <= g.Keys && m !in g[m]
  }

  lemma EmptyInv(g: Graph)
    ensures Inv(g, Scan(0, [], map[], map[], map[], []), {})
  {
  }

  /** With no visit in progress, nothing is left on the stack. */
  lemma IdleStackIsEmpty(g: Graph, s: Scan)
    requires Inv(g, s, {})
    ensures s.stack == [] && s.Done() == s.idx.Keys
  {
    assert s.stack != [] ==> Anchored(g, s.idx, {}, s.stack[0]);
  }

  /** What the reports of a complete scan say about the graph. */
  ghost predicate ReportsExactlyTheCycles(g: Graph, sccs: seq<seq<Node>>) {
    && (forall scc <- sccs :: |scc| > 1 && IsComponent(g, Elements(scc))
                             && forall i, j :: 0 <= i < j < |scc| ==> scc[i] != scc[j])
    && Disjoint(sccs)
    && (forall c :: IsComponent(g, c) && |c| > 1 ==> exists scc :: scc in sccs && Elements(scc) == c)
  }

  lemma TwoMembers(c: set<Node>) returns (a: Node, b: Node)
    requires |c| > 1
    ensures a in c && b in c && a != b
  {
    a :| a in c;
    assert |c - {a}| > 0;
    b :| b in c - {a};
  }

  lemma CompleteScanReports(g: Graph, s: Scan, mods: seq<Node>)
    requires IsModuleGraph(g, mods) && Inv(g, s, {}) && Elements(mods) <= s.idx.Keys
    ensures ReportsExactlyTheCycles(g, s.sccs)
    ensures s.sccs == [] <==> !Cyclic(g)
  {
    IdleStackIsEmpty(g, s);
    forall c | IsComponent(g, c) && |c| > 1
      ensures exists scc :: scc in s.sccs && Elements(scc) == c
    {
      var a, b := TwoMembers(c);
      assert Mutual(g, a, b);
      MutualNodesAreModules(g, a, b);
      assert CoveredBy(s.sccs, a);
      var scc :| scc in s.sccs && a in scc;
      assert GoodReport(g, s.Done(), scc);
      ComponentsAreDisjointOrEqual(g, Elements(scc), c, a);
    }
    forall scc | scc in s.sccs
      ensures |scc| > 1 && IsComponent(g, Elements(scc))
      ensures forall i, j :: 0 <= i < j < |scc| ==> scc[i] != scc[j]
    {
      assert GoodReport(g, s.Done(), scc);
    }
    ExitStatusTellsCycles(g, s);
  }

  lemma MutualNodesAreModules(g: Graph, a: Node, b: Node)
    requires a != b && Mutual(g, a, b)
    ensures a in g
  {
    var p: seq<Node> :| IsPath(g, p) && p[0] == a && p[|p| - 1] == b;
    assert p[1] in Succ(g, p[0]);
  }

  lemma ExitStatusTellsCycles(g: Graph, s: Scan)
    requires Reported(g, s.Done(), s.sccs) && g.Keys <= s.Done()
    requires forall m <- g :: m !in g[m]
    ensures s.sccs == [] <==> !Cyclic(g)
  {
    CyclicIffMutualPair(g);
    if s.sccs != [] {
      var scc := s.sccs[0];
      assert GoodReport(g, s.Done(), scc);
      assert scc[0] in Elements(scc) && scc[1] in Elements(scc);
      assert scc[0] != scc[1] && Mutual(g, scc[0], scc[1]);
    }
    if exists a: Node, b: Node :: a != b && Mutual(g, a, b) {
      var a: Node, b: Node :| a != b && Mutual(g, a, b);
      MutualNodesAreModules(g, a, b);
      assert CoveredBy(s.sccs, a);
    }
  }

  class CycleScan {
    const edges: Graph
    ghost const universe: set<Node>
    var counter: nat
    var stack: seq<Node>
    var low: map<Node, nat>
    var idx: map<Node, nat>
    var on: map<Node, bool>
    var sccs: seq<seq<Node>>

    ghost function View(): Scan
      reads this
    {
      Scan(counter, stack, low, idx, on, sccs)
    }

    constructor (edges: Graph)
      ensures this.edges == edges && universe == Universe(edges) && View() == Scan(0, [], map[], map[], map[], [])
    {
      this.edges, this.universe := edges, Universe(edges);
      counter, stack, low, idx, on, sccs := 0, [], map[], map[], map[], [];
    }

    /** Takes the stack down to and including `v`, reporting what came off if it is several. */
    method PopComponent(v: Node, ghost k: nat)
      requires k < |stack| && stack[k] == v && v !in stack[k + 1..]
      requires forall w <- stack :: w in on
      modifies this`stack, this`on, this`sccs
      ensures View() == PopAll(old(View()), k)
    {
      ghost var t := View();
      var scc: seq<Node> := [];
      PopStarts(t);
      ghost var n := |stack|;
      while true
        invariant k < n && Popping(t, n, stack, scc, on) && sccs == t.sccs
        decreases n
      {
        var w := stack[|stack| - 1];
        PopTurn(t, n - 1, stack, scc, on);
        assert n - 1 > k ==> w == t.stack[k + 1..][n - k - 2];
        stack := stack[..|stack| - 1];
        on := on[w := false];
        scc := scc + [w];
        n := n - 1;
        if w == v {
          break;
        }
      }
      assert n == k;
      if |scc| > 1 {
        sccs := sccs + [scc];
      }
    }

    /** The end of a visit: `v` either closes its component or waits for an older node. */
    method Leave(v: Node, ghost s: Scan, ghost gray: set<Node>)
      requires Shape(s) && Visiting(edges, s, View(), v, gray, Succ(edges, v))
      modifies this`stack, this`on, this`sccs
      ensures Finished(edges, s, View(), v, gray) && idx == old(idx)
    {
      ghost var t := View();
      if low[v] == idx[v] {
        PopFinishes(edges, s, t, v, gray);
        EnteredSplits(s, t, v);
        PopComponent(v, |s.stack|);
      } else {
        KeepFinishes(edges, s, t, v, gray);
      }
    }

    /** The start of a visit. */
    method Enter(v: Node, ghost gray: set<Node>)
      requires Inv(edges, View(), gray) && v !in idx
      requires forall x <- gray :: Reach(edges, x, v)
      modifies this
      ensures View() == Push(old(View()), v) && idx.Keys == old(idx).Keys + {v}
      ensures Visiting(edges, old(View()), View(), v, gray, {})
    {
      PushStarts(edges, View(), v, gray);
      idx, low := idx[v := counter], low[v := counter];
      counter := counter + 1;
      stack := stack + [v];
      on := on[v := true];
    }

    method LowerTo(v: Node, n: nat)
      requires v in low
      modifies this`low
      ensures View() == Lower(old(View()), v, n)
    {
      low := low[v := if n < low[v] then n else low[v]];
    }

    /** One turn of the successor loop. */
    method Follow(v: Node, w: Node, ghost s: Scan, ghost gray: set<Node>, ghost seen: set<Node>)
      requires Shape(s) && Visiting(edges, s, View(), v, gray, seen) && w in Succ(edges, v)
      requires LeadsInto(edges, universe) && idx.Keys <= universe
      modifies this
      ensures Visiting(edges, s, View(), v, gray, seen + {w})
      ensures old(idx).Keys <= idx.Keys <= universe
      decreases universe - idx.Keys, 1
    {
      ghost var t := View();
      if w !in idx {
        GrayReaches(edges, s, t, v, w, gray, seen);
        Connect(w, gray + {v});
        TreeSuccessor(edges, s, t, View(), v, w, gray, seen);
        LowerTo(v, low[w]);
      } else if on[w] {
        StackedSuccessor(edges, s, t, v, w, gray, seen);
        LowerTo(v, idx[w]);
      } else {
        SettledSuccessor(edges, s, t, v, w, gray, seen);
      }
    }

    /** The successor loop. */
    method FollowAll(v: Node, ghost s: Scan, ghost gray: set<Node>)
      requires Shape(s) && Visiting(edges, s, View(), v, gray, {}) && LeadsInto(edges, universe) && idx.Keys <= universe
      modifies this
      ensures Visiting(edges, s, View(), v, gray, Succ(edges, v)) && idx.Keys <= universe
      decreases universe - idx.Keys, 2
    {
      var todo := Succ(edges, v);
      ghost var seen: set<Node> := {};
      while todo != {}
        invariant seen + todo == Succ(edges, v)
        invariant Visiting(edges, s, View(), v, gray, seen)
        invariant old(idx).Keys <= idx.Keys <= universe
        decreases todo
      {
        var w :| w in todo;
        Picked(seen, todo, w);
        LeavesLess(universe, old(idx).Keys, idx.Keys);
        Follow(v, w, s, gray, seen);
        todo, seen := todo - {w}, seen + {w};
      }
      assert seen + {} == seen;
    }

    /** Visits `v`, which everything still being visited reaches, and all it leads to. */
    method Connect(v: Node, ghost gray: set<Node>)
      requires Inv(edges, View(), gray) && v !in idx
      requires forall x <- gray :: Reach(edges, x, v)
      requires v in universe && LeadsInto(edges, universe) && idx.Keys <= universe
      modifies this
      ensures Finished(edges, old(View()), View(), v, gray)
      ensures idx.Keys <= universe
      decreases universe - idx.Keys, 0
    {
      ghost var s := View();
      Enter(v, gray);
      FollowAll(v, s, gray);
      Leave(v, s, gray);
    }

    /**
     * Scans every module. The reports are exactly the components of several modules, each once,
     * and the exit status is 0 exactly when the import graph has no cycle.
     */
    method Run(mods: seq<Node>) returns (exitStatus: int)
      requires IsModuleGraph(edges, mods)
      requires View() == Scan(0, [], map[], map[], map[], []) && universe == Universe(edges)
      modifies this
      ensures ReportsExactlyTheCycles(edges, sccs)
      ensures exitStatus == (if Cyclic(edges) then 1 else 0)
    {
      EmptyInv(edges);
      assert LeadsInto(edges, universe);
      for i := 0 to |mods|
        invariant Inv(edges, View(), {}) && idx.Keys <= universe
        invariant forall m <- mods[..i] :: m in idx
      {
        var v := mods[i];
        assert v in Elements(mods);
        if v !in idx {
          Connect(v, {});
        }
        assert mods[..i + 1] == mods[..i] + [v];
      }
      assert mods[..|mods|] == mods;
      CompleteScanReports(edges, View(), mods);
      exitStatus := if sccs != [] then 1 else 0;
    }
  }

  lemma LeavesLess(universe: set<Node>, before: set<Node>, now: set<Node>)
    requires before <= now
    ensures universe - now == universe - before || universe - now < universe - before
  {
  }

  lemma Picked(seen: set<Node>, todo: set<Node>, w: Node)
    requires w in todo
    ensures w in seen + todo && seen + {w} + (todo - {w}) == seen + todo
  {
  }

  /** Every unfinished node, `v` included, reaches a successor of `v`. */
  lemma GrayReaches(g: Graph, s: Scan, t: Scan, v: Node, w: Node, gray: set<Node>, seen: set<Node>)
    requires Visiting(g, s, t, v, gray, seen) && w in Succ(g, v)
    ensures forall x <- gray + {v} :: Reach(g, x, w)
  {
    ReachEdge(g, v, w);
    EnteredSplits(s, t, v);
    forall x | x in gray
      ensures Reach(g, x, w)
    {
      assert x in s.stack && x in s.idx && t.idx[x] == s.idx[x];
      assert NoLater(t.idx, x, v);
      ReachJoin(g, x, v, w);
    }
  }
}
