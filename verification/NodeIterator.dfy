/**
  * `NodeIterator` over a fixed tree: a reference node and a side, moved by pointer steps,
  * behave as a cursor in the list of accepted nodes in tree order.
  */
module NodeIterator {
  import opened Common
  import opened TreeOrder

  /** Whatever a filter returns that is neither FILTER_ACCEPT nor FILTER_REJECT counts as a skip. */
  datatype Verdict = Accept | Reject | Skip

  // ----- The pointer steps -----

  /** The climbing loop of `#following`: the next sibling of the nearest ancestor that has one, short of the root. */
  function Climb(doc: Tree, root: Address, n: Address): Option<Address>
    requires Exists(doc, n)
    decreases |n|
  {
    if n == root then None
    else if NextSibling(doc, n).Some? then NextSibling(doc, n)
    else if n == [] then None
    else Climb(doc, root, n[..|n| - 1])
  }

  function DeepestLast(doc: Tree, n: Address): (r: Address)
    requires Exists(doc, n)
    ensures Exists(doc, r)
    decreases At(doc, n)
  {
    if Width(doc, n) == 0 then n
    else KidExists(doc, n, Width(doc, n) - 1); DeepestLast(doc, n + [Width(doc, n) - 1])
  }

  // ----- ...are steps in tree order -----

  /** Where `#following` leads from `n`. */
  ghost function FollowingNode(doc: Tree, root: Address, n: Address): Option<Address>
    requires Exists(doc, n)
  {
    if FirstChild(doc, n).Some? then FirstChild(doc, n) else Climb(doc, root, n)
  }

  ghost function PrecedingNode(doc: Tree, root: Address, n: Address): Option<Address>
    requires Exists(doc, n)
  {
    if n == root then None
    else
      PointersExist(doc, n);
      if PreviousSibling(doc, n).Some? then Some(DeepestLast(doc, PreviousSibling(doc, n).value)) else ParentNode(n)
  }

  /** Inside the subtree at `a`, "following" goes to the next node of its tree order, and from
      the last one to where climbing from `a` leads. */
  lemma {:induction false} FollowingInOrder(doc: Tree, root: Address, a: Address, i: nat)
    requires Exists(doc, a) && root <= a && i < |Preorder(doc, a)|
    ensures var order := Preorder(doc, a);
            && Exists(doc, order[i])
            && FollowingNode(doc, root, order[i]) == if i + 1 < |order| then Some(order[i + 1]) else Climb(doc, root, a)
    decreases At(doc, a), Width(doc, a) + 1
  {
    var kids := PreorderKids(doc, a, 0);
    if i > 0 {
      assert Preorder(doc, a)[i] == kids[i - 1];
      FollowingAmongKids(doc, root, a, 0, i - 1);
    }
  }

  lemma {:induction false} FollowingAmongKids(doc: Tree, root: Address, a: Address, k: nat, i: nat)
    requires Exists(doc, a) && root <= a && k <= Width(doc, a) && i < |PreorderKids(doc, a, k)|
    ensures var order := PreorderKids(doc, a, k);
            && Exists(doc, order[i])
            && FollowingNode(doc, root, order[i]) == if i + 1 < |order| then Some(order[i + 1]) else Climb(doc, root, a)
    decreases At(doc, a), Width(doc, a) - k
  {
    KidExists(doc, a, k);
    var c := a + [k];
    var first, rest := Preorder(doc, c), PreorderKids(doc, a, k + 1);
    assert PreorderKids(doc, a, k) == first + rest;
    if i < |first| {
      FollowingInOrder(doc, root, c, i);
      ClimbFromKid(doc, root, a, k);
    } else {
      FollowingAmongKids(doc, root, a, k + 1, i - |first|);
    }
  }

  /** From behind a child's subtree the way leads to the next child, or up. */
  lemma ClimbFromKid(doc: Tree, root: Address, a: Address, k: nat)
    requires Exists(doc, a) && root <= a && k < Width(doc, a)
    ensures var rest := PreorderKids(doc, a, k + 1);
            && Exists(doc, a + [k])
            && Climb(doc, root, a + [k]) == if rest != [] then Some(rest[0]) else Climb(doc, root, a)
  {
    KidExists(doc, a, k);
    assert (a + [k])[..|a|] == a;
  }

  lemma {:induction false} DeepestIsLast(doc: Tree, a: Address)
    requires Exists(doc, a)
    ensures var order := Preorder(doc, a); order[|order| - 1] == DeepestLast(doc, a)
    decreases At(doc, a), Width(doc, a) + 1
  {
    if Width(doc, a) > 0 { DeepestAmongKids(doc, a, 0); }
  }

  lemma {:induction false} DeepestAmongKids(doc: Tree, a: Address, k: nat)
    requires Exists(doc, a) && k < Width(doc, a)
    ensures var order := PreorderKids(doc, a, k); order != [] && order[|order| - 1] == DeepestLast(doc, a)
    decreases At(doc, a), Width(doc, a) - k
  {
    KidExists(doc, a, k);
    if k + 1 < Width(doc, a) {
      DeepestAmongKids(doc, a, k + 1);
    } else {
      DeepestIsLast(doc, a + [k]);
    }
  }

  /** "Preceding" goes to the node before in tree order. */
  lemma {:induction false} PrecedingInOrder(doc: Tree, root: Address, a: Address, i: nat)
    requires Exists(doc, a) && root <= a && 0 < i < |Preorder(doc, a)|
    ensures var order := Preorder(doc, a);
            Exists(doc, order[i]) && PrecedingNode(doc, root, order[i]) == Some(order[i - 1])
    decreases At(doc, a), Width(doc, a) + 1
  {
    assert Preorder(doc, a)[i] == PreorderKids(doc, a, 0)[i - 1];
    PrecedingAmongKids(doc, root, a, 0, i - 1);
  }

  lemma {:induction false} PrecedingAmongKids(doc: Tree, root: Address, a: Address, k: nat, i: nat)
    requires Exists(doc, a) && root <= a && k <= Width(doc, a) && i < |PreorderKids(doc, a, k)|
    ensures var order := PreorderKids(doc, a, k);
            && Exists(doc, order[i])
            && (i > 0 ==> PrecedingNode(doc, root, order[i]) == Some(order[i - 1]))
            && (i == 0 ==> PrecedingNode(doc, root, order[i])
                           == if k > 0 then Some(DeepestLast(doc, a + [k - 1])) else Some(a))
    decreases At(doc, a), Width(doc, a) - k
  {
    KidExists(doc, a, k);
    var c := a + [k];
    if k > 0 { KidExists(doc, a, k - 1); }
    var first, rest := Preorder(doc, c), PreorderKids(doc, a, k + 1);
    assert PreorderKids(doc, a, k) == first + rest;
    assert c[..|c| - 1] == a;
    if 0 < i < |first| {
      PrecedingInOrder(doc, root, c, i);
    } else if i >= |first| {
      PrecedingAmongKids(doc, root, a, k + 1, i - |first|);
      DeepestIsLast(doc, c);
    }
  }

  // ----- The cursor -----

  ghost function Accepted(filter: Address -> Verdict, s: seq<Address>): (r: seq<Address>)
    ensures forall n :: n in r <==> n in s && filter(n) == Accept
  {
    if s == [] then []
    else Accepted(filter, s[..|s| - 1]) + if filter(s[|s| - 1]) == Accept then [s[|s| - 1]] else []
  }

  lemma {:induction false} AcceptedConcat(filter: Address -> Verdict, a: seq<Address>, b: seq<Address>)
    ensures Accepted(filter, a + b) == Accepted(filter, a) + Accepted(filter, b)
  {
    if b == [] {
      assert a + b == a;
    } else {
      assert (a + b)[..|a + b| - 1] == a + b[..|b| - 1];
      AcceptedConcat(filter, a, b[..|b| - 1]);
    }
  }

  /** Behind the iterator, and ahead of it. */
  datatype Cursor = Cursor(behind: seq<Address>, ahead: seq<Address>)

  function Forward(c: Cursor): (Option<Address>, Cursor) {
    if c.ahead == [] then (None, c)
    else (Some(c.ahead[0]), Cursor(c.behind + [c.ahead[0]], c.ahead[1..]))
  }

  function Backward(c: Cursor): (Option<Address>, Cursor) {
    if c.behind == [] then (None, c)
    else
      var n := |c.behind| - 1;
      (Some(c.behind[n]), Cursor(c.behind[..n], [c.behind[n]] + c.ahead))
  }

  /** Skipping a node that is not accepted. */
  lemma SplitStep(filter: Address -> Verdict, order: seq<Address>, p: nat)
    requires p < |order|
    ensures Accepted(filter, order[..p + 1])
            == Accepted(filter, order[..p]) + if filter(order[p]) == Accept then [order[p]] else []
    ensures Accepted(filter, order[p..])
            == (if filter(order[p]) == Accept then [order[p]] else []) + Accepted(filter, order[p + 1..])
  {
    assert order[..p + 1][..p] == order[..p];
    AcceptedCons(filter, order[p], order[p + 1..]);
    assert order[p..] == [order[p]] + order[p + 1..];
  }

  lemma AcceptedCons(filter: Address -> Verdict, a: Address, rest: seq<Address>)
    ensures Accepted(filter, [a] + rest) == (if filter(a) == Accept then [a] else []) + Accepted(filter, rest)
  {
    var one := [a];
    AcceptedConcat(filter, one, rest);
    AcceptedOne(filter, one);
  }

  lemma AcceptedOne(filter: Address -> Verdict, s: seq<Address>)
    requires |s| == 1
    ensures Accepted(filter, s) == if filter(s[0]) == Accept then [s[0]] else []
  {
    assert s[..0] == [];
    assert Accepted(filter, s[..0]) == [];
  }

  ghost function CursorAt(filter: Address -> Verdict, order: seq<Address>, p: nat): Cursor
    requires p <= |order|
  {
    Cursor(Accepted(filter, order[..p]), Accepted(filter, order[p..]))
  }

  /** Nothing between the boundaries `p` and `q` is accepted. */
  ghost predicate NoneAccepted(filter: Address -> Verdict, order: seq<Address>, p: nat, q: nat) {
    p <= q <= |order| && forall i :: p <= i < q ==> filter(order[i]) != Accept
  }

  lemma {:induction false} SameCursor(filter: Address -> Verdict, order: seq<Address>, p: nat, q: nat)
    requires NoneAccepted(filter, order, p, q)
    ensures CursorAt(filter, order, p) == CursorAt(filter, order, q)
    decreases q - p
  {
    if p < q {
      SplitStep(filter, order, p);
      SameCursor(filter, order, p + 1, q);
    }
  }

  lemma StepsForward(filter: Address -> Verdict, order: seq<Address>, p: nat, q: nat)
    requires NoneAccepted(filter, order, p, q) && (q < |order| ==> filter(order[q]) == Accept)
    ensures Forward(CursorAt(filter, order, p))
            == if q == |order| then (None, CursorAt(filter, order, p))
               else (Some(order[q]), CursorAt(filter, order, q + 1))
  {
    SameCursor(filter, order, p, q);
    if q < |order| {
      SplitStep(filter, order, q);
    } else {
      assert order[q..] == [];
    }
  }

  lemma StepsBackward(filter: Address -> Verdict, order: seq<Address>, p: nat, q: nat)
    requires NoneAccepted(filter, order, p, q) && (p > 0 ==> filter(order[p - 1]) == Accept)
    ensures Backward(CursorAt(filter, order, q))
            == if p == 0 then (None, CursorAt(filter, order, q))
               else (Some(order[p - 1]), CursorAt(filter, order, p - 1))
  {
    SameCursor(filter, order, p, q);
    if p > 0 {
      SplitStep(filter, order, p - 1);
      var a := Accepted(filter, order[..p - 1]);
      assert (a + [order[p - 1]])[..|a|] == a;
    } else {
      assert order[..0] == [];
    }
  }

  /** `order` is the tree order of the subtree at `root`, as the pointer steps see it. */
  ghost predicate IsOrder(doc: Tree, root: Address, order: seq<Address>) {
    order != [] && forall i :: 0 <= i < |order| ==> InOrder(doc, root, order, i)
  }

  ghost predicate InOrder(doc: Tree, root: Address, order: seq<Address>, i: nat)
    requires i < |order|
  {
    && Exists(doc, order[i])
    && FollowingNode(doc, root, order[i]) == (if i + 1 < |order| then Some(order[i + 1]) else None)
    && PrecedingNode(doc, root, order[i]) == if i > 0 then Some(order[i - 1]) else None
  }

  lemma PreorderIsOrder(doc: Tree, root: Address)
    requires Exists(doc, root)
    ensures IsOrder(doc, root, Preorder(doc, root))
  {
    var order := Preorder(doc, root);
    assert Climb(doc, root, root) == None && PrecedingNode(doc, root, root) == None;
    forall i | 0 <= i < |order| ensures InOrder(doc, root, order, i) {
      FollowingInOrder(doc, root, root, i);
      if i > 0 { PrecedingInOrder(doc, root, root, i); }
    }
  }

  class NodeIterator {
    const doc: Tree
    const root: Address
    const filter: Address -> Verdict
    var ref: Address
    var before: bool
    /** The root's subtree in tree order, and where `ref` stands in it. */
    ghost const order: seq<Address>
    ghost var index: nat

    ghost predicate Valid()
      reads this
    {
      IsOrder(doc, root, order) && index < |order| && ref == order[index]
    }

    /** The boundary the iterator stands at. */
    ghost function Boundary(): nat
      reads this
    {
      if before then index else index + 1
    }

    ghost function Position(): Cursor
      reads this
      requires Valid()
    {
      CursorAt(filter, order, Boundary())
    }

    constructor (doc: Tree, root: Address, filter: Address -> Verdict)
      requires Exists(doc, root)
      ensures Valid() && this.doc == doc && this.root == root && this.filter == filter
      ensures order == Preorder(doc, root) && Position() == Cursor([], Accepted(filter, order))
    {
      this.doc, this.root, this.filter := doc, root, filter;
      ref, before, index, order := root, true, 0, Preorder(doc, root);
      new;
      PreorderIsOrder(doc, root);
      assert order[0..] == order;
    }

    method Following(node: Address) returns (r: Option<Address>)
      requires Exists(doc, node)
      ensures r == FollowingNode(doc, root, node)
    {
      if FirstChild(doc, node).Some? { return FirstChild(doc, node); }
      var n := node;
      while true
        invariant Exists(doc, n) && Climb(doc, root, n) == Climb(doc, root, node)
        decreases |n|
      {
        if n == root { return None; }
        if NextSibling(doc, n).Some? { return NextSibling(doc, n); }
        if ParentNode(n).None? { return None; }
        n := ParentNode(n).value;
      }
    }

    method Preceding(node: Address) returns (r: Option<Address>)
      requires Exists(doc, node)
      ensures r == PrecedingNode(doc, root, node)
    {
      if node == root { return None; }
      PointersExist(doc, node);
      var sibling := PreviousSibling(doc, node);
      if sibling.None? { return ParentNode(node); }
      var n := sibling.value;
      while LastChild(doc, n).Some?
        invariant Exists(doc, n) && DeepestLast(doc, n) == DeepestLast(doc, sibling.value)
        decreases At(doc, n)
      {
        KidExists(doc, n, Width(doc, n) - 1);
        n := LastChild(doc, n).value;
      }
      return Some(n);
    }

    /** The loop of `#traverse(true)`: the first accepted node at or after the boundary. */
    method SearchForward() returns (r: Option<Address>, ghost at: nat)
      requires Valid()
      ensures at <= |order| && NoneAccepted(filter, order, Boundary(), at)
      ensures if at == |order| then r == None else r == Some(order[at]) && filter(order[at]) == Accept
    {
      var node, side := ref, before;
      at := index;
      while true
        invariant 0 <= at < |order| && node == order[at]
        invariant NoneAccepted(filter, order, Boundary(), if side then at else at + 1)
        decreases |order| - at, side
      {
        assert InOrder(doc, root, order, at);
        if !side {
          var next := Following(node);
          if next.None? {
            return None, at + 1;
          }
          node, at := next.value, at + 1;
        }
        side := false;
        if filter(node) == Accept { return Some(node), at; }
      }
    }

    /** The loop of `#traverse(false)`: the last accepted node before the boundary. */
    method SearchBackward() returns (r: Option<Address>, ghost at: nat)
      requires Valid()
      ensures at <= |order| && NoneAccepted(filter, order, at, Boundary())
      ensures if at == 0 then r == None
              else r == Some(order[at - 1]) && filter(order[at - 1]) == Accept
    {
      var node, side := ref, before;
      at := index + 1;
      while true
        invariant 0 < at <= |order| && node == order[at - 1]
        invariant NoneAccepted(filter, order, if side then at - 1 else at, Boundary())
        decreases at, !side
      {
        assert InOrder(doc, root, order, at - 1);
        if side {
          var next := Preceding(node);
          if next.None? {
            return None, 0;
          }
          node, at := next.value, at - 1;
        }
        side := true;
        if filter(node) == Accept { return Some(node), at; }
      }
    }

    /** `#traverse(true)`. */
    method NextNode() returns (r: Option<Address>)
      requires Valid()
      modifies this
      ensures Valid() && (r, Position()) == Forward(old(Position()))
      ensures r.None? ==> ref == old(ref) && before == old(before)
      ensures r.Some? ==> r == Some(ref) && !before
    {
      ghost var at;
      r, at := SearchForward();
      StepsForward(filter, order, Boundary(), at);
      if r.Some? {
        ref, before, index := r.value, false, at;
        assert Boundary() == at + 1;
      }
    }

    /** `#traverse(false)`. */
    method PreviousNode() returns (r: Option<Address>)
      requires Valid()
      modifies this
      ensures Valid() && (r, Position()) == Backward(old(Position()))
      ensures r.None? ==> ref == old(ref) && before == old(before)
      ensures r.Some? ==> r == Some(ref) && before
    {
      ghost var at;
      r, at := SearchBackward();
      StepsBackward(filter, order, at, Boundary());
      if r.Some? {
        ref, before, index := r.value, true, at - 1;
      }
    }
  }

  // ----- Runs of calls -----

  datatype Call = Next | Previous

  /** The answers to a run of calls, oldest first, and where the cursor ends up. */
  function Run(c: Cursor, calls: seq<Call>): (seq<Option<Address>>, Cursor) {
    if calls == [] then ([], c)
    else
      var (answers, d) := Run(c, calls[..|calls| - 1]);
      var (r, e) := if calls[|calls| - 1].Next? then Forward(d) else Backward(d);
      (answers + [r], e)
  }

  /** No run loses or reorders an accepted node. */
  lemma {:induction false} RunKeepsAll(c: Cursor, calls: seq<Call>)
    ensures var d := Run(c, calls).1; d.behind + d.ahead == c.behind + c.ahead
  {
    if calls != [] {
      RunKeepsAll(c, calls[..|calls| - 1]);
      OneCallKeepsAll(Run(c, calls[..|calls| - 1]).1);
    }
  }

  lemma OneCallKeepsAll(d: Cursor)
    ensures var e := Forward(d).1; e.behind + e.ahead == d.behind + d.ahead
    ensures var e := Backward(d).1; e.behind + e.ahead == d.behind + d.ahead
  {
    if d.ahead != [] { assert d.behind + d.ahead == (d.behind + [d.ahead[0]]) + d.ahead[1..]; }
    if d.behind != [] {
      var n := |d.behind| - 1;
      assert d.behind + d.ahead == d.behind[..n] + ([d.behind[n]] + d.ahead);
    }
  }

  /** From the start, the k-th call of `nextNode` gives the k-th accepted node, then null for ever. */
  lemma {:induction false} ForwardRun(all: seq<Address>, k: nat)
    ensures var (answers, c) := Run(Cursor([], all), seq(k, _ => Next));
            && |answers| == k
            && (forall i :: 0 <= i < k ==> answers[i] == if i < |all| then Some(all[i]) else None)
            && c == if k < |all| then Cursor(all[..k], all[k..]) else Cursor(all, [])
  {
    if k > 0 {
      ForwardRun(all, k - 1);
      assert seq(k, _ => Next)[..k - 1] == seq(k - 1, _ => Next);
    }
  }

  /** `previousNode` from the far end gives the same list backwards. */
  lemma {:induction false} BackwardRun(all: seq<Address>, k: nat)
    ensures var (answers, c) := Run(Cursor(all, []), seq(k, _ => Previous));
            && |answers| == k
            && (forall i :: 0 <= i < k ==> answers[i] == if i < |all| then Some(all[|all| - 1 - i]) else None)
            && c == if k < |all| then Cursor(all[..|all| - k], all[|all| - k..]) else Cursor([], all)
  {
    if k > 0 {
      BackwardRun(all, k - 1);
      assert seq(k, _ => Previous)[..k - 1] == seq(k - 1, _ => Previous);
    }
  }

  /** Turning round returns the same node again. */
  lemma TurningRound(c: Cursor)
    ensures Forward(c).0.Some? ==> Backward(Forward(c).1) == (Forward(c).0, c)
    ensures Backward(c).0.Some? ==> Forward(Backward(c).1) == (Backward(c).0, c)
  {
    if c.ahead != [] {
      assert (c.behind + [c.ahead[0]])[..|c.behind|] == c.behind;
      assert [c.ahead[0]] + c.ahead[1..] == c.ahead;
    }
    if c.behind != [] {
      var n := |c.behind| - 1;
      assert c.behind[..n] + [c.behind[n]] == c.behind;
      assert ([c.behind[n]] + c.ahead)[1..] == c.ahead;
    }
  }
}
