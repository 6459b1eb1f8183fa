/**
  * Retargeting a `relatedTarget` against the dispatch target, the DOM Standard's
  * "retarget" (section 4.8), which the program runs as two bounded walks.
  */
module Retarget {
  import opened Common
  import opened Forest
  import opened EventPath

  const MAX_CROSSINGS: nat := 64
  const MAX_CLIMB: nat := 1024

  /** `n`'s `k`-th shadow-including ancestor. */
  function Climb(f: RawForest, n: Node, k: nat): Option<Node>
    decreases k
  {
    if k == 0 then Some(n)
    else match Up(f, n) case None => None case Some(u) => Climb(f, u, k - 1)
  }

  /** How many `Up` steps lead from `n` to its composed root. */
  ghost function Height(f: Forest, n: Node): nat
    decreases Depth(f, n)
  {
    match Up(f, n) case None => 0 case Some(u) => DepthFalls(f, n); 1 + Height(f, u)
  }

  lemma {:induction false} AboveIsClimbed(f: Forest, a: Node, n: Node) returns (k: nat)
    requires IncludesAbove(f, a, n)
    ensures k <= Height(f, n) && Climb(f, n, k) == Some(a)
    decreases Depth(f, n)
  {
    if a == n {
      k := 0;
    } else {
      DepthFalls(f, n);
      k := AboveIsClimbed(f, a, Up(f, n).value);
      k := k + 1;
    }
  }

  lemma {:induction false} ClimbedIsAbove(f: Forest, a: Node, n: Node, k: nat)
    requires Climb(f, n, k) == Some(a)
    ensures k <= Height(f, n) && IncludesAbove(f, a, n)
    decreases k
  {
    if k > 0 { ClimbedIsAbove(f, a, Up(f, n).value, k - 1); }
  }

  lemma {:induction false} ClimbStep(f: Forest, n: Node, k: nat)
    ensures Climb(f, n, k + 1) == match Climb(f, n, k) case None => None case Some(u) => Up(f, u)
    decreases k
  {
    if k > 0 && Up(f, n).Some? { ClimbStep(f, Up(f, n).value, k - 1); }
  }

  /** `a` is among `n`'s first 1024 shadow-including inclusive ancestors. */
  ghost predicate ClimbsTo(f: Forest, n: Node, a: Node) {
    exists k :: 0 <= k < MAX_CLIMB && Climb(f, n, k) == Some(a)
  }

  /** `shadow_including_inclusive_descendant`: a walk of at most 1024 nodes. */
  method ShadowIncludingInclusiveDescendant(f: Forest, node: Node, ancestor: Node) returns (r: bool)
    ensures r <==> ClimbsTo(f, node, ancestor)
  {
    var current := Some(node);
    for i := 0 to MAX_CLIMB
      invariant current == Climb(f, node, i)
      invariant forall k :: 0 <= k < i ==> Climb(f, node, k) != Some(ancestor)
    {
      if current.None? {
        forall k | i <= k < MAX_CLIMB ensures Climb(f, node, k) == None { ClimbNone(f, node, i, k); }
        return false;
      }
      if current.value == ancestor { return true; }
      ClimbStep(f, node, i);
      current := Up(f, current.value);
    }
    return false;
  }

  lemma {:induction false} ClimbNone(f: Forest, n: Node, i: nat, k: nat)
    requires i <= k && Climb(f, n, i) == None
    ensures Climb(f, n, k) == None
    decreases k - i
  {
    if i < k { ClimbStep(f, n, i); ClimbNone(f, n, i + 1, k); }
  }

  /** The Standard's stopping test: `a`'s root is no shadow root, or it is a
      shadow-including inclusive ancestor of `b`. */
  ghost predicate Settled(f: Forest, a: Node, b: Option<Node>) {
    match ShadowRootOf(f, a)
    case None => true
    case Some(root) => b.Some? && IncludesAbove(f, root, b.value)
  }

  lemma HostStepFalls(f: Forest, a: Node)
    requires ShadowRootOf(f, a).Some?
    ensures Depth(f, f.host[ShadowRootOf(f, a).value]) < Depth(f, a)
  {
    LightRootDepth(f, a);
    DepthFalls(f, LightRoot(f, a));
  }

  lemma {:induction false} LightRootDepth(f: Forest, n: Node)
    ensures LightRoot(f, n) !in f.parent && Depth(f, LightRoot(f, n)) <= Depth(f, n)
    decreases Depth(f, n)
  {
    if n in f.parent { DepthFalls(f, n); LightRootDepth(f, f.parent[n]); }
  }

  /** "Retarget": repeat "replace by the root's host" until settled. */
  ghost function Retargeted(f: Forest, a: Node, b: Option<Node>): Node
    decreases Depth(f, a)
  {
    if Settled(f, a, b) then a
    else HostStepFalls(f, a); Retargeted(f, f.host[ShadowRootOf(f, a).value], b)
  }

  /** How many hosts the Standard's algorithm crosses. */
  ghost function Crossings(f: Forest, a: Node, b: Option<Node>): nat
    decreases Depth(f, a)
  {
    if Settled(f, a, b) then 0
    else HostStepFalls(f, a); 1 + Crossings(f, f.host[ShadowRootOf(f, a).value], b)
  }

  /** `a` after `k` crossings, settled or not. */
  ghost function Hosts(f: Forest, a: Node, k: nat): Option<Node>
    decreases k
  {
    if k == 0 then Some(a)
    else match ShadowRootOf(f, a) case None => None case Some(root) => Hosts(f, f.host[root], k - 1)
  }

  lemma {:induction false} HostsStep(f: Forest, a: Node, k: nat)
    ensures Hosts(f, a, k + 1) ==
      match Hosts(f, a, k)
      case None => None
      case Some(n) => match ShadowRootOf(f, n) case None => None case Some(root) => Some(f.host[root])
    decreases k
  {
    if k > 0 && ShadowRootOf(f, a).Some? { HostsStep(f, f.host[ShadowRootOf(f, a).value], k - 1); }
  }

  lemma {:induction false} HostsFall(f: Forest, a: Node, k: nat)
    requires k > 0 && Hosts(f, a, k).Some?
    ensures Depth(f, Hosts(f, a, k).value) < Depth(f, a)
    decreases k
  {
    HostStepFalls(f, a);
    if k > 1 { HostsFall(f, f.host[ShadowRootOf(f, a).value], k - 1); }
  }

  /** The chain of hosts never comes back to a node. */
  lemma {:induction false} HostsDiffer(f: Forest, a: Node, j: nat, k: nat)
    requires j < k && Hosts(f, a, j).Some?
    ensures Hosts(f, a, j) != Hosts(f, a, k)
    decreases j
  {
    if Hosts(f, a, k).Some? {
      if j == 0 { HostsFall(f, a, k); } else { HostsDiffer(f, f.host[ShadowRootOf(f, a).value], j - 1, k - 1); }
    }
  }

  /** The result is the first settled node on the host chain: it and nothing before it is settled. */
  lemma {:induction false} RetargetedSettles(f: Forest, a: Node, b: Option<Node>)
    ensures Settled(f, Retargeted(f, a, b), b)
    ensures IncludesAbove(f, Retargeted(f, a, b), a)
    ensures Retargeted(f, Retargeted(f, a, b), b) == Retargeted(f, a, b)
    decreases Depth(f, a)
  {
    if !Settled(f, a, b) {
      HostStepFalls(f, a);
      var root := ShadowRootOf(f, a).value;
      RetargetedSettles(f, f.host[root], b);
      LightRootAbove(f, a);
      assert Up(f, root) == Some(f.host[root]);
      assert IncludesAbove(f, f.host[root], root);
      AboveTransitive(f, f.host[root], root, a);
      AboveTransitive(f, Retargeted(f, a, b), f.host[root], a);
    }
  }

  /** The answer stands on the host chain where the crossings end: it is the first settled node there. */
  lemma {:induction false} SettlesAfter(f: Forest, a: Node, b: Option<Node>, k: nat)
    requires k <= Crossings(f, a, b)
    ensures Hosts(f, a, k).Some? && (Settled(f, Hosts(f, a, k).value, b) <==> k == Crossings(f, a, b))
    ensures Hosts(f, a, k) == Some(Retargeted(f, a, b)) <==> k == Crossings(f, a, b)
    decreases k
  {
    if k > 0 {
      SettlesAfter(f, f.host[ShadowRootOf(f, a).value], b, k - 1);
    } else {
      RetargetedSettles(f, a, b);
    }
  }

  /** The bounded test agrees with the Standard's whenever the node is less than 1024 deep. */
  lemma BoundedTest(f: Forest, root: Node, b: Node)
    requires Height(f, b) < MAX_CLIMB
    ensures IncludesAbove(f, root, b) <==> ClimbsTo(f, b, root)
  {
    if IncludesAbove(f, root, b) { var k := AboveIsClimbed(f, root, b); }
    if k :| 0 <= k < MAX_CLIMB && Climb(f, b, k) == Some(root) { ClimbedIsAbove(f, root, b, k); }
  }

  /** The stopping test as the program makes it. */
  ghost predicate Seen(f: Forest, a: Node, b: Option<Node>) {
    match ShadowRootOf(f, a)
    case None => true
    case Some(root) => b.Some? && ClimbsTo(f, b.value, root)
  }

  lemma SeenIsSettled(f: Forest, a: Node, b: Option<Node>)
    ensures Seen(f, a, b) ==> Settled(f, a, b)
    ensures (b.Some? ==> Height(f, b.value) < MAX_CLIMB) ==> (Seen(f, a, b) <==> Settled(f, a, b))
  {
    var root := ShadowRootOf(f, a);
    if b.Some? && root.Some? {
      if k :| 0 <= k < MAX_CLIMB && Climb(f, b.value, k) == Some(root.value) {
        ClimbedIsAbove(f, root.value, b.value, k);
      }
      if Height(f, b.value) < MAX_CLIMB { BoundedTest(f, root.value, b.value); }
    }
  }

  /** `a` is `n` crossings up from `start`, none of the nodes passed is seen to be settled, and
      `a` is, unless the bound is reached. */
  ghost predicate StopsAt(f: Forest, start: Node, b: Option<Node>, a: Node, n: nat) {
    && n <= MAX_CROSSINGS && Hosts(f, start, n) == Some(a) && (n == MAX_CROSSINGS || Seen(f, a, b))
    && Passed(f, start, b, n)
  }

  ghost predicate Passed(f: Forest, start: Node, b: Option<Node>, n: nat) {
    forall k {:trigger Hosts(f, start, k)} :: 0 <= k < n ==>
        Hosts(f, start, k).Some? && !Seen(f, Hosts(f, start, k).value, b)
  }

  /** The node the Standard stops at is the 64th host, or comes before it and is seen to be settled. */
  ghost predicate WithinBounds(f: Forest, start: Node, b: Option<Node>) {
    || Crossings(f, start, b) == MAX_CROSSINGS
    || (Crossings(f, start, b) < MAX_CROSSINGS && Seen(f, Retargeted(f, start, b), b))
  }

  lemma StopsAsSpecified(f: Forest, start: Node, b: Option<Node>, a: Node, n: nat)
    requires StopsAt(f, start, b, a, n)
    ensures a == Retargeted(f, start, b) <==> WithinBounds(f, start, b)
    ensures (b.Some? ==> Height(f, b.value) < MAX_CLIMB) ==>
              (WithinBounds(f, start, b) <==> Crossings(f, start, b) <= MAX_CROSSINGS)
  {
    var c := Crossings(f, start, b);
    SettlesAfter(f, start, b, c);
    SeenIsSettled(f, Retargeted(f, start, b), b);
    if n < c {
      SettlesAfter(f, start, b, n);
      SeenIsSettled(f, a, b);
    } else if c < n {
      HostsDiffer(f, start, c, n);
    }
  }

  /** `retarget`: where it stops, for all inputs; that it is the Standard's answer exactly within
      the bounds; and that for a `b` less than 1024 deep these are the 64 crossings alone. */
  method RetargetNode(f: Forest, start: Node, b: Option<Node>) returns (a: Node)
    ensures exists n :: StopsAt(f, start, b, a, n)
    ensures a == Retargeted(f, start, b) <==> WithinBounds(f, start, b)
    ensures (b.Some? ==> Height(f, b.value) < MAX_CLIMB) ==>
              (WithinBounds(f, start, b) <==> Crossings(f, start, b) <= MAX_CROSSINGS)
  {
    a := start;
    for i := 0 to MAX_CROSSINGS
      invariant Hosts(f, start, i) == Some(a) && Passed(f, start, b, i)
    {
      var root := ShadowRootOf(f, a);
      if root.None? {
        assert StopsAt(f, start, b, a, i);
        StopsAsSpecified(f, start, b, a, i);
        return a;
      }
      if b.Some? {
        var inside := ShadowIncludingInclusiveDescendant(f, b.value, root.value);
        assert inside <==> Seen(f, a, b);
        if inside {
          assert StopsAt(f, start, b, a, i);
          StopsAsSpecified(f, start, b, a, i);
          return a;
        }
      }
      assert !Seen(f, a, b);
      HostsStep(f, start, i);
      a := f.host[root.value];
    }
    StopsAsSpecified(f, start, b, a, MAX_CROSSINGS);
  }

  // ----- One host too many, one level too deep -----

  /** The nodes 0 to `last` in one line, the ones in `roots` being shadow roots. */
  function Line(last: Node, roots: set<Node>): (f: Forest)
    ensures forall n: Node :: Up(f, n) == if 1 <= n <= last then Some(n - 1) else None
    ensures forall n :: n in f.host <==> 1 <= n <= last && n in roots
    ensures f.slot == map[] && f.documents == {}
  {
    var f := RawForest(map n: Node | 1 <= n <= last && n !in roots :: n - 1,
                       map n: Node | 1 <= n <= last && n in roots :: n - 1, map[], {});
    LineIsWellFormed(f, last);
    f
  }

  lemma LineIsWellFormed(f: RawForest, last: Node)
    requires f.parent.Keys !! f.host.Keys && f.slot == map[] && f.documents == {}
    requires forall n :: n in f.parent.Keys + f.host.Keys <==> 1 <= n <= last
    requires (forall n :: n in f.parent ==> f.parent[n] == n - 1) && (forall n :: n in f.host ==> f.host[n] == n - 1)
    ensures WellFormed(f)
    ensures forall n: Node :: Up(f, n) == if 1 <= n <= last then Some(n - 1) else None
  {
    var d := map n | n in f.parent.Keys + f.host.Keys + {0} :: n;
    assert Ranks(f, d);
  }

  /** Node 0 hosts the shadow root 1, which holds the element 2, which hosts 3, and so on. */
  function Nested(): Forest {
    Line(130, set n: Node | n < 130 && n % 2 == 1)
  }

  lemma NestedRoot(i: nat)
    requires 0 < i <= 65
    ensures ShadowRootOf(Nested(), 2 * i) == Some(2 * i - 1) && Nested().host[2 * i - 1] == 2 * (i - 1)
  {
    var f := Nested();
    assert Up(f, 2 * i) == Some(2 * i - 1) && 2 * i !in f.host;
    assert Up(f, 2 * i - 1) == Some(2 * i - 2) && 2 * i - 1 in f.host;
    assert LightRoot(f, 2 * i) == LightRoot(f, 2 * i - 1) == 2 * i - 1;
  }

  lemma {:induction false} NestedCrossings(i: nat)
    requires i <= 65
    ensures Crossings(Nested(), 2 * i, None) == i && Retargeted(Nested(), 2 * i, None) == 0
  {
    var f := Nested();
    if i > 0 {
      NestedRoot(i);
      NestedCrossings(i - 1);
    } else {
      assert Up(f, 0) == None;
    }
  }

  lemma {:induction false} NestedHosts(i: nat, k: nat)
    requires k <= i <= 65
    ensures Hosts(Nested(), 2 * i, k) == Some(2 * (i - k))
    decreases k
  {
    if k > 0 {
      NestedRoot(i);
      NestedHosts(i - 1, k - 1);
    }
  }

  /** With 65 hosts to cross the answer is the last but one: the 2, and not the 0 that hosts it. */
  lemma OneHostTooMany(a: Node, n: nat)
    requires StopsAt(Nested(), 130, None, a, n)
    ensures a == 2 && Retargeted(Nested(), 130, None) == 0 && Crossings(Nested(), 130, None) == 65
  {
    NestedCrossings(65);
    NestedHosts(65, n);
    if n < MAX_CROSSINGS { NestedRoot(65 - n); }
  }

  /** Node 0 hosts the shadow root 1, below which stands a line of elements. */
  function Tall(): Forest {
    Line(1025, {1})
  }

  lemma {:induction false} TallRoot(n: Node)
    requires 1 <= n <= 1025
    ensures ShadowRootOf(Tall(), n) == Some(1) && Tall().host[1] == 0
    ensures IncludesAbove(Tall(), 1, n)
  {
    assert Up(Tall(), n) == Some(n - 1);
    if n > 1 {
      assert n !in Tall().host;
      TallRoot(n - 1);
    }
  }

  lemma {:induction false} TallClimb(n: Node, k: nat)
    requires k <= n <= 1025
    ensures Climb(Tall(), n, k) == Some(n - k)
    decreases k
  {
    if k > 0 {
      assert Up(Tall(), n) == Some(n - 1);
      TallClimb(n - 1, k - 1);
    }
  }

  /** Two nodes of one shadow tree: the Standard leaves the first as it is, and the program answers
      the tree's host, because its root is 1024 steps above the second. */
  lemma OneLevelTooDeep(a: Node, n: nat)
    requires StopsAt(Tall(), 2, Some(1025), a, n)
    ensures a == 0 && Retargeted(Tall(), 2, Some(1025)) == 2
  {
    var f := Tall();
    TallRoot(2);
    TallRoot(1025);
    forall k: nat | k < MAX_CLIMB ensures Climb(f, 1025, k) != Some(1) { TallClimb(1025, k); }
    assert !Seen(f, 2, Some(1025));
    assert Up(f, 0) == None;
    assert Seen(f, 0, Some(1025)) && Hosts(f, 2, 0) == Some(2) && Hosts(f, 2, 1) == Some(0);
  }
}
