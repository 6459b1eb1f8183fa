/**
  * The propagation path: `flat_event_parent` iterated from the target, with Window
  * appended at the end.
  *
  * Termination: give each node the word of steps leading down to it from its composed
  * root, a step into a shadow tree being 0 and a step to a light child 1. Every flat
  * step goes to a word that is lexicographically smaller, so no node is met twice.
  */
module EventPath {
  import opened Common
  import opened Forest

  // ----- Addresses -----

  ghost function Address(f: Forest, n: Node): seq<nat>
    decreases Depth(f, n)
  {
    match Up(f, n)
    case None => []
    case Some(u) => DepthFalls(f, n); Address(f, u) + [if n in f.parent then 1 else 0]
  }

  ghost predicate Below(a: seq<nat>, b: seq<nat>) {
    if b == [] then false
    else if a == [] then true
    else a[0] < b[0] || (a[0] == b[0] && Below(a[1..], b[1..]))
  }

  lemma {:induction false} BelowPrefix(a: seq<nat>, x: nat)
    ensures Below(a, a + [x])
  {
    if a != [] {
      assert (a + [x])[1..] == a[1..] + [x];
      BelowPrefix(a[1..], x);
    }
  }

  lemma {:induction false} BelowBranch(p: seq<nat>, s: seq<nat>)
    ensures Below(p + [0] + s, p + [1])
  {
    if p == [] {
      assert p + [0] + s == [0] + s;
    } else {
      assert (p + [0] + s)[1..] == p[1..] + [0] + s;
      assert (p + [1])[1..] == p[1..] + [1];
      BelowBranch(p[1..], s);
    }
  }

  lemma {:induction false} BelowTransitive(a: seq<nat>, b: seq<nat>, c: seq<nat>)
    requires Below(a, b) && Below(b, c)
    ensures Below(a, c)
  {
    if a != [] && a[0] == b[0] && b[0] == c[0] {
      BelowTransitive(a[1..], b[1..], c[1..]);
    }
  }

  lemma {:induction false} BelowIrreflexive(a: seq<nat>)
    ensures !Below(a, a)
  {
    if a != [] { BelowIrreflexive(a[1..]); }
  }

  /** Inside one tree, addresses extend the root's. */
  lemma {:induction false} AddressUnderLightRoot(f: Forest, n: Node)
    ensures exists s :: Address(f, n) == Address(f, LightRoot(f, n)) + s
    decreases Depth(f, n)
  {
    if n in f.parent {
      DepthFalls(f, n);
      AddressUnderLightRoot(f, f.parent[n]);
      var s :| Address(f, f.parent[n]) == Address(f, LightRoot(f, n)) + s;
      assert Address(f, n) == Address(f, LightRoot(f, n)) + (s + [1]);
    } else {
      assert Address(f, n) == Address(f, LightRoot(f, n)) + [];
    }
  }

  /** Every step of `flat_event_parent` lowers the address. */
  lemma FlatStepFalls(f: Forest, n: Node, target: Node, composed: bool)
    requires FlatParent(f, n, target, composed).Some?
    ensures Below(Address(f, FlatParent(f, n, target, composed).value), Address(f, n))
  {
    if n in f.slot {
      var p, slot := f.parent[n], f.slot[n];
      var root := LightRoot(f, slot);
      AddressUnderLightRoot(f, slot);
      var s :| Address(f, slot) == Address(f, root) + s;
      assert Address(f, root) == Address(f, p) + [0];
      BelowBranch(Address(f, p), s);
    } else {
      var u := FlatParent(f, n, target, composed).value;
      assert Up(f, n) == Some(u);
      BelowPrefix(Address(f, u), if n in f.parent then 1 else 0);
    }
  }

  /** The finitely many nodes the maps speak about. */
  ghost function Universe(f: Forest): set<Node> {
    f.parent.Values + f.host.Values + f.slot.Values
  }

  ghost function Lower(f: Forest, n: Node): set<Node> {
    set m | m in Universe(f) && Below(Address(f, m), Address(f, n))
  }

  lemma LowerShrinks(f: Forest, n: Node, target: Node, composed: bool)
    requires FlatParent(f, n, target, composed).Some?
    ensures Lower(f, FlatParent(f, n, target, composed).value) < Lower(f, n)
  {
    var m := FlatParent(f, n, target, composed).value;
    FlatStepFalls(f, n, target, composed);
    BelowIrreflexive(Address(f, m));
    assert m in Lower(f, n) && m !in Lower(f, m);
    forall x | x in Lower(f, m) ensures x in Lower(f, n) {
      BelowTransitive(Address(f, x), Address(f, m), Address(f, n));
    }
  }

  // ----- The node part of the path -----

  ghost function FlatPath(f: Forest, n: Node, target: Node, composed: bool): (p: seq<Node>)
    decreases Lower(f, n)
  {
    match FlatParent(f, n, target, composed)
    case None => [n]
    case Some(m) => LowerShrinks(f, n, target, composed); [n] + FlatPath(f, m, target, composed)
  }

  lemma {:induction false} FlatPathBelow(f: Forest, n: Node, target: Node, composed: bool)
    ensures var p := FlatPath(f, n, target, composed);
            && |p| > 0 && p[0] == n
            && forall i :: 0 < i < |p| ==> Below(Address(f, p[i]), Address(f, n))
    decreases Lower(f, n)
  {
    var next := FlatParent(f, n, target, composed);
    if next.Some? {
      LowerShrinks(f, n, target, composed);
      FlatPathBelow(f, next.value, target, composed);
      FlatStepFalls(f, n, target, composed);
      var rest := FlatPath(f, next.value, target, composed);
      forall i | 0 < i < |rest| ensures Below(Address(f, rest[i]), Address(f, n)) {
        BelowTransitive(Address(f, rest[i]), Address(f, next.value), Address(f, n));
      }
    }
  }

  /** The path visits no node twice. */
  lemma {:induction false} FlatPathNoDup(f: Forest, n: Node, target: Node, composed: bool)
    ensures NoDup(FlatPath(f, n, target, composed))
    decreases Lower(f, n)
  {
    FlatPathBelow(f, n, target, composed);
    var next := FlatParent(f, n, target, composed);
    if next.Some? {
      LowerShrinks(f, n, target, composed);
      FlatPathNoDup(f, next.value, target, composed);
      BelowIrreflexive(Address(f, n));
    }
  }

  // ----- Where the path ends -----

  lemma {:induction false} LightRootAbove(f: Forest, n: Node)
    ensures IncludesAbove(f, LightRoot(f, n), n)
    ensures LightRoot(f, n) !in f.parent
    ensures ComposedRoot(f, LightRoot(f, n)) == ComposedRoot(f, n)
    decreases Depth(f, n)
  {
    if n in f.parent { DepthFalls(f, n); LightRootAbove(f, f.parent[n]); }
  }

  /** "Above" is transitive. */
  lemma {:induction false} AboveTransitive(f: Forest, a: Node, b: Node, c: Node)
    requires IncludesAbove(f, a, b) && IncludesAbove(f, b, c)
    ensures IncludesAbove(f, a, c)
    decreases Depth(f, c)
  {
    if b != c { DepthFalls(f, c); AboveTransitive(f, a, b, Up(f, c).value); }
  }

  /** A slot step stays below everything its starting node's parent is below, and in the
      same composed tree. */
  lemma SlotStep(f: Forest, n: Node)
    requires n in f.slot
    ensures IncludesAbove(f, f.parent[n], f.slot[n])
    ensures ComposedRoot(f, f.slot[n]) == ComposedRoot(f, n)
  {
    var root := LightRoot(f, f.slot[n]);
    LightRootAbove(f, f.slot[n]);
    assert Up(f, root) == Some(f.parent[n]);
    assert IncludesAbove(f, f.parent[n], root);
    AboveTransitive(f, f.parent[n], root, f.slot[n]);
  }

  ghost function Last(p: seq<Node>): Node
    requires p != []
  {
    p[|p| - 1]
  }

  /** A composed event, or one whose target is in no shadow tree, climbs to the composed root. */
  lemma {:induction false} OpenPathEnds(f: Forest, n: Node, target: Node, composed: bool)
    requires composed || ShadowRootOf(f, target).None?
    ensures var p := FlatPath(f, n, target, composed);
            p != [] && Last(p) == ComposedRoot(f, n)
    decreases Lower(f, n)
  {
    var next := FlatParent(f, n, target, composed);
    if next.Some? {
      LowerShrinks(f, n, target, composed);
      OpenPathEnds(f, next.value, target, composed);
      if n in f.slot { SlotStep(f, n); }
    }
  }

  /** A non-composed event from inside a shadow tree stops at that tree's root. */
  lemma {:induction false} ClosedPathEnds(f: Forest, n: Node, target: Node)
    requires ShadowRootOf(f, target).Some?
    requires IncludesAbove(f, ShadowRootOf(f, target).value, n)
    ensures var p := FlatPath(f, n, target, false);
            p != [] && Last(p) == ShadowRootOf(f, target).value
    decreases Lower(f, n)
  {
    var root := ShadowRootOf(f, target).value;
    LightRootAbove(f, target);
    var next := FlatParent(f, n, target, false);
    if next.Some? {
      LowerShrinks(f, n, target, false);
      if n in f.slot {
        SlotStep(f, n);
        AboveTransitive(f, root, f.parent[n], f.slot[n]);
      }
      ClosedPathEnds(f, next.value, target);
    }
  }

  // ----- The whole path, against the DOM Standard -----

  /** `dispatch_inner`'s path for a node target: the flat path, then perhaps Window. */
  ghost function NodePath(f: Forest, target: Node, composed: bool): seq<Target> {
    Targets(FlatPath(f, target, target, composed))
    + if Connected(f, target) && (composed || ShadowRootOf(f, target).None?) then [Window] else []
  }

  ghost function Targets(p: seq<Node>): (t: seq<Target>)
    ensures |t| == |p| && forall i :: 0 <= i < |p| ==> t[i] == NodeTarget(p[i])
  {
    seq(|p|, i requires 0 <= i < |p| => NodeTarget(p[i]))
  }

  ghost function PathOf(f: Forest, target: Target, composed: bool): seq<Target> {
    match target
    case NodeTarget(n) => NodePath(f, n, composed)
    case _ => [target]
  }

  /** "Get the parent" of the DOM Standard, sections 4.2.1, 4.4, 4.5 and 4.8: a node gives
      its assigned slot or its parent; a shadow root gives null if the event is not composed
      and the root is the root of the first invocation target, otherwise its host; a
      document gives the window, except to a `load` event. */
  ghost function GetTheParent(f: Forest, t: Target, first: Node, composed: bool, load: bool): Option<Target> {
    match t
    case NodeTarget(n) =>
      if n in f.documents then (if load then None else Some(Window))
      else if n in f.host then
        if !composed && LightRoot(f, first) == n then None else Some(NodeTarget(f.host[n]))
      else if n in f.slot then Some(NodeTarget(f.slot[n]))
      else if n in f.parent then Some(NodeTarget(f.parent[n]))
      else None
    case _ => None
  }

  /** `p` is what iterating "get the parent" appends, from its first entry on. */
  ghost predicate FollowsParents(f: Forest, p: seq<Target>, first: Node, composed: bool, load: bool) {
    && p != []
    && (forall i :: 0 <= i < |p| - 1 ==> GetTheParent(f, p[i], first, composed, load) == Some(p[i + 1]))
    && GetTheParent(f, p[|p| - 1], first, composed, load) == None
  }

  lemma {:induction false} FlatPathLinks(f: Forest, n: Node, target: Node, composed: bool)
    ensures var p := FlatPath(f, n, target, composed);
            && p != []
            && (forall i :: 0 <= i < |p| - 1 ==> FlatParent(f, p[i], target, composed) == Some(p[i + 1]))
            && FlatParent(f, Last(p), target, composed) == None
    decreases Lower(f, n)
  {
    var next := FlatParent(f, n, target, composed);
    if next.Some? {
      LowerShrinks(f, n, target, composed);
      FlatPathLinks(f, next.value, target, composed);
      FlatPathBelow(f, next.value, target, composed);
    }
  }

  /** One flat step is one "get the parent" step between nodes. */
  lemma FlatParentIsGetTheParent(f: Forest, n: Node, target: Node, composed: bool, load: bool)
    ensures n !in f.documents ==>
              GetTheParent(f, NodeTarget(n), target, composed, load)
              == match FlatParent(f, n, target, composed) case None => None case Some(m) => Some(NodeTarget(m))
    ensures n in f.documents ==> FlatParent(f, n, target, composed) == None
  {
  }

  /** A document ends the flat path exactly when Window is to be appended. */
  lemma PathReachesDocument(f: Forest, target: Node, composed: bool)
    ensures var p := FlatPath(f, target, target, composed);
            && p != []
            && (Last(p) in f.documents
                <==> Connected(f, target) && (composed || ShadowRootOf(f, target).None?))
  {
    if composed || ShadowRootOf(f, target).None? {
      OpenPathEnds(f, target, target, composed);
    } else {
      LightRootAbove(f, target);
      ClosedPathEnds(f, target, target);
    }
  }

  /** The path `dispatch_inner` builds starts at the target and follows the DOM Standard's
      "get the parent" to the end, the window included. The one exception: a `load` event
      is given the window too, where the Standard stops at the document. */
  lemma NodePathFollowsParents(f: Forest, target: Node, composed: bool, load: bool)
    ensures var p := NodePath(f, target, composed);
            && p != [] && p[0] == NodeTarget(target)
            && (FollowsParents(f, p, target, composed, load) <==> !(load && Window in p))
  {
    var flat := FlatPath(f, target, target, composed);
    FlatPathLinks(f, target, target, composed);
    FlatPathBelow(f, target, target, composed);
    PathReachesDocument(f, target, composed);
    var p := NodePath(f, target, composed);
    forall i | 0 <= i < |flat| - 1
      ensures GetTheParent(f, p[i], target, composed, load) == Some(p[i + 1])
    {
      FlatParentIsGetTheParent(f, flat[i], target, composed, load);
    }
    FlatParentIsGetTheParent(f, Last(flat), target, composed, load);
    if |p| > |flat| {
      assert p[|flat|] == Window;
      assert p[|flat| - 1] == NodeTarget(Last(flat));
    }
  }

  /** A document by itself: the Standard's path of its `load` event is the document alone. */
  lemma LoadReachesWindow()
    ensures var f := LoneDocument();
            && NodePath(f, 0, false) == [NodeTarget(0), Window]
            && FollowsParents(f, [NodeTarget(0)], 0, false, true)
            && !FollowsParents(f, NodePath(f, 0, false), 0, false, true)
  {
    NodePathFollowsParents(LoneDocument(), 0, false, true);
  }

  function LoneDocument(): (f: Forest)
    ensures f.parent == map[] && f.host == map[] && f.slot == map[] && f.documents == {0}
  {
    var f := RawForest(map[], map[], map[], {0});
    assert Ranks(f, map[]);
    f
  }

  lemma FirstParent(f: Forest, p: seq<Target>, first: Node, composed: bool, load: bool)
    requires FollowsParents(f, p, first, composed, load)
    ensures GetTheParent(f, p[0], first, composed, load) == if |p| > 1 then Some(p[1]) else None
  {
    if |p| > 1 {
      assert GetTheParent(f, p[0], first, composed, load) == Some(p[0 + 1]);
    }
  }

  /** At most one sequence follows "get the parent" from a target, so that lemma fixes the path. */
  lemma {:induction false} FollowsParentsUnique(
      f: Forest, p: seq<Target>, q: seq<Target>, first: Node, composed: bool, load: bool)
    requires FollowsParents(f, p, first, composed, load) && FollowsParents(f, q, first, composed, load)
    requires p[0] == q[0]
    ensures p == q
  {
    FirstParent(f, p, first, composed, load);
    FirstParent(f, q, first, composed, load);
    if |p| > 1 {
      FollowsParentsUnique(f, p[1..], q[1..], first, composed, load);
    }
  }

  /** Where a dispatch's path ends, and that it repeats nothing. */
  lemma PathShape(f: Forest, target: Node, composed: bool)
    ensures var p := NodePath(f, target, composed);
            var open := composed || ShadowRootOf(f, target).None?;
            && NoDup(p)
            && (Window in p <==> Connected(f, target) && open)
            && (Window in p ==> p[|p| - 1] == Window)
            && p[if Window in p then |p| - 2 else |p| - 1]
               == NodeTarget(if open then ComposedRoot(f, target) else ShadowRootOf(f, target).value)
  {
    var flat := FlatPath(f, target, target, composed);
    FlatPathNoDup(f, target, target, composed);
    FlatPathBelow(f, target, target, composed);
    if composed || ShadowRootOf(f, target).None? {
      OpenPathEnds(f, target, target, composed);
    } else {
      LightRootAbove(f, target);
      ClosedPathEnds(f, target, target);
    }
    var p := NodePath(f, target, composed);
    if Connected(f, target) && (composed || ShadowRootOf(f, target).None?) {
      assert p[|p| - 1] == Window;
    }
  }

  /** The path loop has appended `walked` and stands at `current`. */
  ghost predicate Walked(f: Forest, node: Node, composed: bool, path: seq<Target>, current: Option<Node>) {
    exists walked :: path == Targets(walked) && FlatPath(f, node, node, composed) == walked +
      match current case None => [] case Some(n) => FlatPath(f, n, node, composed)
  }

  ghost function Measure(f: Forest, current: Option<Node>): set<Option<Node>> {
    match current
    case None => {}
    case Some(n) => {None} + set m | m in Lower(f, n) :: Some(m)
  }

  lemma WalkedStep(f: Forest, node: Node, composed: bool, path: seq<Target>, id: Node)
    requires Walked(f, node, composed, path, Some(id))
    ensures var next := FlatParent(f, id, node, composed);
            Walked(f, node, composed, path + [NodeTarget(id)], next) && Measure(f, next) < Measure(f, Some(id))
  {
    var next := FlatParent(f, id, node, composed);
    var walked :| path == Targets(walked) &&
        FlatPath(f, node, node, composed) == walked + FlatPath(f, id, node, composed);
    assert path + [NodeTarget(id)] == Targets(walked + [id]);
    if next.Some? {
      LowerShrinks(f, id, node, composed);
      var rest := FlatPath(f, next.value, node, composed);
      assert walked + ([id] + rest) == (walked + [id]) + rest;
      var m :| m in Lower(f, id) && m !in Lower(f, next.value);
      assert Some(m) in Measure(f, Some(id)) && Some(m) !in Measure(f, next);
    } else {
      assert walked + [id] == (walked + [id]) + [];
      assert None in Measure(f, Some(id));
    }
  }

  lemma WalkedStart(f: Forest, node: Node, composed: bool)
    ensures Walked(f, node, composed, [], Some(node))
  {
    assert [] == Targets([]);
    assert FlatPath(f, node, node, composed) == [] + FlatPath(f, node, node, composed);
  }

  lemma WalkedEnd(f: Forest, node: Node, composed: bool, path: seq<Target>)
    requires Walked(f, node, composed, path, None)
    ensures path == Targets(FlatPath(f, node, node, composed))
  {
    var walked :| path == Targets(walked) && FlatPath(f, node, node, composed) == walked + [];
    assert walked + [] == walked;
  }

  /** The path loop of `dispatch_inner`. */
  method WalkUp(f: Forest, node: Node, composed: bool) returns (path: seq<Target>)
    ensures path == Targets(FlatPath(f, node, node, composed))
  {
    path := [];
    var current := Some(node);
    WalkedStart(f, node, composed);
    while current.Some?
      invariant Walked(f, node, composed, path, current)
      decreases Measure(f, current)
    {
      var id := current.value;
      WalkedStep(f, node, composed, path, id);
      path := path + [NodeTarget(id)];
      current := FlatParent(f, id, node, composed);
    }
    WalkedEnd(f, node, composed, path);
  }

  method BuildNodePath(f: Forest, node: Node, composed: bool) returns (path: seq<Target>)
    ensures path == NodePath(f, node, composed)
  {
    path := WalkUp(f, node, composed);
    if Connected(f, node) && (composed || ShadowRootOf(f, node).None?) {
      path := path + [Window];
    }
  }

  method BuildPath(f: Forest, target: Target, composed: bool) returns (path: seq<Target>)
    ensures path == PathOf(f, target, composed)
    ensures !target.NodeTarget? ==> path == [target]
  {
    match target {
      case NodeTarget(node) => path := BuildNodePath(f, node, composed);
      case _ => path := [target];
    }
  }
}
