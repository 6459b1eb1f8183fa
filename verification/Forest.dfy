/**
  * The shadow-including forest an event travels through, the propagation path
  * built over it, and relatedTarget retargeting.
  */
module Forest {
  import opened Common

  type Node = nat

  /** `parent`: light-tree links. `host`: shadow root to its host element.
      `slot`: node to the slot it is assigned to. `documents`: rendered roots. */
  datatype RawForest = RawForest(
    parent: map<Node, Node>,
    host: map<Node, Node>,
    slot: map<Node, Node>,
    documents: set<Node>)

  /** What may receive an event: a node, the window, or some other host object. */
  datatype Target = Window | NodeTarget(id: Node) | HostTarget(key: nat)

  /** One step up the shadow-including tree: the parent, or a shadow root's host. */
  function Up(f: RawForest, n: Node): Option<Node> {
    if n in f.parent then Some(f.parent[n])
    else if n in f.host then Some(f.host[n])
    else None
  }

  ghost predicate Ranks(f: RawForest, d: map<Node, nat>) {
    forall n :: n in f.parent.Keys + f.host.Keys ==>
      n in d && Up(f, n).value in d && d[Up(f, n).value] < d[n]
  }

  ghost predicate Acyclic(f: RawForest) {
    exists d :: Ranks(f, d)
  }

  /** A termination measure: it falls on every `Up` step. */
  ghost function Depth(f: RawForest, n: Node): nat
    requires Acyclic(f)
  {
    var d :| Ranks(f, d);
    if n in d then d[n] else 0
  }

  lemma DepthFalls(f: RawForest, n: Node)
    requires Acyclic(f) && Up(f, n).Some?
    ensures Depth(f, Up(f, n).value) < Depth(f, n)
  {
    assert n in f.parent.Keys + f.host.Keys;
  }

  /** The root of the tree holding `n`, not crossing into a host. */
  function LightRoot(f: RawForest, n: Node): Node
    requires Acyclic(f)
    decreases Depth(f, n)
  {
    if n in f.parent then DepthFalls(f, n); LightRoot(f, f.parent[n]) else n
  }

  /** The last node reached by `Up`. */
  function ComposedRoot(f: RawForest, n: Node): Node
    requires Acyclic(f)
    decreases Depth(f, n)
  {
    match Up(f, n)
    case None => n
    case Some(u) => DepthFalls(f, n); ComposedRoot(f, u)
  }

  /** `a` is `n` or is reached from it by `Up`: a shadow-including inclusive ancestor. */
  predicate IncludesAbove(f: RawForest, a: Node, n: Node)
    requires Acyclic(f)
    decreases Depth(f, n)
  {
    a == n ||
    match Up(f, n)
    case None => false
    case Some(u) => DepthFalls(f, n); IncludesAbove(f, a, u)
  }

  /** What the DOM guarantees: no node is above itself, a shadow root has no
      parent, rendered roots are roots, and a node is only ever assigned to a slot of
      its parent's shadow tree. */
  ghost predicate WellFormed(f: RawForest) {
    && Acyclic(f)
    && f.parent.Keys !! f.host.Keys
    && (forall d :: d in f.documents ==> Up(f, d).None?)
    && (forall n :: n in f.slot ==>
          && n in f.parent
          && LightRoot(f, f.slot[n]) in f.host
          && f.host[LightRoot(f, f.slot[n])] == f.parent[n])
  }

  lemma EmptyIsWellFormed()
    ensures WellFormed(RawForest(map[], map[], map[], {}))
  {
    assert Ranks(RawForest(map[], map[], map[], {}), map[]);
  }

  const EMPTY := RawForest(map[], map[], map[], {})

  type Forest = f: RawForest | WellFormed(f) witness (EmptyIsWellFormed(); EMPTY)

  /** `containing_shadow_root`. */
  function ShadowRootOf(f: Forest, n: Node): Option<Node> {
    if LightRoot(f, n) in f.host then Some(LightRoot(f, n)) else None
  }

  predicate Connected(f: Forest, n: Node) {
    ComposedRoot(f, n) in f.documents
  }

  /** `flat_event_parent`. */
  function FlatParent(f: Forest, n: Node, target: Node, composed: bool): Option<Node> {
    if n in f.slot then Some(f.slot[n])
    else if n in f.parent then Some(f.parent[n])
    else if n !in f.host then None
    else if composed || ShadowRootOf(f, target) != Some(n) then Some(f.host[n])
    else None
  }
}
