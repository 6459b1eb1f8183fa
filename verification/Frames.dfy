/**
  * The page's browsing contexts: `frames_in_tree_order`, a depth-first walk with an explicit
  * stack over parent links, and `frame_by_name`, the search that order decides.
  */
module Frames {
  import opened Common

  /** A context's slot: the order of ids is the order of creation. */
  type FrameId = nat

  datatype Frame = Frame(parent: Option<FrameId>, name: string)

  type FrameMap = map<FrameId, Frame>

  /** `all` lists the live contexts in slot order. */
  ghost predicate Lists(frames: FrameMap, all: seq<FrameId>) {
    && (forall f :: f in all <==> f in frames)
    && Increasing(all)
  }

  ghost predicate Increasing(s: seq<FrameId>) {
    forall i, j :: 0 <= i < j < |s| ==> s[i] < s[j]
  }

  /** The children of a context, or of none, in slot order. */
  function ChildrenOf(frames: FrameMap, all: seq<FrameId>, parent: Option<FrameId>): (r: seq<FrameId>)
    requires forall i :: 0 <= i < |all| ==> all[i] in frames
    ensures forall f :: f in r <==> f in all && frames[f].parent == parent
  {
    if all == [] then []
    else
      var last := all[|all| - 1];
      ChildrenOf(frames, all[..|all| - 1], parent) + if frames[last].parent == parent then [last] else []
  }

  lemma {:induction false} ChildrenInOrder(frames: FrameMap, all: seq<FrameId>, parent: Option<FrameId>)
    requires (forall i :: 0 <= i < |all| ==> all[i] in frames) && Increasing(all)
    ensures Increasing(ChildrenOf(frames, all, parent)) && NoDup(ChildrenOf(frames, all, parent))
  {
    if all != [] {
      var init := all[..|all| - 1];
      ChildrenInOrder(frames, init, parent);
      var r := ChildrenOf(frames, init, parent);
      forall i | 0 <= i < |r| ensures r[i] < all[|all| - 1] {
        assert r[i] in init;
        var j :| 0 <= j < |init| && init[j] == r[i];
      }
    }
  }

  // ----- The tree behind the parent links -----

  /** `f` is reached from no parent in `d` steps down. */
  ghost predicate RootedAt(frames: FrameMap, f: FrameId, d: nat)
    decreases d
  {
    f in frames &&
    match frames[f].parent
    case None => d == 0
    case Some(p) => d > 0 && RootedAt(frames, p, d - 1)
  }

  ghost predicate Rooted(frames: FrameMap, f: FrameId) {
    exists d :: RootedAt(frames, f, d)
  }

  lemma {:induction false} OneDepth(frames: FrameMap, f: FrameId, d: nat, e: nat)
    requires RootedAt(frames, f, d) && RootedAt(frames, f, e)
    ensures d == e
    decreases d
  {
    if d > 0 { OneDepth(frames, frames[f].parent.value, d - 1, e - 1); }
  }

  ghost predicate RootedFrom(frames: FrameMap, f: FrameId, d: nat) {
    exists e :: e >= d && RootedAt(frames, f, e)
  }

  /** The contexts at depth `d` or deeper; it shrinks with every level. */
  ghost function DeeperThan(frames: FrameMap, d: nat): set<FrameId> {
    set f | f in frames && RootedFrom(frames, f, d)
  }

  lemma DeeperShrinks(frames: FrameMap, f: FrameId, d: nat)
    requires RootedAt(frames, f, d)
    ensures DeeperThan(frames, d + 1) < DeeperThan(frames, d)
  {
    assert f in DeeperThan(frames, d);
    if f in DeeperThan(frames, d + 1) {
      var e :| e >= d + 1 && RootedAt(frames, f, e);
      OneDepth(frames, f, d, e);
    }
    forall g | g in DeeperThan(frames, d + 1) ensures g in DeeperThan(frames, d) {
      var e :| e >= d + 1 && RootedAt(frames, g, e);
      assert e >= d && RootedAt(frames, g, e);
    }
  }

  ghost predicate AllAt(frames: FrameMap, fs: seq<FrameId>, d: nat) {
    forall i :: 0 <= i < |fs| ==> RootedAt(frames, fs[i], d)
  }

  lemma ChildrenAt(frames: FrameMap, all: seq<FrameId>, f: FrameId, d: nat)
    requires Lists(frames, all) && RootedAt(frames, f, d)
    ensures AllAt(frames, ChildrenOf(frames, all, Some(f)), d + 1)
  {
    var kids := ChildrenOf(frames, all, Some(f));
    forall i | 0 <= i < |kids| ensures RootedAt(frames, kids[i], d + 1) {
      assert kids[i] in kids;
    }
  }

  /** The recursive preorder below one context... */
  ghost function Preorder(frames: FrameMap, all: seq<FrameId>, f: FrameId, d: nat): seq<FrameId>
    requires Lists(frames, all) && RootedAt(frames, f, d)
    decreases DeeperThan(frames, d), 0
  {
    DeeperShrinks(frames, f, d);
    ChildrenAt(frames, all, f, d);
    [f] + PreorderAll(frames, all, ChildrenOf(frames, all, Some(f)), d + 1)
  }

  /** ...and below several of the same depth, in the order given. */
  ghost function PreorderAll(frames: FrameMap, all: seq<FrameId>, fs: seq<FrameId>, d: nat): seq<FrameId>
    requires Lists(frames, all) && AllAt(frames, fs, d)
    decreases DeeperThan(frames, d), |fs| + 1
  {
    if fs == [] then [] else Preorder(frames, all, fs[0], d) + PreorderAll(frames, all, fs[1..], d)
  }

  ghost function Roots(frames: FrameMap, all: seq<FrameId>): (r: seq<FrameId>)
    requires Lists(frames, all)
    ensures AllAt(frames, r, 0)
  {
    var r := ChildrenOf(frames, all, None);
    assert forall i :: 0 <= i < |r| ==> r[i] in r;
    r
  }

  /** The whole tree in preorder, siblings in slot order. */
  ghost function TreeOrder(frames: FrameMap, all: seq<FrameId>): seq<FrameId>
    requires Lists(frames, all)
  {
    PreorderAll(frames, all, Roots(frames, all), 0)
  }

  // ----- Its members -----

  /** The context `k` levels above. */
  ghost function Above(frames: FrameMap, f: FrameId, k: nat): Option<FrameId>
    decreases k
  {
    if k == 0 then Some(f)
    else if f !in frames || frames[f].parent.None? then None
    else Above(frames, frames[f].parent.value, k - 1)
  }

  lemma {:induction false} AboveStep(frames: FrameMap, f: FrameId, k: nat)
    ensures Above(frames, f, k + 1) ==
      match Above(frames, f, k)
      case None => None
      case Some(g) => if g in frames then frames[g].parent else None
    decreases k
  {
    if k > 0 && f in frames && frames[f].parent.Some? { AboveStep(frames, frames[f].parent.value, k - 1); }
  }

  lemma {:induction false} RootedAbove(frames: FrameMap, f: FrameId, d: nat, k: nat)
    requires RootedAt(frames, f, d) && k <= d
    ensures Above(frames, f, k).Some? && RootedAt(frames, Above(frames, f, k).value, d - k)
    decreases k
  {
    if k > 0 { RootedAbove(frames, frames[f].parent.value, d - 1, k - 1); }
  }

  /** `g` is `k` levels below `f`, itself at depth `d`. */
  ghost predicate BelowAt(frames: FrameMap, g: FrameId, f: FrameId, d: nat, k: nat) {
    RootedAt(frames, g, d + k) && Above(frames, g, k) == Some(f)
  }

  /** Everything in a preorder lies below its start. */
  lemma {:induction false} PreorderBelow(frames: FrameMap, all: seq<FrameId>, f: FrameId, d: nat, g: FrameId)
      returns (k: nat)
    requires Lists(frames, all) && RootedAt(frames, f, d) && g in Preorder(frames, all, f, d)
    ensures BelowAt(frames, g, f, d, k)
    decreases DeeperThan(frames, d), 0
  {
    if g == f {
      k := 0;
      assert Above(frames, g, 0) == Some(f);
    } else {
      StartOrBelow(frames, all, f, d, g);
      k := KidsBelow(frames, all, f, d, g);
    }
  }

  lemma {:induction false} KidsBelow(frames: FrameMap, all: seq<FrameId>, f: FrameId, d: nat, g: FrameId)
      returns (k: nat)
    requires Lists(frames, all) && RootedAt(frames, f, d) && AllAt(frames, ChildrenOf(frames, all, Some(f)), d + 1)
    requires g in PreorderAll(frames, all, ChildrenOf(frames, all, Some(f)), d + 1)
    ensures BelowAt(frames, g, f, d, k)
    decreases DeeperThan(frames, d), 0, 0
  {
    var kids := ChildrenOf(frames, all, Some(f));
    DeeperShrinks(frames, f, d);
    var c, m := PreorderAllBelow(frames, all, kids, d + 1, g);
    k := OneFurther(frames, f, d, g, c, m);
  }

  lemma OneFurther(frames: FrameMap, f: FrameId, d: nat, g: FrameId, kid: FrameId, m: nat) returns (k: nat)
    requires kid in frames && frames[kid].parent == Some(f) && BelowAt(frames, g, kid, d + 1, m)
    ensures BelowAt(frames, g, f, d, k)
  {
    AboveStep(frames, g, m);
    assert d + 1 + m == d + (m + 1);
    k := m + 1;
  }

  lemma StartOrBelow(frames: FrameMap, all: seq<FrameId>, f: FrameId, d: nat, g: FrameId)
    requires Lists(frames, all) && RootedAt(frames, f, d) && g in Preorder(frames, all, f, d)
    ensures AllAt(frames, ChildrenOf(frames, all, Some(f)), d + 1)
    ensures g == f || g in PreorderAll(frames, all, ChildrenOf(frames, all, Some(f)), d + 1)
  {
    ChildrenAt(frames, all, f, d);
    InConcat(g, [f], PreorderAll(frames, all, ChildrenOf(frames, all, Some(f)), d + 1));
  }

  lemma {:induction false} PreorderAllBelow(frames: FrameMap, all: seq<FrameId>, fs: seq<FrameId>, d: nat, g: FrameId)
    returns (c: FrameId, k: nat)
    requires Lists(frames, all) && AllAt(frames, fs, d) && g in PreorderAll(frames, all, fs, d)
    ensures c in fs && BelowAt(frames, g, c, d, k)
    decreases DeeperThan(frames, d), |fs| + 1
  {
    FirstOrLater(frames, all, fs, d, g);
    if g in Preorder(frames, all, fs[0], d) {
      c := fs[0];
      k := PreorderBelow(frames, all, fs[0], d, g);
    } else {
      c, k := PreorderAllBelow(frames, all, fs[1..], d, g);
    }
  }

  lemma FirstOrLater(frames: FrameMap, all: seq<FrameId>, fs: seq<FrameId>, d: nat, g: FrameId)
    requires Lists(frames, all) && AllAt(frames, fs, d) && g in PreorderAll(frames, all, fs, d)
    ensures fs != [] && RootedAt(frames, fs[0], d) && AllAt(frames, fs[1..], d)
    ensures g in Preorder(frames, all, fs[0], d) || g in PreorderAll(frames, all, fs[1..], d)
  {
    InConcat(g, Preorder(frames, all, fs[0], d), PreorderAll(frames, all, fs[1..], d));
  }

  /** Everything below a context is in its preorder. */
  lemma {:induction false} BelowInPreorder(frames: FrameMap, all: seq<FrameId>, f: FrameId, d: nat, g: FrameId, k: nat)
    requires Lists(frames, all) && RootedAt(frames, f, d) && RootedAt(frames, g, d + k) &&
             Above(frames, g, k) == Some(f)
    ensures g in Preorder(frames, all, f, d)
    decreases k
  {
    if k > 0 {
      RootedAbove(frames, g, d + k, k - 1);
      var c := Above(frames, g, k - 1).value;
      AboveStep(frames, g, k - 1);
      ChildrenAt(frames, all, f, d);
      BelowInPreorder(frames, all, c, d + 1, g, k - 1);
      InPreorderAll(frames, all, ChildrenOf(frames, all, Some(f)), d + 1, c, g);
    }
  }

  lemma {:induction false} InPreorderAll(frames: FrameMap, all: seq<FrameId>, fs: seq<FrameId>, d: nat, c: FrameId,
                                         g: FrameId)
    requires Lists(frames, all) && AllAt(frames, fs, d) && c in fs && RootedAt(frames, c, d)
    requires g in Preorder(frames, all, c, d)
    ensures g in PreorderAll(frames, all, fs, d)
    decreases |fs|
  {
    if fs[0] != c { InPreorderAll(frames, all, fs[1..], d, c, g); }
  }

  lemma {:induction false} PreorderNoDup(frames: FrameMap, all: seq<FrameId>, f: FrameId, d: nat)
    requires Lists(frames, all) && RootedAt(frames, f, d)
    ensures NoDup(Preorder(frames, all, f, d))
    decreases DeeperThan(frames, d), 0
  {
    DeeperShrinks(frames, f, d);
    ChildrenAt(frames, all, f, d);
    var kids := ChildrenOf(frames, all, Some(f));
    ChildrenInOrder(frames, all, Some(f));
    PreorderAllNoDup(frames, all, kids, d + 1);
    NotBelowItself(frames, all, kids, f, d);
    NoDupCons(f, PreorderAll(frames, all, kids, d + 1));
  }

  lemma NotBelowItself(frames: FrameMap, all: seq<FrameId>, kids: seq<FrameId>, f: FrameId, d: nat)
    requires Lists(frames, all) && RootedAt(frames, f, d) && AllAt(frames, kids, d + 1)
    ensures f !in PreorderAll(frames, all, kids, d + 1)
  {
    if f in PreorderAll(frames, all, kids, d + 1) {
      var c, k := PreorderAllBelow(frames, all, kids, d + 1, f);
      OneDepth(frames, f, d, d + 1 + k);
    }
  }

  lemma {:induction false} PreorderAllNoDup(frames: FrameMap, all: seq<FrameId>, fs: seq<FrameId>, d: nat)
    requires Lists(frames, all) && AllAt(frames, fs, d) && NoDup(fs)
    ensures NoDup(PreorderAll(frames, all, fs, d))
    decreases DeeperThan(frames, d), |fs| + 1
  {
    if fs != [] {
      PreorderNoDup(frames, all, fs[0], d);
      PreorderAllNoDup(frames, all, fs[1..], d);
      var a, b := Preorder(frames, all, fs[0], d), PreorderAll(frames, all, fs[1..], d);
      forall g | g in a ensures g !in b {
        var k := PreorderBelow(frames, all, fs[0], d, g);
        if g in b {
          var c, m := PreorderAllBelow(frames, all, fs[1..], d, g);
          OneDepth(frames, g, d + k, d + m);
        }
      }
      NoDupConcat(a, b);
    }
  }

  ghost predicate IsBelow(frames: FrameMap, g: FrameId, f: FrameId) {
    exists k :: Above(frames, g, k) == Some(f)
  }

  /** An ancestor comes before its descendants, and what lies below a context before what lies below a
      later sibling. */
  ghost predicate Earlier(frames: FrameMap, g: FrameId, h: FrameId) {
    || (g != h && IsBelow(frames, h, g))
    || exists c, d :: c in frames && d in frames && c < d && frames[c].parent == frames[d].parent
                      && IsBelow(frames, g, c) && IsBelow(frames, h, d)
  }

  ghost predicate Sorted(frames: FrameMap, s: seq<FrameId>) {
    forall i, j :: 0 <= i < j < |s| ==> Earlier(frames, s[i], s[j])
  }

  lemma SortedConcat(frames: FrameMap, x: seq<FrameId>, y: seq<FrameId>)
    requires Sorted(frames, x) && Sorted(frames, y) && forall g, h :: g in x && h in y ==> Earlier(frames, g, h)
    ensures Sorted(frames, x + y)
  {
  }

  lemma {:induction false} PreorderSorted(frames: FrameMap, all: seq<FrameId>, f: FrameId, d: nat)
    requires Lists(frames, all) && RootedAt(frames, f, d)
    ensures Sorted(frames, Preorder(frames, all, f, d))
    decreases DeeperThan(frames, d), 0
  {
    DeeperShrinks(frames, f, d);
    ChildrenAt(frames, all, f, d);
    ChildrenInOrder(frames, all, Some(f));
    var kids := ChildrenOf(frames, all, Some(f));
    var rest := PreorderAll(frames, all, kids, d + 1);
    assert forall i :: 0 <= i < |kids| ==> kids[i] in kids;
    PreorderAllSorted(frames, all, kids, d + 1, Some(f));
    NotBelowItself(frames, all, kids, f, d);
    forall g | g in rest ensures Earlier(frames, f, g) {
      var k := KidsBelow(frames, all, f, d, g);
    }
    SortedConcat(frames, [f], rest);
  }

  lemma {:induction false} PreorderAllSorted(frames: FrameMap, all: seq<FrameId>, fs: seq<FrameId>, d: nat,
                                             parent: Option<FrameId>)
    requires Lists(frames, all) && AllAt(frames, fs, d) && Increasing(fs)
    requires forall i :: 0 <= i < |fs| ==> fs[i] in frames && frames[fs[i]].parent == parent
    ensures Sorted(frames, PreorderAll(frames, all, fs, d))
    decreases DeeperThan(frames, d), |fs| + 1
  {
    if fs != [] {
      PreorderSorted(frames, all, fs[0], d);
      PreorderAllSorted(frames, all, fs[1..], d, parent);
      var x, y := Preorder(frames, all, fs[0], d), PreorderAll(frames, all, fs[1..], d);
      forall g, h | g in x && h in y ensures Earlier(frames, g, h) {
        var k := PreorderBelow(frames, all, fs[0], d, g);
        var c, m := PreorderAllBelow(frames, all, fs[1..], d, h);
        LaterSibling(frames, fs, c);
        assert IsBelow(frames, g, fs[0]) && IsBelow(frames, h, c);
      }
      SortedConcat(frames, x, y);
    }
  }

  lemma LaterSibling(frames: FrameMap, fs: seq<FrameId>, c: FrameId)
    requires fs != [] && c in fs[1..] && Increasing(fs)
    ensures fs[0] < c && c in fs
  {
    var i :| 0 <= i < |fs[1..]| && fs[1..][i] == c;
    assert fs[i + 1] == c;
  }

  /** The tree order, said of the parent links. */
  lemma TreeOrderSorted(frames: FrameMap, all: seq<FrameId>)
    requires Lists(frames, all)
    ensures Sorted(frames, TreeOrder(frames, all))
  {
    ChildrenInOrder(frames, all, None);
    var roots := Roots(frames, all);
    assert forall i :: 0 <= i < |roots| ==> roots[i] in roots;
    PreorderAllSorted(frames, all, roots, 0, None);
  }

  /** The tree order lists the rooted contexts, each once. */
  lemma TreeOrderMembers(frames: FrameMap, all: seq<FrameId>)
    requires Lists(frames, all)
    ensures NoDup(TreeOrder(frames, all))
    ensures forall g :: g in TreeOrder(frames, all) <==> Rooted(frames, g)
  {
    var roots := Roots(frames, all);
    ChildrenInOrder(frames, all, None);
    PreorderAllNoDup(frames, all, roots, 0);
    forall g ensures g in TreeOrder(frames, all) <==> Rooted(frames, g) {
      if g in TreeOrder(frames, all) {
        var c, k := PreorderAllBelow(frames, all, roots, 0, g);
        assert RootedAt(frames, g, k);
      }
      if Rooted(frames, g) {
        var d :| RootedAt(frames, g, d);
        RootedAbove(frames, g, d, d);
        var r := Above(frames, g, d).value;
        BelowInPreorder(frames, all, r, 0, g, d);
        InPreorderAll(frames, all, roots, 0, r, g);
      }
    }
  }

  // ----- The walk -----

  function Reverse(s: seq<FrameId>): seq<FrameId> {
    if s == [] then [] else Reverse(s[1..]) + [s[0]]
  }

  /** The stack holds rooted contexts only. */
  ghost predicate AllRooted(frames: FrameMap, stack: seq<FrameId>) {
    forall i :: 0 <= i < |stack| ==> Rooted(frames, stack[i])
  }

  ghost function DepthOf(frames: FrameMap, f: FrameId): nat
    requires Rooted(frames, f)
  {
    var d :| RootedAt(frames, f, d); d
  }

  /** What the stack still stands for, its top first. */
  ghost function Pending(frames: FrameMap, all: seq<FrameId>, stack: seq<FrameId>): seq<FrameId>
    requires Lists(frames, all) && AllRooted(frames, stack)
  {
    if stack == [] then []
    else
      var top := stack[|stack| - 1];
      Preorder(frames, all, top, DepthOf(frames, top)) + Pending(frames, all, stack[..|stack| - 1])
  }

  lemma PushOne(frames: FrameMap, all: seq<FrameId>, stack: seq<FrameId>, f: FrameId, d: nat)
    requires Lists(frames, all) && AllRooted(frames, stack) && RootedAt(frames, f, d)
    ensures AllRooted(frames, stack + [f])
    ensures Pending(frames, all, stack + [f]) == Preorder(frames, all, f, d) + Pending(frames, all, stack)
  {
    assert Rooted(frames, f);
    OneDepth(frames, f, d, DepthOf(frames, f));
    assert (stack + [f])[..|stack|] == stack;
  }

  /** Pushing contexts of one depth in reverse puts their preorder on top. */
  lemma {:induction false} PushReversed(frames: FrameMap, all: seq<FrameId>, stack: seq<FrameId>, fs: seq<FrameId>,
                                        d: nat)
    requires Lists(frames, all) && AllRooted(frames, stack) && AllAt(frames, fs, d)
    ensures AllRooted(frames, stack + Reverse(fs))
    ensures Pending(frames, all, stack + Reverse(fs)) == PreorderAll(frames, all, fs, d) + Pending(frames, all, stack)
    decreases |fs|
  {
    if fs == [] {
      assert stack + Reverse(fs) == stack;
    } else {
      PushReversed(frames, all, stack, fs[1..], d);
      PushOne(frames, all, stack + Reverse(fs[1..]), fs[0], d);
      ConcatAssociates(stack, Reverse(fs[1..]), [fs[0]]);
      ConcatAssociates(Preorder(frames, all, fs[0], d), PreorderAll(frames, all, fs[1..], d),
          Pending(frames, all, stack));
    }
  }

  /** Popping one context and pushing its children emits it and leaves the rest pending. */
  lemma PopStep(frames: FrameMap, all: seq<FrameId>, stack: seq<FrameId>)
    requires Lists(frames, all) && stack != [] && AllRooted(frames, stack)
    ensures var top, rest := stack[|stack| - 1], stack[..|stack| - 1];
            var after := rest + Reverse(ChildrenOf(frames, all, Some(top)));
            && AllRooted(frames, after)
            && Pending(frames, all, stack) == [top] + Pending(frames, all, after)
  {
    var top, rest := stack[|stack| - 1], stack[..|stack| - 1];
    var d := DepthOf(frames, top);
    ChildrenAt(frames, all, top, d);
    var kids := ChildrenOf(frames, all, Some(top));
    PushReversed(frames, all, rest, kids, d + 1);
    ConcatAssociates([top], PreorderAll(frames, all, kids, d + 1), Pending(frames, all, rest));
  }

  /** The loop has emitted `out`; the stack holds what is left of `order`. */
  ghost predicate Walking(frames: FrameMap, all: seq<FrameId>, out: seq<FrameId>, stack: seq<FrameId>,
                          order: seq<FrameId>)
    requires Lists(frames, all)
  {
    AllRooted(frames, stack) && order == out + Pending(frames, all, stack)
  }

  lemma WalkingStart(frames: FrameMap, all: seq<FrameId>, stack: seq<FrameId>)
    requires Lists(frames, all) && stack == Reverse(ChildrenOf(frames, all, None))
    ensures Walking(frames, all, [], stack, TreeOrder(frames, all))
  {
    var roots := Roots(frames, all);
    PushReversed(frames, all, [], roots, 0);
    assert [] + Reverse(roots) == stack;
    assert TreeOrder(frames, all) + [] == TreeOrder(frames, all) == [] + TreeOrder(frames, all);
  }

  lemma MoveOne<T>(order: seq<T>, out: seq<T>, top: T, rest: seq<T>)
    requires order == out + ([top] + rest)
    ensures order == (out + [top]) + rest && (NoDup(order) ==> top !in out) && |out| < |order|
  {
    assert order[|out|] == top;
    forall i | 0 <= i < |out| ensures out[i] == order[i] {}
  }

  /** The guard never fires: a context has one parent link, so it is pushed once. */
  lemma WalkingStep(frames: FrameMap, all: seq<FrameId>, out: seq<FrameId>, stack: seq<FrameId>, order: seq<FrameId>)
    requires Lists(frames, all) && Walking(frames, all, out, stack, order) && stack != [] && NoDup(order)
    ensures var top, rest := stack[|stack| - 1], stack[..|stack| - 1];
            && top !in out && |out| < |order|
            && Walking(frames, all, out + [top], rest + Reverse(ChildrenOf(frames, all, Some(top))), order)
  {
    var top, rest := stack[|stack| - 1], stack[..|stack| - 1];
    PopStep(frames, all, stack);
    MoveOne(order, out, top, Pending(frames, all, rest + Reverse(ChildrenOf(frames, all, Some(top)))));
  }

  /** The depth-first loop of `frames_in_tree_order`. */
  method WalkDown(frames: FrameMap, all: seq<FrameId>) returns (out: seq<FrameId>)
    requires Lists(frames, all)
    ensures out == TreeOrder(frames, all)
  {
    out := [];
    var stack := Reverse(ChildrenOf(frames, all, None));
    ghost var order := TreeOrder(frames, all);
    WalkingStart(frames, all, stack);
    TreeOrderMembers(frames, all);
    while stack != []
      invariant Walking(frames, all, out, stack, order)
      decreases |order| - |out|, |stack|
    {
      var top := stack[|stack| - 1];
      WalkingStep(frames, all, out, stack, order);
      stack := stack[..|stack| - 1];
      if top in out {
        continue;
      }
      out := out + [top];
      stack := stack + Reverse(ChildrenOf(frames, all, Some(top)));
    }
  }

  ghost function Unrooted(frames: FrameMap, s: seq<FrameId>): (r: seq<FrameId>)
    ensures forall f :: f in r <==> f in s && !Rooted(frames, f)
  {
    if s == [] then []
    else Unrooted(frames, s[..|s| - 1]) + if Rooted(frames, s[|s| - 1]) then [] else [s[|s| - 1]]
  }

  /** The second loop has looked at the first `i` contexts. */
  ghost predicate Filled(frames: FrameMap, all: seq<FrameId>, i: nat, out: seq<FrameId>)
    requires Lists(frames, all)
  {
    i <= |all| && out == TreeOrder(frames, all) + Unrooted(frames, all[..i]) && NoDup(out)
  }

  /** A context is emitted already exactly when it is rooted. */
  lemma LeftOver(frames: FrameMap, all: seq<FrameId>, i: nat, out: seq<FrameId>)
    requires Lists(frames, all) && i < |all| && Filled(frames, all, i, out)
    ensures Filled(frames, all, i + 1, if all[i] in out then out else out + [all[i]])
  {
    var order, left, f := TreeOrder(frames, all), Unrooted(frames, all[..i]), all[i];
    TreeOrderMembers(frames, all);
    LeftOverOne(frames, all, i);
    InConcat(f, order, left);
    if !Rooted(frames, f) {
      ConcatAssociates(order, left, [f]);
      NoDupSnoc(out, f);
    }
  }

  lemma LeftOverOne(frames: FrameMap, all: seq<FrameId>, i: nat)
    requires Lists(frames, all) && i < |all|
    ensures all[i] !in Unrooted(frames, all[..i])
    ensures Unrooted(frames, all[..i + 1]) ==
              if Rooted(frames, all[i]) then Unrooted(frames, all[..i]) else Unrooted(frames, all[..i]) + [all[i]]
  {
    assert all[..i + 1][..i] == all[..i];
    assert all[i] !in all[..i];
    assert Unrooted(frames, all[..i]) + [] == Unrooted(frames, all[..i]);
  }

  /** `frames_in_tree_order`: the preorder of everything reached from a root, then, in slot
      order, the contexts whose parent links run into a cycle or name a context that is gone. */
  method FramesInTreeOrder(frames: FrameMap, all: seq<FrameId>) returns (out: seq<FrameId>)
    requires Lists(frames, all)
    ensures out == TreeOrder(frames, all) + Unrooted(frames, all)
    ensures NoDup(out) && forall f :: f in out <==> f in frames
  {
    out := WalkDown(frames, all);
    FillStart(frames, all);
    for i := 0 to |all|
      invariant Filled(frames, all, i, out)
    {
      LeftOver(frames, all, i, out);
      if all[i] !in out {
        out := out + [all[i]];
      }
    }
    assert all[..|all|] == all;
    NothingLost(frames, all);
  }

  lemma FillStart(frames: FrameMap, all: seq<FrameId>)
    requires Lists(frames, all)
    ensures Filled(frames, all, 0, TreeOrder(frames, all))
  {
    TreeOrderMembers(frames, all);
    assert TreeOrder(frames, all) + [] == TreeOrder(frames, all);
  }

  lemma NothingLost(frames: FrameMap, all: seq<FrameId>)
    requires Lists(frames, all)
    ensures forall f :: f in TreeOrder(frames, all) + Unrooted(frames, all) <==> f in frames
  {
    TreeOrderMembers(frames, all);
    forall f ensures f in TreeOrder(frames, all) + Unrooted(frames, all) <==> f in frames {
      if Rooted(frames, f) { assert f in frames && f in TreeOrder(frames, all); }
    }
  }

  // ----- Finding a context by name -----

  const MAX_FRAME_DESCENT: nat := 10

  /** `ancestor` is above `of`: however far, or within the walk's bound. */
  ghost predicate IsAncestor(frames: FrameMap, ancestor: FrameId, of: FrameId, bounded: bool) {
    exists k: nat :: k > 0 && (bounded ==> k <= 10) && Above(frames, of, k) == Some(ancestor)
  }

  /** `is_ancestor_frame`: a walk of at most ten links. */
  method IsAncestorFrame(frames: FrameMap, ancestor: FrameId, of: FrameId) returns (r: bool)
    ensures r <==> IsAncestor(frames, ancestor, of, true)
  {
    var current := if of in frames then frames[of].parent else None;
    assert Above(frames, of, 0) == Some(of);
    AboveStep(frames, of, 0);
    for i := 1 to MAX_FRAME_DESCENT + 1
      invariant current == Above(frames, of, i)
      invariant forall k: nat :: 0 < k < i ==> Above(frames, of, k) != Some(ancestor)
    {
      if current.None? {
        forall k: nat | i <= k ensures Above(frames, of, k) == None { AboveNone(frames, of, i, k); }
        return false;
      }
      if current.value == ancestor { return true; }
      AboveStep(frames, of, i);
      current := if current.value in frames then frames[current.value].parent else None;
    }
    return false;
  }

  lemma {:induction false} AboveNone(frames: FrameMap, f: FrameId, i: nat, k: nat)
    requires i <= k && Above(frames, f, i) == None
    ensures Above(frames, f, k) == None
    decreases k - i
  {
    if i < k { AboveStep(frames, f, i); AboveNone(frames, f, i + 1, k); }
  }

  /** The four families searched, nearest first: the context itself, its descendants, its
      ancestors, all others. The program sees ancestors only within the bound. */
  ghost function Family(frames: FrameMap, from: FrameId, f: FrameId, bounded: bool): nat {
    if f == from then 0
    else if IsAncestor(frames, from, f, bounded) then 1
    else if IsAncestor(frames, f, from, bounded) then 2
    else 3
  }

  /** No context is nested deeper than the ancestor walk looks. */
  ghost predicate Shallow(frames: FrameMap) {
    forall f :: f in frames ==>
      forall k: nat {:trigger Above(frames, f, k)} :: k > 10 ==> Above(frames, f, k) == None
  }

  /** In a shallow page the bound makes no difference. */
  lemma ShallowFamilies(frames: FrameMap, from: FrameId, f: FrameId)
    requires Shallow(frames)
    ensures Family(frames, from, f, true) == Family(frames, from, f, false)
  {
    ShallowAncestors(frames, from, f);
    ShallowAncestors(frames, f, from);
  }

  lemma ShallowAncestors(frames: FrameMap, ancestor: FrameId, of: FrameId)
    requires Shallow(frames)
    ensures IsAncestor(frames, ancestor, of, true) <==> IsAncestor(frames, ancestor, of, false)
  {
    if IsAncestor(frames, ancestor, of, false) {
      var k: nat :| k > 0 && Above(frames, of, k) == Some(ancestor);
      assert of in frames && k <= MAX_FRAME_DESCENT;
    }
    if k: nat :| 0 < k <= MAX_FRAME_DESCENT && Above(frames, of, k) == Some(ancestor) {
      assert k > 0 && Above(frames, of, k) == Some(ancestor);
    }
  }

  /** A chain of contexts below 2, each the next one's parent; 1 and 2 are siblings of one name. */
  function Deep(): FrameMap {
    map f | f in DEEP_IDS ::
      Frame(if f == 0 then None else if f <= 2 then Some(0) else Some(f - 1), if f == 1 || f == 2 then "x" else "")
  }

  const DEEP_IDS: set<FrameId> := {0, 1, 2, 3, 4, 5, 6, 7, 8, 9, 10, 11, 12, 13}

  /** Eleven levels down the ancestor 2 should be preferred to the unrelated 1; the program ranks
      the two alike and takes the earlier. */
  lemma DeepAncestorMissed(all: seq<FrameId>)
    requires Lists(Deep(), all)
    ensures Chosen(Deep(), all, 13, "x", 2, false) && !Chosen(Deep(), all, 13, "x", 1, false)
    ensures Chosen(Deep(), all, 13, "x", 1, true) && !Chosen(Deep(), all, 13, "x", 2, true)
  {
    var frames := Deep();
    DeepOrder(all);
    NothingLost(frames, all);
    NameOrderNoDup(frames, all);
    var order := TreeOrder(frames, all) + Unrooted(frames, all);
    assert 2 in frames && 2 in order;
    var i :| 0 <= i < |order| && order[i] == 2;
    DeepLeads(order, i);
    if Chosen(frames, all, 13, "x", 2, true) { OneChosen(frames, all, 13, "x", 1, 2, true); }
    if Chosen(frames, all, 13, "x", 1, false) { OneChosen(frames, all, 13, "x", 1, 2, false); }
  }

  lemma DeepLeads(order: seq<FrameId>, i: nat)
    requires |order| >= 2 && order[0] == 0 && order[1] == 1 && i < |order| && order[i] == 2 && NoDup(order)
    ensures Leads(Deep(), 13, "x", order, |order|, i, false) && Leads(Deep(), 13, "x", order, |order|, 1, true)
  {
    var frames := Deep();
    DeepFamilies();
    forall j | 0 <= j < |order| && Called(frames, order[j], "x")
      ensures Wins(frames, 13, order, i, j, false) && Wins(frames, 13, order, 1, j, true)
    {
      assert order[j] == 1 || order[j] == 2;
      assert j == 1 || j == i;
    }
  }

  lemma DeepFamilies()
    ensures Family(Deep(), 13, 1, false) == 3 && Family(Deep(), 13, 2, false) == 2
    ensures Family(Deep(), 13, 1, true) == 3 && Family(Deep(), 13, 2, true) == 3
  {
    var frames := Deep();
    forall k: nat
      ensures Above(frames, 13, k) == (if k <= 11 then Some(13 - k) else if k == 12 then Some(0) else None)
      ensures Above(frames, 1, k) == (if k == 0 then Some(1) else if k == 1 then Some(0) else None)
      ensures Above(frames, 2, k) == (if k == 0 then Some(2) else if k == 1 then Some(0) else None)
    {
      AboveDeep(k);
    }
    assert Above(frames, 13, 11) == Some(2);
    assert IsAncestor(frames, 2, 13, false);
  }

  /** The tree order of that page begins with 0 and 1. */
  lemma DeepOrder(all: seq<FrameId>)
    requires Lists(Deep(), all)
    ensures var order := TreeOrder(Deep(), all); |order| >= 2 && order[0] == 0 && order[1] == 1
  {
    var frames, roots := Deep(), Roots(Deep(), all);
    FirstKids(all);
    ChildrenAt(frames, all, 0, 0);
    var kids := ChildrenOf(frames, all, Some(0));
    StartsWithFirst(frames, all, kids, 1);
    assert Preorder(frames, all, 0, 0) == [0] + PreorderAll(frames, all, kids, 1);
    assert PreorderAll(frames, all, roots, 0) == Preorder(frames, all, 0, 0) + PreorderAll(frames, all, roots[1..], 0);
  }

  lemma StartsWithFirst(frames: FrameMap, all: seq<FrameId>, fs: seq<FrameId>, d: nat)
    requires Lists(frames, all) && AllAt(frames, fs, d) && fs != []
    ensures PreorderAll(frames, all, fs, d) != [] && PreorderAll(frames, all, fs, d)[0] == fs[0]
  {
    assert Preorder(frames, all, fs[0], d)[0] == fs[0];
  }

  lemma FirstKids(all: seq<FrameId>)
    requires Lists(Deep(), all)
    ensures var roots, kids := Roots(Deep(), all), ChildrenOf(Deep(), all, Some(0));
            roots != [] && roots[0] == 0 && kids != [] && kids[0] == 1 && RootedAt(Deep(), 0, 0) &&
                RootedAt(Deep(), 1, 1)
  {
    var frames, roots, kids := Deep(), Roots(Deep(), all), ChildrenOf(Deep(), all, Some(0));
    assert 0 in frames && 1 in frames;
    assert 0 in roots && 1 in kids;
    assert roots[0] in roots && kids[0] in kids;
    ChildrenInOrder(frames, all, Some(0));
  }

  lemma {:induction false} AboveDeep(k: nat)
    ensures Above(Deep(), 13, k) == if k <= 11 then Some(13 - k) else if k == 12 then Some(0) else None
    ensures Above(Deep(), 1, k) == if k == 0 then Some(1) else if k == 1 then Some(0) else None
    ensures Above(Deep(), 2, k) == if k == 0 then Some(2) else if k == 1 then Some(0) else None
  {
    if k > 0 {
      AboveDeep(k - 1);
      AboveStep(Deep(), 13, k - 1);
      AboveStep(Deep(), 1, k - 1);
      AboveStep(Deep(), 2, k - 1);
    }
  }

  method RankOf(frames: FrameMap, from: FrameId, f: FrameId) returns (rank: nat)
    ensures rank == Family(frames, from, f, true)
  {
    if f == from { return 0; }
    var below := IsAncestorFrame(frames, from, f);
    if below { return 1; }
    var above := IsAncestorFrame(frames, f, from);
    return if above then 2 else 3;
  }

  /** Of two contexts, the `i`-th is at least as near as the `j`-th, and the earlier if equally near. */
  ghost predicate Wins(frames: FrameMap, from: FrameId, order: seq<FrameId>, i: nat, j: nat, bounded: bool)
    requires i < |order| && j < |order|
  {
    var a, b := Family(frames, from, order[i], bounded), Family(frames, from, order[j], bounded);
    a < b || (a == b && i <= j)
  }

  ghost predicate Called(frames: FrameMap, f: FrameId, name: string) {
    f in frames && frames[f].name == name
  }

  /** Among the first `n` of `order`, the `at`-th is the one of that name to choose. */
  ghost predicate Leads(frames: FrameMap, from: FrameId, name: string, order: seq<FrameId>, n: nat, at: nat,
                        bounded: bool)
    requires n <= |order|
  {
    && at < n && Called(frames, order[at], name)
    && forall j :: 0 <= j < n && Called(frames, order[j], name) ==> Wins(frames, from, order, at, j, bounded)
  }

  lemma LeadsStep(frames: FrameMap, from: FrameId, name: string, order: seq<FrameId>, n: nat, at: nat)
    requires n < |order| && Leads(frames, from, name, order, n, at, true) && Called(frames, order[n], name)
    ensures Leads(frames, from, name, order, n + 1,
                  if Family(frames, from, order[n], true) < Family(frames, from, order[at], true) then n else at, true)
  {
  }

  lemma ShallowLeads(frames: FrameMap, from: FrameId, name: string, order: seq<FrameId>, at: nat)
    requires Shallow(frames) && Leads(frames, from, name, order, |order|, at, true)
    ensures Leads(frames, from, name, order, |order|, at, false)
  {
    forall j | 0 <= j < |order| && Called(frames, order[j], name) ensures Wins(frames, from, order, at, j, false) {
      assert Wins(frames, from, order, at, j, true);
      ShallowFamilies(frames, from, order[at]);
      ShallowFamilies(frames, from, order[j]);
    }
  }

  /** `min_by_key` over the contexts of that name. */
  method Least(frames: FrameMap, from: FrameId, name: string, order: seq<FrameId>) returns (r: Option<nat>)
    requires forall f :: f in order ==> f in frames
    ensures r.None? ==> forall f :: f in order ==> frames[f].name != name
    ensures r.Some? ==> Leads(frames, from, name, order, |order|, r.value, true)
  {
    r := None;
    var best := 0;
    for i := 0 to |order|
      invariant r.None? ==> forall j :: 0 <= j < i ==> !Called(frames, order[j], name)
      invariant r.Some? ==> r.value < i && best == Family(frames, from, order[r.value], true)
      invariant r.Some? ==> Leads(frames, from, name, order, i, r.value, true)
    {
      assert order[i] in order;
      if frames[order[i]].name == name {
        var rank := RankOf(frames, from, order[i]);
        if r.Some? { LeadsStep(frames, from, name, order, i, r.value); }
        if r.None? || rank < best {
          r, best := Some(i), rank;
        }
      }
    }
  }

  /** `frame_by_name`: of the contexts called `name`, the nearest by family and then by tree
      order, as far as the bounded walk can tell. It is the nearest that any walk could find
      exactly when `Kept` says so. */
  method FrameByName(frames: FrameMap, all: seq<FrameId>, from: FrameId, name: string) returns (r: Option<FrameId>)
    requires Lists(frames, all)
    ensures r.None? <==> name == "" || forall f :: f in frames ==> frames[f].name != name
    ensures r.Some? ==> Chosen(frames, all, from, name, r.value, true)
    ensures r.Some? ==> exists h :: Chosen(frames, all, from, name, h, false)
    ensures r.Some? ==> forall h: FrameId :: Chosen(frames, all, from, name, h, false) ==>
              (r.value == h <==> Kept(frames, all, from, name, h))
    ensures r.Some? && Shallow(frames) ==> Chosen(frames, all, from, name, r.value, false)
  {
    if name == "" { return None; }
    var order := FramesInTreeOrder(frames, all);
    var at := Least(frames, from, name, order);
    match at {
      case None => return None;
      case Some(i) =>
        r := Some(order[i]);
        assert Chosen(frames, all, from, name, order[i], true);
        NearestExists(frames, all, from, name, i);
        AnswerKept(frames, all, from, name, order[i]);
        if Shallow(frames) { ShallowLeads(frames, from, name, order, i); }
    }
  }

  ghost predicate Chosen(frames: FrameMap, all: seq<FrameId>, from: FrameId, name: string, f: FrameId, bounded: bool)
    requires Lists(frames, all)
  {
    var order := TreeOrder(frames, all) + Unrooted(frames, all);
    exists i :: 0 <= i < |order| && order[i] == f && Leads(frames, from, name, order, |order|, i, bounded)
  }

  /** What the nearest context is, said of each other context of that name: the caller itself comes first,
      then its descendants, then its ancestors, then the rest; and of those standing alike to the
      caller, the first. */
  lemma NearestIs(frames: FrameMap, all: seq<FrameId>, from: FrameId, name: string, f: FrameId, g: FrameId,
                  bounded: bool)
    requires Lists(frames, all) && Chosen(frames, all, from, name, f, bounded) && Called(frames, g, name)
    ensures g == from ==> f == from
    ensures f != from && IsAncestor(frames, from, g, bounded) ==> IsAncestor(frames, from, f, bounded)
    ensures f != from && IsAncestor(frames, g, from, bounded) ==>
              IsAncestor(frames, from, f, bounded) || IsAncestor(frames, f, from, bounded)
    ensures f != from && g != from
            && (IsAncestor(frames, from, f, bounded) <==> IsAncestor(frames, from, g, bounded))
            && (IsAncestor(frames, f, from, bounded) <==> IsAncestor(frames, g, from, bounded)) ==>
              NotAfter(TreeOrder(frames, all) + Unrooted(frames, all), f, g)
  {
    var order := TreeOrder(frames, all) + Unrooted(frames, all);
    var i :| 0 <= i < |order| && order[i] == f && Leads(frames, from, name, order, |order|, i, bounded);
    NothingLost(frames, all);
    NameOrderNoDup(frames, all);
    assert g in frames && g in order;
    var j :| 0 <= j < |order| && order[j] == g;
    assert Wins(frames, from, order, i, j, bounded);
  }

  ghost predicate NotAfter(order: seq<FrameId>, f: FrameId, g: FrameId) {
    exists i, j :: 0 <= i <= j < |order| && order[i] == f && order[j] == g
  }

  lemma NameOrderNoDup(frames: FrameMap, all: seq<FrameId>)
    requires Lists(frames, all)
    ensures NoDup(TreeOrder(frames, all) + Unrooted(frames, all))
  {
    TreeOrderMembers(frames, all);
    UnrootedNoDup(frames, all);
    NoDupConcat(TreeOrder(frames, all), Unrooted(frames, all));
  }

  lemma {:induction false} UnrootedNoDup(frames: FrameMap, s: seq<FrameId>)
    requires Increasing(s)
    ensures NoDup(Unrooted(frames, s))
  {
    if s != [] {
      var init, f := s[..|s| - 1], s[|s| - 1];
      UnrootedNoDup(frames, init);
      assert f !in init;
      NoDupSnoc(Unrooted(frames, init), f);
    }
  }

  lemma OneChosen(frames: FrameMap, all: seq<FrameId>, from: FrameId, name: string, f: FrameId, g: FrameId,
                  bounded: bool)
    requires Lists(frames, all) && Chosen(frames, all, from, name, f, bounded) &&
             Chosen(frames, all, from, name, g, bounded)
    ensures f == g
  {
    var order := TreeOrder(frames, all) + Unrooted(frames, all);
    var i :| 0 <= i < |order| && order[i] == f && Leads(frames, from, name, order, |order|, i, bounded);
    var j :| 0 <= j < |order| && order[j] == g && Leads(frames, from, name, order, |order|, j, bounded);
    assert Wins(frames, from, order, i, j, bounded) && Wins(frames, from, order, j, i, bounded);
  }

  /** If any context has the name, some context is the nearest. */
  lemma NearestExists(frames: FrameMap, all: seq<FrameId>, from: FrameId, name: string, i: nat)
    requires Lists(frames, all)
    requires var order := TreeOrder(frames, all) + Unrooted(frames, all); i < |order| && Called(frames, order[i], name)
    ensures exists h :: Chosen(frames, all, from, name, h, false)
  {
    var order := TreeOrder(frames, all) + Unrooted(frames, all);
    var at := NearestOf(frames, from, name, order, |order|, i);
    assert Chosen(frames, all, from, name, order[at], false);
  }

  lemma {:induction false} NearestOf(frames: FrameMap, from: FrameId, name: string, order: seq<FrameId>, n: nat,
                                     i: nat) returns (at: nat)
    requires i < n <= |order| && Called(frames, order[i], name)
    ensures Leads(frames, from, name, order, n, at, false)
    decreases n
  {
    if j: nat :| j < n - 1 && Called(frames, order[j], name) {
      at := NearestOf(frames, from, name, order, n - 1, j);
      if Called(frames, order[n - 1], name) && !Wins(frames, from, order, at, n - 1, false) { at := n - 1; }
    } else {
      at := i;
    }
  }

  // ----- When the bound makes no difference -----

  /** Families seen within the bound are never nearer than they are. */
  lemma FamiliesRise(frames: FrameMap, from: FrameId, f: FrameId)
    ensures Family(frames, from, f, false) <= Family(frames, from, f, true) <= 3
  {
    AncestorsFade(frames, from, f);
    AncestorsFade(frames, f, from);
  }

  lemma AncestorsFade(frames: FrameMap, ancestor: FrameId, of: FrameId)
    ensures IsAncestor(frames, ancestor, of, true) ==> IsAncestor(frames, ancestor, of, false)
  {
    if k: nat :| 0 < k <= MAX_FRAME_DESCENT && Above(frames, of, k) == Some(ancestor) {
      assert k > 0 && Above(frames, of, k) == Some(ancestor);
    }
  }

  lemma {:induction false} AboveAdds(frames: FrameMap, f: FrameId, j: nat, k: nat)
    requires Above(frames, f, j).Some?
    ensures Above(frames, f, j + k) == Above(frames, Above(frames, f, j).value, k)
    decreases j
  {
    if j > 0 { AboveAdds(frames, frames[f].parent.value, j - 1, k); }
  }

  /** The parent links from this context lead back to it. */
  ghost predicate OnLoop(frames: FrameMap, f: FrameId) {
    IsAncestor(frames, f, f, false)
  }

  /** A context whose family is not seen ranks last, unless the search starts on a loop. */
  lemma UnseenIsLast(frames: FrameMap, from: FrameId, f: FrameId)
    requires Family(frames, from, f, true) != Family(frames, from, f, false)
    ensures Family(frames, from, f, true) == 3 || (Family(frames, from, f, true) == 2 && OnLoop(frames, from))
  {
    FamiliesRise(frames, from, f);
    if Family(frames, from, f, true) == 2 {
      AncestorsFade(frames, f, from);
      var j: nat :| 0 < j <= MAX_FRAME_DESCENT && Above(frames, from, j) == Some(f);
      var k: nat :| k > 0 && Above(frames, f, k) == Some(from);
      AboveAdds(frames, from, j, k);
      assert j + k > 0 && Above(frames, from, j + k) == Some(from);
    }
  }

  /** No context of that name is seen to rank below `rank`. */
  ghost predicate NoneNearer(frames: FrameMap, from: FrameId, name: string, rank: nat) {
    forall f :: Called(frames, f, name) ==> Family(frames, from, f, true) >= rank
  }

  /** `h` is the first context of that name seen to rank `rank`. */
  ghost predicate FirstRanked(frames: FrameMap, all: seq<FrameId>, from: FrameId, name: string, h: FrameId, rank: nat)
    requires Lists(frames, all)
  {
    var order := TreeOrder(frames, all) + Unrooted(frames, all);
    && Called(frames, h, name) && Family(frames, from, h, true) == rank
    && exists i :: 0 <= i < |order| && order[i] == h
         && forall j :: 0 <= j < i && Called(frames, order[j], name) ==> Family(frames, from, order[j], true) != rank
  }

  /** The nearest context is the answer when its family is seen. When it is not, it ranks last, and is
      the answer only if all of that name do and it comes first; on a loop of parent links a descendant
      may be seen as an ancestor instead. */
  ghost predicate Kept(frames: FrameMap, all: seq<FrameId>, from: FrameId, name: string, h: FrameId)
    requires Lists(frames, all)
  {
    || Family(frames, from, h, true) == Family(frames, from, h, false)
    || (NoneNearer(frames, from, name, 3) && FirstRanked(frames, all, from, name, h, 3))
    || (OnLoop(frames, from) && NoneNearer(frames, from, name, 2) && FirstRanked(frames, all, from, name, h, 2))
  }

  lemma ChoiceKept(frames: FrameMap, all: seq<FrameId>, from: FrameId, name: string, h: FrameId)
    requires Lists(frames, all) && Chosen(frames, all, from, name, h, false)
    ensures Chosen(frames, all, from, name, h, true) <==> Kept(frames, all, from, name, h)
  {
    NothingLost(frames, all);
    if Family(frames, from, h, true) == Family(frames, from, h, false) {
      SeenChoice(frames, all, from, name, h);
    } else {
      UnseenIsLast(frames, from, h);
      FirstIsChosen(frames, all, from, name, h, Family(frames, from, h, true));
    }
  }

  lemma AnswerKept(frames: FrameMap, all: seq<FrameId>, from: FrameId, name: string, r: FrameId)
    requires Lists(frames, all) && Chosen(frames, all, from, name, r, true)
    ensures forall h: FrameId :: Chosen(frames, all, from, name, h, false) ==>
            (r == h <==> Kept(frames, all, from, name, h))
  {
    NameOrderNoDup(frames, all);
    forall h: FrameId | Chosen(frames, all, from, name, h, false) ensures r == h <==> Kept(frames, all, from, name, h) {
      ChoiceKept(frames, all, from, name, h);
      if Kept(frames, all, from, name, h) { OneChosen(frames, all, from, name, h, r, true); }
    }
  }

  lemma SeenChoice(frames: FrameMap, all: seq<FrameId>, from: FrameId, name: string, h: FrameId)
    requires Lists(frames, all) && Chosen(frames, all, from, name, h, false)
    requires Family(frames, from, h, true) == Family(frames, from, h, false)
    ensures Chosen(frames, all, from, name, h, true)
  {
    var order := TreeOrder(frames, all) + Unrooted(frames, all);
    var i :| 0 <= i < |order| && order[i] == h && Leads(frames, from, name, order, |order|, i, false);
    forall j | 0 <= j < |order| && Called(frames, order[j], name) ensures Wins(frames, from, order, i, j, true) {
      assert Wins(frames, from, order, i, j, false);
      FamiliesRise(frames, from, order[j]);
    }
    assert Leads(frames, from, name, order, |order|, i, true);
  }

  /** The choice is the first of the least rank. */
  lemma FirstIsChosen(frames: FrameMap, all: seq<FrameId>, from: FrameId, name: string, h: FrameId, rank: nat)
    requires Lists(frames, all) && Family(frames, from, h, true) == rank
    requires forall f :: f in TreeOrder(frames, all) + Unrooted(frames, all) <==> f in frames
    ensures Chosen(frames, all, from, name, h, true) <==>
            NoneNearer(frames, from, name, rank) && FirstRanked(frames, all, from, name, h, rank)
  {
    var order := TreeOrder(frames, all) + Unrooted(frames, all);
    if Chosen(frames, all, from, name, h, true) {
      var i :| 0 <= i < |order| && order[i] == h && Leads(frames, from, name, order, |order|, i, true);
      forall f | Called(frames, f, name) ensures Family(frames, from, f, true) >= rank {
        assert f in order;
        var j :| 0 <= j < |order| && order[j] == f;
        assert Wins(frames, from, order, i, j, true);
      }
      forall j | 0 <= j < i && Called(frames, order[j], name) ensures Family(frames, from, order[j], true) != rank {
        assert Wins(frames, from, order, i, j, true);
      }
    }
    if NoneNearer(frames, from, name, rank) && FirstRanked(frames, all, from, name, h, rank) {
      var i :| 0 <= i < |order| && order[i] == h
        && forall j :: 0 <= j < i && Called(frames, order[j], name) ==> Family(frames, from, order[j], true) != rank;
      forall j | 0 <= j < |order| && Called(frames, order[j], name) ensures Wins(frames, from, order, i, j, true) {}
      assert Leads(frames, from, name, order, |order|, i, true);
    }
  }
}
