/**
  * `TreeWalker.nextNode` and `previousNode`: pointer-chasing loops that walk the accepted
  * nodes with no rejected ancestor, in tree order, and back.
  */
module TreeWalker {
  import opened Common
  import opened TreeOrder
  import opened NodeIterator

  type Filter = Address -> Verdict

  // ----- What is visible -----

  /** The visible nodes of the subtree at `a`: a rejected node hides its subtree, a skipped one only itself. */
  ghost function Visible(doc: Tree, f: Filter, a: Address): seq<Address>
    requires Exists(doc, a)
    decreases At(doc, a), Width(doc, a) + 1
  {
    match f(a)
    case Accept => [a] + VisibleFrom(doc, f, a, 0)
    case Skip => VisibleFrom(doc, f, a, 0)
    case Reject => []
  }

  /** Those below `a`'s children from the `k`-th on. */
  ghost function VisibleFrom(doc: Tree, f: Filter, a: Address, k: nat): (r: seq<Address>)
    requires Exists(doc, a) && k <= Width(doc, a)
    ensures k == Width(doc, a) ==> r == []
    decreases At(doc, a), Width(doc, a) - k
  {
    if k == Width(doc, a) then []
    else KidExists(doc, a, k); Visible(doc, f, a + [k]) + VisibleFrom(doc, f, a, k + 1)
  }

  /** Those below `a`'s first `k` children. */
  ghost function VisibleTo(doc: Tree, f: Filter, a: Address, k: nat): seq<Address>
    requires Exists(doc, a) && k <= Width(doc, a)
  {
    if k == 0 then []
    else KidExists(doc, a, k - 1); VisibleTo(doc, f, a, k - 1) + Visible(doc, f, a + [k - 1])
  }

  lemma {:induction false} VisibleSplit(doc: Tree, f: Filter, a: Address, k: nat)
    requires Exists(doc, a) && k <= Width(doc, a)
    ensures VisibleTo(doc, f, a, k) + VisibleFrom(doc, f, a, k) == VisibleFrom(doc, f, a, 0)
  {
    if k > 0 {
      VisibleSplit(doc, f, a, k - 1);
      KidExists(doc, a, k - 1);
    }
  }

  ghost function Self(f: Filter, a: Address): seq<Address> {
    if f(a) == Accept then [a] else []
  }

  /** What comes after the subtree at `a`, within the root's. */
  ghost function Rest(doc: Tree, f: Filter, root: Address, a: Address): seq<Address>
    requires Exists(doc, a)
    decreases |a|
  {
    if a == root || a == [] then []
    else
      var p, k := a[..|a| - 1], a[|a| - 1];
      VisibleFrom(doc, f, p, k + 1) + Rest(doc, f, root, p)
  }

  ghost function After(doc: Tree, f: Filter, root: Address, a: Address): seq<Address>
    requires Exists(doc, a)
  {
    VisibleFrom(doc, f, a, 0) + Rest(doc, f, root, a)
  }

  /** What comes before `a`: its accepted ancestors up to the root included, and all that is
      visible below their earlier children. */
  ghost function Before(doc: Tree, f: Filter, root: Address, a: Address): seq<Address>
    requires Exists(doc, a)
    decreases |a|
  {
    if a == root || a == [] then []
    else
      var p, k := a[..|a| - 1], a[|a| - 1];
      Before(doc, f, root, p) + Self(f, p) + VisibleTo(doc, f, p, k)
  }

  // ----- One pointer step -----

  const ALL: Filter := _ => Accept

  /** Standing at `node` with its verdict known, what is still ahead. */
  ghost function Ahead(doc: Tree, f: Filter, root: Address, node: Address, rejected: bool): seq<Address>
    requires Exists(doc, node)
  {
    if rejected then Rest(doc, f, root, node) else After(doc, f, root, node)
  }

  lemma RestOfKid(doc: Tree, f: Filter, root: Address, p: Address, k: nat)
    requires Exists(doc, p) && root <= p && k < Width(doc, p)
    ensures Exists(doc, p + [k])
    ensures Rest(doc, f, root, p + [k]) == VisibleFrom(doc, f, p, k + 1) + Rest(doc, f, root, p)
  {
    KidExists(doc, p, k);
    assert (p + [k])[..|p|] == p;
  }

  lemma VisibleIsSelfAndBelow(doc: Tree, f: Filter, a: Address)
    requires Exists(doc, a)
    ensures Visible(doc, f, a) == Self(f, a) + if f(a) == Reject then [] else VisibleFrom(doc, f, a, 0)
  {
  }

  lemma Regroup<T>(a: seq<T>, b: seq<T>, c: seq<T>, d: seq<T>)
    ensures (a + b) + c + d == a + (b + (c + d))
    ensures (a + b + c) + d == a + (b + (c + d))
  {
  }

  /** The `k`-th child is the next thing ahead of what lies before its later siblings. */
  lemma AheadAtKid(doc: Tree, f: Filter, root: Address, p: Address, k: nat)
    requires Exists(doc, p) && root <= p && k < Width(doc, p)
    ensures var c := p + [k];
            && Exists(doc, c)
            && VisibleFrom(doc, f, p, k) + Rest(doc, f, root, p) == Self(f, c) + Ahead(doc, f, root, c, f(c) == Reject)
  {
    var c := p + [k];
    RestOfKid(doc, f, root, p, k);
    VisibleIsSelfAndBelow(doc, f, c);
    var below := if f(c) == Reject then [] else VisibleFrom(doc, f, c, 0);
    Regroup(Self(f, c), below, VisibleFrom(doc, f, p, k + 1), Rest(doc, f, root, p));
  }

  /** Going down to the first child. */
  lemma StepDown(doc: Tree, f: Filter, root: Address, node: Address)
    requires Exists(doc, node) && root <= node && FirstChild(doc, node).Some?
    ensures var c := FirstChild(doc, node).value;
            && Exists(doc, c) && root <= c
            && After(doc, f, root, node) == Self(f, c) + Ahead(doc, f, root, c, f(c) == Reject)
  {
    AheadAtKid(doc, f, root, node, 0);
  }

  /** Climbing past a node without a later sibling. */
  lemma ClimbUp(doc: Tree, f: Filter, root: Address, node: Address)
    requires Exists(doc, node) && root <= node && node != root && NextSibling(doc, node).None?
    ensures node != [] && Exists(doc, node[..|node| - 1]) && root <= node[..|node| - 1]
    ensures Rest(doc, f, root, node) == Rest(doc, f, root, node[..|node| - 1])
  {
    var p := node[..|node| - 1];
    assert node[|node| - 1] + 1 == Width(doc, p);
  }

  /** Going to the next sibling. */
  lemma StepAside(doc: Tree, f: Filter, root: Address, node: Address)
    requires Exists(doc, node) && root <= node && node != root && NextSibling(doc, node).Some?
    ensures var s := NextSibling(doc, node).value;
            && Exists(doc, s) && root <= s
            && Rest(doc, f, root, node) == Self(f, s) + Ahead(doc, f, root, s, f(s) == Reject)
  {
    AheadAtKid(doc, f, root, node[..|node| - 1], node[|node| - 1] + 1);
  }

  /** Going to the previous sibling. */
  lemma StepBack(doc: Tree, f: Filter, root: Address, node: Address)
    requires Exists(doc, node) && root < node && PreviousSibling(doc, node).Some?
    ensures var s := PreviousSibling(doc, node).value;
            && Exists(doc, s) && root < s
            && Before(doc, f, root, node) == Before(doc, f, root, s) + Visible(doc, f, s)
  {
    PointersExist(doc, node);
    var p, k := node[..|node| - 1], node[|node| - 1];
    var s := p + [k - 1];
    assert p + [k] == node;
    BeforeKid(doc, f, root, p, k);
    BeforeKid(doc, f, root, p, k - 1);
    ConcatAssociates(Before(doc, f, root, p) + Self(f, p), VisibleTo(doc, f, p, k - 1), Visible(doc, f, s));
  }

  lemma BeforeKid(doc: Tree, f: Filter, root: Address, p: Address, k: nat)
    requires Exists(doc, p) && root <= p && k < Width(doc, p)
    ensures Exists(doc, p + [k])
    ensures Before(doc, f, root, p + [k]) == Before(doc, f, root, p) + Self(f, p) + VisibleTo(doc, f, p, k)
  {
    KidExists(doc, p, k);
    var a := p + [k];
    assert a[..|a| - 1] == p && a[|a| - 1] == k && a != root;
  }

  /** Going down to the last child. */
  lemma StepDeep(doc: Tree, f: Filter, root: Address, node: Address)
    requires Exists(doc, node) && root < node && f(node) != Reject && LastChild(doc, node).Some?
    ensures var c := LastChild(doc, node).value;
            && Exists(doc, c) && root < c
            && Before(doc, f, root, node) + Visible(doc, f, node) == Before(doc, f, root, c) + Visible(doc, f, c)
  {
    var n := Width(doc, node);
    var c := node + [n - 1];
    KidExists(doc, node, n - 1);
    BeforeKid(doc, f, root, node, n - 1);
    VisibleSplit(doc, f, node, n);
    VisibleIsSelfAndBelow(doc, f, node);
    ConcatAssociates(Before(doc, f, root, node), Self(f, node), VisibleTo(doc, f, node, n));
    ConcatAssociates(Before(doc, f, root, node) + Self(f, node), VisibleTo(doc, f, node, n - 1), Visible(doc, f, c));
  }

  /** Going up from a first child. */
  lemma StepUp(doc: Tree, f: Filter, root: Address, node: Address)
    requires Exists(doc, node) && root < node && PreviousSibling(doc, node).None?
    ensures node != [] && Exists(doc, node[..|node| - 1]) && root <= node[..|node| - 1]
    ensures Before(doc, f, root, node) == Before(doc, f, root, node[..|node| - 1]) + Self(f, node[..|node| - 1])
  {
  }

  lemma LeafVisible(doc: Tree, f: Filter, a: Address)
    requires Exists(doc, a) && (f(a) == Reject || LastChild(doc, a).None?)
    ensures Visible(doc, f, a) == Self(f, a)
  {
  }

  class TreeWalker {
    const doc: Tree
    const root: Address
    const filter: Filter
    var current: Address

    ghost predicate Valid()
      reads this
    {
      Exists(doc, root) && Exists(doc, current) && root <= current
    }

    constructor (doc: Tree, root: Address, filter: Filter)
      requires Exists(doc, root)
      ensures Valid() && current == root && this.doc == doc && this.root == root && this.filter == filter
    {
      this.doc, this.root, this.filter, current := doc, root, filter, root;
    }

    /** From the node reached, the next sibling of it or of its nearest ancestor that has one. */
    method FindSibling(node: Address) returns (r: Option<Address>)
      requires Exists(doc, node) && root <= node
      ensures r.Some? ==> Exists(doc, r.value) && root <= r.value
      ensures forall f :: Rest(doc, f, root, node)
                == if r.None? then [] else Self(f, r.value) + Ahead(doc, f, root, r.value, f(r.value) == Reject)
    {
      var temporary := node;
      while true
        invariant Exists(doc, temporary) && root <= temporary
        invariant forall f :: Rest(doc, f, root, node) == Rest(doc, f, root, temporary)
        decreases |temporary|
      {
        if temporary == root { return None; }
        var sibling := NextSibling(doc, temporary);
        if sibling.Some? {
          forall f ensures Rest(doc, f, root, temporary)
                == Self(f, sibling.value) + Ahead(doc, f, root, sibling.value, f(sibling.value) == Reject)
          {
            StepAside(doc, f, root, temporary);
          }
          StepAside(doc, filter, root, temporary);
          return sibling;
        }
        forall f ensures Rest(doc, f, root, temporary) == Rest(doc, f, root, temporary[..|temporary| - 1]) {
          ClimbUp(doc, f, root, temporary);
        }
        temporary := temporary[..|temporary| - 1];
      }
    }

    /** From the node reached and its verdict, down or aside to the next candidate. */
    method NextCandidate(node: Address, rejected: bool) returns (r: Option<Address>)
      requires Exists(doc, node) && root <= node
      ensures r.Some? ==> Exists(doc, r.value) && root <= r.value
      ensures forall f :: Ahead(doc, f, root, node, rejected)
                == if r.None? then [] else Self(f, r.value) + Ahead(doc, f, root, r.value, f(r.value) == Reject)
    {
      if !rejected && FirstChild(doc, node).Some? {
        r := FirstChild(doc, node);
        StepDown(doc, filter, root, node);
        forall f ensures After(doc, f, root, node)
              == Self(f, r.value) + Ahead(doc, f, root, r.value, f(r.value) == Reject)
        {
          StepDown(doc, f, root, node);
        }
      } else {
        r := FindSibling(node);
      }
    }

    /** `nextNode`: the first node ahead, or null and no move. */
    method NextNode() returns (r: Option<Address>)
      requires Valid()
      modifies this
      ensures Valid()
      ensures var ahead := After(doc, filter, root, old(current));
              if ahead == [] then r == None && current == old(current)
              else r == Some(ahead[0]) && current == ahead[0]
    {
      var node, rejected := current, false;
      while true
        invariant Exists(doc, node) && root <= node
        invariant current == old(current)
        invariant Ahead(doc, filter, root, node, rejected) == After(doc, filter, root, current)
        decreases |Ahead(doc, ALL, root, node, rejected)|
      {
        var next := NextCandidate(node, rejected);
        if next.None? { return None; }
        ghost var last := Ahead(doc, ALL, root, node, rejected);
        assert last == Self(ALL, next.value) + Ahead(doc, ALL, root, next.value, ALL(next.value) == Reject);
        node := next.value;
        if filter(node) == Accept {
          current := node;
          return Some(node);
        }
        rejected := filter(node) == Reject;
      }
    }

    /** Below `start`, the last node not shut off by a rejection on the way. */
    method DescendLast(start: Address) returns (node: Address)
      requires Exists(doc, start) && root < start
      ensures Exists(doc, node) && root < node && (filter(node) == Reject || LastChild(doc, node).None?)
      ensures Before(doc, filter, root, node) + Visible(doc, filter, node)
              == Before(doc, filter, root, start) + Visible(doc, filter, start)
      ensures |Before(doc, ALL, root, node)| >= |Before(doc, ALL, root, start)|
      ensures |Before(doc, ALL, root, node)| < |Before(doc, ALL, root, start)| + |Visible(doc, ALL, start)|
    {
      node := start;
      while filter(node) != Reject && LastChild(doc, node).Some?
        invariant Exists(doc, node) && root < node
        invariant Before(doc, filter, root, node) + Visible(doc, filter, node)
              == Before(doc, filter, root, start) + Visible(doc, filter, start)
        invariant |Before(doc, ALL, root, node)| >= |Before(doc, ALL, root, start)|
        invariant |Before(doc, ALL, root, node)| + |Visible(doc, ALL, node)|
                  == |Before(doc, ALL, root, start)| + |Visible(doc, ALL, start)|
        decreases At(doc, node)
      {
        StepDeep(doc, filter, root, node);
        StepDeep(doc, ALL, root, node);
        DeeperIsLater(doc, root, node);
        KidExists(doc, node, Width(doc, node) - 1);
        node := LastChild(doc, node).value;
      }
    }

    /** `previousNode`: the last node behind, or null and no move. */
    method PreviousNode() returns (r: Option<Address>)
      requires Valid()
      modifies this
      ensures Valid()
      ensures var behind := Before(doc, filter, root, old(current));
              if behind == [] then r == None && current == old(current)
              else r == Some(behind[|behind| - 1]) && current == behind[|behind| - 1]
    {
      var node := current;
      while node != root
        invariant Exists(doc, node) && root <= node && current == old(current)
        invariant Before(doc, filter, root, node) == Before(doc, filter, root, current)
        decreases |Before(doc, ALL, root, node)|
      {
        var sibling := PreviousSibling(doc, node);
        if sibling.Some? {
          StepBack(doc, filter, root, node);
          StepBack(doc, ALL, root, node);
          node := DescendLast(sibling.value);
          LeafVisible(doc, filter, node);
        } else {
          StepUp(doc, filter, root, node);
          StepUp(doc, ALL, root, node);
          node := node[..|node| - 1];
        }
        if filter(node) == Accept {
          current := node;
          return Some(node);
        }
      }
      return None;
    }
  }

  lemma DeeperIsLater(doc: Tree, root: Address, node: Address)
    requires Exists(doc, node) && root < node && LastChild(doc, node).Some?
    ensures var c := LastChild(doc, node).value;
            Exists(doc, c) && |Before(doc, ALL, root, c)| >= |Before(doc, ALL, root, node)|
  {
    var n := Width(doc, node);
    KidExists(doc, node, n - 1);
    assert (node + [n - 1])[..|node|] == node;
  }

  // ----- The walk as a whole -----

  /** No node from just below the root down to `a` itself is rejected. */
  ghost predicate Reachable(f: Filter, root: Address, a: Address) {
    root <= a && forall k :: |root| < k <= |a| ==> f(a[..k]) != Reject
  }

  /** A node the walk shows: strictly below the root, accepted, with no rejected ancestor below the root. */
  ghost predicate Shown(f: Filter, root: Address, a: Address) {
    root < a && f(a) == Accept && Reachable(f, root, a)
  }

  /** Everything the walk shows. */
  ghost function Show(doc: Tree, f: Filter, root: Address): seq<Address>
    requires Exists(doc, root)
  {
    VisibleFrom(doc, f, root, 0)
  }

  ghost function Keep(f: Filter, root: Address, s: seq<Address>): (r: seq<Address>) {
    if s == [] then []
    else Keep(f, root, s[..|s| - 1]) + if Shown(f, root, s[|s| - 1]) then [s[|s| - 1]] else []
  }

  lemma {:induction false} KeepConcat(f: Filter, root: Address, a: seq<Address>, b: seq<Address>)
    ensures Keep(f, root, a + b) == Keep(f, root, a) + Keep(f, root, b)
  {
    if b == [] {
      assert a + b == a;
    } else {
      assert (a + b)[..|a + b| - 1] == a + b[..|b| - 1];
      KeepConcat(f, root, a, b[..|b| - 1]);
    }
  }

  lemma {:induction false} KeepMembers(f: Filter, root: Address, s: seq<Address>)
    ensures forall n :: n in Keep(f, root, s) <==> n in s && Shown(f, root, n)
    ensures NoDup(s) ==> NoDup(Keep(f, root, s))
  {
    if s != [] { KeepMembers(f, root, s[..|s| - 1]); }
  }

  lemma {:induction false} KeepNothing(f: Filter, root: Address, s: seq<Address>)
    requires forall n :: n in s ==> !Shown(f, root, n)
    ensures Keep(f, root, s) == []
  {
    if s != [] { KeepNothing(f, root, s[..|s| - 1]); }
  }

  /** Below a reachable node, what is visible is what is shown, in tree order. */
  lemma {:induction false} VisibleIsKept(doc: Tree, f: Filter, root: Address, a: Address)
    requires Exists(doc, a) && root < a && Reachable(f, root, a[..|a| - 1])
    ensures Visible(doc, f, a) == Keep(f, root, Preorder(doc, a))
    decreases At(doc, a), Width(doc, a) + 1
  {
    if f(a) == Reject {
      PreorderExists(doc, a);
      forall n | n in Preorder(doc, a) ensures !Shown(f, root, n) {
        assert a <= n && n[..|a|] == a;
      }
      KeepNothing(f, root, Preorder(doc, a));
    } else {
      assert Reachable(f, root, a) by {
        forall k | |root| < k <= |a| ensures f(a[..k]) != Reject {
          if k < |a| { assert a[..|a| - 1][..k] == a[..k]; } else { assert a[..k] == a; }
        }
      }
      VisibleFromIsKept(doc, f, root, a, 0);
      KeepConcat(f, root, [a], PreorderKids(doc, a, 0));
      assert Keep(f, root, [a]) == Keep(f, root, []) + Self(f, a);
    }
  }

  lemma {:induction false} VisibleFromIsKept(doc: Tree, f: Filter, root: Address, a: Address, k: nat)
    requires Exists(doc, a) && Reachable(f, root, a) && k <= Width(doc, a)
    ensures VisibleFrom(doc, f, a, k) == Keep(f, root, PreorderKids(doc, a, k))
    decreases At(doc, a), Width(doc, a) - k
  {
    if k < Width(doc, a) {
      KidExists(doc, a, k);
      var c := a + [k];
      assert c[..|c| - 1] == a;
      VisibleIsKept(doc, f, root, c);
      VisibleFromIsKept(doc, f, root, a, k + 1);
      KeepConcat(f, root, Preorder(doc, c), PreorderKids(doc, a, k + 1));
    }
  }

  /** The walk shows exactly the accepted nodes below the root with no rejected ancestor below
      it, each once, in tree order. */
  lemma ShowIsTreeOrder(doc: Tree, f: Filter, root: Address)
    requires Exists(doc, root)
    ensures Show(doc, f, root) == Keep(f, root, PreorderKids(doc, root, 0)) && NoDup(Show(doc, f, root))
    ensures forall n :: n in Show(doc, f, root) <==> Exists(doc, n) && Shown(f, root, n)
  {
    VisibleFromIsKept(doc, f, root, root, 0);
    KeepMembers(f, root, PreorderKids(doc, root, 0));
    PreorderKidsNoDup(doc, root, 0);
    PreorderKidsExists(doc, root, 0);
    forall n | Exists(doc, n) && Shown(f, root, n) ensures n in Show(doc, f, root) {
      PreorderComplete(doc, root, n);
    }
  }

  /** At any reachable node, behind and ahead together are the whole walk. */
  lemma {:induction false} WalkSplits(doc: Tree, f: Filter, root: Address, a: Address)
    requires Exists(doc, root) && Exists(doc, a) && Reachable(f, root, a)
    ensures Before(doc, f, root, a) + Self(f, a) + After(doc, f, root, a) == Self(f, root) + Show(doc, f, root)
    decreases |a|
  {
    if a != root {
      var p, k := a[..|a| - 1], a[|a| - 1];
      assert root <= p && Reachable(f, root, p) by {
        forall j | |root| < j <= |p| ensures f(p[..j]) != Reject { assert p[..j] == a[..j]; }
      }
      WalkSplits(doc, f, root, p);
      assert a[..|a|] == a && p + [k] == a;
      KidSplit(doc, f, root, p, k);
      SplitRegroup(Before(doc, f, root, p), Self(f, p), VisibleTo(doc, f, p, k), Self(f, a),
                   VisibleFrom(doc, f, a, 0), VisibleFrom(doc, f, p, k + 1), Rest(doc, f, root, p));
    }
  }

  /** What lies before and after a child that is not rejected, in terms of its parent. */
  lemma KidSplit(doc: Tree, f: Filter, root: Address, p: Address, k: nat)
    requires Exists(doc, p) && root <= p && k < Width(doc, p) && f(p + [k]) != Reject
    ensures var a := p + [k];
            && Exists(doc, a)
            && Before(doc, f, root, a) == Before(doc, f, root, p) + Self(f, p) + VisibleTo(doc, f, p, k)
            && After(doc, f, root, a)
               == VisibleFrom(doc, f, a, 0) + (VisibleFrom(doc, f, p, k + 1) + Rest(doc, f, root, p))
            && VisibleFrom(doc, f, p, 0)
               == VisibleTo(doc, f, p, k) + ((Self(f, a) + VisibleFrom(doc, f, a, 0)) + VisibleFrom(doc, f, p, k + 1))
  {
    BeforeKid(doc, f, root, p, k);
    RestOfKid(doc, f, root, p, k);
    VisibleSplit(doc, f, p, k);
    VisibleIsSelfAndBelow(doc, f, p + [k]);
  }

  lemma SplitRegroup<T>(b: seq<T>, p: seq<T>, t: seq<T>, s: seq<T>, v: seq<T>, w: seq<T>, r: seq<T>)
    ensures (b + p + t) + s + (v + (w + r)) == b + p + ((t + ((s + v) + w)) + r)
  {
  }

  /** The cursor a walker at `a` stands for. */
  ghost function WalkAt(doc: Tree, f: Filter, root: Address, a: Address): Cursor
    requires Exists(doc, a)
  {
    Cursor(Before(doc, f, root, a) + Self(f, a), After(doc, f, root, a))
  }

  /** In a list without repetition, an element fixes what is before and after it. */
  lemma SplitUnique<T>(all: seq<T>, done: seq<T>, ahead: seq<T>, behind: seq<T>, rest: seq<T>)
    requires NoDup(all) && all == done + ahead && ahead != [] && all == behind + [ahead[0]] + rest
    ensures behind == done && rest == ahead[1..]
  {
    assert all[|done|] == ahead[0] && all[|behind|] == ahead[0];
    assert |done| == |behind|;
    assert done == all[..|done|] && behind == all[..|done|];
    assert ahead[1..] == all[|done| + 1..] && rest == all[|done| + 1..];
  }

  lemma WalkNoDup(doc: Tree, f: Filter, root: Address)
    requires Exists(doc, root)
    ensures NoDup(Self(f, root) + Show(doc, f, root))
  {
    ShowIsTreeOrder(doc, f, root);
    forall n | n in Show(doc, f, root) ensures n != root {}
  }

  /** `nextNode` from the root or a shown node moves the cursor one place: started at the root
      and repeated, it yields exactly the shown nodes in tree order. */
  lemma NextIsForward(doc: Tree, f: Filter, root: Address, a: Address)
    requires Exists(doc, root) && Exists(doc, a) && (a == root || Shown(f, root, a)) && After(doc, f, root, a) != []
    ensures var next := After(doc, f, root, a)[0];
            && Exists(doc, next) && Shown(f, root, next)
            && (Some(next), WalkAt(doc, f, root, next)) == Forward(WalkAt(doc, f, root, a))
  {
    var next := After(doc, f, root, a)[0];
    NextIsShown(doc, f, root, a);
    WalkSplits(doc, f, root, a);
    WalkSplits(doc, f, root, next);
    WalkNoDup(doc, f, root);
    SplitUnique(Self(f, root) + Show(doc, f, root), Before(doc, f, root, a) + Self(f, a), After(doc, f, root, a),
                Before(doc, f, root, next), After(doc, f, root, next));
  }

  lemma NextIsShown(doc: Tree, f: Filter, root: Address, a: Address)
    requires Exists(doc, root) && Exists(doc, a) && Reachable(f, root, a) && After(doc, f, root, a) != []
    ensures var next := After(doc, f, root, a)[0]; Exists(doc, next) && Shown(f, root, next)
  {
    WalkSplits(doc, f, root, a);
    ShowIsTreeOrder(doc, f, root);
    BehindRoot(doc, f, root, a);
    HeadInRest(Before(doc, f, root, a) + Self(f, a), After(doc, f, root, a), Self(f, root), Show(doc, f, root));
  }

  lemma HeadInRest<T>(done: seq<T>, ahead: seq<T>, first: seq<T>, rest: seq<T>)
    requires done + ahead == first + rest && |first| <= |done| && ahead != []
    ensures ahead[0] in rest
  {
    assert (done + ahead)[|done|] == ahead[0];
    assert (first + rest)[|done|] == rest[|done| - |first|];
  }

  /** The root, if accepted, is behind or is the node itself. */
  lemma {:induction false} BehindRoot(doc: Tree, f: Filter, root: Address, a: Address)
    requires Exists(doc, root) && Exists(doc, a) && root <= a
    ensures |Self(f, root)| <= |Before(doc, f, root, a) + Self(f, a)|
    decreases |a|
  {
    if a != root { BehindRoot(doc, f, root, a[..|a| - 1]); }
  }

  /** `previousNode` undoes `nextNode` from every shown node, and from the root exactly when the
      root is accepted: otherwise the walk back from the first shown node finds nothing. */
  lemma PreviousUndoesNext(doc: Tree, f: Filter, root: Address, a: Address)
    requires Exists(doc, root) && Exists(doc, a) && (a == root || Shown(f, root, a)) && After(doc, f, root, a) != []
    ensures var next := After(doc, f, root, a)[0];
            && Exists(doc, next)
            && var behind := Before(doc, f, root, next);
            if a == root && f(root) != Accept then behind == []
            else behind != [] && behind[|behind| - 1] == a
  {
    NextIsForward(doc, f, root, a);
    var next := After(doc, f, root, a)[0];
    var done := Before(doc, f, root, a) + Self(f, a);
    assert Before(doc, f, root, next) + [next] == done + [next];
    assert (Before(doc, f, root, next) + [next])[..|done|] == done;
    assert Before(doc, f, root, next) == done;
  }

  /** At the end of the walk `nextNode` answers null. */
  lemma LastHasNothingAhead(doc: Tree, f: Filter, root: Address, a: Address)
    requires Exists(doc, root) && Exists(doc, a) && (a == root || Shown(f, root, a))
    ensures After(doc, f, root, a) == [] <==>
            a == (if Show(doc, f, root) == [] then root else Show(doc, f, root)[|Show(doc, f, root)| - 1])
  {
    WalkSplits(doc, f, root, a);
    WalkNoDup(doc, f, root);
    ShowIsTreeOrder(doc, f, root);
    var all := Self(f, root) + Show(doc, f, root);
    if a != root {
      assert all[|Before(doc, f, root, a)|] == a;
      assert a in Show(doc, f, root);
    } else if Show(doc, f, root) != [] {
      assert Show(doc, f, root)[|Show(doc, f, root)| - 1] in Show(doc, f, root);
    }
  }

  /** What `nextNode` answers at `a`, and where it leaves the walker. */
  ghost function Answer(doc: Tree, f: Filter, root: Address, a: Address): (r: (Option<Address>, Address))
    requires Exists(doc, root) && Exists(doc, a) && (a == root || Shown(f, root, a))
    ensures Exists(doc, r.1) && (r.1 == root || Shown(f, root, r.1))
  {
    var ahead := After(doc, f, root, a);
    if ahead == [] then (None, a)
    else
      NextIsShown(doc, f, root, a);
      (Some(ahead[0]), ahead[0])
  }

  /** The answers of `k` calls from the root, and where they lead. */
  ghost function Answers(doc: Tree, f: Filter, root: Address, k: nat): (r: (seq<Option<Address>>, Address))
    requires Exists(doc, root)
    ensures Exists(doc, r.1) && (r.1 == root || Shown(f, root, r.1))
  {
    if k == 0 then ([], root)
    else
      var (answers, a) := Answers(doc, f, root, k - 1);
      var (answer, next) := Answer(doc, f, root, a);
      (answers + [answer], next)
  }

  /** From the root, the k-th call of `nextNode` gives the k-th node of the walk, then null for ever. */
  lemma {:induction false} ForwardRun(doc: Tree, f: Filter, root: Address, k: nat)
    requires Exists(doc, root)
    ensures var (answers, a) := Answers(doc, f, root, k);
            var all := Show(doc, f, root);
            && |answers| == k
            && (forall i :: 0 <= i < k ==> answers[i] == if i < |all| then Some(all[i]) else None)
            && After(doc, f, root, a) == if k < |all| then all[k..] else []
  {
    var all := Show(doc, f, root);
    if k == 0 {
      AheadOfRoot(doc, f, root);
    } else {
      ForwardRun(doc, f, root, k - 1);
      var (answers, a) := Answers(doc, f, root, k - 1);
      AnswerIs(doc, f, root, a);
      RestOfRest(all, k);
      var (answer, next) := Answer(doc, f, root, a);
      assert Answers(doc, f, root, k) == (answers + [answer], next);
      AnswersGrow(answers, answer, all);
    }
  }

  lemma AnswersGrow(answers: seq<Option<Address>>, answer: Option<Address>, all: seq<Address>)
    requires forall i :: 0 <= i < |answers| ==> answers[i] == if i < |all| then Some(all[i]) else None
    requires answer == if |answers| < |all| then Some(all[|answers|]) else None
    ensures var s := answers + [answer];
            forall i :: 0 <= i < |s| ==> s[i] == if i < |all| then Some(all[i]) else None
  {
  }

  lemma AheadOfRoot(doc: Tree, f: Filter, root: Address)
    requires Exists(doc, root)
    ensures After(doc, f, root, root) == Show(doc, f, root)
  {
    assert Show(doc, f, root) + [] == Show(doc, f, root);
  }

  lemma RestOfRest<T>(all: seq<T>, k: nat)
    requires k > 0
    ensures k - 1 < |all| ==> all[k - 1..][0] == all[k - 1] && all[k - 1..][1..] == all[k..]
  {
  }

  lemma AnswerIs(doc: Tree, f: Filter, root: Address, a: Address)
    requires Exists(doc, root) && Exists(doc, a) && (a == root || Shown(f, root, a))
    ensures var (answer, next) := Answer(doc, f, root, a);
            var ahead := After(doc, f, root, a);
            if ahead == [] then answer == None && next == a
            else answer == Some(ahead[0]) && After(doc, f, root, next) == ahead[1..]
  {
    if After(doc, f, root, a) != [] { NextIsForward(doc, f, root, a); }
  }
}
