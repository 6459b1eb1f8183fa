/**
  * A document tree reached by pointers, and its tree order.
  *
  * A node is the address leading to it from the document: the empty sequence, or its
  * parent's address and its place among the siblings.
  */
module TreeOrder {
  import opened Common

  datatype Tree = Tree(kids: seq<Tree>)

  type Address = seq<nat>

  predicate Exists(doc: Tree, a: Address)
    decreases |a|, 0
  {
    a == [] || (Exists(doc, a[..|a| - 1]) && a[|a| - 1] < |At(doc, a[..|a| - 1]).kids|)
  }

  function At(doc: Tree, a: Address): Tree
    requires Exists(doc, a)
    decreases |a|, 1
  {
    if a == [] then doc else At(doc, a[..|a| - 1]).kids[a[|a| - 1]]
  }

  /** How many children a node has. */
  function Width(doc: Tree, a: Address): nat
    requires Exists(doc, a)
  {
    |At(doc, a).kids|
  }

  lemma KidExists(doc: Tree, a: Address, k: nat)
    requires Exists(doc, a) && k < Width(doc, a)
    ensures Exists(doc, a + [k]) && At(doc, a + [k]) == At(doc, a).kids[k]
  {
    assert (a + [k])[..|a|] == a;
  }

  // ----- The pointers -----

  function ParentNode(a: Address): Option<Address> {
    if a == [] then None else Some(a[..|a| - 1])
  }

  function FirstChild(doc: Tree, a: Address): Option<Address>
    requires Exists(doc, a)
  {
    if Width(doc, a) > 0 then Some(a + [0]) else None
  }

  function LastChild(doc: Tree, a: Address): Option<Address>
    requires Exists(doc, a)
  {
    if Width(doc, a) > 0 then Some(a + [Width(doc, a) - 1]) else None
  }

  function NextSibling(doc: Tree, a: Address): Option<Address>
    requires Exists(doc, a)
  {
    if a == [] then None
    else
      var p, k := a[..|a| - 1], a[|a| - 1];
      if k + 1 < Width(doc, p) then Some(p + [k + 1]) else None
  }

  function PreviousSibling(doc: Tree, a: Address): Option<Address>
    requires Exists(doc, a)
  {
    if a == [] || a[|a| - 1] == 0 then None else Some(a[..|a| - 1] + [a[|a| - 1] - 1])
  }

  lemma PointersExist(doc: Tree, a: Address)
    requires Exists(doc, a)
    ensures FirstChild(doc, a).Some? ==> Exists(doc, FirstChild(doc, a).value)
    ensures LastChild(doc, a).Some? ==> Exists(doc, LastChild(doc, a).value)
    ensures NextSibling(doc, a).Some? ==> Exists(doc, NextSibling(doc, a).value)
    ensures PreviousSibling(doc, a).Some? ==> Exists(doc, PreviousSibling(doc, a).value)
    ensures ParentNode(a).Some? ==> Exists(doc, ParentNode(a).value)
  {
    if Width(doc, a) > 0 {
      KidExists(doc, a, 0);
      KidExists(doc, a, Width(doc, a) - 1);
    }
    if a != [] {
      var p, k := a[..|a| - 1], a[|a| - 1];
      if k + 1 < Width(doc, p) { KidExists(doc, p, k + 1); }
      if k > 0 { KidExists(doc, p, k - 1); }
    }
  }

  // ----- Tree order -----

  /** The subtree at `a` in tree order. */
  ghost function Preorder(doc: Tree, a: Address): (r: seq<Address>)
    requires Exists(doc, a)
    ensures |r| > 0 && r[0] == a
    decreases At(doc, a), Width(doc, a) + 1
  {
    [a] + PreorderKids(doc, a, 0)
  }

  /** The subtrees of `a`'s children from the `k`-th on, in tree order. */
  ghost function PreorderKids(doc: Tree, a: Address, k: nat): (r: seq<Address>)
    requires Exists(doc, a) && k <= Width(doc, a)
    ensures k < Width(doc, a) ==> |r| > 0 && r[0] == a + [k]
    ensures k == Width(doc, a) ==> r == []
    decreases At(doc, a), Width(doc, a) - k
  {
    if k == Width(doc, a) then []
    else
      KidExists(doc, a, k);
      Preorder(doc, a + [k]) + PreorderKids(doc, a, k + 1)
  }

  lemma {:induction false} PreorderExists(doc: Tree, a: Address)
    requires Exists(doc, a)
    ensures forall n :: n in Preorder(doc, a) ==> Exists(doc, n) && a <= n
    decreases At(doc, a), Width(doc, a) + 1
  {
    PreorderKidsExists(doc, a, 0);
  }

  lemma {:induction false} PreorderKidsExists(doc: Tree, a: Address, k: nat)
    requires Exists(doc, a) && k <= Width(doc, a)
    ensures forall n :: n in PreorderKids(doc, a, k) ==> Exists(doc, n) && a < n && n[|a|] >= k
    decreases At(doc, a), Width(doc, a) - k
  {
    if k < Width(doc, a) {
      KidExists(doc, a, k);
      PreorderExists(doc, a + [k]);
      PreorderKidsExists(doc, a, k + 1);
      forall n | n in Preorder(doc, a + [k]) ensures a < n && n[|a|] == k {
        assert n[..|a| + 1] == a + [k];
      }
    }
  }

  /** Tree order lists every node of the subtree... */
  lemma {:induction false} PreorderComplete(doc: Tree, a: Address, n: Address)
    requires Exists(doc, a) && Exists(doc, n) && a <= n
    ensures n in Preorder(doc, a)
    decreases At(doc, a), Width(doc, a) + 1
  {
    if n != a {
      PathKid(doc, a, n);
      PreorderKidsComplete(doc, a, n, 0);
    }
  }

  /** The child of `a` on the way to `n`. */
  lemma {:induction false} PathKid(doc: Tree, a: Address, n: Address)
    requires Exists(doc, a) && Exists(doc, n) && a < n
    ensures n[|a|] < Width(doc, a) && a + [n[|a|]] <= n
    decreases |n|
  {
    if |n| == |a| + 1 {
      assert n[..|n| - 1] == a;
    } else {
      PathKid(doc, a, n[..|n| - 1]);
    }
  }

  lemma {:induction false} PreorderKidsComplete(doc: Tree, a: Address, n: Address, k: nat)
    requires Exists(doc, a) && Exists(doc, n) && a < n && k <= n[|a|] < Width(doc, a) && a + [n[|a|]] <= n
    ensures n in PreorderKids(doc, a, k)
    decreases At(doc, a), Width(doc, a) - k
  {
    KidExists(doc, a, k);
    if k == n[|a|] {
      PreorderComplete(doc, a + [k], n);
    } else {
      PreorderKidsComplete(doc, a, n, k + 1);
    }
  }

  /** ...once. */
  lemma {:induction false} PreorderNoDup(doc: Tree, a: Address)
    requires Exists(doc, a)
    ensures NoDup(Preorder(doc, a))
    decreases At(doc, a), Width(doc, a) + 1
  {
    PreorderKidsNoDup(doc, a, 0);
    PreorderKidsExists(doc, a, 0);
    var kids := PreorderKids(doc, a, 0);
    forall i | 0 <= i < |kids| ensures kids[i] != a { assert kids[i] in kids; }
  }

  lemma {:induction false} PreorderKidsNoDup(doc: Tree, a: Address, k: nat)
    requires Exists(doc, a) && k <= Width(doc, a)
    ensures NoDup(PreorderKids(doc, a, k))
    decreases At(doc, a), Width(doc, a) - k
  {
    if k < Width(doc, a) {
      KidExists(doc, a, k);
      PreorderNoDup(doc, a + [k]);
      PreorderKidsNoDup(doc, a, k + 1);
      var x, y := Preorder(doc, a + [k]), PreorderKids(doc, a, k + 1);
      PreorderExists(doc, a + [k]);
      PreorderKidsExists(doc, a, k + 1);
      forall i, j | 0 <= i < |x| && 0 <= j < |y| ensures x[i] != y[j] {
        assert x[i] in x && y[j] in y;
        assert x[i][..|a| + 1] == a + [k] && x[i][|a|] == k;
      }
    }
  }

  /** An ancestor comes before its descendants, and what lies below one child before what lies below a
      later one. */
  ghost predicate Earlier(a: Address, b: Address) {
    || (a <= b && a != b)
    || exists k :: 0 <= k < |a| && k < |b| && a[..k] == b[..k] && a[k] < b[k]
  }

  ghost predicate Sorted(s: seq<Address>) {
    forall i, j :: 0 <= i < j < |s| ==> Earlier(s[i], s[j])
  }

  /** Tree order, said of the addresses. */
  lemma {:induction false} PreorderSorted(doc: Tree, a: Address)
    requires Exists(doc, a)
    ensures Sorted(Preorder(doc, a))
    decreases At(doc, a), Width(doc, a) + 1
  {
    PreorderKidsSorted(doc, a, 0);
    PreorderKidsExists(doc, a, 0);
    SortedConcat([a], PreorderKids(doc, a, 0));
  }

  lemma {:induction false} PreorderKidsSorted(doc: Tree, a: Address, k: nat)
    requires Exists(doc, a) && k <= Width(doc, a)
    ensures Sorted(PreorderKids(doc, a, k))
    decreases At(doc, a), Width(doc, a) - k
  {
    if k < Width(doc, a) {
      KidExists(doc, a, k);
      PreorderSorted(doc, a + [k]);
      PreorderKidsSorted(doc, a, k + 1);
      PreorderExists(doc, a + [k]);
      PreorderKidsExists(doc, a, k + 1);
      JoinKids(a, k, Preorder(doc, a + [k]), PreorderKids(doc, a, k + 1));
    }
  }

  lemma JoinKids(a: Address, k: nat, x: seq<Address>, y: seq<Address>)
    requires Sorted(x) && Sorted(y)
    requires (forall m :: m in x ==> a + [k] <= m) && forall n :: n in y ==> a < n && n[|a|] > k
    ensures Sorted(x + y)
  {
    forall m, n | m in x && n in y ensures Earlier(m, n) { KidsApart(a, k, m, n); }
    SortedConcat(x, y);
  }

  lemma KidsApart(a: Address, k: nat, m: Address, n: Address)
    requires a + [k] <= m && a < n && n[|a|] > k
    ensures Earlier(m, n)
  {
    assert m[..|a| + 1] == a + [k];
    assert m[..|a|] == a == n[..|a|] && m[|a|] == k < n[|a|];
  }

  lemma SortedConcat(x: seq<Address>, y: seq<Address>)
    requires Sorted(x) && Sorted(y) && forall m, n :: m in x && n in y ==> Earlier(m, n)
    ensures Sorted(x + y)
  {
  }
}
