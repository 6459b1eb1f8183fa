/**
  * Dispatch as the DOM Standard, section 2.9, has it, beside the program's plan: which places of the
  * path are "at target", where the path is cut short at the related target, which listeners are
  * served there, and in which order the callees of one target come.
  */
module DispatchStandard {
  import opened Common
  import opened Forest
  import opened EventPath
  import opened Retarget
  import opened Listeners
  import opened DispatchLog

  // ----- Places at target -----

  /** The shadow-adjusted target when the `i`-th node of the path is appended. */
  ghost function Adjusted(f: Forest, p: seq<Node>, i: nat): Node
    requires i < |p|
  {
    if i == 0 then p[0]
    else
      var a := Adjusted(f, p, i - 1);
      if IncludesAbove(f, LightRoot(f, a), p[i]) then a else p[i]
  }

  /** The path leaves the tree of the target it had: the Standard makes this node, a host, a target. */
  ghost predicate Crosses(f: Forest, p: seq<Node>, i: nat) {
    0 < i < |p| && !IncludesAbove(f, LightRoot(f, Adjusted(f, p, i - 1)), p[i])
  }

  lemma AboveDepth(f: Forest, a: Node, n: Node)
    requires IncludesAbove(f, a, n)
    ensures a == n || Depth(f, a) < Depth(f, n)
    decreases Depth(f, n)
  {
    if a != n {
      DepthFalls(f, n);
      AboveDepth(f, a, Up(f, n).value);
    }
  }

  /** A flat step stays below `root`, unless it starts there. */
  lemma FlatStepBelow(f: Forest, root: Node, n: Node, target: Node, composed: bool)
    requires FlatParent(f, n, target, composed).Some? && root !in f.parent && IncludesAbove(f, root, n)
    ensures IncludesAbove(f, root, FlatParent(f, n, target, composed).value) <==> n != root
  {
    var m := FlatParent(f, n, target, composed).value;
    if n == root {
      assert n in f.host && Up(f, n) == Some(m);
      DepthFalls(f, n);
      if IncludesAbove(f, root, m) { AboveDepth(f, root, m); }
    } else if n in f.slot {
      SlotStep(f, n);
      AboveTransitive(f, root, f.parent[n], f.slot[n]);
    } else {
      assert Up(f, n) == Some(m);
    }
  }

  /** Along the path: the tree of the adjusted target holds the place, and is left from its root. */
  lemma {:induction false} TargetsTree(f: Forest, target: Node, composed: bool, i: nat)
    requires i < |FlatPath(f, target, target, composed)|
    ensures var p := FlatPath(f, target, target, composed);
            var root := LightRoot(f, Adjusted(f, p, i));
            && IncludesAbove(f, root, p[i])
            && (i + 1 < |p| ==> (Crosses(f, p, i + 1) <==> p[i] == root))
  {
    var p := FlatPath(f, target, target, composed);
    FlatPathLinks(f, target, target, composed);
    LightRootAbove(f, p[i]);
    if i > 0 { TargetsTree(f, target, composed, i - 1); }
    FlatPathBelow(f, target, target, composed);
    var root := LightRoot(f, Adjusted(f, p, i));
    LightRootAbove(f, Adjusted(f, p, i));
    if i + 1 < |p| {
      assert FlatParent(f, p[i], target, composed) == Some(p[i + 1]);
      FlatStepBelow(f, root, p[i], target, composed);
    }
  }

  /** Until a host is crossed the target stays. */
  lemma {:induction false} TargetStays(f: Forest, p: seq<Node>, i: nat)
    requires i < |p| && forall j :: 0 < j <= i ==> !Crosses(f, p, j)
    ensures Adjusted(f, p, i) == p[0]
  {
    if i > 0 {
      TargetStays(f, p, i - 1);
      assert !Crosses(f, p, i);
    }
  }

  ghost predicate CrossesSome(f: Forest, p: seq<Node>) {
    exists i :: Crosses(f, p, i)
  }

  lemma {:induction false} RootHasNothingAbove(f: Forest, n: Node)
    ensures Up(f, ComposedRoot(f, n)) == None
    decreases Depth(f, n)
  {
    if Up(f, n).Some? {
      DepthFalls(f, n);
      RootHasNothingAbove(f, Up(f, n).value);
    }
  }

  /** Some host is a target exactly if a composed event starts inside a shadow tree. */
  lemma CrossesWhenComposed(f: Forest, target: Node, composed: bool)
    ensures CrossesSome(f, FlatPath(f, target, target, composed)) <==> composed && ShadowRootOf(f, target).Some?
  {
    var p := FlatPath(f, target, target, composed);
    FlatPathBelow(f, target, target, composed);
    if CrossesSome(f, p) {
      var i := FirstCrossing(f, p);
      TargetStays(f, p, i - 1);
      TargetsTree(f, target, composed, i - 1);
      FlatPathLinks(f, target, target, composed);
      LightRootAbove(f, target);
      assert FlatParent(f, p[i - 1], target, composed) == Some(p[i]);
    } else if composed && ShadowRootOf(f, target).Some? {
      RootIsOutside(f, target);
      StaysInside(f, target);
    }
  }

  lemma {:induction false} FirstCrossing(f: Forest, p: seq<Node>) returns (i: nat)
    requires CrossesSome(f, p)
    ensures Crosses(f, p, i) && forall j :: 0 < j < i ==> !Crosses(f, p, j)
  {
    i := 1;
    while !Crosses(f, p, i)
      invariant 0 < i <= |p| && forall j :: 0 < j < i ==> !Crosses(f, p, j)
      decreases |p| - i
    {
      i := i + 1;
    }
  }

  lemma RootIsOutside(f: Forest, target: Node)
    requires ShadowRootOf(f, target).Some?
    ensures !IncludesAbove(f, LightRoot(f, target), ComposedRoot(f, target))
  {
    RootHasNothingAbove(f, target);
    LightRootAbove(f, target);
    assert Up(f, LightRoot(f, target)).Some?;
  }

  lemma StaysInside(f: Forest, target: Node)
    ensures CrossesSome(f, FlatPath(f, target, target, true))
            || IncludesAbove(f, LightRoot(f, target), ComposedRoot(f, target))
  {
    var p := FlatPath(f, target, target, true);
    FlatPathBelow(f, target, target, true);
    OpenPathEnds(f, target, target, true);
    TargetsTree(f, target, true, |p| - 1);
    if !CrossesSome(f, p) { TargetStays(f, p, |p| - 1); }
  }

  // ----- The plan -----

  /** A place of the path, and whether the Standard's struct for it has a target. */
  datatype Stop = Stop(at: Target, atTarget: bool)

  ghost function Stops(f: Forest, p: seq<Node>): (r: seq<Stop>)
    ensures |r| == |p| && forall i :: 0 <= i < |p| ==> r[i] == Stop(NodeTarget(p[i]), i == 0 || Crosses(f, p, i))
  {
    seq(|p|, i requires 0 <= i < |p| => Stop(NodeTarget(p[i]), i == 0 || Crosses(f, p, i)))
  }

  /** All of the path; the window is never a target on it. */
  ghost function StandardStops(f: Forest, target: Node, composed: bool): (r: seq<Stop>) {
    Stops(f, FlatPath(f, target, target, composed))
    + if Window in NodePath(f, target, composed) then [Stop(Window, false)] else []
  }

  /** One pass over a target: only its capture listeners, or only the others. */
  datatype Pass = Pass(at: Target, phase: Phase, capture: bool)

  /** First every place from the far end down, capture listeners only... */
  function CapturePasses(s: seq<Stop>): (r: seq<Pass>)
    ensures |r| == |s|
    ensures forall i :: 0 <= i < |s| ==>
      r[i] == Pass(s[|s| - 1 - i].at, if s[|s| - 1 - i].atTarget then AtTarget else Capturing, true)
  {
    seq(|s|, i requires 0 <= i < |s| =>
      Pass(s[|s| - 1 - i].at, if s[|s| - 1 - i].atTarget then AtTarget else Capturing, true))
  }

  /** ...then upwards, the others; where there is no target only if the event bubbles. */
  function BubblePasses(s: seq<Stop>, bubbles: bool): seq<Pass> {
    if s == [] then []
    else
      (if s[0].atTarget then [Pass(s[0].at, AtTarget, false)]
       else if bubbles then [Pass(s[0].at, Bubbling, false)]
       else [])
      + BubblePasses(s[1..], bubbles)
  }

  function StandardPasses(s: seq<Stop>, bubbles: bool): seq<Pass> {
    CapturePasses(s) + BubblePasses(s, bubbles)
  }

  /** What the program's steps amount to; at the target it serves both kinds in one. */
  function Passes(plan: seq<(Target, Phase)>): seq<Pass> {
    if plan == [] then []
    else
      var (at, phase) := plan[|plan| - 1];
      Passes(plan[..|plan| - 1])
      + match phase
        case AtTarget => [Pass(at, AtTarget, true), Pass(at, AtTarget, false)]
        case _ => [Pass(at, phase, phase == Capturing)]
  }

  /** Only the first place is a target. */
  ghost predicate OneTarget(s: seq<Stop>) {
    forall i :: 0 <= i < |s| ==> (s[i].atTarget <==> i == 0)
  }

  function Places(s: seq<Stop>): (p: seq<Target>)
    ensures |p| == |s| && forall i :: 0 <= i < |s| ==> p[i] == s[i].at
  {
    seq(|s|, i requires 0 <= i < |s| => s[i].at)
  }

  /** As long as the program captures it does what the Standard does on its way down, but for the phase
      it shows at a host. */
  lemma {:induction false} CapturingPasses(s: seq<Stop>, bubbles: bool, n: nat)
    requires s != [] && n < |s|
    ensures var steps := Plan(Places(s), bubbles)[..n];
            && |Passes(steps)| == n
            && forall i :: 0 <= i < n ==> Passes(steps)[i] == Pass(s[|s| - 1 - i].at, Capturing, true)
  {
    if n > 0 {
      CapturingPasses(s, bubbles, n - 1);
      var plan := Plan(Places(s), bubbles);
      assert plan[..n][..n - 1] == plan[..n - 1];
      assert plan[n - 1] == (Places(s)[|s| - n], Capturing);
    }
  }

  lemma AtTargetPasses(s: seq<Stop>, bubbles: bool)
    requires s != []
    ensures var n := |s|;
            Passes(Plan(Places(s), bubbles)[..n])
            == Passes(Plan(Places(s), bubbles)[..n - 1])
                + [Pass(s[0].at, AtTarget, true), Pass(s[0].at, AtTarget, false)]
  {
    var plan, n := Plan(Places(s), bubbles), |s|;
    assert plan[..n][..n - 1] == plan[..n - 1];
    assert plan[n - 1] == (s[0].at, AtTarget);
  }

  lemma {:induction false} BubblingPasses(s: seq<Stop>, n: nat)
    requires s != [] && n < |s|
    ensures var plan := Plan(Places(s), true);
            Passes(plan[..|s| + n]) == Passes(plan[..|s|]) + Upwards(s[1..n + 1])
  {
    var plan := Plan(Places(s), true);
    if n > 0 {
      BubblingPasses(s, n - 1);
      assert plan[..|s| + n][..|s| + n - 1] == plan[..|s| + (n - 1)];
      assert plan[|s| + n - 1] == (s[n].at, Bubbling);
      assert s[1..n + 1] == s[1..n] + [s[n]];
      UpwardsSnoc(s[1..n], s[n]);
      ConcatAssociates(Passes(plan[..|s|]), Upwards(s[1..n]), [Pass(s[n].at, Bubbling, false)]);
    } else {
      assert Upwards(s[1..1]) == [];
      assert Passes(plan[..|s|]) + [] == Passes(plan[..|s|]);
    }
  }

  function Upwards(s: seq<Stop>): seq<Pass> {
    if s == [] then [] else [Pass(s[0].at, Bubbling, false)] + Upwards(s[1..])
  }

  lemma {:induction false} UpwardsSnoc(s: seq<Stop>, x: Stop)
    ensures Upwards(s + [x]) == Upwards(s) + [Pass(x.at, Bubbling, false)]
  {
    if s == [] {
      assert [] + [x] == [x] && [x][1..] == [];
    } else {
      assert (s + [x])[1..] == s[1..] + [x];
      UpwardsSnoc(s[1..], x);
      ConcatAssociates([Pass(s[0].at, Bubbling, false)], Upwards(s[1..]), [Pass(x.at, Bubbling, false)]);
    }
  }

  lemma ProgramPasses(s: seq<Stop>, bubbles: bool)
    requires s != []
    ensures var plan, n := Plan(Places(s), bubbles), |s|;
            Passes(plan) == Passes(plan[..n - 1]) + [Pass(s[0].at, AtTarget, true), Pass(s[0].at, AtTarget, false)]
                            + if bubbles then Upwards(s[1..]) else []
  {
    var plan, n := Plan(Places(s), bubbles), |s|;
    AtTargetPasses(s, bubbles);
    if bubbles {
      BubblingPasses(s, n - 1);
      assert plan[..n + (n - 1)] == plan && s[1..n] == s[1..];
    } else {
      assert plan[..n] == plan;
      assert Passes(plan) + [] == Passes(plan);
    }
  }

  lemma {:induction false} NoTargetPasses(s: seq<Stop>, bubbles: bool)
    requires forall i :: 0 <= i < |s| ==> !s[i].atTarget
    ensures BubblePasses(s, bubbles) == if bubbles then Upwards(s) else []
  {
    if s != [] { NoTargetPasses(s[1..], bubbles); }
  }

  /** The program's passes are the Standard's exactly if no place but the first is a target. */
  lemma PassesAreStandard(s: seq<Stop>, bubbles: bool)
    requires s != [] && s[0].atTarget
    ensures Passes(Plan(Places(s), bubbles)) == StandardPasses(s, bubbles) <==> OneTarget(s)
  {
    var plan, n := Plan(Places(s), bubbles), |s|;
    ProgramPasses(s, bubbles);
    CapturingPasses(s, bubbles, n - 1);
    if OneTarget(s) {
      NoTargetPasses(s[1..], bubbles);
      SamePasses(s, bubbles);
    } else {
      var i :| 0 < i < n && s[i].atTarget;
      assert StandardPasses(s, bubbles)[n - 1 - i].phase == AtTarget;
      assert Passes(plan)[n - 1 - i].phase == Capturing;
    }
  }

  lemma SamePasses(s: seq<Stop>, bubbles: bool)
    requires s != [] && OneTarget(s) && BubblePasses(s[1..], bubbles) == if bubbles then Upwards(s[1..]) else []
    ensures Passes(Plan(Places(s), bubbles)) == StandardPasses(s, bubbles)
  {
    var down, at, c := Passes(Plan(Places(s), bubbles)[..|s| - 1]), s[0].at, CapturePasses(s);
    var rest := BubblePasses(s[1..], bubbles);
    ProgramPasses(s, bubbles);
    CapturingPasses(s, bubbles, |s| - 1);
    assert c == down + [Pass(at, AtTarget, true)];
    var two := [Pass(at, AtTarget, true), Pass(at, AtTarget, false)];
    assert two == [Pass(at, AtTarget, true)] + [Pass(at, AtTarget, false)];
    assert down + two == c + [Pass(at, AtTarget, false)];
    ConcatAssociates(c, [Pass(at, AtTarget, false)], rest);
  }

  lemma StopsOnPath(f: Forest, target: Node, composed: bool)
    ensures var s, p := StandardStops(f, target, composed), NodePath(f, target, composed);
            && Places(s) == p && s != [] && s[0] == Stop(NodeTarget(target), true) && NoDup(p)
            && (OneTarget(s) <==> !CrossesSome(f, FlatPath(f, target, target, composed)))
  {
    var s, p, flat := StandardStops(f, target, composed), NodePath(f, target, composed),
        FlatPath(f, target, target, composed);
    FlatPathBelow(f, target, target, composed);
    PathShape(f, target, composed);
    assert |s| == |p| && forall i :: 0 <= i < |p| ==> s[i].at == p[i];
    assert s[0] == Stop(NodeTarget(target), true);
    TargetsOnPath(f, flat, s);
  }

  lemma TargetsOnPath(f: Forest, flat: seq<Node>, s: seq<Stop>)
    requires flat != [] && Stops(f, flat) <= s && forall i :: |flat| <= i < |s| ==> !s[i].atTarget
    ensures OneTarget(s) <==> !CrossesSome(f, flat)
  {
    assert forall i :: 0 <= i < |flat| ==> s[i] == Stops(f, flat)[i];
    if i: nat :| Crosses(f, flat, i) { assert s[i].atTarget && i != 0; }
  }

  /** In places, phases and kinds of listeners the program's plan is the Standard's exactly unless a
      composed event starts inside a shadow tree: only then is a host a target too. */
  lemma PlanIsStandard(f: Forest, target: Node, composed: bool, bubbles: bool)
    ensures NodePath(f, target, composed) != []
    ensures Passes(Plan(NodePath(f, target, composed), bubbles))
            == StandardPasses(StandardStops(f, target, composed), bubbles)
            <==> !(composed && ShadowRootOf(f, target).Some?)
  {
    StopsOnPath(f, target, composed);
    PassesAreStandard(StandardStops(f, target, composed), bubbles);
    CrossesWhenComposed(f, target, composed);
  }

  // ----- Listeners that are never called -----

  predicate Accepts(phase: Phase, capture: bool) {
    !(phase == Capturing && !capture) && !(phase == Bubbling && capture)
  }

  /** Some step of the plan serves this kind of listener at this place. */
  ghost predicate Served(plan: seq<(Target, Phase)>, at: Target, capture: bool) {
    exists i :: 0 <= i < |plan| && plan[i].0 == at && Accepts(plan[i].1, capture)
  }

  lemma {:induction false} InBubblePasses(s: seq<Stop>, bubbles: bool, k: nat)
    requires k < |s| && (s[k].atTarget || bubbles)
    ensures Pass(s[k].at, if s[k].atTarget then AtTarget else Bubbling, false) in BubblePasses(s, bubbles)
  {
    if k > 0 { InBubblePasses(s[1..], bubbles, k - 1); }
  }

  lemma {:induction false} BubblePassOf(s: seq<Stop>, bubbles: bool, pass: Pass) returns (k: nat)
    requires pass in BubblePasses(s, bubbles)
    ensures k < |s| && pass.at == s[k].at && !pass.capture && (s[k].atTarget || bubbles)
  {
    if pass in BubblePasses(s[1..], bubbles) {
      k := BubblePassOf(s[1..], bubbles, pass);
      k := k + 1;
    } else {
      k := 0;
    }
  }

  ghost predicate AllServed(s: seq<Stop>, bubbles: bool)
    requires s != []
  {
    forall pass :: pass in StandardPasses(s, bubbles) ==> Served(Plan(Places(s), bubbles), pass.at, pass.capture)
  }

  lemma CaptureServed(s: seq<Stop>, bubbles: bool, k: nat)
    requires s != [] && k < |s|
    ensures Served(Plan(Places(s), bubbles), s[k].at, true)
  {
    assert Plan(Places(s), bubbles)[|s| - 1 - k] == (s[k].at, if k == 0 then AtTarget else Capturing);
  }

  lemma OthersServed(s: seq<Stop>, bubbles: bool, k: nat)
    requires s != [] && k < |s| && NoDup(Places(s))
    ensures Served(Plan(Places(s), bubbles), s[k].at, false) <==> k == 0 || bubbles
  {
    var plan, n, p := Plan(Places(s), bubbles), |s|, Places(s);
    if k == 0 || bubbles {
      assert plan[n - 1 + k] == (s[k].at, if k == 0 then AtTarget else Bubbling);
    } else {
      forall i | 0 <= i < |plan| && plan[i].0 == s[k].at ensures plan[i].1 == Capturing {
        assert plan[i].0 == p[n - 1 - i];
      }
    }
  }

  /** All that the Standard serves is served exactly if the event bubbles or the first place alone is a target. */
  lemma ServesAll(s: seq<Stop>, bubbles: bool)
    requires s != [] && s[0].atTarget && NoDup(Places(s))
    ensures AllServed(s, bubbles) <==> bubbles || OneTarget(s)
  {
    if bubbles || OneTarget(s) {
      forall pass | pass in StandardPasses(s, bubbles) ensures Served(Plan(Places(s), bubbles), pass.at, pass.capture) {
        if pass in CapturePasses(s) {
          var i :| 0 <= i < |s| && CapturePasses(s)[i] == pass;
          CaptureServed(s, bubbles, |s| - 1 - i);
        } else {
          var k := BubblePassOf(s, bubbles, pass);
          OthersServed(s, bubbles, k);
        }
      }
    } else {
      var k :| 0 < k < |s| && s[k].atTarget;
      InBubblePasses(s, bubbles, k);
      OthersServed(s, bubbles, k);
      assert Pass(s[k].at, AtTarget, false) in StandardPasses(s, bubbles);
    }
  }

  /** Exactly the composed events from inside a shadow tree that do not bubble leave listeners out... */
  lemma LeavesOut(f: Forest, target: Node, composed: bool, bubbles: bool)
    ensures StandardStops(f, target, composed) != []
    ensures AllServed(StandardStops(f, target, composed), bubbles)
            <==> bubbles || !(composed && ShadowRootOf(f, target).Some?)
  {
    StopsOnPath(f, target, composed);
    ServesAll(StandardStops(f, target, composed), bubbles);
    CrossesWhenComposed(f, target, composed);
  }

  /** ...namely the hosts' ordinary ones: the Standard calls them at target, and no step of the
      program's plan matches them. */
  lemma HostListenerUncalled(f: Forest, target: Node, composed: bool, i: nat, l: Listener)
    requires Crosses(f, FlatPath(f, target, target, composed), i) && !l.capture
    ensures var host, plan := NodeTarget(FlatPath(f, target, target, composed)[i]),
            Plan(NodePath(f, target, composed), false);
            && Pass(host, AtTarget, false) in StandardPasses(StandardStops(f, target, composed), false)
            && forall j :: 0 <= j < |plan| && plan[j].0 == host ==> !Matches(plan[j].1, l)
  {
    var s := StandardStops(f, target, composed);
    StopsOnPath(f, target, composed);
    assert s[i].atTarget && s[i].at == NodeTarget(FlatPath(f, target, target, composed)[i]);
    InBubblePasses(s, false, i);
    OthersServed(s, false, i);
  }

  // ----- The related target -----

  /** "Retarget" against a node gives that node exactly if the node hosts, at some remove, what is
      retargeted, or is it. */
  lemma RetargetsTo(f: Forest, r: Node, x: Node)
    ensures Retargeted(f, r, Some(x)) == x <==> exists k :: Hosts(f, r, k) == Some(x)
  {
    var c := Crossings(f, r, Some(x));
    SettlesAfter(f, r, Some(x), c);
    if k: nat :| Hosts(f, r, k) == Some(x) {
      SettledItself(f, x);
      if k < c {
        SettlesAfter(f, r, Some(x), k);
      } else if c < k {
        NoEarlierSettles(f, r, x, c, k);
      }
    }
  }

  lemma SettledItself(f: Forest, x: Node)
    ensures Settled(f, x, Some(x))
  {
    LightRootAbove(f, x);
  }

  /** A node further down the chain of hosts has its root below the host. */
  lemma NoEarlierSettles(f: Forest, r: Node, x: Node, c: nat, k: nat)
    requires c < k && Hosts(f, r, k) == Some(x) && Hosts(f, r, c).Some?
    ensures !Settled(f, Hosts(f, r, c).value, Some(x))
  {
    var y := Hosts(f, r, c).value;
    HostsSplit(f, r, c, k - c);
    HostsAbove(f, y, k - c);
    var root := LightRoot(f, y);
    DepthFalls(f, root);
    if IncludesAbove(f, root, x) { AboveDepth(f, root, x); }
    AboveDepth(f, x, f.host[root]);
  }

  lemma {:induction false} HostsSplit(f: Forest, a: Node, j: nat, k: nat)
    requires Hosts(f, a, j).Some?
    ensures Hosts(f, a, j + k) == Hosts(f, Hosts(f, a, j).value, k)
    decreases j
  {
    if j > 0 { HostsSplit(f, f.host[ShadowRootOf(f, a).value], j - 1, k); }
  }

  lemma {:induction false} HostsAbove(f: Forest, y: Node, k: nat)
    requires k > 0 && Hosts(f, y, k).Some?
    ensures ShadowRootOf(f, y).Some? && LightRoot(f, y) in f.host
    ensures IncludesAbove(f, Hosts(f, y, k).value, f.host[LightRoot(f, y)])
    decreases k
  {
    var host := f.host[LightRoot(f, y)];
    if k > 1 {
      HostsAbove(f, host, k - 1);
      var root := LightRoot(f, host);
      LightRootAbove(f, host);
      assert Up(f, root) == Some(f.host[root]);
      AboveTransitive(f, f.host[root], root, host);
      AboveTransitive(f, Hosts(f, y, k).value, f.host[root], host);
    }
  }

  /** The Standard does not dispatch at all when the related target, another node, is retargeted to
      the target... */
  ghost predicate NotDispatched(f: Forest, target: Node, related: Option<Node>) {
    related.Some? && related.value != target && Retargeted(f, related.value, Some(target)) == target
  }

  /** ...and ends the path before a host to which the related target is retargeted. */
  ghost predicate CutAt(f: Forest, p: seq<Node>, related: Option<Node>, i: nat) {
    Crosses(f, p, i) && related.Some? && Retargeted(f, related.value, Some(p[i])) == p[i]
  }

  ghost function CutFrom(f: Forest, p: seq<Node>, related: Option<Node>, i: nat): (n: nat)
    requires i <= |p|
    ensures i <= n <= |p| && (n < |p| ==> CutAt(f, p, related, n))
    ensures forall j :: i <= j < n ==> !CutAt(f, p, related, j)
    decreases |p| - i
  {
    if i == |p| || CutAt(f, p, related, i) then i else CutFrom(f, p, related, i + 1)
  }

  /** The places the Standard's dispatch visits. */
  ghost function StandardPath(f: Forest, target: Node, composed: bool, related: Option<Node>): seq<Stop> {
    var p, all := FlatPath(f, target, target, composed), StandardStops(f, target, composed);
    var n := CutFrom(f, p, related, 0);
    if NotDispatched(f, target, related) then [] else if n < |p| then all[..n] else all
  }

  /** The related target is not the target, and the target or a host the path crosses is on its chain of hosts. */
  ghost predicate RelatedInside(f: Forest, target: Node, composed: bool, related: Option<Node>) {
    var p := FlatPath(f, target, target, composed);
    related.Some? && exists k, i :: InsideAt(f, p, related.value, k, i)
  }

  ghost predicate InsideAt(f: Forest, p: seq<Node>, related: Node, k: nat, i: nat) {
    && i < |p| && Hosts(f, related, k) == Some(p[i])
    && if i == 0 then related != p[0] else Crosses(f, p, i)
  }

  /** The program visits all of the path; so does the Standard exactly if the related target is not inside. */
  lemma WholePathVisited(f: Forest, target: Node, composed: bool, related: Option<Node>)
    ensures StandardPath(f, target, composed, related) == StandardStops(f, target, composed)
            <==> !RelatedInside(f, target, composed, related)
  {
    var p := FlatPath(f, target, target, composed);
    StopsOnPath(f, target, composed);
    InsideCuts(f, target, composed, related);
    if i: nat :| CutAt(f, p, related, i) { assert CutFrom(f, p, related, 0) <= i; }
  }

  lemma InsideCuts(f: Forest, target: Node, composed: bool, related: Option<Node>)
    ensures var p := FlatPath(f, target, target, composed);
            RelatedInside(f, target, composed, related)
            <==> NotDispatched(f, target, related) || exists i: nat :: CutAt(f, p, related, i)
  {
    var p := FlatPath(f, target, target, composed);
    FlatPathBelow(f, target, target, composed);
    if related.Some? {
      forall i: nat | i < |p|
        ensures Retargeted(f, related.value, Some(p[i])) == p[i] <==>
                exists k :: Hosts(f, related.value, k) == Some(p[i])
      {
        RetargetsTo(f, related.value, p[i]);
      }
      if NotDispatched(f, target, related) {
        var k :| Hosts(f, related.value, k) == Some(p[0]);
        assert InsideAt(f, p, related.value, k, 0);
      }
      if i: nat :| CutAt(f, p, related, i) {
        var k :| Hosts(f, related.value, k) == Some(p[i]);
        assert InsideAt(f, p, related.value, k, i);
      }
      if k: nat, i: nat :| InsideAt(f, p, related.value, k, i) {
        assert Hosts(f, related.value, k) == Some(p[i]);
        assert i > 0 ==> CutAt(f, p, related, i);
      }
    }
  }

  /** A shadow tree of two elements, 2 and its child 3, under the host 0. */
  function Small(): Forest {
    Line(3, {1})
  }

  lemma SmallPath()
    ensures FlatPath(Small(), 2, 2, true) == [2, 1, 0] && Crosses(Small(), [2, 1, 0], 2)
    ensures ShadowRootOf(Small(), 2) == Some(1) && ShadowRootOf(Small(), 3) == Some(1)
  {
    var f := Small();
    assert Up(f, 0) == None && Up(f, 1) == Some(0) && Up(f, 2) == Some(1) && Up(f, 3) == Some(2);
    assert 1 in f.host && 2 !in f.host && 3 !in f.host && 0 !in f.host;
    assert FlatPath(f, 0, 2, true) == [0];
    assert FlatPath(f, 1, 2, true) == [1] + [0];
    assert FlatPath(f, 2, 2, true) == [2] + [1, 0];
    assert LightRoot(f, 2) == 1 && LightRoot(f, 3) == 1;
    assert Adjusted(f, [2, 1, 0], 0) == 2 && Adjusted(f, [2, 1, 0], 1) == 2;
    assert !IncludesAbove(f, 1, 0);
  }

  /** The pointer moves from 3 to 2: the event's path ends inside the shadow tree by the Standard, and the
      program takes it to the host. */
  lemma RelatedTargetIsPassed()
    ensures StandardPath(Small(), 2, true, Some(3)) != StandardStops(Small(), 2, true)
  {
    SmallPath();
    assert Hosts(Small(), 3, 0) == Some(3);
    assert Hosts(Small(), 3, 1) == Some(0);
    assert InsideAt(Small(), [2, 1, 0], 3, 1, 2);
    WholePathVisited(Small(), 2, true, Some(3));
  }

  /** An event on 2 that is composed and does not bubble: no ordinary listener of the host 0 is called. */
  lemma HostLeftOut(l: Listener)
    requires !l.capture
    ensures var plan := Plan(NodePath(Small(), 2, true), false);
            && Pass(NodeTarget(0), AtTarget, false) in StandardPasses(StandardStops(Small(), 2, true), false)
            && forall j :: 0 <= j < |plan| && plan[j].0 == NodeTarget(0) ==> !Matches(plan[j].1, l)
  {
    SmallPath();
    HostListenerUncalled(Small(), 2, true, 2, l);
  }

  // ----- The callees of one target -----

  datatype Callee = ListenerOf(l: Listener) | Handler

  function Callees(ls: seq<Listener>): (r: seq<Callee>)
    ensures |r| == |ls| && forall i :: 0 <= i < |ls| ==> r[i] == ListenerOf(ls[i])
  {
    seq(|ls|, i requires 0 <= i < |ls| => ListenerOf(ls[i]))
  }

  function OfKind(ls: seq<Listener>, capture: bool): (r: seq<Listener>)
    ensures forall i :: 0 <= i < |r| ==> r[i].capture == capture
  {
    if ls == [] then [] else (if ls[0].capture == capture then [ls[0]] else []) + OfKind(ls[1..], capture)
  }

  /** At a target the Standard calls the capture listeners, then the others, among which the event handler
      has the place it was first set at: behind the first `k` listeners. */
  function StandardOrder(ls: seq<Listener>, k: nat): seq<Callee>
    requires k <= |ls|
  {
    Callees(OfKind(ls, true)) + Callees(OfKind(ls[..k], false)) + [Handler] + Callees(OfKind(ls[k..], false))
  }

  /** The program calls all in the order of registration, and then the handler. */
  function ProgramOrder(ls: seq<Listener>): seq<Callee> {
    Callees(ls) + [Handler]
  }

  ghost predicate CaptureFirst(ls: seq<Listener>) {
    forall i, j :: 0 <= i < j < |ls| && ls[j].capture ==> ls[i].capture
  }

  lemma {:induction false} KindsSorted(ls: seq<Listener>)
    ensures OfKind(ls, true) + OfKind(ls, false) == ls <==> CaptureFirst(ls)
  {
    var t, u := OfKind(ls, true), OfKind(ls, false);
    if t + u == ls {
      forall i, j | 0 <= i < j < |ls| && ls[j].capture ensures ls[i].capture {
        assert ls[i] == (t + u)[i] && ls[j] == (t + u)[j];
      }
    }
    if CaptureFirst(ls) { SortedKinds(ls); }
  }

  lemma {:induction false} SortedKinds(ls: seq<Listener>)
    requires CaptureFirst(ls)
    ensures OfKind(ls, true) + OfKind(ls, false) == ls
  {
    if ls != [] {
      var rest := ls[1..];
      assert forall i :: 0 <= i < |rest| ==> rest[i] == ls[i + 1];
      SortedKinds(rest);
      if ls[0].capture {
        assert OfKind(ls, false) == OfKind(rest, false);
        ConcatAssociates([ls[0]], OfKind(rest, true), OfKind(rest, false));
      } else {
        NoneOfKind(rest);
        assert OfKind(ls, true) == [] && OfKind(ls, false) == [ls[0]] + OfKind(rest, false);
      }
    }
  }

  lemma {:induction false} NoneOfKind(ls: seq<Listener>)
    requires forall i :: 0 <= i < |ls| ==> !ls[i].capture
    ensures OfKind(ls, true) == []
  {
    if ls != [] { NoneOfKind(ls[1..]); }
  }

  lemma {:induction false} KindSplits(ls: seq<Listener>, k: nat, capture: bool)
    requires k <= |ls|
    ensures OfKind(ls, capture) == OfKind(ls[..k], capture) + OfKind(ls[k..], capture)
  {
    if k == 0 {
      assert ls[..0] == [] && ls[0..] == ls;
    } else {
      assert ls[..k][0] == ls[0] && ls[..k][1..] == ls[1..][..k - 1] && ls[k..] == ls[1..][k - 1..];
      KindSplits(ls[1..], k - 1, capture);
      ConcatAssociates(if ls[0].capture == capture then [ls[0]] else [],
                       OfKind(ls[1..][..k - 1], capture), OfKind(ls[1..][k - 1..], capture));
    }
  }

  lemma CalleesConcat(a: seq<Listener>, b: seq<Listener>)
    ensures Callees(a + b) == Callees(a) + Callees(b)
  {
  }

  lemma CalleesInjective(a: seq<Listener>, b: seq<Listener>)
    requires Callees(a) == Callees(b)
    ensures a == b
  {
    assert |a| == |b|;
    forall i | 0 <= i < |a| ensures a[i] == b[i] { assert Callees(a)[i] == Callees(b)[i]; }
  }

  /** The order at a target is the Standard's exactly if its capture listeners were registered before its
      others, and none of the others after the handler was set. */
  lemma OrderAtTarget(ls: seq<Listener>, k: nat)
    requires k <= |ls|
    ensures StandardOrder(ls, k) == ProgramOrder(ls) <==> CaptureFirst(ls) && OfKind(ls[k..], false) == []
  {
    var t, u, v := OfKind(ls, true), OfKind(ls[..k], false), OfKind(ls[k..], false);
    KindSplits(ls, k, false);
    KindsSorted(ls);
    CalleesConcat(t, u);
    var front := Callees(t + u);
    if v == [] {
      assert OfKind(ls, false) == u;
      assert StandardOrder(ls, k) == front + [Handler];
      assert (front + [Handler])[..|front|] == front && ProgramOrder(ls)[..|ls|] == Callees(ls);
      if StandardOrder(ls, k) == ProgramOrder(ls) { CalleesInjective(t + u, ls); }
    } else {
      LastCallee(front + [Handler], v);
      assert ProgramOrder(ls)[|ls|] == Handler;
    }
  }

  lemma LastCallee(a: seq<Callee>, v: seq<Listener>)
    requires v != []
    ensures var s := a + Callees(v); s != [] && s[|s| - 1] != Handler
  {
    assert (a + Callees(v))[|a| + |v| - 1] == Callees(v)[|v| - 1];
  }

  /** An ordinary listener and then a capture listener; and a handler set before a listener. */
  lemma OtherOrders(l: Listener, c: Listener)
    requires !l.capture && c.capture
    ensures StandardOrder([l, c], 2) != ProgramOrder([l, c])
    ensures StandardOrder([l], 0) != ProgramOrder([l])
  {
    assert [l, c][1].capture && ![l, c][0].capture;
    OrderAtTarget([l, c], 2);
    assert OfKind([l][0..], false) == [l] + OfKind([], false);
    OrderAtTarget([l], 0);
  }
}
