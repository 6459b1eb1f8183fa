/**
  * Custom element reactions as the program keeps them: one FIFO in the DOM and, for each
  * `[CEReactions]` call, a mark into it. The marks cut the FIFO into a stack of slices, one for
  * each call under way. Here are the traces of such a machine and what every one of them keeps.
  *
  * A reaction is named by the position in the trace at which it was enqueued and by its element,
  * so names never repeat.
  */
module ReactionTrace {
  import opened Common

  type Element = nat

  datatype Reaction = Reaction(at: nat, e: Element)

  /** `Draining` ends a call's own work and begins the running of its reactions, `Drained` ends that;
      `Kept` ends a call that failed or was made outside the main world and leaves its reactions to
      whoever encloses it. `Checkpoint` begins the draining of everything. */
  datatype Event = Enqueued(e: Element) | Entered | Draining | Ran(r: Reaction) | Drained | Kept | Checkpoint

  type Trace = seq<Event>

  // ----- The stack of slices -----

  datatype Slice = Slice(pending: seq<Reaction>, draining: bool)

  /** The bottom slice belongs to no call. */
  type Stack = seq<Slice>

  function Top(s: Stack): Slice
    requires s != []
  {
    s[|s| - 1]
  }

  function Below(s: Stack): Stack
    requires s != []
  {
    s[..|s| - 1]
  }

  function WithTop(s: Stack, x: Slice): Stack
    requires s != []
  {
    Below(s) + [x]
  }

  /** A call or a parser enqueues at the end of its slice; a slice being drained is run from its
      front; a call that keeps its reactions hands them down. A checkpoint belongs outside every call. */
  predicate Allowed(s: Stack, e: Event) {
    s != [] &&
    match e
    case Enqueued(_) => !Top(s).draining
    case Entered => true
    case Draining => |s| > 1 && !Top(s).draining
    case Ran(r) => Top(s).draining && Top(s).pending != [] && Top(s).pending[0] == r
    case Drained => Top(s).draining && Top(s).pending == []
    case Kept => |s| > 1 && !Top(s).draining
    case Checkpoint => |s| == 1 && !Top(s).draining
  }

  function Step(s: Stack, e: Event, at: nat): (r: Stack)
    requires Allowed(s, e)
    ensures r != []
  {
    var top := Top(s);
    match e
    case Enqueued(x) => WithTop(s, top.(pending := top.pending + [Reaction(at, x)]))
    case Entered => s + [Slice([], false)]
    case Draining => WithTop(s, top.(draining := true))
    case Ran(_) => WithTop(s, top.(pending := top.pending[1..]))
    case Drained => if |s| > 1 then Below(s) else WithTop(s, top.(draining := false))
    case Kept => WithTop(Below(s), Top(Below(s)).(pending := Top(Below(s)).pending + top.pending))
    case Checkpoint => WithTop(s, top.(draining := true))
  }

  ghost predicate Legal(t: Trace)
    decreases |t|, 0
  {
    t == [] || (Legal(t[..|t| - 1]) && Allowed(StackOf(t[..|t| - 1]), t[|t| - 1]))
  }

  ghost function StackOf(t: Trace): (s: Stack)
    requires Legal(t)
    ensures s != []
    decreases |t|, 1
  {
    if t == [] then [Slice([], false)] else Step(StackOf(t[..|t| - 1]), t[|t| - 1], |t| - 1)
  }

  /** The slices from the bottom up: the FIFO. */
  function Flat(s: Stack): seq<Reaction> {
    if s == [] then [] else Flat(Below(s)) + Top(s).pending
  }

  /** Nothing is under way. */
  ghost predicate AtRest(t: Trace) {
    Legal(t) && |StackOf(t)| == 1 && !Top(StackOf(t)).draining
  }

  /** A call or a parser is at work, and not a callback. */
  ghost predicate InBody(t: Trace) {
    Legal(t) ==> !Top(StackOf(t)).draining
  }

  lemma LegalPrefix(t: Trace, e: Event)
    ensures Legal(t + [e]) ==> Legal(t) && Allowed(StackOf(t), e) && StackOf(t + [e]) == Step(StackOf(t), e, |t|)
    ensures Legal(t) && Allowed(StackOf(t), e) ==> Legal(t + [e])
  {
    assert (t + [e])[..|t|] == t;
  }

  lemma BelowWithTop(s: Stack, x: Slice)
    requires s != []
    ensures Below(WithTop(s, x)) == Below(s) && Top(WithTop(s, x)) == x && |WithTop(s, x)| == |s|
    ensures Flat(WithTop(s, x)) == Flat(Below(s)) + x.pending
  {
    assert Below(WithTop(s, x)) == Below(s);
  }

  lemma BelowPushed(s: Stack, x: Slice)
    ensures Below(s + [x]) == s && Top(s + [x]) == x && Flat(s + [x]) == Flat(s) + x.pending
  {
    assert Below(s + [x]) == s;
  }

  /** What a step does to the FIFO. */
  lemma FlatStep(s: Stack, e: Event, at: nat)
    requires Allowed(s, e)
    ensures var f := Flat(Step(s, e, at));
            if e.Enqueued? then f == Flat(s) + [Reaction(at, e.e)]
            else if e.Ran? then f == Flat(Below(s)) + Top(s).pending[1..]
            else f == Flat(s)
  {
    var below, top := Flat(Below(s)), Top(s);
    match e {
      case Enqueued(x) =>
        BelowWithTop(s, top.(pending := top.pending + [Reaction(at, x)]));
        ConcatAssociates(below, top.pending, [Reaction(at, x)]);
      case Entered =>
        BelowPushed(s, Slice([], false));
        assert Flat(s) + [] == Flat(s);
      case Draining => BelowWithTop(s, top.(draining := true));
      case Ran(_) => BelowWithTop(s, top.(pending := top.pending[1..]));
      case Drained =>
        BelowWithTop(s, top.(draining := false));
        assert below + [] == below;
      case Kept => KeptFlat(s);
      case Checkpoint => BelowWithTop(s, top.(draining := true));
    }
  }

  lemma KeptFlat(s: Stack)
    requires |s| > 1
    ensures Flat(WithTop(Below(s), Top(Below(s)).(pending := Top(Below(s)).pending + Top(s).pending))) == Flat(s)
  {
    var b := Below(s);
    BelowWithTop(b, Top(b).(pending := Top(b).pending + Top(s).pending));
    ConcatAssociates(Flat(Below(b)), Top(b).pending, Top(s).pending);
  }

  // ----- Conservation -----

  /** The reactions run, in order. */
  function RanIn(t: Trace): seq<Reaction> {
    if t == [] then []
    else RanIn(t[..|t| - 1]) + if t[|t| - 1].Ran? then [t[|t| - 1].r] else []
  }

  function EnqueuedIn(t: Trace): multiset<Reaction> {
    if t == [] then multiset{}
    else
      EnqueuedIn(t[..|t| - 1])
      + if t[|t| - 1].Enqueued? then multiset{Reaction(|t| - 1, t[|t| - 1].e)} else multiset{}
  }

  /** Every reaction enqueued is pending or has run, never both and never twice; nothing else is. */
  ghost predicate Conserved(t: Trace, fifo: seq<Reaction>) {
    multiset(fifo) + multiset(RanIn(t)) == EnqueuedIn(t)
  }

  ghost predicate WasEnqueued(t: Trace, r: Reaction) {
    r.at < |t| && t[r.at] == Enqueued(r.e)
  }

  lemma {:induction false} EnqueuedOnce(t: Trace, r: Reaction)
    ensures EnqueuedIn(t)[r] == if WasEnqueued(t, r) then 1 else 0
  {
    if t != [] { EnqueuedOnce(t[..|t| - 1], r); }
  }

  lemma ConservedAt(t: Trace, fifo: seq<Reaction>, r: Reaction)
    requires Conserved(t, fifo)
    ensures multiset(fifo)[r] + multiset(RanIn(t))[r] == if WasEnqueued(t, r) then 1 else 0
  {
    EnqueuedOnce(t, r);
    assert (multiset(fifo) + multiset(RanIn(t)))[r] == EnqueuedIn(t)[r];
  }

  /** What conservation says of one reaction: if enqueued it is in one place, once. */
  lemma ConservedOnce(t: Trace, fifo: seq<Reaction>)
    requires Conserved(t, fifo)
    ensures NoDup(fifo) && NoDup(RanIn(t))
    ensures forall r :: r in fifo ==> r !in RanIn(t)
    ensures forall r :: r in fifo || r in RanIn(t) <==> WasEnqueued(t, r)
  {
    forall r ensures multiset(fifo)[r] <= 1 { ConservedAt(t, fifo, r); }
    OnceIsNoDup(fifo);
    forall r ensures multiset(RanIn(t))[r] <= 1 { ConservedAt(t, fifo, r); }
    OnceIsNoDup(RanIn(t));
    forall r ensures (r in fifo ==> r !in RanIn(t)) && (r in fifo || r in RanIn(t) <==> WasEnqueued(t, r)) {
      ConservedAt(t, fifo, r);
      assert r in fifo <==> multiset(fifo)[r] > 0;
      assert r in RanIn(t) <==> multiset(RanIn(t))[r] > 0;
    }
  }

  lemma OnceIsNoDup(s: seq<Reaction>)
    requires forall r :: multiset(s)[r] <= 1
    ensures NoDup(s)
  {
    forall i, j | 0 <= i < j < |s| ensures s[i] != s[j] {
      assert s == s[..i] + [s[i]] + s[i + 1..j] + [s[j]] + s[j + 1..];
      assert multiset(s)[s[i]] <= 1;
    }
  }

  lemma EnqueueConserves(t: Trace, f: seq<Reaction>, e: Element)
    requires Conserved(t, f)
    ensures Conserved(t + [Enqueued(e)], f + [Reaction(|t|, e)])
  {
    var u, g := t + [Enqueued(e)], f + [Reaction(|t|, e)];
    assert u[..|t|] == t && g[..|f|] == f;
    assert RanIn(u) == RanIn(t);
    assert multiset(g) == multiset(f) + multiset([g[|f|]]);
  }

  lemma RunConserves(t: Trace, f: seq<Reaction>, i: nat)
    requires Conserved(t, f) && i < |f|
    ensures Conserved(t + [Ran(f[i])], f[..i] + f[i + 1..])
  {
    assert (t + [Ran(f[i])])[..|t|] == t;
    assert f == f[..i] + [f[i]] + f[i + 1..];
  }

  /** A label that touches neither list. */
  lemma SilentConserves(t: Trace, f: seq<Reaction>, e: Event)
    requires Conserved(t, f) && !e.Enqueued? && !e.Ran?
    ensures Conserved(t + [e], f)
  {
    assert (t + [e])[..|t|] == t;
  }

  /** The FIFO in step with its trace. */
  ghost predicate InStep(t: Trace, f: seq<Reaction>) {
    Conserved(t, f) && (Legal(t) ==> Flat(StackOf(t)) == f)
  }

  lemma SilentInStep(t: Trace, f: seq<Reaction>, e: Event)
    requires InStep(t, f) && !e.Enqueued? && !e.Ran?
    ensures InStep(t + [e], f)
  {
    SilentConserves(t, f, e);
    LegalPrefix(t, e);
    if Legal(t + [e]) { FlatStep(StackOf(t), e, |t|); }
  }

  lemma EnqueueInStep(t: Trace, f: seq<Reaction>, e: Element)
    requires InStep(t, f)
    ensures InStep(t + [Enqueued(e)], f + [Reaction(|t|, e)])
  {
    EnqueueConserves(t, f, e);
    LegalPrefix(t, Enqueued(e));
    if Legal(t + [Enqueued(e)]) { FlatStep(StackOf(t), Enqueued(e), |t|); }
  }

  lemma RunInStep(t: Trace, f: seq<Reaction>, mark: nat)
    requires InStep(t, f) && mark < |f|
    ensures InStep(t + [Ran(f[mark])], f[..mark] + f[mark + 1..])
  {
    RunConserves(t, f, mark);
    LegalPrefix(t, Ran(f[mark]));
    if Legal(t + [Ran(f[mark])]) {
      var s := StackOf(t);
      var below, top := Flat(Below(s)), Top(s).pending;
      FlatStep(s, Ran(f[mark]), |t|);
      ConservedOnce(t, f);
      assert f[|below|] == top[0] == f[mark];
      assert f[..mark] == below && f[mark + 1..] == top[1..];
    }
  }

  // ----- Order -----

  ghost predicate Increasing(s: seq<Reaction>) {
    forall i, j :: 0 <= i < j < |s| ==> s[i].at < s[j].at
  }

  ghost predicate Before(s: seq<Reaction>, at: nat) {
    forall i :: 0 <= i < |s| ==> s[i].at < at
  }

  /** The slices from the bottom up hold the reactions in the order they were enqueued: so each slice
      runs oldest first, and an inner slice is newer than an outer one. */
  lemma {:induction false} SlicesInOrder(t: Trace)
    requires Legal(t)
    ensures Increasing(Flat(StackOf(t))) && Before(Flat(StackOf(t)), |t|)
  {
    if t != [] {
      var u, e := t[..|t| - 1], t[|t| - 1];
      SlicesInOrder(u);
      StepKeepsOrder(StackOf(u), e, |u|);
    }
  }

  lemma StepKeepsOrder(s: Stack, e: Event, at: nat)
    requires Allowed(s, e) && Increasing(Flat(s)) && Before(Flat(s), at)
    ensures var f := Flat(Step(s, e, at)); Increasing(f) && Before(f, at + 1)
  {
    FlatStep(s, e, at);
    if e.Ran? { TailInOrder(Flat(Below(s)), Top(s).pending, at); }
  }

  lemma TailInOrder(below: seq<Reaction>, top: seq<Reaction>, at: nat)
    requires top != [] && Increasing(below + top) && Before(below + top, at)
    ensures Increasing(below + top[1..]) && Before(below + top[1..], at)
  {
    var a, b := below + top, below + top[1..];
    forall i | 0 <= i < |b| ensures b[i] == a[if i < |below| then i else i + 1] {}
  }

  // ----- From one moment to a later one -----

  /** What grew since an earlier moment: the trace, and the pending reactions only by new ones;
      once a checkpoint has run, all that is pending is new. */
  ghost predicate Grew(t0: Trace, f0: seq<Reaction>, t: Trace, f: seq<Reaction>) {
    && t0 <= t
    && (forall r :: r in f ==> r in f0 || r.at >= |t0|)
    && (Checkpoint in t[|t0|..] ==> forall r :: r in f ==> r.at >= |t0|)
  }

  lemma GrewTransitive(t0: Trace, f0: seq<Reaction>, t1: Trace, f1: seq<Reaction>, t2: Trace, f2: seq<Reaction>)
    requires Grew(t0, f0, t1, f1) && Grew(t1, f1, t2, f2)
    ensures Grew(t0, f0, t2, f2)
  {
    if Checkpoint in t2[|t0|..] {
      assert t2[|t0|..] == t1[|t0|..] + t2[|t1|..];
    }
  }

  /** What `t` adds to `t0`, without a checkpoint in it. */
  ghost predicate Calm(t0: Trace, t: Trace) {
    t0 <= t && Checkpoint !in t[|t0|..]
  }

  lemma CalmSplits(t0: Trace, t1: Trace, t2: Trace)
    requires t0 <= t1 <= t2
    ensures Calm(t0, t2) <==> Calm(t0, t1) && Calm(t1, t2)
  {
    assert t2[|t0|..] == t1[|t0|..] + t2[|t1|..];
  }

  /** Every checkpoint is made with nothing under way. */
  ghost predicate Proper(t: Trace) {
    forall i :: 0 <= i < |t| && t[i] == Checkpoint && Legal(t[..i]) ==> AtRest(t[..i])
  }

  /** The machine's rules are kept, as long as no checkpoint is made inside a call or a drain. */
  ghost predicate Sound(t: Trace) {
    Proper(t) ==> Legal(t)
  }

  lemma {:induction false} LegalIsProper(t0: Trace, t: Trace)
    requires Legal(t) && t0 <= t
    ensures Legal(t0) && Proper(t)
    decreases |t|
  {
    if t != [] {
      var u := t[..|t| - 1];
      if |t0| < |t| { LegalIsProper(t0, u); } else { LegalIsProper(u, u); }
      assert forall i :: 0 <= i <= |u| ==> t[..i] == u[..i];
    }
    if |t0| == |t| { assert t0 == t; }
  }

  lemma ProperPrefix(t0: Trace, t: Trace)
    requires t0 <= t && Proper(t)
    ensures Proper(t0)
  {
    assert forall i :: 0 <= i < |t0| ==> t0[..i] == t[..i];
  }

  lemma CalmIsProper(t0: Trace, t: Trace)
    requires Calm(t0, t) && Proper(t0)
    ensures Proper(t)
  {
    assert forall i :: |t0| <= i < |t| ==> t[i] == t[|t0|..][i - |t0|];
    assert forall i :: 0 <= i < |t0| ==> t0[..i] == t[..i];
  }

  /** A calm stretch keeps to the rules. */
  lemma CalmIsLegal(t0: Trace, t: Trace)
    requires Calm(t0, t) && Legal(t0) && Sound(t)
    ensures Legal(t)
  {
    LegalIsProper(t0, t0);
    CalmIsProper(t0, t);
  }

  lemma SoundStep(t: Trace, e: Event)
    requires Sound(t) && (e == Checkpoint || (Legal(t) ==> Allowed(StackOf(t), e)))
    ensures Sound(t + [e])
  {
    var u := t + [e];
    if Proper(u) {
      ProperPrefix(t, u);
      LegalPrefix(t, e);
      assert u[..|t|] == t && u[|t|] == e;
    }
  }

  /** The same calls under way, and all but the innermost as they were. */
  ghost predicate SameCalls(s0: Stack, s: Stack) {
    && s0 != [] && |s| == |s0| && Below(s) == Below(s0) && Top(s).draining == Top(s0).draining
  }

  /** At no moment in between has a call that was under way ended. */
  ghost predicate Inside(t0: Trace, t: Trace) {
    t0 <= t && (Legal(t0) ==> forall i :: |t0| <= i <= |t| ==> HeightKept(t0, t, i))
  }

  ghost predicate HeightKept(t0: Trace, t: Trace, i: nat)
    requires Legal(t0) && i <= |t|
  {
    Legal(t[..i]) ==> |StackOf(t[..i])| >= |StackOf(t0)|
  }

  ghost predicate KeepsBelow(t0: Trace, t: Trace) {
    Inside(t0, t) && (Legal(t) ==> Legal(t0) && SameCalls(StackOf(t0), StackOf(t)))
  }

  lemma InsideAtOnce(t: Trace)
    ensures Inside(t, t)
  {
    assert t[..|t|] == t;
  }

  lemma InsideStep(t: Trace, e: Event)
    requires e.Enqueued? || e.Ran?
    ensures Inside(t, t + [e])
  {
    var u := t + [e];
    LegalPrefix(t, e);
    assert u[..|t|] == t && u[..|u|] == u;
  }

  lemma InsideTransitive(t0: Trace, t1: Trace, t2: Trace)
    requires Inside(t0, t1) && Inside(t1, t2) && (Legal(t1) ==> Legal(t0) && |StackOf(t1)| >= |StackOf(t0)|)
    ensures Inside(t0, t2)
  {
    forall i | |t0| <= i <= |t2| && Legal(t0) ensures HeightKept(t0, t2, i) {
      if i <= |t1| {
        assert HeightKept(t0, t1, i) && t2[..i] == t1[..i];
      } else if Legal(t2[..i]) {
        LegalIsProper(t1, t2[..i]);
        assert HeightKept(t1, t2, i);
      }
    }
  }

  /** A call from its beginning to its end. */
  lemma InsideCall(t0: Trace, t1: Trace, t: Trace, e: Event)
    requires t1 == t0 + [Entered] && Inside(t1, t) && (e.Drained? || e.Kept?)
    ensures Inside(t0, t + [e])
  {
    var u := t + [e];
    LegalPrefix(t0, Entered);
    LegalPrefix(t, e);
    forall i | |t0| <= i <= |u| && Legal(t0) ensures HeightKept(t0, u, i) {
      if i == |t0| {
        assert u[..i] == t0;
      } else if i <= |t| {
        if Legal(t[..i]) { LegalIsProper(t1, t[..i]); }
        assert u[..i] == t[..i] && (Legal(t1) ==> HeightKept(t1, t, i));
      } else {
        assert u[..i] == u && t[..|t|] == t;
        if Legal(u) { LegalIsProper(t1, t); }
        assert Legal(t1) ==> HeightKept(t1, t, |t|);
      }
    }
  }

  lemma InsideSilent(t0: Trace, t: Trace, e: Event)
    requires Inside(t0, t) && (e.Draining? || e.Checkpoint?)
    ensures Inside(t0, t + [e])
  {
    var u := t + [e];
    LegalPrefix(t, e);
    forall i | |t0| <= i <= |u| && Legal(t0) ensures HeightKept(t0, u, i) {
      assert i <= |t| ==> HeightKept(t0, t, i) && u[..i] == t[..i];
      assert HeightKept(t0, t, |t|) && u[..|u|] == u && t[..|t|] == t;
    }
  }

  /** A call that is still at its own work has run nothing of its slice. */
  lemma {:induction false} OwnSliceGrows(t: Trace, n: nat, i: nat)
    requires Legal(t) && 0 < n < |StackOf(t)| && !StackOf(t)[n].draining && i <= |t|
    requires forall j :: i <= j <= |t| && Legal(t[..j]) ==> |StackOf(t[..j])| > n
    ensures Legal(t[..i]) && n < |StackOf(t[..i])|
    ensures !StackOf(t[..i])[n].draining && StackOf(t[..i])[n].pending <= StackOf(t)[n].pending
    decreases |t|
  {
    if i < |t| {
      var u := t[..|t| - 1];
      assert t == u + [t[|t| - 1]];
      SliceStep(StackOf(u), t[|t| - 1], |u|, n);
      forall j | i <= j <= |u| && Legal(u[..j]) ensures |StackOf(u[..j])| > n { assert u[..j] == t[..j]; }
      OwnSliceGrows(u, n, i);
      assert u[..i] == t[..i];
    } else {
      assert t[..i] == t;
    }
  }

  lemma SliceStep(s: Stack, e: Event, at: nat, n: nat)
    requires Allowed(s, e) && 0 < n < |s| && n < |Step(s, e, at)| && !Step(s, e, at)[n].draining
    ensures !s[n].draining && s[n].pending <= Step(s, e, at)[n].pending
  {
  }

  /** What a finished operation has done: only new reactions are pending besides the old ones, the
      lower slices are as they were, and a calm one has kept all that was pending. */
  ghost predicate Behaved(t0: Trace, f0: seq<Reaction>, t: Trace, f: seq<Reaction>) {
    Grew(t0, f0, t, f) && KeepsBelow(t0, t) && (Calm(t0, t) ==> f0 <= f)
  }

  lemma BehavedTransitive(t0: Trace, f0: seq<Reaction>, t1: Trace, f1: seq<Reaction>, t2: Trace, f2: seq<Reaction>)
    requires Behaved(t0, f0, t1, f1) && Behaved(t1, f1, t2, f2)
    ensures Behaved(t0, f0, t2, f2)
  {
    GrewTransitive(t0, f0, t1, f1, t2, f2);
    CalmSplits(t0, t1, t2);
    InsideTransitive(t0, t1, t2);
  }

  lemma EnqueueBehaves(t: Trace, f: seq<Reaction>, e: Element)
    requires InBody(t)
    ensures Behaved(t, f, t + [Enqueued(e)], f + [Reaction(|t|, e)]) && InBody(t + [Enqueued(e)])
  {
    var u := t + [Enqueued(e)];
    assert u[|t|..] == [Enqueued(e)];
    LegalPrefix(t, Enqueued(e));
    InsideStep(t, Enqueued(e));
    if Legal(t) {
      var s := StackOf(t);
      BelowWithTop(s, Top(s).(pending := Top(s).pending + [Reaction(|t|, e)]));
    }
  }

  lemma BodyKept(t0: Trace, t: Trace)
    requires InBody(t0) && KeepsBelow(t0, t)
    ensures InBody(t)
  {
  }
}
