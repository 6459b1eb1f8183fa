/**
  * Custom element reactions as HTML section 4.13.6 has them: a stack of element queues, and on
  * each element a queue of its own reactions. To invoke the reactions of an element queue is to
  * take its elements one by one and to run each until it has no reaction left.
  *
  * The program's slices hold reactions, and HTML's queues hold elements. Here is exactly when the
  * two run the same reactions in the same order.
  */
module ElementQueues {
  import opened Common
  import opened ReactionTrace

  /** One element queue, from when it is pushed until all its reactions have run. It is popped off
      HTML's stack when `invoking` begins; `current` is the element then being worked off. */
  datatype Frame = Frame(queue: seq<Element>, invoking: bool, current: Option<Element>) {
    /** What is left to work off. */
    function Waiting(): seq<Element> {
      (if current.Some? then [current.value] else []) + queue
    }
  }

  /** The bottom frame holds the backup element queue. */
  datatype Html = Html(frames: seq<Frame>, queues: map<Element, seq<Reaction>>) {
    /** An element's reaction queue. */
    function Of(e: Element): seq<Reaction> {
      if e in queues then queues[e] else []
    }

    function Top(): Frame
      requires frames != []
    {
      frames[|frames| - 1]
    }

    function WithTop(f: Frame): Html
      requires frames != []
    {
      this.(frames := frames[..|frames| - 1] + [f])
    }

    /** The "current element queue" is the innermost on the stack, or the backup element queue. */
    function CurrentQueue(): (i: nat)
      requires frames != []
      ensures i < |frames|
    {
      Innermost(frames, |frames| - 1)
    }
  }

  function Innermost(frames: seq<Frame>, i: nat): (j: nat)
    requires i < |frames|
    ensures j <= i
  {
    if i == 0 || !frames[i].invoking then i else Innermost(frames, i - 1)
  }

  /** Elements without a reaction are passed over. */
  function SkipIdle(h: Html, w: seq<Element>): (r: seq<Element>)
    ensures r != [] ==> h.Of(r[0]) != []
  {
    if w == [] || h.Of(w[0]) != [] then w else SkipIdle(h, w[1..])
  }

  function Busy(h: Html): seq<Element>
    requires h.frames != []
  {
    SkipIdle(h, h.Top().Waiting())
  }

  /** A call runs its reactions whether it succeeded or threw, so it can only be `Kept` if it has none. */
  predicate HtmlAllowed(h: Html, e: Event) {
    h.frames != [] &&
    match e
    case Enqueued(_) => true
    case Entered => true
    case Draining => |h.frames| > 1 && !h.Top().invoking
    case Ran(r) => h.Top().invoking && Busy(h) != [] && h.Of(Busy(h)[0])[0] == r
    case Drained => h.Top().invoking && Busy(h) == []
    case Kept => |h.frames| > 1 && !h.Top().invoking && Busy(h) == []
    case Checkpoint => |h.frames| == 1 && !h.Top().invoking
  }

  function HtmlStep(h: Html, e: Event, at: nat): (r: Html)
    requires HtmlAllowed(h, e)
    ensures r.frames != []
  {
    var top := h.Top();
    match e
    case Enqueued(x) =>
      var i := h.CurrentQueue();
      Html(h.frames[i := h.frames[i].(queue := h.frames[i].queue + [x])], h.queues[x := h.Of(x) + [Reaction(at, x)]])
    case Entered => h.(frames := h.frames + [Frame([], false, None)])
    case Draining => h.WithTop(top.(invoking := true))
    case Ran(_) =>
      var w := Busy(h);
      h.WithTop(top.(current := Some(w[0]), queue := w[1..])).(queues := h.queues[w[0] := h.Of(w[0])[1..]])
    case Drained =>
      if |h.frames| > 1 then h.(frames := h.frames[..|h.frames| - 1]) else h.WithTop(Frame([], false, None))
    case Kept => h.(frames := h.frames[..|h.frames| - 1])
    case Checkpoint => h.WithTop(top.(invoking := true))
  }

  /** Each event is the one HTML prescribes, or one it leaves to the page. */
  ghost predicate HtmlLegal(t: Trace)
    decreases |t|, 0
  {
    t == [] || (HtmlLegal(t[..|t| - 1]) && HtmlAllowed(HtmlOf(t[..|t| - 1]), t[|t| - 1]))
  }

  ghost function HtmlOf(t: Trace): (h: Html)
    requires HtmlLegal(t)
    ensures h.frames != []
    decreases |t|, 1
  {
    if t == [] then Html([Frame([], false, None)], map[])
    else HtmlStep(HtmlOf(t[..|t| - 1]), t[|t| - 1], |t| - 1)
  }

  lemma HtmlPrefix(t: Trace, e: Event)
    ensures HtmlLegal(t + [e]) ==>
              HtmlLegal(t) && HtmlAllowed(HtmlOf(t), e) && HtmlOf(t + [e]) == HtmlStep(HtmlOf(t), e, |t|)
    ensures HtmlLegal(t) && HtmlAllowed(HtmlOf(t), e) ==> HtmlLegal(t + [e])
  {
    assert (t + [e])[..|t|] == t;
  }

  // ----- The condition -----

  /** Behind a reaction of `e` stand only reactions of `e`. */
  ghost predicate Tail(p: seq<Reaction>, e: Element) {
    forall i, j :: 0 <= i < j < |p| && p[i].e == e ==> p[j].e == e
  }

  ghost predicate Lacks(p: seq<Reaction>, e: Element) {
    forall i :: 0 <= i < |p| ==> p[i].e != e
  }

  /** An element is enqueued on only if it has nothing pending, or its pending reactions are the last
      of the current slice; and a call that keeps its reactions has none. */
  ghost predicate Guard(s: Stack, e: Event)
    requires s != []
  {
    match e
    case Enqueued(x) => Lacks(Flat(Below(s)), x) && Tail(Top(s).pending, x)
    case Kept => Top(s).pending == []
    case _ => true
  }

  ghost predicate Guarded(t: Trace)
    requires Legal(t)
  {
    t == [] || (Guarded(t[..|t| - 1]) && Guard(StackOf(t[..|t| - 1]), t[|t| - 1]))
  }

  // ----- The two machines side by side -----

  /** The pending reactions of one element, in order. */
  function OfElement(p: seq<Reaction>, e: Element): (r: seq<Reaction>)
    ensures forall x :: x in r <==> x in p && x.e == e
  {
    if p == [] then [] else OfElement(p[..|p| - 1], e) + if p[|p| - 1].e == e then [p[|p| - 1]] else []
  }

  ghost predicate SameFlags(x: Slice, f: Frame) {
    x.draining == f.invoking && (!f.invoking ==> f.current.None?)
  }

  /** Whoever has a reaction in a slice waits in its frame. */
  ghost predicate AllWait(x: Slice, f: Frame) {
    forall i :: 0 <= i < |x.pending| ==> x.pending[i].e in f.Waiting()
  }

  ghost predicate OwnQueue(s: Stack, h: Html, e: Element) {
    && (forall r :: r in h.Of(e) <==> r in Flat(s) && r.e == e)
    && Increasing(h.Of(e))
  }

  /** What agrees as long as both machines accept the trace. */
  ghost predicate Matches(s: Stack, h: Html) {
    && s != [] && |s| == |h.frames|
    && (forall j :: 0 <= j < |s| ==> SameFlags(s[j], h.frames[j]) && AllWait(s[j], h.frames[j]))
    && forall e :: OwnQueue(s, h, e)
  }

  lemma {:induction false} SkipIdleKeeps(h: Html, w: seq<Element>, e: Element)
    requires e in w && h.Of(e) != []
    ensures e in SkipIdle(h, w)
  {
    if h.Of(w[0]) == [] { SkipIdleKeeps(h, w[1..], e); }
  }

  lemma FlatMember(s: Stack, j: nat, r: Reaction)
    requires j < |s| && r in s[j].pending
    ensures r in Flat(s)
    decreases |s|
  {
    if j < |s| - 1 { FlatMember(Below(s), j, r); }
  }

  lemma InnermostIsTop(h: Html)
    requires h.frames != [] && !h.Top().invoking
    ensures h.CurrentQueue() == |h.frames| - 1
  {
  }

  lemma TopMatches(s: Stack, h: Html)
    requires Matches(s, h)
    ensures SameFlags(Top(s), h.Top()) && AllWait(Top(s), h.Top())
  {
  }

  /** A frame replaced at the top. */
  lemma MatchTop(s: Stack, h: Html, x: Slice, f: Frame, h2: Html)
    requires Matches(s, h) && SameFlags(x, f) && AllWait(x, f) && h2.frames == h.WithTop(f).frames
    requires forall e :: OwnQueue(WithTop(s, x), h2, e)
    ensures Matches(WithTop(s, x), h2)
  {
    var u := WithTop(s, x);
    forall j | 0 <= j < |u| ensures SameFlags(u[j], h2.frames[j]) && AllWait(u[j], h2.frames[j]) {
      if j < |s| - 1 { assert u[j] == s[j] && h2.frames[j] == h.frames[j]; }
    }
  }

  lemma MatchBelow(s: Stack, h: Html, h2: Html)
    requires Matches(s, h) && |s| > 1 && Top(s).pending == [] && h2 == h.(frames := h.frames[..|h.frames| - 1])
    ensures Matches(Below(s), h2)
  {
    assert Flat(s) == Flat(Below(s)) + [];
    forall e ensures OwnQueue(Below(s), h2, e) { assert OwnQueue(s, h, e); }
  }

  lemma EnqueueMatches(s: Stack, h: Html, e: Element, at: nat)
    requires Matches(s, h) && Before(Flat(s), at) && Allowed(s, Enqueued(e))
    ensures Matches(Step(s, Enqueued(e), at), HtmlStep(h, Enqueued(e), at))
  {
    var u, h2 := Step(s, Enqueued(e), at), HtmlStep(h, Enqueued(e), at);
    TopMatches(s, h);
    InnermostIsTop(h);
    FlatStep(s, Enqueued(e), at);
    forall x ensures OwnQueue(u, h2, x) { OwnQueueGrows(s, h, u, h2, e, at, x); }
    MatchTop(s, h, Top(u), h.Top().(queue := h.Top().queue + [e]), h2);
  }

  lemma OwnQueueGrows(s: Stack, h: Html, u: Stack, h2: Html, e: Element, at: nat, x: Element)
    requires OwnQueue(s, h, x) && Before(Flat(s), at) && Flat(u) == Flat(s) + [Reaction(at, e)]
    requires h2.queues == h.queues[e := h.Of(e) + [Reaction(at, e)]]
    ensures OwnQueue(u, h2, x)
  {
    if x == e {
      forall i | 0 <= i < |h.Of(e)| ensures h.Of(e)[i].at < at { InFlatBefore(s, h.Of(e)[i], at); }
    }
  }

  lemma InFlatBefore(s: Stack, r: Reaction, at: nat)
    requires Before(Flat(s), at)
    ensures r in Flat(s) ==> r.at < at
  {
  }

  lemma EnterMatches(s: Stack, h: Html)
    requires Matches(s, h)
    ensures Matches(s + [Slice([], false)], h.(frames := h.frames + [Frame([], false, None)]))
  {
    var u, h2 := s + [Slice([], false)], h.(frames := h.frames + [Frame([], false, None)]);
    BelowPushed(s, Slice([], false));
    assert Flat(u) == Flat(s);
    forall e ensures OwnQueue(u, h2, e) { assert OwnQueue(s, h, e); }
  }

  lemma FlagMatches(s: Stack, h: Html, f: Frame, draining: bool)
    requires Matches(s, h) && f.invoking == draining && (!draining ==> f.current.None?)
    requires f.Waiting() == h.Top().Waiting() || Top(s).pending == []
    ensures Matches(WithTop(s, Top(s).(draining := draining)), h.WithTop(f))
  {
    var u := WithTop(s, Top(s).(draining := draining));
    TopMatches(s, h);
    BelowWithTop(s, Top(s).(draining := draining));
    forall e ensures OwnQueue(u, h.WithTop(f), e) { assert OwnQueue(s, h, e); }
    MatchTop(s, h, Top(u), f, h.WithTop(f));
  }

  lemma RunMatches(s: Stack, h: Html, r: Reaction, at: nat)
    requires Matches(s, h) && Increasing(Flat(s)) && Allowed(s, Ran(r)) && HtmlAllowed(h, Ran(r))
    ensures Matches(Step(s, Ran(r), at), HtmlStep(h, Ran(r), at))
  {
    var u, h2, w := Step(s, Ran(r), at), HtmlStep(h, Ran(r), at), Busy(h);
    var below, top := Flat(Below(s)), Top(s).pending;
    TopMatches(s, h);
    FlatStep(s, Ran(r), at);
    assert OwnQueue(s, h, w[0]) && r in h.Of(w[0]) && r.e == w[0];
    forall e ensures OwnQueue(u, h2, e) {
      assert OwnQueue(s, h, e);
      RestOfFlat(below, top);
      if e == w[0] { RestOfQueue(h.Of(e)); }
    }
    var f := h.Top().(current := Some(w[0]), queue := w[1..]);
    forall i | 0 <= i < |top[1..]| ensures top[1..][i].e in f.Waiting() {
      var x := top[i + 1];
      assert OwnQueue(s, h, x.e) && x in Flat(s) && x in h.Of(x.e);
      SkipIdleKeeps(h, h.Top().Waiting(), x.e);
    }
    MatchTop(s, h, Top(u), f, h2);
  }

  lemma RestOfFlat(below: seq<Reaction>, top: seq<Reaction>)
    requires top != [] && Increasing(below + top)
    ensures forall r :: r in below + top[1..] <==> r in below + top && r != top[0]
  {
    var a, b := below + top, below + top[1..];
    forall i | 0 <= i < |b| ensures b[i] in a && b[i] != top[0] {
      assert b[i] == a[if i < |below| then i else i + 1] && top[0] == a[|below|];
    }
    forall r | r in a && r != top[0] ensures r in b {
      var i :| 0 <= i < |a| && a[i] == r;
      assert r == b[if i < |below| then i else i - 1];
    }
  }

  lemma RestOfQueue(q: seq<Reaction>)
    requires q != [] && Increasing(q)
    ensures Increasing(q[1..]) && forall r :: r in q[1..] <==> r in q && r != q[0]
  {
    RestOfFlat([], q);
    assert [] + q == q && [] + q[1..] == q[1..];
  }

  /** A call that HTML lets go without running anything has nothing pending. */
  lemma NothingWaits(s: Stack, h: Html)
    requires Matches(s, h) && Busy(h) == []
    ensures Top(s).pending == []
  {
    TopMatches(s, h);
    if Top(s).pending != [] {
      var r := Top(s).pending[0];
      FlatMember(s, |s| - 1, r);
      assert OwnQueue(s, h, r.e);
      SkipIdleKeeps(h, h.Top().Waiting(), r.e);
    }
  }

  lemma KeptEmpty(s: Stack)
    requires |s| > 1 && Top(s).pending == []
    ensures WithTop(Below(s), Top(Below(s)).(pending := Top(Below(s)).pending + Top(s).pending)) == Below(s)
  {
    var b := Below(s);
    assert Top(b).pending + [] == Top(b).pending;
    assert WithTop(b, Top(b)) == b;
  }

  lemma StepMatches(s: Stack, h: Html, e: Event, at: nat)
    requires Matches(s, h) && Allowed(s, e) && HtmlAllowed(h, e) && Increasing(Flat(s)) && Before(Flat(s), at)
    ensures Matches(Step(s, e, at), HtmlStep(h, e, at))
  {
    TopMatches(s, h);
    match e {
      case Enqueued(x) => EnqueueMatches(s, h, x, at);
      case Entered => EnterMatches(s, h);
      case Draining => FlagMatches(s, h, h.Top().(invoking := true), true);
      case Ran(r) => RunMatches(s, h, r, at);
      case Drained =>
        if |s| > 1 {
          MatchBelow(s, h, HtmlStep(h, e, at));
        } else {
          FlagMatches(s, h, Frame([], false, None), false);
        }
      case Kept =>
        NothingWaits(s, h);
        KeptEmpty(s);
        MatchBelow(s, h, HtmlStep(h, e, at));
      case Checkpoint => FlagMatches(s, h, h.Top().(invoking := true), true);
    }
  }

  lemma {:induction false} BothMatch(t: Trace)
    requires Legal(t) && HtmlLegal(t)
    ensures Matches(StackOf(t), HtmlOf(t))
  {
    if t != [] {
      var u := t[..|t| - 1];
      BothMatch(u);
      SlicesInOrder(u);
      StepMatches(StackOf(u), HtmlOf(u), t[|u|], |u|);
    } else {
      assert Flat(StackOf(t)) == [];
    }
  }

  // ----- Under the condition the order is HTML's -----

  function Without(w: seq<Element>, e: Element): (r: seq<Element>)
    ensures |r| <= |w| && forall x :: x in r <==> x in w && x != e
  {
    if w == [] then [] else (if w[0] == e then [] else [w[0]]) + Without(w[1..], e)
  }

  /** What working off `w` runs if the callbacks do nothing, `p` being all that is pending. */
  function Serve(w: seq<Element>, p: seq<Reaction>): seq<Reaction>
    decreases |w|
  {
    if w == [] then [] else OfElement(p, w[0]) + Serve(Without(w[1..], w[0]), p)
  }

  lemma WithoutCons(x: Element, w: seq<Element>, e: Element)
    ensures Without([x] + w, e) == (if x == e then [] else [x]) + Without(w, e)
  {
    assert ([x] + w)[1..] == w;
  }

  lemma {:induction false} WithoutCommutes(w: seq<Element>, a: Element, b: Element)
    ensures Without(Without(w, a), b) == Without(Without(w, b), a)
  {
    if w != [] {
      WithoutCommutes(w[1..], a, b);
      WithoutCons(w[0], Without(w[1..], a), b);
      WithoutCons(w[0], Without(w[1..], b), a);
      assert [] + Without(w[1..], a) == Without(w[1..], a) && [] + Without(w[1..], b) == Without(w[1..], b);
    }
  }

  lemma {:induction false} WithoutSnoc(w: seq<Element>, a: Element, e: Element)
    ensures Without(w + [e], a) == Without(w, a) + if e == a then [] else [e]
  {
    if w != [] {
      assert (w + [e])[1..] == w[1..] + [e];
      WithoutSnoc(w[1..], a, e);
    }
  }

  lemma {:induction false} ServeIdle(w: seq<Element>, e: Element, p: seq<Reaction>)
    requires OfElement(p, e) == []
    ensures Serve(Without(w, e), p) == Serve(w, p)
    decreases |w|
  {
    if w != [] {
      if w[0] == e {
        assert Without(w, e) == Without(w[1..], e);
      } else {
        var v := Without(w, e);
        assert v == [w[0]] + Without(w[1..], e) && v[1..] == Without(w[1..], e);
        WithoutCommutes(w[1..], e, w[0]);
        ServeIdle(Without(w[1..], w[0]), e, p);
      }
    }
  }

  lemma {:induction false} ServeCongruent(w: seq<Element>, p: seq<Reaction>, q: seq<Reaction>)
    requires forall i :: 0 <= i < |w| ==> OfElement(p, w[i]) == OfElement(q, w[i])
    ensures Serve(w, p) == Serve(w, q)
    decreases |w|
  {
    if w != [] {
      var v := Without(w[1..], w[0]);
      forall i | 0 <= i < |v| ensures OfElement(p, v[i]) == OfElement(q, v[i]) {
        assert v[i] in v && v[i] in w[1..];
      }
      ServeCongruent(v, p, q);
    }
  }

  lemma OfElementSnoc(p: seq<Reaction>, r: Reaction, e: Element)
    ensures OfElement(p + [r], e) == OfElement(p, e) + if r.e == e then [r] else []
  {
    assert (p + [r])[..|p|] == p;
  }

  lemma ServeCons(e: Element, rest: seq<Element>, p: seq<Reaction>)
    ensures Serve([e] + rest, p) == OfElement(p, e) + Serve(Without(rest, e), p)
  {
    assert ([e] + rest)[1..] == rest;
  }

  /** An element enqueued on whose block, if it has one, is the last. */
  lemma {:induction false} ServeSnoc(w: seq<Element>, p: seq<Reaction>, r: Reaction)
    requires r.e in w ==> OfElement(p, r.e) != [] && Tail(Serve(w, p), r.e)
    requires r.e !in w ==> OfElement(p, r.e) == []
    ensures Serve(w + [r.e], p + [r]) == Serve(w, p) + [r]
    decreases |w|
  {
    if w == [] {
      OfElementSnoc(p, r, r.e);
      ServeCons(r.e, [], p + [r]);
      assert w + [r.e] == [r.e] + [];
    } else if w[0] == r.e {
      ServeBlock(w, p, r);
    } else {
      var x, rest := w[0], w[1..];
      var v, q := Without(rest, x), p + [r];
      assert w == [x] + rest && w + [r.e] == [x] + (rest + [r.e]);
      ServeCons(x, rest, p);
      ServeCons(x, rest + [r.e], q);
      WithoutSnoc(rest, x, r.e);
      OfElementSnoc(p, r, x);
      TailOfConcat(OfElement(p, x), Serve(v, p), r.e);
      ServeSnoc(v, p, r);
      assert OfElement(p, x) + [] == OfElement(p, x);
      assert Serve(w + [r.e], q) == OfElement(p, x) + (Serve(v, p) + [r]);
      ConcatAssociates(OfElement(p, x), Serve(v, p), [r]);
    }
  }

  lemma ServeBlock(w: seq<Element>, p: seq<Reaction>, r: Reaction)
    requires w != [] && w[0] == r.e && OfElement(p, r.e) != [] && Tail(Serve(w, p), r.e)
    ensures Serve(w + [r.e], p + [r]) == Serve(w, p) + [r]
  {
    var e, rest, q := r.e, w[1..], p + [r];
    assert w == [e] + rest && w + [e] == [e] + (rest + [e]);
    NothingBehind(e, rest, p);
    NothingAdded(e, rest, p, r);
    OfElementSnoc(p, r, e);
    assert OfElement(q, e) + [] == OfElement(p, e) + [r];
  }

  lemma NothingBehind(e: Element, rest: seq<Element>, p: seq<Reaction>)
    requires OfElement(p, e) != [] && Tail(Serve([e] + rest, p), e)
    ensures Serve(Without(rest, e), p) == [] && Serve([e] + rest, p) == OfElement(p, e)
  {
    var v := Without(rest, e);
    ServeCons(e, rest, p);
    BlockIsLast(OfElement(p, e), Serve(v, p), e);
    ServeHasNo(v, p, e);
    NoneAndAll(Serve(v, p), e);
    assert OfElement(p, e) + [] == OfElement(p, e);
  }

  lemma NothingAdded(e: Element, rest: seq<Element>, p: seq<Reaction>, r: Reaction)
    requires r.e == e && Serve(Without(rest, e), p) == []
    ensures Serve([e] + (rest + [e]), p + [r]) == OfElement(p + [r], e)
  {
    var v, q := Without(rest, e), p + [r];
    forall i | 0 <= i < |v| ensures OfElement(p, v[i]) == OfElement(q, v[i]) {
      assert v[i] in v;
      OfElementSnoc(p, r, v[i]);
    }
    ServeCongruent(v, p, q);
    ServeCons(e, rest + [e], q);
    WithoutSnoc(rest, e, e);
    assert v + [] == v && OfElement(q, e) + [] == OfElement(q, e);
  }

  lemma NoneAndAll(b: seq<Reaction>, e: Element)
    requires forall i :: 0 <= i < |b| ==> b[i].e == e
    ensures b == [] || exists i :: 0 <= i < |b| && b[i].e == e
  {
    assert b != [] ==> b[0].e == e;
  }

  lemma BlockIsLast(a: seq<Reaction>, b: seq<Reaction>, e: Element)
    requires a != [] && (forall x :: x in a ==> x.e == e) && Tail(a + b, e)
    ensures forall i :: 0 <= i < |b| ==> b[i].e == e
  {
    forall i | 0 <= i < |b| ensures b[i].e == e {
      assert a[0] in a && (a + b)[0] == a[0] && (a + b)[|a| + i] == b[i];
    }
  }

  lemma TailOfConcat(a: seq<Reaction>, b: seq<Reaction>, e: Element)
    ensures Tail(a + b, e) ==> Tail(b, e)
  {
    if Tail(a + b, e) {
      forall i, j | 0 <= i < j < |b| && b[i].e == e ensures b[j].e == e {
        assert (a + b)[|a| + i] == b[i] && (a + b)[|a| + j] == b[j];
      }
    }
  }

  /** Working off others runs nothing of `e`. */
  lemma {:induction false} ServeHasNo(w: seq<Element>, p: seq<Reaction>, e: Element)
    requires e !in w
    ensures forall i :: 0 <= i < |Serve(w, p)| ==> Serve(w, p)[i].e != e
    decreases |w|
  {
    if w != [] {
      var a: seq<Reaction>, b: seq<Reaction> := OfElement(p, w[0]), Serve(Without(w[1..], w[0]), p);
      ServeHasNo(Without(w[1..], w[0]), p, e);
      forall i | 0 <= i < |a| + |b| ensures (a + b)[i].e != e {
        if i < |a| { assert a[i] in a; }
      }
    }
  }

  lemma {:induction false} ServeSkips(h: Html, w: seq<Element>, p: seq<Reaction>)
    requires forall i :: 0 <= i < |w| ==> h.Of(w[i]) == OfElement(p, w[i])
    ensures Serve(SkipIdle(h, w), p) == Serve(w, p)
    ensures forall x :: x in SkipIdle(h, w) ==> x in w
  {
    if w != [] && h.Of(w[0]) == [] {
      ServeSkips(h, w[1..], p);
      ServeIdle(w[1..], w[0], p);
    }
  }

  lemma {:induction false} OfElementTail(p: seq<Reaction>, e: Element)
    requires p != []
    ensures OfElement(p, e) == (if p[0].e == e then [p[0]] else []) + OfElement(p[1..], e)
  {
    if |p| > 1 {
      var init := p[..|p| - 1];
      OfElementTail(init, e);
      assert init[1..] == p[1..][..|p| - 2];
      assert p[1..][|p| - 2] == p[|p| - 1];
    }
  }

  /** One reaction run from the front of what `e`, first to be served, has. */
  lemma ServeRan(e: Element, rest: seq<Element>, p: seq<Reaction>)
    requires p != [] && p == Serve([e] + rest, p) && OfElement(p, e) != []
    ensures p[0] == OfElement(p, e)[0]
    ensures p[1..] == Serve([e] + rest, p[1..])
  {
    var q, v := p[1..], Without(rest, e);
    var a, b := OfElement(p, e), Serve(v, p);
    ServeCons(e, rest, p);
    TailOfConcatenation(p, a, b);
    assert a[0] in a;
    OfElementTail(p, e);
    ConsTail(a, p[0], OfElement(q, e));
    ServeCons(e, rest, q);
    forall i | 0 <= i < |v| ensures OfElement(p, v[i]) == OfElement(q, v[i]) { TailOfOther(p, v, i, e); }
    ServeCongruent(v, p, q);
  }

  lemma TailOfConcatenation<T>(p: seq<T>, a: seq<T>, b: seq<T>)
    requires p == a + b && a != []
    ensures p[0] == a[0] && p[1..] == a[1..] + b
  {
  }

  lemma ConsTail<T>(a: seq<T>, x: T, c: seq<T>)
    requires a == [x] + c
    ensures a[1..] == c
  {
  }

  lemma TailOfOther(p: seq<Reaction>, v: seq<Element>, i: nat, e: Element)
    requires p != [] && p[0].e == e && e !in v && i < |v|
    ensures OfElement(p, v[i]) == OfElement(p[1..], v[i])
  {
    assert v[i] in v;
    OfElementTail(p, v[i]);
    assert [] + OfElement(p[1..], v[i]) == OfElement(p[1..], v[i]);
  }

  /** A slice is what its frame would run; nobody waits for nothing as long as the call is at work. */
  ghost predicate Fits(x: Slice, f: Frame) {
    && x.pending == Serve(f.Waiting(), x.pending)
    && (!x.draining ==> forall i :: 0 <= i < |f.queue| ==> OfElement(x.pending, f.queue[i]) != [])
  }

  /** Who waits in the frame has nothing in the slice. */
  ghost predicate Apart(x: Slice, f: Frame) {
    forall i :: 0 <= i < |f.Waiting()| ==> Lacks(x.pending, f.Waiting()[i])
  }

  ghost predicate AllApart(s: Stack, h: Html) {
    |s| == |h.frames| && forall i, j :: 0 <= i < j < |s| ==> Apart(s[i], h.frames[j])
  }

  ghost predicate Coupled(s: Stack, h: Html) {
    Matches(s, h) && AllApart(s, h) && forall j :: 0 <= j < |s| ==> Fits(s[j], h.frames[j])
  }

  lemma CoupleTop(s: Stack, h: Html, x: Slice, f: Frame, h2: Html)
    requires Coupled(s, h) && Matches(WithTop(s, x), h2) && h2.frames == h.WithTop(f).frames
    requires Fits(x, f) && forall i :: 0 <= i < |s| - 1 ==> Apart(s[i], f)
    ensures Coupled(WithTop(s, x), h2)
  {
    var u := WithTop(s, x);
    forall j | 0 <= j < |u| ensures Fits(u[j], h2.frames[j]) {
      if j < |s| - 1 { assert u[j] == s[j] && h2.frames[j] == h.frames[j]; }
    }
    forall i, j | 0 <= i < j < |u| ensures Apart(u[i], h2.frames[j]) {
      assert u[i] == s[i] && Apart(s[i], h.frames[j]);
    }
  }

  lemma CoupleBelow(s: Stack, h: Html, h2: Html)
    requires Coupled(s, h) && |s| > 1 && Matches(Below(s), h2) && h2.frames == h.frames[..|h.frames| - 1]
    ensures Coupled(Below(s), h2)
  {
    var b := Below(s);
    forall i, j | 0 <= i < j < |b| ensures Apart(b[i], h2.frames[j]) {
      assert Apart(s[i], h.frames[j]);
    }
  }

  lemma {:induction false} LacksBelow(s: Stack, e: Element)
    ensures Lacks(Flat(s), e) <==> forall i :: 0 <= i < |s| ==> Lacks(s[i].pending, e)
  {
    if s != [] {
      LacksBelow(Below(s), e);
      LacksConcat(Flat(Below(s)), Top(s).pending, e);
      assert forall i :: 0 <= i < |s| - 1 ==> Below(s)[i] == s[i];
    }
  }

  lemma LacksConcat(a: seq<Reaction>, b: seq<Reaction>, e: Element)
    ensures Lacks(a + b, e) <==> Lacks(a, e) && Lacks(b, e)
  {
    assert forall i :: 0 <= i < |a| ==> (a + b)[i] == a[i];
    assert forall i :: 0 <= i < |b| ==> (a + b)[|a| + i] == b[i];
  }

  ghost predicate SameMembers(a: seq<Reaction>, b: seq<Reaction>) {
    forall r :: r in a <==> r in b
  }

  lemma {:induction false} SameIncreasing(a: seq<Reaction>, b: seq<Reaction>)
    requires Increasing(a) && Increasing(b) && SameMembers(a, b)
    ensures a == b
  {
    SameFronts(a, b);
    if a != [] {
      SameRests(a, b);
      SameIncreasing(a[1..], b[1..]);
      assert a == [a[0]] + a[1..] && b == [b[0]] + b[1..];
    }
  }

  lemma SameFronts(a: seq<Reaction>, b: seq<Reaction>)
    requires Increasing(a) && Increasing(b) && SameMembers(a, b)
    ensures a == [] <==> b == []
    ensures a != [] && b != [] ==> a[0] == b[0]
  {
    assert forall i :: 0 <= i < |a| ==> a[i] in b;
    assert forall i :: 0 <= i < |b| ==> b[i] in a;
    if a != [] && b != [] {
      FrontIsOldest(a, b[0]);
      FrontIsOldest(b, a[0]);
    }
  }

  lemma SameRests(a: seq<Reaction>, b: seq<Reaction>)
    requires a != [] && b != [] && a[0] == b[0] && Increasing(a) && Increasing(b) && SameMembers(a, b)
    ensures Increasing(a[1..]) && Increasing(b[1..]) && SameMembers(a[1..], b[1..])
  {
    RestOfQueue(a);
    RestOfQueue(b);
  }

  lemma {:induction false} OfElementIncreasing(p: seq<Reaction>, e: Element)
    requires Increasing(p)
    ensures Increasing(OfElement(p, e))
  {
    if p != [] {
      OfElementIncreasing(p[..|p| - 1], e);
      var q := OfElement(p[..|p| - 1], e);
      forall i | 0 <= i < |q| ensures q[i].at < p[|p| - 1].at {
        assert q[i] in q && q[i] in p[..|p| - 1];
      }
    }
  }

  /** Who waits at the top has nothing pending but in the top slice. */
  lemma TopQueues(s: Stack, h: Html, e: Element)
    requires Coupled(s, h) && Increasing(Flat(s)) && e in h.Top().Waiting()
    ensures h.Of(e) == OfElement(Top(s).pending, e) && Lacks(Flat(Below(s)), e)
  {
    var below, top, q := Flat(Below(s)), Top(s).pending, OfElement(Top(s).pending, e);
    LacksBelow(Below(s), e);
    forall i | 0 <= i < |s| - 1 ensures Lacks(Below(s)[i].pending, e) {
      assert Apart(s[i], h.frames[|s| - 1]);
    }
    assert OwnQueue(s, h, e);
    TopIncreasing(below, top);
    OfElementIncreasing(top, e);
    assert SameMembers(h.Of(e), q);
    SameIncreasing(h.Of(e), q);
  }

  lemma TopIncreasing(a: seq<Reaction>, b: seq<Reaction>)
    requires Increasing(a + b)
    ensures Increasing(b)
  {
    forall i, j | 0 <= i < j < |b| ensures b[i].at < b[j].at {
      assert (a + b)[|a| + i] == b[i] && (a + b)[|a| + j] == b[j];
    }
  }

  /** Both orders are at hand: the FIFO's front is the first reaction of the first busy element. */
  lemma FrontIsBusy(s: Stack, h: Html)
    requires Coupled(s, h) && Increasing(Flat(s)) && Top(s).draining
    ensures Busy(h) == [] <==> Top(s).pending == []
    ensures Busy(h) != [] ==>
      var w, p := Busy(h), Top(s).pending;
      && w[0] in h.Top().Waiting() && (forall x :: x in w ==> x in h.Top().Waiting())
      && h.Of(w[0])[0] == p[0] && p[1..] == Serve(w, p[1..]) && OfElement(p, w[0]) != []
  {
    var w, p, all := Busy(h), Top(s).pending, h.Top().Waiting();
    AllTopQueues(s, h);
    ServeSkips(h, all, p);
    TopFits(s, h);
    if w != [] {
      assert w[0] in w && w == [w[0]] + w[1..];
      TopQueues(s, h, w[0]);
      ServeCons(w[0], w[1..], p);
      ServeRan(w[0], w[1..], p);
    }
  }

  lemma AllTopQueues(s: Stack, h: Html)
    requires Coupled(s, h) && Increasing(Flat(s))
    ensures var all := h.Top().Waiting();
            forall i :: 0 <= i < |all| ==> h.Of(all[i]) == OfElement(Top(s).pending, all[i])
  {
    var all := h.Top().Waiting();
    forall i | 0 <= i < |all| ensures h.Of(all[i]) == OfElement(Top(s).pending, all[i]) {
      TopQueues(s, h, all[i]);
    }
  }

  lemma TopFits(s: Stack, h: Html)
    requires Coupled(s, h)
    ensures Fits(Top(s), h.Top())
  {
    var j := |s| - 1;
    assert Fits(s[j], h.frames[j]);
  }

  lemma RunConforms(s: Stack, h: Html, r: Reaction, at: nat)
    requires Coupled(s, h) && Increasing(Flat(s)) && Allowed(s, Ran(r))
    ensures HtmlAllowed(h, Ran(r)) && Coupled(Step(s, Ran(r), at), HtmlStep(h, Ran(r), at))
  {
    FrontIsBusy(s, h);
    TopMatches(s, h);
    RunMatches(s, h, r, at);
    var w, x := Busy(h), Top(s).(pending := Top(s).pending[1..]);
    var f := h.Top().(current := Some(w[0]), queue := w[1..]);
    assert f.Waiting() == w;
    forall i | 0 <= i < |s| - 1 ensures Apart(s[i], f) { ApartFewer(s[i], h.Top(), f); }
    CoupleTop(s, h, x, f, HtmlStep(h, Ran(r), at));
  }

  lemma ApartFewer(x: Slice, f: Frame, g: Frame)
    requires forall e :: e in g.Waiting() ==> e in f.Waiting()
    ensures Apart(x, f) ==> Apart(x, g)
  {
    if Apart(x, f) {
      forall i | 0 <= i < |g.Waiting()| ensures Lacks(x.pending, g.Waiting()[i]) {
        assert g.Waiting()[i] in f.Waiting();
      }
    }
  }

  lemma EnqueueConforms(s: Stack, h: Html, e: Element, at: nat)
    requires Coupled(s, h) && Before(Flat(s), at) && Allowed(s, Enqueued(e)) && Guard(s, Enqueued(e))
    ensures Coupled(Step(s, Enqueued(e), at), HtmlStep(h, Enqueued(e), at))
  {
    var x, f, r := Top(s), h.Top(), Reaction(at, e);
    var y, g := x.(pending := x.pending + [r]), f.(queue := f.queue + [e]);
    TopMatches(s, h);
    TopFits(s, h);
    FitsSnoc(x, f, r);
    forall i | 0 <= i < |s| - 1 ensures Apart(s[i], g) { ApartSnoc(s, h, e, i); }
    InnermostIsTop(h);
    EnqueueMatches(s, h, e, at);
    CoupleTop(s, h, y, g, HtmlStep(h, Enqueued(e), at));
  }

  lemma ApartSnoc(s: Stack, h: Html, e: Element, i: nat)
    requires Coupled(s, h) && i < |s| - 1 && Lacks(Flat(Below(s)), e)
    ensures Apart(s[i], h.Top().(queue := h.Top().queue + [e]))
  {
    var f, x := h.Top(), s[i];
    var g := f.(queue := f.queue + [e]);
    LacksBelow(Below(s), e);
    assert Below(s)[i] == x && Apart(x, f);
    ApartOneMore(x, f, e);
  }

  lemma ApartOneMore(x: Slice, f: Frame, e: Element)
    requires Apart(x, f) && Lacks(x.pending, e)
    ensures Apart(x, f.(queue := f.queue + [e]))
  {
    assert f.(queue := f.queue + [e]).Waiting() == f.Waiting() + [e];
  }

  lemma FitsSnoc(x: Slice, f: Frame, r: Reaction)
    requires Fits(x, f) && !x.draining && f.current.None? && Tail(x.pending, r.e) && AllWait(x, f)
    ensures Fits(x.(pending := x.pending + [r]), f.(queue := f.queue + [r.e]))
  {
    var q := f.queue + [r.e];
    assert f.Waiting() == f.queue && f.(queue := q).Waiting() == q;
    if r.e !in f.queue { NotWaiting(x.pending, r.e, f); }
    ServeSnoc(f.queue, x.pending, r);
    forall i | 0 <= i < |q| ensures OfElement(x.pending + [r], q[i]) != [] { OfElementSnoc(x.pending, r, q[i]); }
  }

  lemma NotWaiting(p: seq<Reaction>, e: Element, f: Frame)
    requires e !in f.Waiting() && forall i :: 0 <= i < |p| ==> p[i].e in f.Waiting()
    ensures OfElement(p, e) == []
  {
    var q := OfElement(p, e);
    assert forall i :: 0 <= i < |q| ==> q[i] in q;
  }

  /** A drain begins. */
  lemma FlagConforms(s: Stack, h: Html)
    requires Coupled(s, h)
    ensures Coupled(WithTop(s, Top(s).(draining := true)), h.WithTop(h.Top().(invoking := true)))
  {
    var f := h.Top().(invoking := true);
    FlagMatches(s, h, f, true);
    assert Fits(Top(s), h.Top()) && f.Waiting() == h.Top().Waiting();
    assert forall i :: 0 <= i < |s| - 1 ==> Apart(s[i], h.Top());
    CoupleTop(s, h, Top(s).(draining := true), f, h.WithTop(f));
  }

  lemma EndConforms(s: Stack, h: Html, at: nat)
    requires Coupled(s, h) && Increasing(Flat(s)) && Allowed(s, Drained)
    ensures HtmlAllowed(h, Drained) && Coupled(Step(s, Drained, at), HtmlStep(h, Drained, at))
  {
    TopMatches(s, h);
    FrontIsBusy(s, h);
    if |s| > 1 {
      MatchBelow(s, h, HtmlStep(h, Drained, at));
      CoupleBelow(s, h, HtmlStep(h, Drained, at));
    } else {
      var f := Frame([], false, None);
      FlagMatches(s, h, f, false);
      CoupleTop(s, h, Top(s).(draining := false), f, h.WithTop(f));
    }
  }

  lemma KeepConforms(s: Stack, h: Html, at: nat)
    requires Coupled(s, h) && Allowed(s, Kept) && Guard(s, Kept)
    ensures HtmlAllowed(h, Kept) && Coupled(Step(s, Kept, at), HtmlStep(h, Kept, at))
  {
    TopMatches(s, h);
    assert Fits(Top(s), h.Top());
    assert h.Top().Waiting() == [];
    KeptEmpty(s);
    MatchBelow(s, h, HtmlStep(h, Kept, at));
    CoupleBelow(s, h, HtmlStep(h, Kept, at));
  }

  lemma EnterConforms(s: Stack, h: Html)
    requires Coupled(s, h)
    ensures Coupled(s + [Slice([], false)], h.(frames := h.frames + [Frame([], false, None)]))
  {
    var x, f := Slice([], false), Frame([], false, None);
    EnterMatches(s, h);
    forall i, j | 0 <= i < j < |s| + 1 ensures Apart((s + [x])[i], (h.frames + [f])[j]) {
      if j < |s| { assert Apart(s[i], h.frames[j]); }
    }
  }

  lemma StepConforms(s: Stack, h: Html, e: Event, at: nat)
    requires Coupled(s, h) && Allowed(s, e) && Guard(s, e) && Increasing(Flat(s)) && Before(Flat(s), at)
    ensures HtmlAllowed(h, e) && Coupled(Step(s, e, at), HtmlStep(h, e, at))
  {
    TopMatches(s, h);
    match e {
      case Enqueued(x) => EnqueueConforms(s, h, x, at);
      case Entered => EnterConforms(s, h);
      case Draining => FlagConforms(s, h);
      case Ran(r) => RunConforms(s, h, r, at);
      case Drained => EndConforms(s, h, at);
      case Kept => KeepConforms(s, h, at);
      case Checkpoint => FlagConforms(s, h);
    }
  }

  lemma StartCoupled()
    ensures Coupled([Slice([], false)], Html([Frame([], false, None)], map[]))
  {
    assert Flat([Slice([], false)]) == [];
  }

  /** A run that keeps to the condition is a run of HTML's machine. */
  lemma {:induction false} GuardedConforms(t: Trace)
    requires Legal(t) && Guarded(t)
    ensures HtmlLegal(t) && Coupled(StackOf(t), HtmlOf(t))
  {
    if t == [] {
      StartCoupled();
    } else {
      var u, e := t[..|t| - 1], t[|t| - 1];
      GuardedConforms(u);
      SlicesInOrder(u);
      GuardedStep(u, e);
      assert t == u + [e];
    }
  }

  lemma GuardedStep(u: Trace, e: Event)
    requires Legal(u) && HtmlLegal(u) && Coupled(StackOf(u), HtmlOf(u))
    requires Allowed(StackOf(u), e) && Guard(StackOf(u), e) && Increasing(Flat(StackOf(u))) &&
             Before(Flat(StackOf(u)), |u|)
    ensures Legal(u + [e]) && HtmlLegal(u + [e]) && Coupled(StackOf(u + [e]), HtmlOf(u + [e]))
  {
    StepConforms(StackOf(u), HtmlOf(u), e, |u|);
    LegalPrefix(u, e);
    HtmlPrefix(u, e);
  }

  // ----- And only under it -----

  /** A reaction waits in an inner slice for an older one of its element in an outer slice. */
  ghost predicate Older(s: Stack, i: nat, j: nat, r0: Reaction, r1: Reaction) {
    && i < j < |s| && r0 in s[i].pending && r1 in s[j].pending
    && r0.e == r1.e && r0.at < r1.at
  }

  /** Another element's reaction stands between two of one element. */
  ghost predicate Crossed(s: Stack, j: nat, x: nat, z: nat) {
    j < |s| && CrossedIn(s[j].pending, x, z)
  }

  ghost predicate CrossedIn(p: seq<Reaction>, x: nat, z: nat) {
    x + 1 < z < |p| && p[x].e == p[z].e && p[x + 1].e != p[x].e
  }

  /** The element being worked off has more to run, and the slice has another's reaction first. */
  ghost predicate Halted(s: Stack, h: Html, j: nat, e: Element, z: nat) {
    && j < |s| == |h.frames| && h.frames[j].current == Some(e)
    && 0 < z < |s[j].pending| && s[j].pending[0].e != e && s[j].pending[z].e == e
  }

  /** The two machines cannot both empty what is pending. */
  ghost predicate Doomed(s: Stack, h: Html) {
    || (exists i: nat, j: nat, r0, r1 :: Older(s, i, j, r0, r1))
    || (exists j: nat, x: nat, z: nat :: Crossed(s, j, x, z))
    || (exists j: nat, e, z: nat :: Halted(s, h, j, e, z))
  }

  lemma DoomedHasPending(s: Stack, h: Html)
    requires Doomed(s, h)
    ensures Flat(s) != []
  {
    if i: nat, j: nat, r0, r1 :| Older(s, i, j, r0, r1) {
      FlatMember(s, i, r0);
    } else if j: nat, x: nat, z: nat :| Crossed(s, j, x, z) {
      FlatMember(s, j, s[j].pending[x]);
    } else {
      var j: nat, e, z: nat :| Halted(s, h, j, e, z);
      FlatMember(s, j, s[j].pending[0]);
    }
  }

  function PendingAfter(p: seq<Reaction>, top: bool, e: Event, at: nat): seq<Reaction>
    requires p != []
  {
    if top && e.Enqueued? then p + [Reaction(at, e.e)] else if top && e.Ran? then p[1..] else p
  }

  /** What one step makes of a slice that is not empty. */
  lemma SliceAfter(s: Stack, h: Html, e: Event, at: nat, j: nat)
    requires Matches(s, h) && Allowed(s, e) && HtmlAllowed(h, e) && j < |s| && s[j].pending != []
    ensures var u := Step(s, e, at);
            j < |u| && u[j].pending == PendingAfter(s[j].pending, j == |s| - 1, e, at)
  {
    if e.Kept? {
      NothingWaits(s, h);
      KeptEmpty(s);
    }
  }

  /** What one step makes of a frame with an element in work. */
  lemma FrameAfter(s: Stack, h: Html, e: Event, at: nat, j: nat)
    requires Matches(s, h) && Allowed(s, e) && HtmlAllowed(h, e) && j < |s| && s[j].pending != []
    ensures var g := HtmlStep(h, e, at);
            && |g.frames| == |Step(s, e, at)| && j < |g.frames|
            && (if j == |s| - 1 && e.Ran? then g.frames[j].current == Some(e.r.e)
                else g.frames[j].current == h.frames[j].current)
  {
    TopMatches(s, h);
    if e.Ran? { assert OwnQueue(s, h, Busy(h)[0]) && e.r in h.Of(Busy(h)[0]); }
    if e.Kept? { NothingWaits(s, h); }
    if e.Enqueued? { InnermostIsTop(h); }
  }

  lemma OlderStays(s: Stack, h: Html, e: Event, at: nat, i: nat, j: nat, r0: Reaction, r1: Reaction)
    requires Matches(s, h) && Allowed(s, e) && HtmlAllowed(h, e) && Older(s, i, j, r0, r1)
    ensures Older(Step(s, e, at), i, j, r0, r1)
  {
    SliceAfter(s, h, e, at, i);
    SliceAfter(s, h, e, at, j);
    var top := j == |s| - 1;
    if e.Ran? && top { NewerStays(s, h, e.r, i, r0, r1); }
    assert r1 in PendingAfter(s[j].pending, top, e, at);
  }

  lemma NewerStays(s: Stack, h: Html, r: Reaction, i: nat, r0: Reaction, r1: Reaction)
    requires Matches(s, h) && Allowed(s, Ran(r)) && HtmlAllowed(h, Ran(r)) && Older(s, i, |s| - 1, r0, r1)
    ensures r1 in Top(s).pending[1..]
  {
    FlatMember(s, i, r0);
    OldestFirst(s, h, r0, r);
    InTail(Top(s).pending, r1);
  }

  lemma InTail<T>(p: seq<T>, x: T)
    requires p != []
    ensures x in p && x != p[0] ==> x in p[1..]
  {
  }

  /** An element's reactions run in the order they were enqueued. */
  lemma OldestFirst(s: Stack, h: Html, r0: Reaction, r: Reaction)
    requires Matches(s, h) && HtmlAllowed(h, Ran(r)) && r0 in Flat(s)
    ensures r.e == r0.e ==> r.at <= r0.at
  {
    var e := Busy(h)[0];
    assert OwnQueue(s, h, e);
    FrontIsOldest(h.Of(e), r0);
  }

  lemma FrontIsOldest(q: seq<Reaction>, r0: Reaction)
    requires q != [] && Increasing(q)
    ensures q[0] in q && (r0 in q ==> q[0].at <= r0.at)
  {
  }

  lemma CrossedStays(s: Stack, h: Html, e: Event, at: nat, j: nat, x: nat, z: nat)
    requires Matches(s, h) && Allowed(s, e) && HtmlAllowed(h, e) && Crossed(s, j, x, z)
    ensures Doomed(Step(s, e, at), HtmlStep(h, e, at))
  {
    var u, g, p := Step(s, e, at), HtmlStep(h, e, at), s[j].pending;
    SliceAfter(s, h, e, at, j);
    if e.Ran? && j == |s| - 1 {
      if x == 0 {
        FrameAfter(s, h, e, at, j);
        assert Halted(u, g, j, p[0].e, z - 1);
      } else {
        CrossedTail(p, x, z);
        assert Crossed(u, j, x - 1, z - 1);
      }
    } else {
      CrossedGrows(p, x, z, u[j].pending);
      assert Crossed(u, j, x, z);
    }
  }

  lemma CrossedTail(p: seq<Reaction>, x: nat, z: nat)
    requires CrossedIn(p, x, z) && x > 0
    ensures CrossedIn(p[1..], x - 1, z - 1)
  {
  }

  lemma CrossedGrows(p: seq<Reaction>, x: nat, z: nat, q: seq<Reaction>)
    requires CrossedIn(p, x, z) && p <= q
    ensures CrossedIn(q, x, z)
  {
  }

  lemma HaltedStays(s: Stack, h: Html, e: Event, at: nat, j: nat, el: Element, z: nat)
    requires Matches(s, h) && Allowed(s, e) && HtmlAllowed(h, e) && Halted(s, h, j, el, z)
    ensures Halted(Step(s, e, at), HtmlStep(h, e, at), j, el, z)
  {
    SliceAfter(s, h, e, at, j);
    FrameAfter(s, h, e, at, j);
    if j == |s| - 1 { HaltedIsBusy(s, h, el, z); }
  }

  lemma HaltedIsBusy(s: Stack, h: Html, el: Element, z: nat)
    requires Matches(s, h) && Halted(s, h, |s| - 1, el, z)
    ensures Busy(h) != [] && Busy(h)[0] == el && h.Of(el) != [] && h.Of(el)[0].e == el
  {
    var r := Top(s).pending[z];
    FlatMember(s, |s| - 1, r);
    assert OwnQueue(s, h, el) && r in h.Of(el);
    assert h.Of(el)[0] in h.Of(el) && h.Top().Waiting()[0] == el;
  }

  lemma DoomedStays(s: Stack, h: Html, e: Event, at: nat)
    requires Matches(s, h) && Allowed(s, e) && HtmlAllowed(h, e) && Doomed(s, h)
    ensures Doomed(Step(s, e, at), HtmlStep(h, e, at))
  {
    if i: nat, j: nat, r0, r1 :| Older(s, i, j, r0, r1) {
      OlderStays(s, h, e, at, i, j, r0, r1);
    } else if j: nat, x: nat, z: nat :| Crossed(s, j, x, z) {
      CrossedStays(s, h, e, at, j, x, z);
    } else {
      var j: nat, el, z: nat :| Halted(s, h, j, el, z);
      HaltedStays(s, h, e, at, j, el, z);
    }
  }

  lemma {:induction false} LastBefore(p: seq<Reaction>, a: nat, b: nat, e: Element) returns (x: nat)
    requires a < b < |p| && p[a].e == e && p[b].e != e
    ensures a <= x < b && p[x].e == e && p[x + 1].e != e
    decreases b - a
  {
    x := a;
    if p[a + 1].e == e { x := LastBefore(p, a + 1, b, e); }
  }

  /** An enqueue against the condition. */
  lemma EnqueueDooms(s: Stack, h: Html, e: Element, at: nat)
    requires Matches(s, h) && Before(Flat(s), at) && Allowed(s, Enqueued(e)) && !Guard(s, Enqueued(e))
    ensures Doomed(Step(s, Enqueued(e), at), HtmlStep(h, Enqueued(e), at))
  {
    var u, n, p := Step(s, Enqueued(e), at), |s| - 1, Top(s).pending;
    if !Lacks(Flat(Below(s)), e) {
      LacksBelow(Below(s), e);
      var i :| 0 <= i < n && !Lacks(Below(s)[i].pending, e);
      var k :| 0 <= k < |s[i].pending| && s[i].pending[k].e == e;
      FlatMember(s, i, s[i].pending[k]);
      assert Older(u, i, n, s[i].pending[k], Reaction(at, e));
    } else {
      var a, b :| 0 <= a < b < |p| && p[a].e == e && p[b].e != e;
      var x := LastBefore(p, a, b, e);
      assert Crossed(u, n, x, |p|);
    }
  }

  lemma {:induction false} UnguardedIsDoomed(t: Trace)
    requires Legal(t) && HtmlLegal(t) && !Guarded(t)
    ensures Doomed(StackOf(t), HtmlOf(t))
  {
    var u, e := t[..|t| - 1], t[|t| - 1];
    BothMatch(u);
    SlicesInOrder(u);
    if !Guarded(u) {
      UnguardedIsDoomed(u);
      DoomedStays(StackOf(u), HtmlOf(u), e, |u|);
    } else if e.Enqueued? {
      EnqueueDooms(StackOf(u), HtmlOf(u), e.e, |u|);
    } else {
      NothingWaits(StackOf(u), HtmlOf(u));
    }
  }

  /** Once all that was enqueued has run, the order was HTML's exactly if the condition was kept. */
  lemma OrderIsHtml(t: Trace)
    requires Legal(t) && Flat(StackOf(t)) == []
    ensures HtmlLegal(t) <==> Guarded(t)
  {
    if Guarded(t) {
      GuardedConforms(t);
    } else if HtmlLegal(t) {
      UnguardedIsDoomed(t);
      DoomedHasPending(StackOf(t), HtmlOf(t));
    }
  }

  lemma {:induction false} HtmlLegalPrefix(t0: Trace, t: Trace)
    requires HtmlLegal(t) && t0 <= t
    ensures HtmlLegal(t0)
    decreases |t|
  {
    if |t0| < |t| { HtmlLegalPrefix(t0, t[..|t| - 1]); } else { assert t0 == t; }
  }

  /** HTML makes no checkpoint inside a call or a drain. */
  lemma HtmlIsProper(t: Trace)
    requires HtmlLegal(t)
    ensures Proper(t)
  {
    forall i | 0 <= i < |t| && t[i] == Checkpoint && Legal(t[..i]) ensures AtRest(t[..i]) {
      HtmlLegalPrefix(t[..i + 1], t);
      assert t[..i + 1] == t[..i] + [Checkpoint];
      HtmlPrefix(t[..i], Checkpoint);
      BothMatch(t[..i]);
      TopMatches(StackOf(t[..i]), HtmlOf(t[..i]));
    }
  }

  /** For whatever the program has done, once nothing is pending: its order was HTML's exactly if every
      checkpoint was made with nothing under way and the condition was kept. */
  lemma ProgramOrder(t: Trace)
    requires Sound(t) && (Legal(t) ==> Flat(StackOf(t)) == [])
    ensures Legal(t) <==> Proper(t)
    ensures HtmlLegal(t) <==> Legal(t) && Guarded(t)
  {
    if Legal(t) {
      LegalIsProper(t, t);
      OrderIsHtml(t);
    }
    if HtmlLegal(t) { HtmlIsProper(t); }
  }
}
