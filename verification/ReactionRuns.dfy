/**
  * Runs of the program that are not HTML's, and what HTML does in their place; and two runs in which
  * a call does not give its caller's queue back. Elements are numbers; a reaction is written with the
  * place in the trace at which it was enqueued.
  */
module ReactionRuns {
  import opened Common
  import opened ReactionTrace
  import opened ElementQueues
  import opened Reactions

  /** One step of the program's machine from a known stack to a known one. */
  lemma Grows(t: Trace, s: Stack, e: Event, u: Trace, next: Stack)
    requires Legal(t) && StackOf(t) == s && Allowed(s, e)
    requires u == t + [e] && next == Step(s, e, |t|)
    ensures Legal(u) && StackOf(u) == next
    ensures Guarded(u) <==> Guarded(t) && Guard(s, e)
  {
    LegalPrefix(t, e);
    assert u[..|u| - 1] == t;
  }

  /** One call under way. */
  function OneCall(pending: seq<Reaction>, draining: bool): Stack {
    [Slice([], false), Slice(pending, draining)]
  }

  const REST: Stack := [Slice([], false)]

  lemma CallBegins(t: Trace)
    requires t == [Entered]
    ensures Legal(t) && StackOf(t) == OneCall([], false) && Guarded(t)
  {
    StartsAtRest();
    assert REST + [Slice([], false)] == OneCall([], false);
    Grows([], REST, Entered, t, OneCall([], false));
  }

  lemma StartsAtRest()
    ensures Legal([]) && StackOf([]) == REST && Guarded([])
  {
  }

  lemma CallEnqueues(t: Trace, p: seq<Reaction>, e: Element, u: Trace, q: seq<Reaction>)
    requires Legal(t) && StackOf(t) == OneCall(p, false) && u == t + [Enqueued(e)] && q == p + [Reaction(|t|, e)]
    ensures Legal(u) && StackOf(u) == OneCall(q, false)
    ensures Guarded(u) <==> Guarded(t) && Tail(p, e)
  {
    assert Flat(Below(OneCall(p, false))) == [];
    Grows(t, OneCall(p, false), Enqueued(e), u, OneCall(q, false));
  }

  lemma CallDrains(t: Trace, p: seq<Reaction>, u: Trace)
    requires Legal(t) && StackOf(t) == OneCall(p, false) && u == t + [Draining]
    ensures Legal(u) && StackOf(u) == OneCall(p, true) && (Guarded(u) <==> Guarded(t))
  {
    Grows(t, OneCall(p, false), Draining, u, OneCall(p, true));
  }

  lemma CallRuns(t: Trace, p: seq<Reaction>, u: Trace)
    requires p != [] && Legal(t) && StackOf(t) == OneCall(p, true) && u == t + [Ran(p[0])]
    ensures Legal(u) && StackOf(u) == OneCall(p[1..], true) && (Guarded(u) <==> Guarded(t))
  {
    Grows(t, OneCall(p, true), Ran(p[0]), u, OneCall(p[1..], true));
  }

  lemma CallEnds(t: Trace, u: Trace)
    requires Legal(t) && StackOf(t) == OneCall([], true) && u == t + [Drained]
    ensures Legal(u) && StackOf(u) == REST && Flat(StackOf(u)) == [] && (Guarded(u) <==> Guarded(t))
  {
    Grows(t, OneCall([], true), Drained, u, REST);
  }

  /** A connected box with the custom elements 1 and 2 in it is moved: both are disconnected, then both
      connected, and so the callbacks run. HTML calls 1 back twice, and then 2 twice. */
  lemma MovedBox(t: Trace, a1: Reaction, b1: Reaction, a2: Reaction, b2: Reaction)
    requires a1 == Reaction(1, 1) && b1 == Reaction(2, 2) && a2 == Reaction(3, 1) && b2 == Reaction(4, 2)
    requires t == [Entered, Enqueued(1), Enqueued(2), Enqueued(1), Enqueued(2), Draining,
                   Ran(a1), Ran(b1), Ran(a2), Ran(b2), Drained]
    ensures Legal(t) && !HtmlLegal(t)
  {
    CallBegins(t[..1]);
    CallEnqueues(t[..1], [], 1, t[..2], [a1]);
    CallEnqueues(t[..2], [a1], 2, t[..3], [a1, b1]);
    assert [a1, b1][0].e == 1 && [a1, b1][1].e == 2;
    CallEnqueues(t[..3], [a1, b1], 1, t[..4], [a1, b1, a2]);
    CallEnqueues(t[..4], [a1, b1, a2], 2, t[..5], [a1, b1, a2, b2]);
    MovedBoxDrains(t, [a1, b1, a2, b2]);
    OrderIsHtml(t);
  }

  lemma MovedBoxDrains(t: Trace, p: seq<Reaction>)
    requires |t| == 11 && Legal(t[..5]) && StackOf(t[..5]) == OneCall(p, false) && !Guarded(t[..5]) && |p| == 4
    requires t[5..] == [Draining, Ran(p[0]), Ran(p[1]), Ran(p[2]), Ran(p[3]), Drained]
    ensures Legal(t) && Flat(StackOf(t)) == [] && !Guarded(t)
  {
    assert forall i :: 5 <= i < 11 ==> t[i] == t[5..][i - 5];
    CallDrains(t[..5], p, t[..6]);
    CallRuns(t[..6], p, t[..7]);
    CallRuns(t[..7], p[1..], t[..8]);
    CallRuns(t[..8], p[1..][1..], t[..9]);
    CallRuns(t[..9], p[1..][1..][1..], t[..10]);
    assert p[1..][1..][1..][1..] == [];
    CallEnds(t[..10], t);
  }

  type Queues = map<Element, seq<Reaction>>

  const BACKUP: Frame := Frame([], false, None)

  /** HTML's machine in a call. */
  function InCall(outer: seq<Frame>, f: Frame, queues: Queues): Html {
    Html(outer + [f], queues)
  }

  lemma HtmlGrows(t: Trace, h: Html, e: Event, u: Trace)
    requires HtmlLegal(t) && HtmlOf(t) == h && HtmlAllowed(h, e) && u == t + [e]
    ensures HtmlLegal(u) && HtmlOf(u) == HtmlStep(h, e, |t|)
  {
    HtmlPrefix(t, e);
  }

  lemma HtmlEnters(t: Trace, outer: seq<Frame>, q: Queues, u: Trace)
    requires HtmlLegal(t) && HtmlOf(t) == Html(outer, q) && u == t + [Entered]
    ensures HtmlLegal(u) && HtmlOf(u) == InCall(outer, BACKUP, q)
  {
    HtmlGrows(t, Html(outer, q), Entered, u);
  }

  lemma HtmlBegins(t: Trace)
    requires t == [Entered]
    ensures HtmlLegal(t) && HtmlOf(t) == InCall([BACKUP], BACKUP, map[])
  {
    HtmlEnters([], [BACKUP], map[], t);
  }

  /** `own` is then the element's reaction queue. */
  lemma HtmlEnqueues(t: Trace, outer: seq<Frame>, w: seq<Element>, q: Queues, e: Element, own: seq<Reaction>, u: Trace)
    requires HtmlLegal(t) && HtmlOf(t) == InCall(outer, Frame(w, false, None), q) && u == t + [Enqueued(e)]
    requires own == (if e in q then q[e] else []) + [Reaction(|t|, e)]
    ensures HtmlLegal(u) && HtmlOf(u) == InCall(outer, Frame(w + [e], false, None), q[e := own])
  {
    var h := InCall(outer, Frame(w, false, None), q);
    InnermostIsTop(h);
    HtmlGrows(t, h, Enqueued(e), u);
    UpdateLast(outer, Frame(w, false, None), Frame(w + [e], false, None));
  }

  lemma UpdateLast<T>(s: seq<T>, x: T, y: T)
    ensures (s + [x])[|s| := y] == s + [y] && (s + [x])[..|s|] == s
  {
  }

  lemma HtmlDrains(t: Trace, outer: seq<Frame>, w: seq<Element>, q: Queues, u: Trace)
    requires HtmlLegal(t) && HtmlOf(t) == InCall(outer, Frame(w, false, None), q) && outer != [] && u == t + [Draining]
    ensures HtmlLegal(u) && HtmlOf(u) == InCall(outer, Frame(w, true, None), q)
  {
    var h := InCall(outer, Frame(w, false, None), q);
    HtmlGrows(t, h, Draining, u);
    assert h.frames[..|outer|] == outer;
  }

  /** The next reaction of the first element that has one, `rest` being behind it. */
  lemma HtmlRuns(t: Trace, outer: seq<Frame>, f: Frame, q: Queues, e: Element, rest: seq<Element>, r: Reaction,
                 more: seq<Reaction>, u: Trace)
    requires HtmlLegal(t) && HtmlOf(t) == InCall(outer, f, q) && f.invoking && u == t + [Ran(r)]
    requires Busy(InCall(outer, f, q)) == [e] + rest && e in q && q[e] == [r] + more
    ensures HtmlLegal(u) && HtmlOf(u) == InCall(outer, Frame(rest, true, Some(e)), q[e := more])
  {
    var h := InCall(outer, f, q);
    assert ([e] + rest)[1..] == rest && ([r] + more)[1..] == more;
    HtmlGrows(t, h, Ran(r), u);
    assert h.frames[..|outer|] == outer;
  }

  lemma HtmlEnds(t: Trace, outer: seq<Frame>, f: Frame, q: Queues, u: Trace)
    requires HtmlLegal(t) && HtmlOf(t) == InCall(outer, f, q) && outer != [] && f.invoking && u == t + [Drained]
    requires Busy(InCall(outer, f, q)) == []
    ensures HtmlLegal(u) && HtmlOf(u) == Html(outer, q)
  {
    var h := InCall(outer, f, q);
    HtmlGrows(t, h, Drained, u);
    assert h.frames[..|outer|] == outer;
  }

  /** Who is first with something to run. */
  lemma BusyIs(outer: seq<Frame>, f: Frame, q: Queues, idle: seq<Element>, rest: seq<Element>)
    requires f.Waiting() == idle + rest && forall e :: e in idle ==> e in q && q[e] == []
    requires rest != [] ==> rest[0] in q && q[rest[0]] != []
    ensures Busy(InCall(outer, f, q)) == rest
  {
    var h := InCall(outer, f, q);
    SkipsAll(h, idle, rest);
  }

  lemma {:induction false} SkipsAll(h: Html, idle: seq<Element>, rest: seq<Element>)
    requires forall e :: e in idle ==> h.Of(e) == []
    requires rest != [] ==> h.Of(rest[0]) != []
    ensures SkipIdle(h, idle + rest) == rest
  {
    if idle == [] {
      assert idle + rest == rest;
    } else {
      assert (idle + rest)[1..] == idle[1..] + rest && idle[0] in idle;
      SkipsAll(h, idle[1..], rest);
    }
  }

  /** What HTML runs of that box's reactions. */
  lemma MovedBoxInHtml(t: Trace, a1: Reaction, b1: Reaction, a2: Reaction, b2: Reaction)
    requires a1 == Reaction(1, 1) && b1 == Reaction(2, 2) && a2 == Reaction(3, 1) && b2 == Reaction(4, 2)
    requires t == [Entered, Enqueued(1), Enqueued(2), Enqueued(1), Enqueued(2), Draining,
                   Ran(a1), Ran(a2), Ran(b1), Ran(b2), Drained]
    ensures HtmlLegal(t)
  {
    var o, none: Queues := [BACKUP], map[];
    var q1 := none[1 := [a1]];
    var q2 := q1[2 := [b1]];
    var q3 := q2[1 := [a1, a2]];
    HtmlBegins(t[..1]);
    HtmlEnqueues(t[..1], o, [], none, 1, [a1], t[..2]);
    HtmlEnqueues(t[..2], o, [] + [1], q1, 2, [b1], t[..3]);
    HtmlEnqueues(t[..3], o, [] + [1] + [2], q2, 1, [a1, a2], t[..4]);
    HtmlEnqueues(t[..4], o, [] + [1] + [2] + [1], q3, 2, [b1, b2], t[..5]);
    assert [] + [1] + [2] + [1] + [2] == [1, 2, 1, 2];
    HtmlDrains(t[..5], o, [1, 2, 1, 2], q3[2 := [b1, b2]], t[..6]);
    MovedBoxRuns(t, q3[2 := [b1, b2]], a1, b1, a2, b2);
  }

  lemma MovedBoxRuns(t: Trace, q: Queues, a1: Reaction, b1: Reaction, a2: Reaction, b2: Reaction)
    requires |t| == 11 && t[6..] == [Ran(a1), Ran(a2), Ran(b1), Ran(b2), Drained]
    requires HtmlLegal(t[..6]) && HtmlOf(t[..6]) == InCall([BACKUP], Frame([1, 2, 1, 2], true, None), q)
    requires 1 in q && 2 in q && q[1] == [a1, a2] && q[2] == [b1, b2]
    ensures HtmlLegal(t)
  {
    assert forall i :: 6 <= i < 11 ==> t[i] == t[6..][i - 6];
    var o, f, g := [BACKUP], Frame([1, 2, 1, 2], true, None), Frame([2, 1, 2], true, Some(1));
    BusyIs(o, f, q, [], [1, 2, 1, 2]);
    HtmlRuns(t[..6], o, f, q, 1, [2, 1, 2], a1, [a2], t[..7]);
    BusyIs(o, g, q[1 := [a2]], [], [1, 2, 1, 2]);
    HtmlRuns(t[..7], o, g, q[1 := [a2]], 1, [2, 1, 2], a2, [], t[..8]);
    MovedBoxEnds(t, q[1 := [a2]][1 := []], b1, b2);
  }

  lemma MovedBoxEnds(t: Trace, q: Queues, b1: Reaction, b2: Reaction)
    requires |t| == 11 && t[8] == Ran(b1) && t[9] == Ran(b2) && t[10] == Drained
    requires HtmlLegal(t[..8]) && HtmlOf(t[..8]) == InCall([BACKUP], Frame([2, 1, 2], true, Some(1)), q)
    requires 1 in q && 2 in q && q[1] == [] && q[2] == [b1, b2]
    ensures HtmlLegal(t)
  {
    var o, f, g := [BACKUP], Frame([2, 1, 2], true, Some(1)), Frame([1, 2], true, Some(2));
    BusyIs(o, f, q, [1], [2, 1, 2]);
    HtmlRuns(t[..8], o, f, q, 2, [1, 2], b1, [b2], t[..9]);
    var q1 := q[2 := [b2]];
    BusyIs(o, g, q1, [], [2, 1, 2]);
    HtmlRuns(t[..9], o, g, q1, 2, [1, 2], b2, [], t[..10]);
    BusyIs(o, g, q1[2 := []], [2, 1, 2], []);
    HtmlEnds(t[..10], o, g, q1[2 := []], t);
  }

  /** A call made from a callback of a call. */
  function TwoCalls(outer: seq<Reaction>, inner: seq<Reaction>, draining: bool): Stack {
    [Slice([], false), Slice(outer, true), Slice(inner, draining)]
  }

  /** The box is removed, and the callback of 1 sets an attribute on 2: the nested call runs 2's new
      reaction, and only then comes the older one, of its disconnection. HTML runs the older first. */
  lemma RemovedBox(t: Trace, a1: Reaction, b1: Reaction, b2: Reaction)
    requires a1 == Reaction(1, 1) && b1 == Reaction(2, 2) && b2 == Reaction(6, 2)
    requires t == [Entered, Enqueued(1), Enqueued(2), Draining, Ran(a1),
                   Entered, Enqueued(2), Draining, Ran(b2), Drained, Ran(b1), Drained]
    ensures Legal(t) && !HtmlLegal(t)
  {
    RemovedBoxBegins(t[..5], t[..6], a1, b1);
    NestedCall(t, b1, b2);
    RemovedBoxFinishes(t, b1);
    OrderIsHtml(t);
  }

  lemma RemovedBoxBegins(t: Trace, u: Trace, a1: Reaction, b1: Reaction)
    requires a1 == Reaction(1, 1) && b1 == Reaction(2, 2)
    requires t == [Entered, Enqueued(1), Enqueued(2), Draining, Ran(a1)] && u == t + [Entered]
    ensures Legal(u) && StackOf(u) == TwoCalls([b1], [], false)
  {
    CallBegins(t[..1]);
    CallEnqueues(t[..1], [], 1, t[..2], [a1]);
    CallEnqueues(t[..2], [a1], 2, t[..3], [a1, b1]);
    CallDrains(t[..3], [a1, b1], t[..4]);
    CallRuns(t[..4], [a1, b1], t);
    assert [a1, b1][1..] == [b1];
    Grows(t, OneCall([b1], true), Entered, u, TwoCalls([b1], [], false));
  }

  lemma RemovedBoxFinishes(t: Trace, b1: Reaction)
    requires |t| == 12 && t[10] == Ran(b1) && t[11] == Drained
    requires Legal(t[..10]) && StackOf(t[..10]) == OneCall([b1], true) && !Guarded(t[..10])
    ensures Legal(t) && Flat(StackOf(t)) == [] && !Guarded(t)
  {
    CallRuns(t[..10], [b1], t[..11]);
    assert [b1][1..] == [];
    CallEnds(t[..11], t);
  }

  lemma NestedCall(t: Trace, b1: Reaction, b2: Reaction)
    requires |t| == 12 && t[6] == Enqueued(2) && t[7] == Draining && t[8] == Ran(b2) && t[9] == Drained
    requires b1.e == 2 && b2 == Reaction(6, 2) && Legal(t[..6]) && StackOf(t[..6]) == TwoCalls([b1], [], false)
    ensures Legal(t[..10]) && StackOf(t[..10]) == OneCall([b1], true) && !Guarded(t[..10])
  {
    var s := TwoCalls([b1], [], false);
    assert Below(s) == OneCall([b1], true) && Below(OneCall([b1], true)) == REST && Flat(REST) == [];
    assert Flat(Below(s)) == [b1] && !Lacks([b1], 2) by { assert [b1][0].e == 2; }
    assert [] + [b2] == [b2];
    Grows(t[..6], s, Enqueued(2), t[..7], TwoCalls([b1], [b2], false));
    Grows(t[..7], TwoCalls([b1], [b2], false), Draining, t[..8], TwoCalls([b1], [b2], true));
    assert [b2][1..] == [];
    Grows(t[..8], TwoCalls([b1], [b2], true), Ran(b2), t[..9], TwoCalls([b1], [], true));
    Grows(t[..9], TwoCalls([b1], [], true), Drained, t[..10], OneCall([b1], true));
  }

  /** What HTML runs when that box is removed. */
  lemma RemovedBoxInHtml(t: Trace, a1: Reaction, b1: Reaction, b2: Reaction)
    requires a1 == Reaction(1, 1) && b1 == Reaction(2, 2) && b2 == Reaction(6, 2)
    requires t == [Entered, Enqueued(1), Enqueued(2), Draining, Ran(a1),
                   Entered, Enqueued(2), Draining, Ran(b1), Ran(b2), Drained, Drained]
    ensures HtmlLegal(t)
  {
    var o, none: Queues := [BACKUP], map[];
    var q := none[1 := [a1]][2 := [b1]];
    HtmlBegins(t[..1]);
    HtmlEnqueues(t[..1], o, [], none, 1, [a1], t[..2]);
    HtmlEnqueues(t[..2], o, [] + [1], none[1 := [a1]], 2, [b1], t[..3]);
    assert [] + [1] + [2] == [1, 2];
    HtmlDrains(t[..3], o, [1, 2], q, t[..4]);
    BusyIs(o, Frame([1, 2], true, None), q, [], [1, 2]);
    HtmlRuns(t[..4], o, Frame([1, 2], true, None), q, 1, [2], a1, [], t[..5]);
    RemovedBoxNested(t, q[1 := []], b1, b2);
  }

  lemma RemovedBoxNested(t: Trace, q: Queues, b1: Reaction, b2: Reaction)
    requires |t| == 12 && b2 == Reaction(6, 2)
    requires t[5..] == [Entered, Enqueued(2), Draining, Ran(b1), Ran(b2), Drained, Drained]
    requires HtmlLegal(t[..5]) && HtmlOf(t[..5]) == InCall([BACKUP], Frame([2], true, Some(1)), q)
    requires 1 in q && 2 in q && q[1] == [] && q[2] == [b1]
    ensures HtmlLegal(t)
  {
    assert forall i :: 5 <= i < 12 ==> t[i] == t[5..][i - 5];
    var o := [BACKUP] + [Frame([2], true, Some(1))];
    HtmlEnters(t[..5], o, q, t[..6]);
    HtmlEnqueues(t[..6], o, [], q, 2, [b1, b2], t[..7]);
    assert [] + [2] == [2];
    RemovedBoxRuns(t, o, q[2 := [b1, b2]], b1, b2);
    RemovedBoxEnds(t, o, q[2 := [b1, b2]][2 := [b2]], b2);
  }

  lemma RemovedBoxRuns(t: Trace, o: seq<Frame>, q: Queues, b1: Reaction, b2: Reaction)
    requires |t| == 12 && t[7] == Draining && t[8] == Ran(b1) && o != []
    requires HtmlLegal(t[..7]) && HtmlOf(t[..7]) == InCall(o, Frame([2], false, None), q) && 2 in q && q[2] == [b1, b2]
    ensures HtmlLegal(t[..9]) && HtmlOf(t[..9]) == InCall(o, Frame([], true, Some(2)), q[2 := [b2]])
  {
    HtmlDrains(t[..7], o, [2], q, t[..8]);
    BusyIs(o, Frame([2], true, None), q, [], [2]);
    HtmlRuns(t[..8], o, Frame([2], true, None), q, 2, [], b1, [b2], t[..9]);
  }

  lemma RemovedBoxEnds(t: Trace, o: seq<Frame>, q: Queues, b2: Reaction)
    requires |t| == 12 && t[9] == Ran(b2) && t[10] == Drained && t[11] == Drained
    requires o == [BACKUP] + [Frame([2], true, Some(1))]
    requires HtmlLegal(t[..9]) && HtmlOf(t[..9]) == InCall(o, Frame([], true, Some(2)), q)
    requires 1 in q && 2 in q && q[1] == [] && q[2] == [b2]
    ensures HtmlLegal(t)
  {
    var f, q1 := Frame([], true, Some(2)), q[2 := []];
    BusyIs(o, f, q, [], [2]);
    HtmlRuns(t[..9], o, f, q, 2, [], b2, [], t[..10]);
    BusyIs(o, f, q1, [2], []);
    HtmlEnds(t[..10], o, f, q1, t[..11]);
    BusyIs([BACKUP], Frame([2], true, Some(1)), q1, [1, 2], []);
    HtmlEnds(t[..11], [BACKUP], Frame([2], true, Some(1)), q1, t);
  }

  /** `x.append(a, x)` has moved the custom element `a` when it throws: its reaction is kept until a
      checkpoint. HTML runs it before the exception reaches the caller. */
  lemma ThrowingCall(t: Trace, u: Trace, r: Reaction)
    requires r == Reaction(1, 1)
    requires t == [Entered, Enqueued(1), Kept, Checkpoint, Ran(r), Drained]
    requires u == [Entered, Enqueued(1), Draining, Ran(r), Drained]
    ensures Legal(t) && !HtmlLegal(t)
    ensures Legal(u) && HtmlLegal(u)
  {
    CallBegins(t[..1]);
    CallEnqueues(t[..1], [], 1, t[..2], [r]);
    KeptUntilCheckpoint(t, r);
    OrderIsHtml(t);
    CallBegins(u[..1]);
    CallEnqueues(u[..1], [], 1, u[..2], [r]);
    CallDrains(u[..2], [r], u[..3]);
    CallRuns(u[..3], [r], u[..4]);
    assert [r][1..] == [];
    CallEnds(u[..4], u);
    OrderIsHtml(u);
  }

  lemma KeptUntilCheckpoint(t: Trace, r: Reaction)
    requires |t| == 6 && t[2] == Kept && t[3] == Checkpoint && t[4] == Ran(r) && t[5] == Drained
    requires Legal(t[..2]) && StackOf(t[..2]) == OneCall([r], false)
    ensures Legal(t) && Flat(StackOf(t)) == [] && !Guarded(t)
  {
    assert Below(OneCall([r], false)) == REST && [] + [r] == [r];
    Grows(t[..2], OneCall([r], false), Kept, t[..3], [Slice([r], false)]);
    CheckpointRuns(t, r);
  }

  lemma CheckpointRuns(t: Trace, r: Reaction)
    requires |t| == 6 && t[3] == Checkpoint && t[4] == Ran(r) && t[5] == Drained
    requires Legal(t[..3]) && StackOf(t[..3]) == [Slice([r], false)] && !Guarded(t[..3])
    ensures Legal(t) && Flat(StackOf(t)) == [] && !Guarded(t)
  {
    Grows(t[..3], [Slice([r], false)], Checkpoint, t[..4], [Slice([r], true)]);
    assert [r][1..] == [];
    Grows(t[..4], [Slice([r], true)], Ran(r), t[..5], [Slice([], true)]);
    Grows(t[..5], [Slice([], true)], Drained, t, REST);
    assert Flat(REST) == [];
  }

  // ----- A caller's queue is not given back -----

  function TailRun(): (t: Trace)
    ensures |t| == 7
  {
    [Enqueued(1), Entered, Draining, Drained, Entered, Enqueued(2), Kept]
  }

  /** Script in the tail calls in another world, which keeps its reaction: the call's slice was empty
      when its drain was over, and here the reaction is pending after it. */
  lemma TailLeavesReaction(r: Reaction, x: Reaction)
    requires r == Reaction(0, 1) && x == Reaction(5, 2)
    ensures var t := TailRun();
            && Legal(t[..1]) && Legal(t[..4]) && Legal(t) && Calm(t[..1], t)
            && Conserved(t[..1], [r]) && Conserved(t[..4], [r]) && Conserved(t, [r, x])
            && StackOf(t[..1]) == StackOf(t[..4]) == Parsed([r], false) && StackOf(t) == Parsed([r, x], false)
            && LeftSince([r, x], 4) == [x]
  {
    var t := TailRun();
    TailRunLegal(t, r, x);
    TailRunConserves(t, r, x);
    TailRunCalm();
    LeftSinceConcat([r], [x], 4);
    assert [r] + [x] == [r, x];
  }

  /** No call under way. */
  function Parsed(pending: seq<Reaction>, draining: bool): Stack {
    [Slice(pending, draining)]
  }

  lemma FirstEnqueued(t: Trace, r: Reaction)
    requires r.at == 0 && t == [Enqueued(r.e)]
    ensures Legal(t) && StackOf(t) == Parsed([r], false) && Conserved(t, [r])
  {
    assert [] + [r] == [r];
    Grows([], REST, Enqueued(r.e), t, Parsed([r], false));
    EnqueueConserves([], [], r.e);
    assert t == [] + [Enqueued(r.e)];
  }

  function InnerCall(r: Reaction, pending: seq<Reaction>, draining: bool): Stack {
    [Slice([r], false), Slice(pending, draining)]
  }

  lemma TailRunLegal(t: Trace, r: Reaction, x: Reaction)
    requires r == Reaction(0, 1) && x == Reaction(5, 2) && t == TailRun()
    ensures Legal(t[..1]) && Legal(t[..4]) && Legal(t)
    ensures StackOf(t[..1]) == StackOf(t[..4]) == Parsed([r], false) && StackOf(t) == Parsed([r, x], false)
  {
    FirstEnqueued(t[..1], r);
    Grows(t[..1], Parsed([r], false), Entered, t[..2], InnerCall(r, [], false));
    Grows(t[..2], InnerCall(r, [], false), Draining, t[..3], InnerCall(r, [], true));
    Grows(t[..3], InnerCall(r, [], true), Drained, t[..4], Parsed([r], false));
    KeptInTail(t, r, x);
  }

  lemma KeptInTail(t: Trace, r: Reaction, x: Reaction)
    requires |t| == 7 && t[4] == Entered && t[5] == Enqueued(2) && t[6] == Kept && x == Reaction(5, 2)
    requires Legal(t[..4]) && StackOf(t[..4]) == Parsed([r], false)
    ensures Legal(t) && StackOf(t) == Parsed([r, x], false)
  {
    Grows(t[..4], Parsed([r], false), Entered, t[..5], InnerCall(r, [], false));
    assert [] + [x] == [x] && [r] + [x] == [r, x];
    Grows(t[..5], InnerCall(r, [], false), Enqueued(2), t[..6], InnerCall(r, [x], false));
    assert Below(InnerCall(r, [x], false)) == Parsed([r], false);
    Grows(t[..6], InnerCall(r, [x], false), Kept, t, Parsed([r, x], false));
  }

  lemma TailRunConserves(t: Trace, r: Reaction, x: Reaction)
    requires r == Reaction(0, 1) && x == Reaction(5, 2) && t == TailRun()
    ensures Conserved(t[..1], [r]) && Conserved(t[..4], [r]) && Conserved(t, [r, x])
  {
    FirstEnqueued(t[..1], r);
    SilentOnce(t, 1, [r]);
    SilentOnce(t, 2, [r]);
    SilentOnce(t, 3, [r]);
    SilentOnce(t, 4, [r]);
    assert t[..6] == t[..5] + [Enqueued(2)] && [r] + [x] == [r, x];
    EnqueueConserves(t[..5], [r], 2);
    SilentOnce(t, 6, [r, x]);
    assert t[..7] == t;
  }

  lemma SilentOnce(t: Trace, n: nat, f: seq<Reaction>)
    requires n < |t| && Conserved(t[..n], f) && !t[n].Enqueued? && !t[n].Ran?
    ensures Conserved(t[..n + 1], f)
  {
    assert t[..n + 1] == t[..n] + [t[n]];
    SilentConserves(t[..n], f, t[n]);
  }

  lemma TailRunCalm()
    ensures Calm(TailRun()[..1], TailRun())
  {
    var t := TailRun();
    assert t[..1] == [Enqueued(1)];
    assert t[1..] == [Entered, Draining, Drained, Entered, Enqueued(2), Kept];
  }

  /** A checkpoint inside a call runs the reaction the caller had enqueued before it: the call drains,
      and its caller's queue is gone. HTML makes no checkpoint there. */
  lemma CheckpointDrainsCaller(t: Trace, r: Reaction)
    requires r == Reaction(0, 1)
    requires t == [Enqueued(1), Entered, Checkpoint, Ran(r), Drained, Draining, Drained]
    ensures Conserved(t[..1], [r]) && Conserved(t, [])
    ensures Drains(t[..1], [r], t, []) && !Calm(t[..1], t) && !Legal(t) && !HtmlLegal(t)
  {
    FirstEnqueued(t[..1], r);
    Grows(t[..1], Parsed([r], false), Entered, t[..2], InnerCall(r, [], false));
    assert t[..3] == t[..2] + [Checkpoint];
    LegalPrefix(t[..2], Checkpoint);
    assert !Proper(t) by { assert t[2] == Checkpoint && Legal(t[..2]); }
    if Legal(t) { LegalIsProper(t, t); }
    if HtmlLegal(t) { HtmlIsProper(t); }
    assert t[|t[..1]|..][1] == Checkpoint;
    CallerConserves(t, r);
  }

  lemma CallerConserves(t: Trace, r: Reaction)
    requires |t| == 7 && Conserved(t[..1], [r]) && t[1] == Entered && t[2] == Checkpoint && t[3] == Ran(r)
    requires t[4] == Drained && t[5] == Draining && t[6] == Drained
    ensures Conserved(t, [])
  {
    SilentOnce(t, 1, [r]);
    SilentOnce(t, 2, [r]);
    RanOnly(t, r);
    SilentOnce(t, 4, []);
    SilentOnce(t, 5, []);
    SilentOnce(t, 6, []);
    assert t[..7] == t;
  }

  lemma RanOnly(t: Trace, r: Reaction)
    requires |t| > 3 && Conserved(t[..3], [r]) && t[3] == Ran(r)
    ensures Conserved(t[..4], [])
  {
    assert t[..4] == t[..3] + [Ran(r)];
    assert [r][..0] + [r][1..] == [];
    RunConserves(t[..3], [r], 0);
  }
}
