/**
  * The program's custom element reactions: `[CEReactions]` calls, the FIFO they share, and the
  * microtask checkpoint.
  *
  * What a call's own work and what page script do next is whatever `operation` and `page` make of
  * the trace so far. Page script reaches the FIFO only through calls: HTML demands `[CEReactions]`
  * of every interface that can enqueue.
  */
module Reactions {
  import opened Common
  import opened ReactionTrace
  import opened ElementQueues

  datatype PageAction = Call | RunCheckpoint | Return

  /** A call may fail, and may have been made outside the main world; `tail` says whether one that
      succeeded gets past its drain. */
  datatype OperationAction = Enqueue(e: Element) | RunPage | Finish(ok: bool, main: bool, tail: bool)

  /** What a call has done by the end of its drain: the queue is the old one exactly if it was empty
      or no checkpoint ran, and in a calm stretch every slice is back. */
  ghost predicate Drains(t0: Trace, f0: seq<Reaction>, t: Trace, f: seq<Reaction>) {
    && |f| <= |f0| && (f == f0 <==> f0 == [] || Calm(t0, t))
    && |t| > |t0| && t[|t| - 1] == Drained
    && (Legal(t0) && Calm(t0, t) ==> Legal(t) && StackOf(t) == StackOf(t0))
  }

  /** What a call whose drain was over at `t1` has done by its very end: only what was enqueued after the
      drain stands beside the old queue, which is restored exactly if nothing was and no checkpoint
      ran, or there was nothing to restore; in a calm stretch the drain left every slice as it found it. */
  ghost predicate EndsDrained(t0: Trace, f0: seq<Reaction>, t1: Trace, t: Trace, f: seq<Reaction>) {
    && (Calm(t0, t) ==> f == f0 + LeftSince(f, |t1|))
    && (f == f0 <==> LeftSince(f, |t1|) == [] && (f0 == [] || Calm(t0, t)))
    && (Legal(t0) && Calm(t0, t) ==> Legal(t) && Legal(t1) && StackOf(t1) == StackOf(t0))
  }

  /** What a call that did not drain has done by its very end: all it enqueued itself is pending, after
      the old queue. */
  ghost predicate EndsKept(t0: Trace, f0: seq<Reaction>, t1: Trace, t: Trace, f: seq<Reaction>) {
    f == f0 + LeftSince(f, |t0|) && OwnPending(t0, t1, f)
  }

  // ----- What the scripts say -----

  type Page = Trace -> PageAction
  type Operation = Trace -> OperationAction

  /** Whether an event is one that page script or an operation asks for when `before` has happened. */
  ghost predicate Asked(page: Page, operation: Operation, before: Trace, e: Event) {
    match e
    case Enqueued(x) => operation(before) == Enqueue(x)
    case Entered => page(before) == Call
    case Checkpoint => page(before) == RunCheckpoint
    case _ => true
  }

  ghost predicate AskedAt(page: Page, operation: Operation, t: Trace, k: nat)
    requires k < |t|
  {
    Asked(page, operation, t[..k], t[k])
  }

  ghost predicate AllAsked(page: Page, operation: Operation, t0: Trace, t: Trace) {
    t0 <= t && forall k :: |t0| <= k < |t| ==> AskedAt(page, operation, t, k)
  }

  lemma AskedAtOnce(page: Page, operation: Operation, t: Trace)
    ensures AllAsked(page, operation, t, t)
  {
  }

  lemma AskedTransitive(page: Page, operation: Operation, t0: Trace, t1: Trace, t2: Trace)
    requires AllAsked(page, operation, t0, t1) && AllAsked(page, operation, t1, t2)
    ensures AllAsked(page, operation, t0, t2)
  {
    forall k | |t0| <= k < |t2| ensures AskedAt(page, operation, t2, k) {
      if k < |t1| {
        assert AskedAt(page, operation, t1, k);
        assert t2[..k] == t1[..k] && t2[k] == t1[k];
      }
    }
  }

  lemma AskedStep(page: Page, operation: Operation, t0: Trace, t: Trace, e: Event)
    requires AllAsked(page, operation, t0, t) && Asked(page, operation, t, e)
    ensures AllAsked(page, operation, t0, t + [e])
  {
    var u := t + [e];
    forall k | |t0| <= k < |u| ensures AskedAt(page, operation, u, k) {
      if k < |t| {
        assert AskedAt(page, operation, t, k);
        assert u[..k] == t[..k] && u[k] == t[k];
      } else {
        assert u[..k] == t;
      }
    }
  }

  /** The reactions that a call begun at `t0` enqueued itself, not the calls made in it, are all pending. */
  ghost predicate OwnPending(t0: Trace, t: Trace, f: seq<Reaction>) {
    Legal(t0) ==>
      forall k {:trigger IsOwn(t0, t, k)} :: |t0| < k < |t| && IsOwn(t0, t, k) ==> Reaction(k, t[k].e) in f
  }

  ghost predicate IsOwn(t0: Trace, t: Trace, k: nat)
    requires Legal(t0) && k < |t|
  {
    t[k].Enqueued? && Legal(t[..k]) && |StackOf(t[..k])| == |StackOf(t0)| + 1
  }

  class Document {
    const page: Page
    const operation: Operation
    /** `custom_reactions`. */
    var fifo: seq<Reaction>
    var trace: Trace

    ghost predicate Valid()
      reads this
    {
      InStep(trace, fifo) && Sound(trace)
    }

    constructor (page: Page, operation: Operation)
      ensures Valid() && trace == [] && fifo == [] && this.page == page && this.operation == operation
    {
      this.page, this.operation, fifo, trace := page, operation, [], [];
      new;
      assert Flat([Slice([], false)]) == [];
    }

    /** A call's own work, or the parser with no call under way. */
    method Enqueue(e: Element)
      requires Valid() && InBody(trace)
      modifies this
      ensures Valid() && trace == old(trace) + [Enqueued(e)] && fifo == old(fifo) + [Reaction(|old(trace)|, e)]
    {
      EnqueueInStep(trace, fifo, e);
      SoundStep(trace, Enqueued(e));
      fifo := fifo + [Reaction(|trace|, e)];
      trace := trace + [Enqueued(e)];
    }

    /** A label that leaves the FIFO alone. */
    method Note(e: Event)
      requires Valid() && !e.Enqueued? && !e.Ran?
      requires e == Checkpoint || (Legal(trace) ==> Allowed(StackOf(trace), e))
      modifies this`trace
      ensures Valid() && trace == old(trace) + [e]
    {
      SilentInStep(trace, fifo, e);
      SoundStep(trace, e);
      trace := trace + [e];
    }

    /** `pop_custom_reaction_from`: the oldest reaction at or above the mark. */
    method PopFrom(mark: nat) returns (r: Option<Reaction>)
      requires Valid() && AtMark(trace, mark)
      modifies this
      ensures Valid()
      ensures r.None? ==> |old(fifo)| <= mark && fifo == old(fifo) && trace == old(trace)
      ensures r.Some? ==> |old(fifo)| > mark && r.value == old(fifo)[mark] && trace == old(trace) + [Ran(r.value)]
      ensures r.Some? ==> fifo == old(fifo)[..mark] + old(fifo)[mark + 1..]
    {
      if |fifo| <= mark { return None; }
      var x := fifo[mark];
      RunInStep(trace, fifo, mark);
      FrontAtMark(trace, fifo, mark);
      SoundStep(trace, Ran(x));
      fifo := fifo[..mark] + fifo[mark + 1..];
      trace := trace + [Ran(x)];
      return Some(x);
    }

    /** Page script: acts as it says until it returns, or until `fuel` is spent. */
    method RunPage(fuel: nat) returns (done: bool)
      requires Valid()
      modifies this
      ensures Valid() && old(trace) <= trace
      ensures done ==> Behaved(old(trace), old(fifo), trace, fifo)
      ensures done ==> page(trace) == Return && AllAsked(page, operation, old(trace), trace)
      decreases fuel, 0
    {
      var left := fuel;
      BehavesAtOnce(trace, fifo);
      AskedAtOnce(page, operation, trace);
      while left > 0
        invariant left <= fuel && Valid()
        invariant Behaved(old(trace), old(fifo), trace, fifo) && AllAsked(page, operation, old(trace), trace)
      {
        left := left - 1;
        if page(trace) == Return { return true; }
        ghost var t1, f1 := trace, fifo;
        done := PageActs(left);
        if !done { return; }
        BehavedTransitive(old(trace), old(fifo), t1, f1, trace, fifo);
        AskedTransitive(page, operation, old(trace), t1, trace);
      }
      done := false;
    }

    /** One action of page script. */
    method PageActs(fuel: nat) returns (done: bool)
      requires Valid() && page(trace) != Return
      modifies this
      ensures Valid() && old(trace) <= trace
      ensures done ==> Behaved(old(trace), old(fifo), trace, fifo) && AllAsked(page, operation, old(trace), trace)
      ensures done ==> |trace| > |old(trace)|
      ensures done ==> trace[|old(trace)|] == if page(old(trace)) == Call then Entered else Checkpoint
      decreases fuel, 5
    {
      ghost var t0 := trace;
      AskedAtOnce(page, operation, t0);
      match page(trace) {
        case Call =>
          AskedStep(page, operation, t0, t0, Entered);
          var returned, _, _, _, _ := NativeCall(fuel);
          done := returned;
          if done { AskedTransitive(page, operation, t0, t0 + [Entered], trace); }
        case RunCheckpoint =>
          AskedStep(page, operation, t0, t0, Checkpoint);
          done := MicrotaskCheckpoint(fuel);
          if done { AskedTransitive(page, operation, t0, t0 + [Checkpoint], trace); }
      }
    }

    /** A call's own work, which may run page script. */
    method RunOperation(fuel: nat) returns (done: bool, ok: bool, main: bool, tail: bool)
      requires Valid() && InBody(trace)
      modifies this
      ensures Valid() && old(trace) <= trace
      ensures done ==> Behaved(old(trace), old(fifo), trace, fifo)
      ensures done ==> operation(trace) == Finish(ok, main, tail) && AllAsked(page, operation, old(trace), trace)
      decreases fuel, 1
    {
      var left := fuel;
      ok, main, tail := true, true, true;
      BehavesAtOnce(trace, fifo);
      AskedAtOnce(page, operation, trace);
      while left > 0
        invariant left <= fuel && Valid()
        invariant Behaved(old(trace), old(fifo), trace, fifo) && AllAsked(page, operation, old(trace), trace)
      {
        left := left - 1;
        ghost var t1, f1 := trace, fifo;
        BodyKept(old(trace), trace);
        match operation(trace) {
          case Finish(o, m, t) => return true, o, m, t;
          case Enqueue(e) =>
            EnqueueBehaves(trace, fifo, e);
            AskedAtOnce(page, operation, trace);
            AskedStep(page, operation, trace, trace, Enqueued(e));
            Enqueue(e);
          case RunPage =>
            done := RunPage(left);
            if !done { return; }
        }
        BehavedTransitive(old(trace), old(fifo), t1, f1, trace, fifo);
        AskedTransitive(page, operation, old(trace), t1, trace);
      }
      done := false;
    }

    /** `invoke_custom_element_reactions`: run what is at or above the mark until nothing is. */
    method Invoke(fuel: nat, mark: nat) returns (done: bool)
      requires Valid() && AtMark(trace, mark)
      modifies this
      ensures Valid() && old(trace) <= trace
      ensures done ==> Grew(old(trace), old(fifo), trace, fifo) && |fifo| <= mark
      ensures done && mark <= |old(fifo)| && Calm(old(trace), trace) ==> fifo == old(fifo)[..mark]
      ensures done ==> KeepsBelow(old(trace), trace) && AllAsked(page, operation, old(trace), trace)
      decreases fuel, 1
    {
      var left := fuel;
      BehavesAtOnce(trace, fifo);
      AskedAtOnce(page, operation, trace);
      while left > 0
        invariant left <= fuel && Valid()
        invariant Invoking(old(trace), old(fifo), trace, fifo, mark) && AllAsked(page, operation, old(trace), trace)
      {
        left := left - 1;
        ghost var t1, f1 := trace, fifo;
        MarkKept(old(trace), trace, mark);
        var next := PopFrom(mark);
        if next.None? { return true; }
        ghost var t2, f2 := trace, fifo;
        var more := RunPage(left);
        if !more { return false; }
        PopKeeps(t1, f1, mark, t2, f2);
        AskedStep(page, operation, old(trace), t1, t2[|t1|]);
        AskedTransitive(page, operation, old(trace), t2, trace);
        InvokeStep(old(trace), old(fifo), t1, f1, t2, f2, trace, fifo, mark);
      }
      done := false;
    }

    /** `native_inner` for a `[CEReactions]` member, up to the end of its drain. `work` is what had happened
        when its own work was over. Only a call that succeeds in the main world drains; any other leaves
        what it enqueued pending, and runs none of it. */
    method CallAndDrain(fuel: nat) returns (done: bool, ok: bool, main: bool, tail: bool, ghost work: Trace)
      requires Valid()
      modifies this
      ensures Valid() && old(trace) <= trace
      ensures done ==> Behaved(old(trace), old(fifo), trace, fifo)
      ensures done ==>
        && old(trace) + [Entered] <= work && AllAsked(page, operation, old(trace) + [Entered], trace)
        && operation(work) == Finish(ok, main, tail)
      ensures done && ok && main ==> work + [Draining] <= trace && Drains(old(trace), old(fifo), trace, fifo)
      ensures done && !(ok && main) ==>
        && trace == work + [Kept]
        && (Calm(old(trace), trace) ==> fifo == old(fifo) + LeftSince(fifo, |old(trace)|))
        && (Legal(trace) ==> OwnPending(old(trace), trace, fifo))
      decreases fuel, 3
    {
      var mark := |fifo|;
      ghost var t0, f0 := trace, fifo;
      EnterStep(t0);
      Note(Entered);
      ghost var t1 := trace;
      done, ok, main, tail := RunOperation(fuel);
      work := trace;
      if !done { return; }
      BodyKept(t1, work);
      if ok && main {
        done := DrainCall(fuel, mark, t0, f0, t1);
        if !done { return; }
        AskedStep(page, operation, t1, work, Draining);
        AskedTransitive(page, operation, t1, work + [Draining], trace);
      } else {
        CallKeeps(t0, f0, t1, work, fifo);
        CallLeaves(t0, f0, t1, work, fifo);
        AskedStep(page, operation, t1, work, Kept);
        Note(Kept);
      }
    }

    /** The drain of a call that began at `t0`. */
    method DrainCall(fuel: nat, mark: nat, ghost t0: Trace, ghost f0: seq<Reaction>, ghost t1: Trace)
        returns (done: bool)
      requires Valid() && InBody(trace) && t1 == t0 + [Entered] && InStep(t0, f0) && mark == |f0|
      requires Behaved(t1, f0, trace, fifo)
      modifies this
      ensures Valid() && old(trace) <= trace
      ensures done ==> Behaved(t0, f0, trace, fifo) && Drains(t0, f0, trace, fifo)
      ensures done ==> AllAsked(page, operation, old(trace) + [Draining], trace)
      decreases fuel, 2
    {
      ghost var t2, f2 := trace, fifo;
      DrainStep(t0, t1, t2, f2, mark);
      Note(Draining);
      ghost var t3 := trace;
      done := Invoke(fuel, mark);
      if !done { return; }
      DrainedEnd(t0, f0, t1, t2, f2, t3, trace, fifo);
      AskedStep(page, operation, t3, trace, Drained);
      Note(Drained);
    }

    /** All of `native_inner`. After the drain a call that succeeded attaches frames and, in the main
        world, runs inline scripts, unless it fails on the way there: page script again, in the enclosing
        call's slice. `work` is what had happened when the call's own work was over, `drained` when its
        drain was. */
    method NativeCall(fuel: nat)
        returns (done: bool, ok: bool, main: bool, ghost work: Trace, ghost drained: Trace)
      requires Valid()
      modifies this
      ensures Valid() && old(trace) <= trace
      ensures done ==> Behaved(old(trace), old(fifo), trace, fifo)
      ensures done ==>
        && old(trace) + [Entered] <= work && AllAsked(page, operation, old(trace) + [Entered], trace)
        && operation(work).Finish? && operation(work).ok == ok && operation(work).main == main
        && drained <= trace && if ok && operation(work).tail then page(trace) == Return else trace == drained
      ensures done && ok && main ==>
        && work + [Draining] <= drained && drained[|drained| - 1] == Drained
        && EndsDrained(old(trace), old(fifo), drained, trace, fifo)
      ensures done && !(ok && main) ==>
        && drained == work + [Kept]
        && (Calm(old(trace), trace) ==> EndsKept(old(trace), old(fifo), drained, trace, fifo))
      decreases fuel, 4
    {
      ghost var t0, f0 := trace, fifo;
      var tail;
      done, ok, main, tail, work := CallAndDrain(fuel);
      drained := trace;
      if !done { return; }
      done := RunTail(fuel, ok && tail, t0, f0, ok && main);
    }

    /** What follows the drain of a call that began at `t0`, if the call gets so far. */
    method RunTail(fuel: nat, tail: bool, ghost t0: Trace, ghost f0: seq<Reaction>, ghost drained: bool)
        returns (done: bool)
      requires Valid() && Behaved(t0, f0, trace, fifo) && AllAsked(page, operation, t0 + [Entered], trace)
      requires InStep(t0, f0)
      requires if drained then Drains(t0, f0, trace, fifo) else Legal(trace) ==> OwnPending(t0, trace, fifo)
      modifies this
      ensures Valid() && old(trace) <= trace
      ensures done ==> Behaved(t0, f0, trace, fifo) && AllAsked(page, operation, t0 + [Entered], trace)
      ensures done ==> if tail then page(trace) == Return else trace == old(trace)
      ensures done && drained ==> EndsDrained(t0, f0, old(trace), trace, fifo)
      ensures done && !drained && Calm(t0, trace) ==> EndsKept(t0, f0, old(trace), trace, fifo)
      decreases fuel, 1
    {
      ghost var t1, f1 := trace, fifo;
      BehavesAtOnce(trace, fifo);
      done := true;
      if tail { done := RunPage(fuel); } else { AskedAtOnce(page, operation, t1); }
      if done {
        BehavedTransitive(t0, f0, t1, f1, trace, fifo);
        AskedTransitive(page, operation, t0 + [Entered], t1, trace);
        if drained {
          AfterDrain(t0, f0, t1, f1, trace, fifo);
        } else {
          KeptAndMore(t0, f0, t1, f1, trace, fifo);
        }
      }
    }

    /** The reaction step of a microtask checkpoint in the main world: the queue is drained from the bottom. */
    method MicrotaskCheckpoint(fuel: nat) returns (done: bool)
      requires Valid()
      modifies this
      ensures Valid() && old(trace) <= trace
      ensures done ==> Behaved(old(trace), old(fifo), trace, fifo) && fifo == [] && !Calm(old(trace), trace)
      ensures done ==> |trace| > |old(trace)| && trace[|old(trace)|] == Checkpoint
      ensures done ==> AllAsked(page, operation, old(trace) + [Checkpoint], trace)
      decreases fuel, 2
    {
      ghost var t0, f0 := trace, fifo;
      CheckpointStep(trace);
      Note(Checkpoint);
      ghost var t1 := trace;
      done := Invoke(fuel, 0);
      if !done { return; }
      CheckpointEnd(t0, f0, t1, trace, fifo);
      AskedStep(page, operation, t1, trace, Drained);
      Note(Drained);
    }
  }

  lemma BehavesAtOnce(t: Trace, f: seq<Reaction>)
    ensures Behaved(t, f, t, f)
  {
    assert t[|t|..] == [];
    InsideAtOnce(t);
  }

  /** The mark stands where the slice being drained begins. */
  ghost predicate AtMark(t: Trace, mark: nat) {
    Legal(t) ==> Top(StackOf(t)).draining && |Flat(Below(StackOf(t)))| == mark
  }

  lemma MarkKept(t0: Trace, t: Trace, mark: nat)
    requires AtMark(t0, mark) && KeepsBelow(t0, t)
    ensures AtMark(t, mark)
  {
  }

  lemma FrontAtMark(t: Trace, f: seq<Reaction>, mark: nat)
    requires InStep(t, f) && AtMark(t, mark) && mark < |f|
    ensures Legal(t) ==> Allowed(StackOf(t), Ran(f[mark]))
  {
    if Legal(t) {
      var s := StackOf(t);
      assert f == Flat(Below(s)) + Top(s).pending;
      assert f[mark] == Top(s).pending[0];
    }
  }

  /** Popping at the mark is running the front of the slice being drained. */
  lemma PopKeeps(t0: Trace, f0: seq<Reaction>, mark: nat, t: Trace, f: seq<Reaction>)
    requires InStep(t0, f0) && AtMark(t0, mark) && mark < |f0|
    requires t == t0 + [Ran(f0[mark])] && f == f0[..mark] + f0[mark + 1..]
    ensures Grew(t0, f0, t, f) && Calm(t0, t) && f[..mark] == f0[..mark] && KeepsBelow(t0, t)
    ensures Legal(t0) ==> Legal(t) && Top(StackOf(t0)).pending == [f0[mark]] + Top(StackOf(t)).pending
  {
    assert t[|t0|..] == [Ran(f0[mark])];
    FrontAtMark(t0, f0, mark);
    LegalPrefix(t0, Ran(f0[mark]));
    InsideStep(t0, Ran(f0[mark]));
    if Legal(t0) {
      var s := StackOf(t0);
      BelowWithTop(s, Top(s).(pending := Top(s).pending[1..]));
      assert Top(s).pending == [f0[mark]] + Top(s).pending[1..];
    }
  }

  /** A drain down to the mark is under way. */
  ghost predicate Invoking(t0: Trace, f0: seq<Reaction>, t: Trace, f: seq<Reaction>, mark: nat) {
    && Grew(t0, f0, t, f) && KeepsBelow(t0, t)
    && (mark <= |f0| && Calm(t0, t) ==> mark <= |f| && f[..mark] == f0[..mark])
  }

  /** One reaction popped and its callback run. */
  lemma InvokeStep(t0: Trace, f0: seq<Reaction>, t1: Trace, f1: seq<Reaction>,
                   t2: Trace, f2: seq<Reaction>, t3: Trace, f3: seq<Reaction>, mark: nat)
    requires Invoking(t0, f0, t1, f1, mark) && mark < |f1|
    requires Grew(t1, f1, t2, f2) && Calm(t1, t2) && mark <= |f2| && f2[..mark] == f1[..mark] && KeepsBelow(t1, t2)
    requires Behaved(t2, f2, t3, f3)
    ensures Invoking(t0, f0, t3, f3, mark)
  {
    GrewTransitive(t1, f1, t2, f2, t3, f3);
    GrewTransitive(t0, f0, t1, f1, t3, f3);
    CalmSplits(t1, t2, t3);
    CalmSplits(t0, t1, t3);
    InsideTransitive(t1, t2, t3);
    InsideTransitive(t0, t1, t3);
  }

  lemma EnterStep(t: Trace)
    ensures Legal(t) ==> Allowed(StackOf(t), Entered)
    ensures InBody(t + [Entered])
  {
    LegalPrefix(t, Entered);
    if Legal(t + [Entered]) { BelowPushed(StackOf(t), Slice([], false)); }
  }

  /** Inside a call there is one slice more. */
  lemma CallDepth(t0: Trace, t1: Trace, t: Trace)
    requires t1 == t0 + [Entered] && KeepsBelow(t1, t)
    ensures Legal(t) ==> Legal(t0) && Below(StackOf(t)) == StackOf(t0) && |StackOf(t)| > 1
  {
    LegalPrefix(t0, Entered);
    if Legal(t) { BelowPushed(StackOf(t0), Slice([], false)); }
  }

  /** A call's drain begins. */
  lemma DrainStep(t0: Trace, t1: Trace, t2: Trace, f2: seq<Reaction>, mark: nat)
    requires t1 == t0 + [Entered] && KeepsBelow(t1, t2) && InBody(t2)
    requires Legal(t0) ==> |Flat(StackOf(t0))| == mark
    ensures Legal(t2) ==> Allowed(StackOf(t2), Draining)
    ensures AtMark(t2 + [Draining], mark)
    ensures var t := t2 + [Draining]; Legal(t) ==> Below(StackOf(t)) == StackOf(t0) && Legal(t0)
  {
    CallDepth(t0, t1, t2);
    LegalPrefix(t2, Draining);
    if Legal(t2 + [Draining]) {
      var s := StackOf(t2);
      BelowWithTop(s, Top(s).(draining := true));
    }
  }

  /** A call's trace, apart from the labels at its ends. */
  lemma CallSpan(t0: Trace, t1: Trace, t2: Trace, e: Event)
    requires t1 == t0 + [Entered] && t1 <= t2 && e != Checkpoint
    ensures t0 <= t2 + [e] && (Calm(t0, t2 + [e]) <==> Calm(t1, t2))
    ensures Checkpoint in (t2 + [e])[|t0|..] <==> Checkpoint in t2[|t1|..]
  {
    assert (t2 + [e])[|t0|..] == [Entered] + t2[|t1|..] + [e];
  }

  lemma DrainSpan(t1: Trace, t2: Trace, t3: Trace, t: Trace)
    requires t1 <= t2 && t3 == t2 + [Draining] && t3 <= t
    ensures Calm(t1, t) <==> Calm(t1, t2) && Calm(t3, t)
    ensures Checkpoint in t[|t1|..] <==> Checkpoint in t2[|t1|..] || Checkpoint in t[|t3|..]
  {
    assert t[|t1|..] == t2[|t1|..] + [Draining] + t[|t3|..];
  }

  /** What a drained call has pending, seen from its start. */
  lemma DrainedGrew(t0: Trace, f0: seq<Reaction>, t1: Trace, t2: Trace, f2: seq<Reaction>, t3: Trace, t: Trace,
                    f: seq<Reaction>)
    requires t1 == t0 + [Entered] && Behaved(t1, f0, t2, f2) && t3 == t2 + [Draining] && Grew(t3, f2, t, f)
    requires |f| <= |f0| && (|f0| <= |f2| && Calm(t3, t) ==> f == f2[..|f0|])
    ensures var u := t + [Drained];
            && Grew(t0, f0, u, f) && (Calm(t0, u) ==> f == f0) && (Calm(t0, u) <==> Calm(t1, t2) && Calm(t3, t))
  {
    DrainSpan(t1, t2, t3, t);
    CallSpan(t0, t1, t, Drained);
  }

  /** A call that drains: its slice is empty and popped, and below it nothing has changed. */
  lemma DrainedEnd(t0: Trace, f0: seq<Reaction>, t1: Trace, t2: Trace, f2: seq<Reaction>,
                   t3: Trace, t: Trace, f: seq<Reaction>)
    requires t1 == t0 + [Entered] && InStep(t0, f0) && Behaved(t1, f0, t2, f2) && InBody(t2)
    requires t3 == t2 + [Draining] && AtMark(t3, |f0|) && (Legal(t3) ==> Legal(t0) && Below(StackOf(t3)) == StackOf(t0))
    requires Grew(t3, f2, t, f) && KeepsBelow(t3, t) && |f| <= |f0|
    requires |f0| <= |f2| && Calm(t3, t) ==> f == f2[..|f0|]
    requires InStep(t, f) && Sound(t)
    ensures Legal(t) ==> Allowed(StackOf(t), Drained)
    ensures Behaved(t0, f0, t + [Drained], f) && Drains(t0, f0, t + [Drained], f)
  {
    var u := t + [Drained];
    DrainInside(t0, t1, t2, t3, t);
    DrainedGrew(t0, f0, t1, t2, f2, t3, t, f);
    LegalPrefix(t, Drained);
    if Legal(t) { EmptyAtMark(t0, t3, t, f, |f0|); }
    ExactlyWhenCalm(t0, f0, u, f);
    if Legal(t0) && Calm(t0, u) {
      SoundStep(t, Drained);
      CalmIsLegal(t0, u);
    }
  }

  lemma EmptyAtMark(t0: Trace, t3: Trace, t: Trace, f: seq<Reaction>, mark: nat)
    requires Legal(t) && InStep(t, f) && KeepsBelow(t3, t) && AtMark(t3, mark) && |f| <= mark
    requires Legal(t3) ==> Legal(t0) && Below(StackOf(t3)) == StackOf(t0)
    ensures Allowed(StackOf(t), Drained) && Legal(t0)
    ensures |StackOf(t)| > 1 && Step(StackOf(t), Drained, |t|) == StackOf(t0)
  {
    var s := StackOf(t);
    assert Below(s) == Below(StackOf(t3)) && |Flat(Below(s))| == mark;
    assert |Flat(s)| == mark + |Top(s).pending|;
    assert StackOf(t0) != [] && |Below(s)| == |s| - 1;
  }

  /** A call that does not drain: its reactions are handed down to the enclosing slice. */
  lemma CallKeeps(t0: Trace, f0: seq<Reaction>, t1: Trace, t2: Trace, f2: seq<Reaction>)
    requires t1 == t0 + [Entered] && Behaved(t1, f0, t2, f2) && InBody(t2)
    ensures Behaved(t0, f0, t2 + [Kept], f2)
    ensures Legal(t2) ==> Allowed(StackOf(t2), Kept)
  {
    CallSpan(t0, t1, t2, Kept);
    CallDepth(t0, t1, t2);
    InsideCall(t0, t1, t2, Kept);
    LegalPrefix(t2, Kept);
    if Legal(t2 + [Kept]) {
      var s := StackOf(t2);
      BelowWithTop(Below(s), Top(Below(s)).(pending := Top(Below(s)).pending + Top(s).pending));
    }
  }

  lemma DrainInside(t0: Trace, t1: Trace, t2: Trace, t3: Trace, t: Trace)
    requires t1 == t0 + [Entered] && KeepsBelow(t1, t2) && t3 == t2 + [Draining] && Inside(t3, t)
    ensures Inside(t0, t + [Drained])
  {
    InsideSilent(t1, t2, Draining);
    LegalPrefix(t2, Draining);
    if Legal(t3) { BelowWithTop(StackOf(t2), Top(StackOf(t2)).(draining := true)); }
    InsideTransitive(t1, t3, t);
    InsideCall(t0, t1, t, Drained);
  }

  /** A call that does not drain leaves what it enqueued. */
  lemma CallLeaves(t0: Trace, f0: seq<Reaction>, t1: Trace, t2: Trace, f2: seq<Reaction>)
    requires t1 == t0 + [Entered] && Behaved(t1, f0, t2, f2) && InBody(t2) && InStep(t0, f0) && InStep(t2, f2)
    ensures var t := t2 + [Kept];
      && (Calm(t0, t) ==> f2 == f0 + LeftSince(f2, |t0|))
      && (Legal(t) ==> OwnPending(t0, t, f2))
  {
    var t := t2 + [Kept];
    CallSpan(t0, t1, t2, Kept);
    if Calm(t0, t) { NewPart(t0, f0, t2, f2); }
    LegalPrefix(t2, Kept);
    if Legal(t) { OwnStays(t0, t1, t2, f2); }
  }

  /** What is pending beside the old is new. */
  lemma NewPart(t0: Trace, f0: seq<Reaction>, t: Trace, f: seq<Reaction>)
    requires Conserved(t0, f0) && Conserved(t, f) && f0 <= f && forall r :: r in f ==> r in f0 || r.at >= |t0|
    ensures f == f0 + LeftSince(f, |t0|)
  {
    ConservedOnce(t0, f0);
    ConservedOnce(t, f);
    var g := f[|f0|..];
    assert f == f0 + g;
    forall i | 0 <= i < |g| ensures g[i].at >= |t0| {
      assert f[|f0| + i] == g[i] && g[i] in f;
      assert forall j :: 0 <= j < |f0| ==> f[j] == f0[j];
    }
    forall i | 0 <= i < |f0| ensures f0[i].at < |t0| { assert f0[i] in f0; }
    LeftSinceConcat(f0, g, |t0|);
  }

  lemma OwnStays(t0: Trace, t1: Trace, t2: Trace, f2: seq<Reaction>)
    requires t1 == t0 + [Entered] && KeepsBelow(t1, t2) && InBody(t2) && InStep(t2, f2) && Legal(t2)
    ensures OwnPending(t0, t2 + [Kept], f2)
  {
    var t := t2 + [Kept];
    if Legal(t0) {
      StaysHigh(t0, t1, t2);
      forall k | |t0| < k < |t| && IsOwn(t0, t, k) ensures Reaction(k, t[k].e) in f2 {
        assert k < |t2| && t[..k] == t2[..k] && t[k] == t2[k];
        EnqueuedStays(t2, |StackOf(t0)|, k);
      }
    }
  }

  lemma StaysHigh(t0: Trace, t1: Trace, t2: Trace)
    requires t1 == t0 + [Entered] && KeepsBelow(t1, t2) && InBody(t2) && Legal(t2) && Legal(t0)
    ensures |StackOf(t2)| == |StackOf(t0)| + 1 && !StackOf(t2)[|StackOf(t0)|].draining
    ensures forall j :: |t1| <= j <= |t2| && Legal(t2[..j]) ==> |StackOf(t2[..j])| > |StackOf(t0)|
  {
    CallDepth(t0, t1, t2);
    LegalPrefix(t0, Entered);
    forall j | |t1| <= j <= |t2| && Legal(t2[..j]) ensures |StackOf(t2[..j])| > |StackOf(t0)| {
      assert HeightKept(t1, t2, j);
    }
  }

  lemma EnqueuedStays(t: Trace, n: nat, k: nat)
    requires Legal(t) && 0 < n == |StackOf(t)| - 1 && !StackOf(t)[n].draining
    requires k < |t| && t[k].Enqueued? && Legal(t[..k]) && |StackOf(t[..k])| == n + 1
    requires forall j :: k < j <= |t| && Legal(t[..j]) ==> |StackOf(t[..j])| > n
    ensures Reaction(k, t[k].e) in Flat(StackOf(t))
  {
    OwnSliceGrows(t, n, k + 1);
    LastEnqueued(t[..k + 1], t[..k], t[k], n, StackOf(t));
  }

  lemma LastEnqueued(v: Trace, u: Trace, e: Event, n: nat, s: Stack)
    requires v == u + [e] && Legal(v) && Legal(u) && |StackOf(u)| == n + 1 == |s| && e.Enqueued?
    requires n < |StackOf(v)| && StackOf(v)[n].pending <= s[n].pending
    ensures Reaction(|u|, e.e) in Flat(s)
  {
    LegalPrefix(u, e);
    EnqueuedInTop(StackOf(u), e, |u|, s);
  }

  lemma EnqueuedInTop(s: Stack, e: Event, at: nat, s2: Stack)
    requires e.Enqueued? && Allowed(s, e) && |s| == |s2| && s2 != []
    requires Step(s, e, at)[|s| - 1].pending <= Top(s2).pending
    ensures Reaction(at, e.e) in Flat(s2)
  {
    var p := Step(s, e, at)[|s| - 1].pending;
    assert p[|p| - 1] == Reaction(at, e.e) && p[|p| - 1] in p;
    assert Top(s2).pending[|p| - 1] == p[|p| - 1];
    assert Flat(s2) == Flat(Below(s2)) + Top(s2).pending;
  }

  /** What has become of a drained call after its tail. */
  lemma AfterDrain(t0: Trace, f0: seq<Reaction>, t1: Trace, f1: seq<Reaction>, t: Trace, f: seq<Reaction>)
    requires Conserved(t0, f0) && Conserved(t1, f1) && Conserved(t, f) && Sound(t) && t0 <= t1
    requires Drains(t0, f0, t1, f1) && Behaved(t0, f0, t, f) && Behaved(t1, f1, t, f)
    ensures EndsDrained(t0, f0, t1, t, f)
  {
    CalmSplits(t0, t1, t);
    if Legal(t0) && Calm(t0, t) { CalmIsLegal(t0, t); }
    TailLeaves(t0, f0, t1, f1, t, f);
  }

  /** What a call kept stays while the tail runs. */
  lemma KeptAndMore(t0: Trace, f0: seq<Reaction>, t1: Trace, f1: seq<Reaction>, t: Trace, f: seq<Reaction>)
    requires Conserved(t0, f0) && Conserved(t, f) && Behaved(t0, f0, t, f) && Behaved(t1, f1, t, f)
    requires t0 <= t1 && Sound(t1) && (Legal(t1) ==> OwnPending(t0, t1, f1))
    ensures Calm(t0, t) ==> EndsKept(t0, f0, t1, t, f)
  {
    if Calm(t0, t) {
      CalmSplits(t0, t1, t);
      NewPart(t0, f0, t, f);
      assert forall r :: r in f1 ==> r in f;
      if Legal(t0) { CalmIsLegal(t0, t1); }
    }
  }

  lemma CheckpointStep(t: Trace)
    ensures AtMark(t + [Checkpoint], 0)
  {
    LegalPrefix(t, Checkpoint);
    if Legal(t + [Checkpoint]) {
      var s := StackOf(t);
      BelowWithTop(s, Top(s).(draining := true));
      assert Below(s) == [];
    }
  }

  lemma CheckpointInside(t0: Trace, t1: Trace, t: Trace)
    requires t1 == t0 + [Checkpoint] && KeepsBelow(t1, t)
    ensures Inside(t0, t + [Drained])
  {
    var u := t + [Drained];
    LegalPrefix(t0, Checkpoint);
    forall i | |t0| <= i <= |u| && Legal(t0) ensures HeightKept(t0, u, i) {
      if i > |t0| {
        assert u[..i][..|t1|] == t1;
        if Legal(u[..i]) { LegalIsProper(t1, u[..i]); }
      } else {
        assert u[..i] == t0;
      }
    }
  }

  lemma CheckpointEnd(t0: Trace, f0: seq<Reaction>, t1: Trace, t: Trace, f: seq<Reaction>)
    requires t1 == t0 + [Checkpoint] && Grew(t1, f0, t, f) && KeepsBelow(t1, t) && f == [] && InStep(t, f)
    ensures Legal(t) ==> Allowed(StackOf(t), Drained)
    ensures Behaved(t0, f0, t + [Drained], f) && !Calm(t0, t + [Drained])
  {
    var u := t + [Drained];
    assert u[|t0|] == Checkpoint && u[|t0|..][0] == Checkpoint;
    LegalPrefix(t0, Checkpoint);
    LegalPrefix(t, Drained);
    CheckpointInside(t0, t1, t);
    if Legal(t) {
      var s0, s := StackOf(t0), StackOf(t);
      BelowWithTop(s0, Top(s0).(draining := true));
      assert |s| == 1 && Top(s).draining;
      assert Flat(s) == Flat(Below(s)) + Top(s).pending;
      BelowWithTop(s, Top(s).(draining := false));
    }
  }

  /** The pending reactions enqueued at or after a moment. */
  function LeftSince(f: seq<Reaction>, at: nat): (left: seq<Reaction>)
    ensures forall r :: r in left <==> r in f && r.at >= at
  {
    if f == [] then [] else LeftSince(f[..|f| - 1], at) + if f[|f| - 1].at >= at then [f[|f| - 1]] else []
  }

  lemma {:induction false} LeftSinceConcat(f: seq<Reaction>, g: seq<Reaction>, at: nat)
    requires Before(f, at) && forall i :: 0 <= i < |g| ==> g[i].at >= at
    ensures LeftSince(f + g, at) == g
    decreases |g|
  {
    if g == [] {
      NothingLeft(f, at);
      assert f + g == f;
    } else {
      var init, x := g[..|g| - 1], g[|g| - 1];
      LeftSinceConcat(f, init, at);
      LeftSinceSnoc(f + init, x, at);
      InitAndLast(g);
      ConcatAssociates(f, init, [x]);
    }
  }

  lemma LeftSinceSnoc(f: seq<Reaction>, x: Reaction, at: nat)
    ensures LeftSince(f + [x], at) == LeftSince(f, at) + if x.at >= at then [x] else []
  {
    assert (f + [x])[..|f|] == f;
  }

  lemma {:induction false} NothingLeft(f: seq<Reaction>, at: nat)
    requires Before(f, at)
    ensures LeftSince(f, at) == []
  {
    if f != [] { NothingLeft(f[..|f| - 1], at); }
  }

  /** What script run after a drained call makes of the queue the drain left. */
  lemma TailLeaves(t0: Trace, f0: seq<Reaction>, t1: Trace, f1: seq<Reaction>, t: Trace, f: seq<Reaction>)
    requires Conserved(t0, f0) && Conserved(t1, f1) && Conserved(t, f) && Grew(t0, f0, t, f) && Behaved(t1, f1, t, f)
    requires t0 <= t1 && |f1| <= |f0| && (Calm(t0, t1) ==> f1 == f0)
    ensures Calm(t0, t) ==> f == f0 + LeftSince(f, |t1|)
    ensures f == f0 <==> LeftSince(f, |t1|) == [] && (f0 == [] || Calm(t0, t))
  {
    CalmSplits(t0, t1, t);
    ConservedOnce(t0, f0);
    ConservedOnce(t1, f1);
    ConservedOnce(t, f);
    if Calm(t0, t) {
      var g := f[|f0|..];
      assert f == f0 + g;
      forall i | 0 <= i < |g| ensures g[i].at >= |t1| { TailIsNew(f0, g, g[i], t1, f1, t); }
      forall i | 0 <= i < |f0| ensures f0[i].at < |t1| { assert f0[i] in f0; }
      LeftSinceConcat(f0, g, |t1|);
    } else if f0 != [] {
      if f == f0 { OldStays(t0, f0, f); }
    } else {
      assert forall i :: 0 <= i < |f| ==> f[i].at >= |t1|;
      if f != [] { assert f[0] in LeftSince(f, |t1|); }
    }
  }

  /** A reaction that was pending before has a name below the trace's length. */
  lemma OldStays(t0: Trace, f0: seq<Reaction>, f: seq<Reaction>)
    requires Conserved(t0, f0) && f0 != [] && f == f0
    ensures f0[0] in f && f0[0].at < |t0|
  {
    ConservedAt(t0, f0, f0[0]);
    assert f0[0] in multiset(f0);
  }

  lemma TailIsNew(f0: seq<Reaction>, g: seq<Reaction>, r: Reaction, t1: Trace, f1: seq<Reaction>, t: Trace)
    requires NoDup(f0 + g) && r in g && f1 == f0 && Grew(t1, f1, t, f0 + g)
    ensures r.at >= |t1|
  {
    var i :| 0 <= i < |g| && g[i] == r;
    assert (f0 + g)[|f0| + i] == r && r in f0 + g;
    assert forall j :: 0 <= j < |f0| ==> (f0 + g)[j] == f0[j];
  }

  /** A drained call restores the queue exactly when the queue was empty or no checkpoint ran in
      between: a checkpoint drains everything, the enclosing calls' reactions included. */
  lemma ExactlyWhenCalm(t0: Trace, f0: seq<Reaction>, t: Trace, f: seq<Reaction>)
    requires Grew(t0, f0, t, f) && (Calm(t0, t) ==> f == f0) && |f| <= |f0|
    requires Conserved(t0, f0)
    ensures f == f0 <==> f0 == [] || Calm(t0, t)
  {
    if f0 != [] && f == f0 {
      ConservedAt(t0, f0, f0[0]);
      assert f0[0] in multiset(f0) && f0[0] in f;
    }
  }

  // ----- What a drained call has done -----

  lemma {:induction false} RanInConcat(a: Trace, b: Trace)
    ensures RanIn(a + b) == RanIn(a) + RanIn(b)
    decreases |b|
  {
    if b == [] {
      assert a + b == a;
    } else {
      assert (a + b)[..|a + b| - 1] == a + b[..|b| - 1];
      RanInConcat(a, b[..|b| - 1]);
    }
  }

  /** Between two moments with the same pending reactions - the start and the end of a call that
      drained, in a stretch without a checkpoint - what ran is what was enqueued, each once. */
  lemma RanWhatWasEnqueued(t0: Trace, t: Trace, fifo: seq<Reaction>)
    requires t0 <= t && Conserved(t0, fifo) && Conserved(t, fifo)
    ensures var ran := RanIn(t[|t0|..]);
            && NoDup(ran)
            && forall r :: r in ran <==> r.at >= |t0| && WasEnqueued(t, r)
  {
    var ran := RanIn(t[|t0|..]);
    assert t == t0 + t[|t0|..];
    RanInConcat(t0, t[|t0|..]);
    var times := multiset(ran);
    forall r: Reaction ensures times[r] == if r.at >= |t0| && WasEnqueued(t, r) then 1 else 0 {
      ConservedAt(t0, fifo, r);
      ConservedAt(t, fifo, r);
      assert multiset(RanIn(t))[r] == multiset(RanIn(t0))[r] + times[r];
    }
    OnceIsNoDup(ran);
    assert forall r: Reaction :: r in ran <==> times[r] > 0;
  }


  // ----- Against HTML -----

  /** At any moment with nothing pending, whatever scripts and callbacks have done: what has run has run
      in HTML's order exactly if every checkpoint was made with nothing under way and the condition
      on enqueueing was kept. */
  lemma RunsInOrder(d: Document)
    requires d.Valid() && d.fifo == []
    ensures Legal(d.trace) <==> Proper(d.trace)
    ensures HtmlLegal(d.trace) <==> Legal(d.trace) && Guarded(d.trace)
  {
    ProgramOrder(d.trace);
  }
}
