/**
  * `dispatch_inner`, `invoke_listeners_in_every_world` and `invoke_listeners` over one page,
  * with listeners that may do anything a page script can, further dispatches included.
  *
  * A listener is whatever `script` makes of the log so far: after each recorded entry it
  * names the running listener's next action. Every method keeps the log `Legal`.
  */
module Dispatch {
  import opened Common
  import opened Forest
  import opened EventPath
  import opened Retarget
  import opened Listeners
  import opened DispatchLog
  import opened DispatchLaws

  // ----- Growing logs -----

  /** A label that refers only to dispatches, steps and snapshots recorded at `base` or later. */
  ghost predicate FreshLabel(l: Label, base: nat) {
    match l
    case Stepped(site) => site.d >= base && site.step >= base
    case Snapped(site, _, _, _) => site.d >= base && site.step >= base
    case Ran(site, _, snap, _, _) => site.d >= base && site.step >= base && snap >= base
    case Returned(site, _) => site.d >= base && site.step >= base
    case RanHandler(site, _, snap) => site.d >= base && site.step >= base && snap >= base
    case HandlerReturned(site, _, snap, _) => site.d >= base && site.step >= base && snap >= base
    case Done(site, _, snap) => site.d >= base && site.step >= base && snap >= base
    case StepDone(site) => site.d >= base && site.step >= base
    case Ended(d) => d >= base
    case _ => true
  }

  /** A label of world `w`'s work at `site`. */
  ghost predicate AtSite(l: Label, site: Site, w: World) {
    match l
    case Snapped(s, v, _, _) => s == site && v == w
    case Ran(s, v, snap, _, _) => s == site && v == w && s.step < snap
    case Returned(s, _) => s == site
    case RanHandler(s, v, snap) => s == site && v == w && s.step < snap
    case HandlerReturned(s, v, snap, _) => s == site && v == w && s.step < snap
    case Done(s, v, snap) => s == site && v == w && s.step < snap
    case _ => false
  }

  ghost predicate Since(a: Log, b: Log) {
    a <= b && forall k :: |a| <= k < |b| ==> FreshLabel(b[k].what, |a|)
  }

  ghost predicate SinceAt(a: Log, b: Log, site: Site, w: World) {
    a <= b && forall k :: |a| <= k < |b| ==> FreshLabel(b[k].what, |a|) || AtSite(b[k].what, site, w)
  }

  /** A label of any world's work at `site`, or its completion. */
  ghost predicate OnStep(l: Label, site: Site) {
    match l
    case Snapped(s, _, _, _) => s == site
    case Ran(s, _, snap, _, _) => s == site && s.step < snap
    case Returned(s, _) => s == site
    case RanHandler(s, _, snap) => s == site && s.step < snap
    case HandlerReturned(s, _, snap, _) => s == site && s.step < snap
    case Done(s, _, snap) => s == site && s.step < snap
    case StepDone(s) => s == site
    case _ => false
  }

  ghost predicate SinceStep(a: Log, b: Log, site: Site) {
    a <= b && forall k :: |a| <= k < |b| ==> FreshLabel(b[k].what, |a|) || OnStep(b[k].what, site)
  }

  /** Events under dispatch are held, all events stay. */
  ghost predicate Keeps(a: State, b: State) {
    forall e :: e in a.events ==> e in b.events && (a.events[e].dispatching ==> Held(a.events[e], b.events[e]))
  }

  /** As `Keeps`, but `x` may move on. */
  ghost predicate KeepsBut(a: State, b: State, x: EventId) {
    forall e :: e in a.events ==> e in b.events && (a.events[e].dispatching ==>
      if e == x then Frozen(a.events[e], b.events[e]) && b.events[e].passive == a.events[e].passive
      else Held(a.events[e], b.events[e]))
  }

  lemma {:induction false} StepsUnchanged(a: Log, b: Log, d: nat)
    requires a <= b
    requires forall k :: |a| <= k < |b| ==> !(b[k].what.Stepped? && b[k].what.site.d == d)
    ensures StepsOf(b, d) == StepsOf(a, d)
    decreases |b|
  {
    if |b| > |a| {
      StepsUnchanged(a, b[..|b| - 1], d);
    } else {
      assert a == b;
    }
  }

  lemma LegalAppend(worlds: seq<World>, log: Log, entry: Entry)
    requires Legal(worlds, log) && NextOk(worlds, log, entry)
    ensures Legal(worlds, log + [entry])
  {
    var longer := log + [entry];
    forall k | 0 < k < |longer| ensures LegalAt(worlds, longer, k) {
      if k < |log| {
        assert LegalAt(worlds, log, k) && longer[..k] == log[..k];
      } else {
        assert longer[..k] == log;
      }
    }
  }

  lemma LegalQuiet(worlds: seq<World>, log: Log)
    requires Legal(worlds, log)
    ensures Quiet(log[|log| - 1].st)
  {
    if |log| > 1 { assert LegalAt(worlds, log, |log| - 1); }
  }

  // ----- What page code does to the state -----

  lemma SameRegistries(p: State, s: State)
    requires s.regs == p.regs
    ensures forall w :: Evolves(p.Reg(w), s.Reg(w))
  {
  }

  lemma OneRegistry(p: State, s: State, w: World, r: Registry)
    requires s.regs == p.regs[w := r] && Evolves(p.Reg(w), r)
    ensures forall v :: Evolves(p.Reg(v), s.Reg(v))
  {
    forall v ensures Evolves(p.Reg(v), s.Reg(v)) {
      if v == w { assert s.Reg(v) == r; } else { assert s.Reg(v) == p.Reg(v); }
    }
  }

  /** A step that leaves every event alone. */
  lemma EventsAlone(p: State, s: State)
    requires Quiet(p) && s.events == p.events && forall w :: Evolves(p.Reg(w), s.Reg(w))
    ensures Changes(p, s, None) && ActedOk(p, s)
  {
  }

  /** A step that sets one event, which is idle before and after or held. */
  lemma OneEvent(p: State, e: EventId, ev: Event)
    requires Quiet(p)
    requires if e in p.events && p.events[e].dispatching
             then Held(p.events[e], ev) && (ev.canceled && !p.events[e].canceled ==> ev.cancelable && !ev.passive)
             else !ev.dispatching && ev.currentTarget == None && ev.phase == NoPhase && ev.path == []
    ensures Changes(p, p.Set(e, ev), None) && ActedOk(p, p.Set(e, ev))
  {
    SameRegistries(p, p.Set(e, ev));
  }

  lemma RegistryActionOk(p: State, a: Action)
    requires Quiet(p)
    requires a.AddListener? || a.RemoveListener? || a.AbortSignal? || a.FinalizeTarget?
    ensures Changes(p, Perform(p, a), None) && ActedOk(p, Perform(p, a))
  {
    var s, r := Perform(p, a), p.Reg(a.w);
    var after := s.Reg(a.w);
    match a {
      case AddListener(_, t, l) => InsertEvolves(r, t, l);
      case RemoveListener(_, t, id) => RemoveByIdEvolves(r, t, id);
      case AbortSignal(_, signal) => RemoveBySignalEvolves(r, signal);
      case FinalizeTarget(_, t) => RemoveTargetEvolves(r, t);
    }
    OneRegistry(p, s, a.w, after);
    EventsAlone(p, s);
  }

  lemma EventActionOk(p: State, a: Action)
    requires Quiet(p)
    requires a.CreateEvent? || a.InitEvent? || a.StopPropagation? || a.StopImmediatePropagation? || a.PreventDefault?
    ensures Changes(p, Perform(p, a), None) && ActedOk(p, Perform(p, a))
  {
    var s := Perform(p, a);
    if s == p {
      SameRegistries(p, p);
      EventsAlone(p, p);
    } else {
      assert s == p.Set(a.e, s.events[a.e]);
      OneEvent(p, a.e, s.events[a.e]);
    }
  }

  lemma PerformOk(p: State, a: Action)
    requires Quiet(p)
    ensures Changes(p, Perform(p, a), None) && ActedOk(p, Perform(p, a))
  {
    if a.AddListener? || a.RemoveListener? || a.AbortSignal? || a.FinalizeTarget? {
      RegistryActionOk(p, a);
    } else if a.CreateEvent? || a.InitEvent? || a.StopPropagation? || a.StopImmediatePropagation? || a.PreventDefault? {
      EventActionOk(p, a);
    } else {
      SameRegistries(p, Perform(p, a));
      EventsAlone(p, Perform(p, a));
    }
  }

  lemma CancelOk(p: State, e: EventId)
    requires Quiet(p)
    ensures Changes(p, p, None) && ActedOk(p, p)
    ensures Changes(p, Cancelled(p, e), None) && ActedOk(p, Cancelled(p, e))
  {
    SameRegistries(p, p);
    EventsAlone(p, p);
    EventActionOk(p, PreventDefault(e));
    assert Perform(p, PreventDefault(e)) == Cancelled(p, e);
  }

  // ----- The loops' bookkeeping -----

  /** A listener loop has settled the first `i` listeners of snapshot `snap`. */
  ghost predicate AtListener(log: Log, site: Site, w: World, snap: nat, i: nat) {
    && Recorded(log, site) && Snap(log, snap, site, w) && i <= |log[snap].what.ls|
    && site.step < snap && site.d < site.step
    && AllAccounted(log, snap, i)
    && forall k :: snap < k < |log| ==>
         && (log[k].what.Ran? && log[k].what.snap == snap ==> log[k].what.i < i)
         && (log[k].what.RanHandler? ==> log[k].what.snap != snap)
  }

  lemma AccountedGrows(a: Log, b: Log, snap: nat, n: nat)
    requires a <= b && snap < |a| && a[snap].what.Snapped? && n <= |a[snap].what.ls|
    requires AllAccounted(a, snap, n)
    ensures AllAccounted(b, snap, n)
  {
    forall i | 0 <= i < n ensures Accounted(b, snap, i) {
      assert Accounted(a, snap, i);
      if Matches(a[snap].what.site.phase, a[snap].what.ls[i]) {
        var k :| snap <= k < |a| && Settles(a, k, snap, i);
        assert Settles(b, k, snap, i);
      }
    }
  }

  lemma RecordedGrows(a: Log, b: Log, site: Site)
    requires Recorded(a, site) && Since(a, b)
    ensures Recorded(b, site)
  {
  }

  lemma AtListenerGrows(a: Log, b: Log, site: Site, w: World, snap: nat, i: nat)
    requires AtListener(a, site, w, snap, i) && Since(a, b)
    ensures AtListener(b, site, w, snap, i)
  {
    AccountedGrows(a, b, snap, i);
    RecordedGrows(a, b, site);
  }

  lemma SinceTransitive(a: Log, b: Log, c: Log)
    requires Since(a, b) && Since(b, c)
    ensures Since(a, c)
  {
    forall k | |a| <= k < |c| ensures FreshLabel(c[k].what, |a|) {
      if k < |b| { assert c[k] == b[k]; }
    }
  }

  lemma SinceAtTransitive(a: Log, b: Log, c: Log, site: Site, w: World)
    requires SinceAt(a, b, site, w) && SinceAt(b, c, site, w)
    ensures SinceAt(a, c, site, w)
  {
    forall k | |a| <= k < |c| ensures FreshLabel(c[k].what, |a|) || AtSite(c[k].what, site, w) {
      if k < |b| { assert c[k] == b[k]; }
    }
  }

  /** The state change of calling a listener. */
  function WhenCalled(p: State, site: Site, w: World, l: Listener): State
    requires site.e in p.events
  {
    p.(regs := if l.once then p.regs[w := p.Reg(w).RemoveById(site.key, l.id)] else p.regs,
       events := p.events[site.e := p.events[site.e].(
         currentTarget := Some(site.key), phase := site.phase, passive := l.passive)])
  }

  lemma CalledChanges(p: State, site: Site, w: World, l: Listener)
    requires Quiet(p) && site.e in p.events && p.events[site.e].dispatching
    ensures Changes(p, WhenCalled(p, site, w, l), None)
  {
    var s := WhenCalled(p, site, w, l);
    CalledRegistries(p, site, w, l);
    assert Frozen(p.events[site.e], s.events[site.e]);
  }

  lemma CalledRegistries(p: State, site: Site, w: World, l: Listener)
    requires site.e in p.events
    ensures forall v :: Evolves(p.Reg(v), WhenCalled(p, site, w, l).Reg(v))
  {
    var s := WhenCalled(p, site, w, l);
    if l.once {
      RemoveByIdEvolves(p.Reg(w), site.key, l.id);
      OneRegistry(p, s, w, p.Reg(w).RemoveById(site.key, l.id));
    } else {
      SameRegistries(p, s);
    }
  }

  lemma PassiveChanges(p: State, e: EventId, passive: bool)
    requires Quiet(p) && e in p.events && p.events[e].dispatching
    ensures Changes(p, p.Set(e, p.events[e].(passive := passive)), None)
  {
    SameRegistries(p, p.Set(e, p.events[e].(passive := passive)));
  }

  lemma NothingChanges(p: State)
    requires Quiet(p)
    ensures Changes(p, p, None)
  {
    SameRegistries(p, p);
  }

  lemma KeepsTransitive(a: State, b: State, c: State)
    requires Keeps(a, b) && Keeps(b, c)
    ensures Keeps(a, c)
  {
  }

  lemma KeepsButTransitive(a: State, b: State, c: State, x: EventId)
    requires KeepsBut(a, b, x) && KeepsBut(b, c, x)
    ensures KeepsBut(a, c, x)
  {
  }

  lemma AtListenerRan(a: Log, b: Log, site: Site, w: World, snap: nat, i: nat)
    requires AtListener(a, site, w, snap, i) && i < |a[snap].what.ls|
    requires |b| == |a| + 1 && a <= b && b[|a|].what == Ran(site, w, snap, i, a[snap].what.ls[i])
    ensures AtListener(b, site, w, snap, i + 1)
  {
    AccountedGrows(a, b, snap, i);
    assert Settles(b, |a|, snap, i);
    assert Accounted(b, snap, i);
  }

  lemma AtListenerReturned(a: Log, b: Log, site: Site, w: World, snap: nat, i: nat)
    requires AtListener(a, site, w, snap, i)
    requires |b| == |a| + 1 && a <= b && b[|a|].what.Returned?
    ensures AtListener(b, site, w, snap, i)
  {
    AccountedGrows(a, b, snap, i);
  }

  lemma ListenerDone(a: Log, b: Log, d: Log, site: Site, w: World, snap: nat, i: nat)
    requires a <= b && |b| == |a| + 1 && AtSite(b[|a|].what, site, w)
    requires AtListener(b, site, w, snap, i + 1) && |d| > |b| && Since(b, d[..|d| - 1])
    requires d[|d| - 1].what == Returned(site, |a|)
    ensures AtListener(d, site, w, snap, i + 1) && SinceAt(a, d, site, w)
  {
    var c := d[..|d| - 1];
    AtListenerGrows(b, c, site, w, snap, i + 1);
    AtListenerReturned(c, d, site, w, snap, i + 1);
    ListenerCall(a, b, c, d, site, w);
  }

  lemma OthersAdvance(a: Log, b: Log, d: nat)
    requires Since(a, b) && d < |a|
    ensures forall k :: |a| <= k < |b| ==> Advances(b[k].what) != Some(d)
  {
    forall k | |a| <= k < |b| ensures Advances(b[k].what) != Some(d) {
      assert FreshLabel(b[k].what, |a|);
    }
  }

  lemma DoneIsSince(a: Log, b: Log, c: Log, site: Site, w: World, snap: nat)
    requires SinceAt(a, b, site, w) && b <= c && |c| == |b| + 1
    requires c[|b|].what == Done(site, w, snap) && site.step < snap
    ensures SinceAt(a, c, site, w)
  {
    forall k | |a| <= k < |c| ensures FreshLabel(c[k].what, |a|) || AtSite(c[k].what, site, w) {
      if k < |b| { assert c[k] == b[k]; }
    }
  }

  lemma AtListenerPassed(log: Log, site: Site, w: World, snap: nat, i: nat)
    requires AtListener(log, site, w, snap, i) && i < |log[snap].what.ls| && Accounted(log, snap, i)
    ensures AtListener(log, site, w, snap, i + 1)
  {
  }

  lemma ListenerCallKeeps(a: State, b: State, c: State, d: State, site: Site, w: World, l: Listener)
    requires site.e in a.events && a.events[site.e].dispatching
    requires b == WhenCalled(a, site, w, l) && Keeps(b, c)
    requires d == c.Set(site.e, c.events[site.e].(passive := a.events[site.e].passive))
    ensures KeepsBut(a, d, site.e)
  {
  }

  /** The worlds already visited at this step come before `w`. */
  ghost predicate VisitedBefore(worlds: seq<World>, log: Log, site: Site, w: World)
    requires site.d < |log| && log[site.d].what.Began?
  {
    forall k :: site.step < k < |log| && log[k].what.Snapped? && log[k].what.site == site ==>
      Precedes(Worlds(worlds, log[site.d].what), log[k].what.w, w)
  }

  lemma AtListenerStart(a: Log, b: Log, site: Site, w: World)
    requires Recorded(a, site) && site.d < site.step && a <= b && |b| == |a| + 1
    requires b[|a|].what.Snapped? && b[|a|].what.site == site && b[|a|].what.w == w
    ensures AtListener(b, site, w, |a|, 0)
  {
  }

  /** The loop over worlds has settled the first `i`. */
  ghost predicate AtWorld(worlds: seq<World>, log: Log, site: Site, i: nat, eventType: string) {
    && Recorded(log, site) && site.d < site.step
    && var ws := Worlds(worlds, log[site.d].what);
    && i <= |ws|
    && (forall j :: 0 <= j < i ==> Served(log, site, ws[j], eventType))
    && (forall k :: site.step < k < |log| && log[k].what.Snapped? && log[k].what.site == site ==>
          log[k].what.w in ws[..i])
  }

  lemma AtWorldVisited(worlds: seq<World>, log: Log, site: Site, i: nat, eventType: string)
    requires AtWorld(worlds, log, site, i, eventType) && i < |Worlds(worlds, log[site.d].what)|
    ensures VisitedBefore(worlds, log, site, Worlds(worlds, log[site.d].what)[i])
  {
    var ws := Worlds(worlds, log[site.d].what);
    forall k | site.step < k < |log| && log[k].what.Snapped? && log[k].what.site == site
      ensures Precedes(ws, log[k].what.w, ws[i])
    {
      assert log[k].what.w in ws[..i];
      var j :| 0 <= j < i && ws[j] == log[k].what.w;
    }
  }

  lemma ServedGrows(a: Log, b: Log, site: Site, w: World, eventType: string)
    requires a <= b && site.d < |a| && a[site.d].what.Began? && Served(a, site, w, eventType)
    ensures Served(b, site, w, eventType)
  {
    var k :| site.step <= k < |a| && WorldServed(a, k, site, w, eventType);
    assert WorldServed(b, k, site, w, eventType);
  }

  lemma AtWorldGrows(worlds: seq<World>, a: Log, b: Log, site: Site, i: nat, eventType: string)
    requires AtWorld(worlds, a, site, i, eventType) && i < |Worlds(worlds, a[site.d].what)|
    requires var w := Worlds(worlds, a[site.d].what)[i];
      SinceAt(a, b, site, w) && Recorded(b, site) && Served(b, site, w, eventType)
    ensures AtWorld(worlds, b, site, i + 1, eventType)
  {
    var ws := Worlds(worlds, a[site.d].what);
    assert a[site.d] == b[site.d];
    forall j | 0 <= j < i + 1 ensures Served(b, site, ws[j], eventType) {
      if j < i { ServedGrows(a, b, site, ws[j], eventType); }
    }
    forall k | site.step < k < |b| && b[k].what.Snapped? && b[k].what.site == site
      ensures b[k].what.w in ws[..i + 1]
    {
      if k < |a| {
        assert a[k] == b[k] && a[k].what.w in ws[..i];
      } else {
        assert b[k].what.w == ws[i] && ws[i] == ws[..i + 1][i];
      }
    }
  }

  lemma SinceAtIsSinceStep(a: Log, b: Log, c: Log, site: Site, w: World)
    requires SinceStep(a, b, site) && SinceAt(b, c, site, w)
    ensures SinceStep(a, c, site)
  {
    forall k | |a| <= k < |c| ensures FreshLabel(c[k].what, |a|) || OnStep(c[k].what, site) {
      if k < |b| { assert c[k] == b[k]; }
    }
  }

  /** Dispatch `d` has taken the first `n` steps of its plan, each of them finished. */
  ghost predicate Running(log: Log, s: State, d: nat, e: EventId, n: nat) {
    && Open(log, d, e) && e in s.events && s.events[e].dispatching
    && s.events[e].bubbles == log[d].st.events[e].bubbles
    && n <= |PlanOf(log, d)| && StepsOf(log, d) == PlanOf(log, d)[..n]
    && forall k :: 0 <= k < |log| && log[k].what.Stepped? && log[k].what.site.d == d ==> Finished(log, log[k].what.site)
  }

  /** A label of dispatch `d` itself, about a step taken at `base` or later. */
  ghost predicate OfDispatch(l: Label, d: nat, base: nat) {
    (l.Stepped? && l.site.d == d && l.site.step >= base)
    || exists site: Site :: OnStep(l, site) && site.d == d && site.step >= base
  }

  ghost predicate SinceOwn(a: Log, b: Log, d: nat) {
    a <= b && forall k :: |a| <= k < |b| ==> FreshLabel(b[k].what, |a|) || OfDispatch(b[k].what, d, |a|)
  }

  lemma StepIsOwn(a: Log, b: Log, c: Log, site: Site)
    requires a <= b && |b| == |a| + 1 && b[|a|].what == Stepped(site) && site.step == |a|
    requires SinceStep(b, c, site)
    ensures SinceOwn(a, c, site.d)
  {
    forall k | |a| <= k < |c| ensures FreshLabel(c[k].what, |a|) || OfDispatch(c[k].what, site.d, |a|) {
      if k < |b| { assert c[k] == b[k]; }
    }
  }

  lemma SinceOwnTransitive(a: Log, b: Log, c: Log, d: nat)
    requires SinceOwn(a, b, d) && SinceOwn(b, c, d)
    ensures SinceOwn(a, c, d)
  {
    forall k | |a| <= k < |c| ensures FreshLabel(c[k].what, |a|) || OfDispatch(c[k].what, d, |a|) {
      if k < |b| {
        assert c[k] == b[k];
      } else if OfDispatch(c[k].what, d, |b|) && !c[k].what.Stepped? {
        var site: Site :| OnStep(c[k].what, site) && site.d == d && site.step >= |b|;
        assert OnStep(c[k].what, site) && site.d == d && site.step >= |a|;
      }
    }
  }

  lemma OwnIsFresh(l: Label, d: nat, base: nat)
    requires OfDispatch(l, d, base)
    ensures d >= base ==> FreshLabel(l, base)
  {
  }

  /** All of a dispatch's entries are fresh to whoever started it. */
  lemma DispatchIsSince(a: Log, b: Log, c: Log, d: Log)
    requires a <= b && |b| == |a| + 1 && b[|a|].what.Began?
    requires SinceOwn(b, c, |a|)
    requires c <= d && |d| == |c| + 1 && d[|c|].what == Ended(|a|)
    ensures Since(a, d)
  {
    forall k | |a| <= k < |d| ensures FreshLabel(d[k].what, |a|) {
      if k < |b| {
        assert d[k] == b[k];
      } else if k < |c| {
        assert d[k] == c[k];
        if OfDispatch(c[k].what, |a|, |b|) {
          assert OfDispatch(c[k].what, |a|, |a|);
          OwnIsFresh(c[k].what, |a|, |a|);
        }
      }
    }
  }

  lemma PlanPrefix(log: Log, d: nat, n: nat)
    requires d < |log| && log[d].what.Began? && log[d].what.e in log[d].st.events && log[d].what.path != []
    requires n < |PlanOf(log, d)| && StepsOf(log, d) == PlanOf(log, d)[..n]
    ensures StepsOf(log, d) + [PlanOf(log, d)[n]] <= PlanOf(log, d)
  {
  }

  lemma PlanAt(path: seq<Target>, bubbles: bool, i: nat)
    requires path != [] && i < |Plan(path, bubbles)|
    ensures var n := |path|;
            Plan(path, bubbles)[i] == if i < n - 1 then (path[n - 1 - i], Capturing)
                                      else if i == n - 1 then (path[0], AtTarget)
                                      else (path[i - n + 1], Bubbling)
  {
  }

  /** After the step's own entry and all its work, one more planned step is taken and finished. */
  lemma RunningStep(a: Log, b: Log, c: Log, s: State, t: State, site: Site, n: nat)
    requires Running(a, s, site.d, site.e, n) && n < |PlanOf(a, site.d)|
    requires PlanOf(a, site.d)[n] == (site.key, site.phase)
    requires b == a + [Entry(Stepped(site), s)] && site.step == |a|
    requires SinceStep(b, c, site) && c[|c| - 1].what == StepDone(site) && |c| > |b|
    requires KeepsBut(s, t, site.e)
    ensures Running(c, t, site.d, site.e, n + 1)
  {
    assert c[site.d] == b[site.d] == a[site.d];
    assert b[..|b| - 1] == a;
    assert StepsOf(b, site.d) == StepsOf(a, site.d) + [(site.key, site.phase)];
    StepsUnchanged(b, c, site.d);
    assert PlanOf(a, site.d)[..n + 1] == PlanOf(a, site.d)[..n] + [(site.key, site.phase)];
    OneMoreFinished(a, b, c, s, site, n);
    assert Open(c, site.d, site.e);
  }

  lemma OneMoreFinished(a: Log, b: Log, c: Log, s: State, site: Site, n: nat)
    requires Running(a, s, site.d, site.e, n) && b == a + [Entry(Stepped(site), s)] && site.step == |a|
    requires SinceStep(b, c, site) && c[|c| - 1].what == StepDone(site) && |c| > |b|
    ensures forall k :: 0 <= k < |c| && c[k].what.Stepped? && c[k].what.site.d == site.d ==>
              Finished(c, c[k].what.site)
  {
    forall k | 0 <= k < |c| && c[k].what.Stepped? && c[k].what.site.d == site.d
      ensures Finished(c, c[k].what.site)
    {
      if k < |a| {
        assert c[k] == a[k] && Finished(a, a[k].what.site);
        StaysFinished(a, c, a[k].what.site);
      } else if k == |a| {
        assert c[k] == b[k];
      }
    }
  }

  lemma StaysFinished(a: Log, c: Log, site: Site)
    requires a <= c && Finished(a, site)
    ensures Finished(c, site)
  {
    var j :| site.step < j < |a| && a[j].what == StepDone(site);
    assert c[j] == a[j];
  }

  /** Steps name earlier dispatches only, so a dispatch about to begin has none. */
  lemma {:induction false} NoStepsYet(worlds: seq<World>, log: Log, n: nat)
    requires Legal(worlds, log) && n <= |log|
    ensures StepsOf(log[..n], |log|) == []
    ensures forall k :: 0 <= k < n && log[k].what.Stepped? ==> log[k].what.site.d < |log|
  {
    if n > 0 {
      NoStepsYet(worlds, log, n - 1);
      assert log[..n][..n - 1] == log[..n - 1];
      if n > 1 { assert LegalAt(worlds, log, n - 1); }
    }
  }

  lemma BeganRuns(worlds: seq<World>, a: Log, b: Log, e: EventId)
    requires Legal(worlds, a) && a <= b && |b| == |a| + 1
    requires b[|a|].what.Began? && b[|a|].what.e == e && b[|a|].what.path != []
    requires e in b[|a|].st.events && b[|a|].st.events[e].dispatching
    ensures Running(b, b[|a|].st, |a|, e, 0)
  {
    NoStepsYet(worlds, a, |a|);
    assert a[..|a|] == a && b[..|a|] == a;
    forall k | 0 <= k < |b| && b[k].what.Stepped? ensures b[k].what.site.d != |a| {
      if k < |a| { assert b[k] == a[k]; }
    }
  }

  /** The event as a dispatch leaves it. */
  function Finish(ev: Event, clear: bool): Event {
    ev.(dispatching := false, phase := NoPhase, currentTarget := None, stop := false, stopNow := false, path := [],
        target := if clear then None else ev.target, related := if clear then None else ev.related)
  }

  /** What script can see of a dispatch that is over: nothing, and no node out of a shadow tree. */
  predicate AtRest(ev: Event, clear: bool) {
    && !ev.dispatching && ev.phase == NoPhase && ev.currentTarget == None && ev.path == [] && !ev.stop && !ev.stopNow
    && (clear ==> ev.target == None && ev.related == None)
  }

  lemma FinishChanges(p: State, e: EventId, clear: bool)
    requires Quiet(p) && e in p.events
    ensures Changes(p, p.Set(e, Finish(p.events[e], clear)), Some(e))
  {
    SameRegistries(p, p.Set(e, Finish(p.events[e], clear)));
  }

  lemma BeginChanges(p: State, e: EventId, target: Target, path: seq<Target>, related: Option<Node>)
    requires Quiet(p) && e in p.events && !p.events[e].dispatching
    ensures Changes(p, p.Set(e, p.events[e].(dispatching := true, target := Some(target), path := path,
            related := related)), None)
  {
    SameRegistries(p, p.Set(e, p.events[e].(dispatching := true, target := Some(target), path := path,
        related := related)));
  }

  /** An idle event's own dispatch disturbs no other. */
  lemma DispatchKeeps(a: State, b: State, c: State, d: State, e: EventId)
    requires e in a.events && !a.events[e].dispatching
    requires e in b.events && b == a.Set(e, b.events[e]) && KeepsBut(b, c, e)
    requires e in c.events && e in d.events && d == c.Set(e, d.events[e])
    ensures Keeps(a, d)
  {
  }

  lemma HandlerIsDone(a: Log, b: Log, site: Site, w: World, snap: nat, value: bool)
    requires Recorded(a, site) && Snap(a, snap, site, w) && HandlerRan(a, site, w, snap)
    requires a <= b && |b| == |a| + 1 && b[|a|].what == HandlerReturned(site, w, snap, value)
    ensures Recorded(b, site) && HandlerRan(b, site, w, snap) && HandlerDone(b, site, w, snap)
  {
    var k :| snap < k < |a| && a[k].what == RanHandler(site, w, snap);
    assert b[k].what == RanHandler(site, w, snap);
  }

  /** A call's entries: the call itself, the callback's, the return. */
  lemma ListenerCall(a: Log, b: Log, c: Log, d: Log, site: Site, w: World)
    requires a <= b && |b| == |a| + 1 && AtSite(b[|a|].what, site, w)
    requires Since(b, c)
    requires c <= d && |d| == |c| + 1 && AtSite(d[|c|].what, site, w)
    ensures SinceAt(a, d, site, w)
  {
    forall k | |a| <= k < |d| ensures FreshLabel(d[k].what, |a|) || AtSite(d[k].what, site, w) {
      if k < |b| { assert d[k] == b[k]; } else if k < |c| { assert d[k] == c[k]; }
    }
  }

  // ----- What the scripts say -----

  /** Whether a label is one that `script` asks for when `before` has happened: page code's actions, the
      dispatches it starts, and what its handlers answer. */
  ghost predicate ByScript(script: Log -> Action, before: Log, l: Label) {
    match l
    case Acted(a) => script(before) == a
    case Began(e, target, _, origin, everyWorld, _) =>
      (before != [] && before[|before| - 1].what.Outside?) || script(before) == Dispatch(origin, target, e, everyWorld)
    case HandlerReturned(_, _, _, value) => value == Answer(script(before))
    case _ => true
  }

  ghost predicate AllByScript(script: Log -> Action, log: Log) {
    log == [] || (AllByScript(script, log[..|log| - 1]) && ByScript(script, log[..|log| - 1], log[|log| - 1].what))
  }

  /** Whatever is in a page's log that scripts decide on is what they asked for at that moment. */
  lemma {:induction false} ScriptsDecide(script: Log -> Action, log: Log, k: nat)
    requires AllByScript(script, log) && k < |log|
    ensures match log[k].what
      case Acted(a) => script(log[..k]) == a
      case Began(e, target, _, origin, everyWorld, _) =>
        (k > 0 && log[k - 1].what.Outside?) || script(log[..k]) == Dispatch(origin, target, e, everyWorld)
      case HandlerReturned(_, _, _, value) => value <==> (script(log[..k]).Return? ==> script(log[..k]).value)
      case _ => true
    decreases |log|
  {
    if k < |log| - 1 {
      ScriptsDecide(script, log[..|log| - 1], k);
      assert log[..|log| - 1][..k] == log[..k];
    }
  }

  lemma ByScriptAppend(script: Log -> Action, log: Log, entry: Entry)
    requires AllByScript(script, log) && ByScript(script, log, entry.what)
    ensures AllByScript(script, log + [entry])
  {
    assert (log + [entry])[..|log|] == log;
  }

  /** One page: its state, the log of what has happened, and the scripts that run in it. */
  class Page {
    const worlds: seq<World>
    const script: Log -> Action
    var state: State
    var log: Log

    ghost predicate Valid()
      reads this
    {
      Legal(worlds, log) && log[|log| - 1].st == state && AllByScript(script, log)
    }

    constructor (worlds: seq<World>, script: Log -> Action, state: State)
      requires StartOk(state)
      ensures Valid() && log == [Entry(Started, state)] && this.worlds == worlds && this.script == script
    {
      this.worlds, this.script, this.state := worlds, script, state;
      this.log := [Entry(Started, state)];
    }

    method Record(what: Label, s: State)
      requires Valid() && NextOk(worlds, log, Entry(what, s)) && ByScript(script, log, what)
      modifies this
      ensures Valid() && log == old(log) + [Entry(what, s)] && state == s
    {
      LegalAppend(worlds, log, Entry(what, s));
      ByScriptAppend(script, log, Entry(what, s));
      log := log + [Entry(what, s)];
      state := s;
    }

    /** The running callback acts as the script says until it returns, or until `fuel` actions have
        been taken. */
    method RunCallback(fuel: nat) returns (value: bool)
      requires Valid()
      modifies this
      ensures Valid() && Since(old(log), log) && Keeps(old(state), state)
      ensures value <==> (script(log).Return? ==> script(log).value)
      ensures script(log).Return? || |log| >= |old(log)| + fuel
      decreases fuel, 0
    {
      var left := fuel;
      while left > 0 && !script(log).Return?
        invariant left <= fuel && |log| + left >= |old(log)| + fuel
        invariant Valid() && Since(old(log), log) && Keeps(old(state), state)
      {
        left := left - 1;
        ghost var log0, state0 := log, state;
        var action := script(log);
        if action.Dispatch? && Dispatchable(state, action.e) {
          var _ := RunDispatch(left, action.w, action.t, action.e, action.everyWorld);
        } else {
          Act(action);
        }
        SinceTransitive(old(log), log0, log);
        KeepsTransitive(old(state), state0, state);
      }
      value := Answer(script(log));
    }

    method Act(a: Action)
      requires Valid() && script(log) == a && !a.Return? && (a.Dispatch? ==> !Dispatchable(state, a.e))
      modifies this
      ensures Valid() && Since(old(log), log) && Keeps(old(state), state)
      ensures log == old(log) + [Entry(Acted(a), state)]
    {
      LegalQuiet(worlds, log);
      PerformOk(state, a);
      Record(Acted(a), Perform(state, a));
    }

    /** The bookkeeping before a call: a `once` listener is dropped, the event told where it is. */
    method EnterListener(site: Site, w: World, snap: nat, i: nat)
      requires Valid() && AtListener(log, site, w, snap, i) && i < |log[snap].what.ls|
      requires site.e in state.events && state.events[site.e].dispatching && !state.events[site.e].stopNow
      requires var l := log[snap].what.ls[i]; Matches(site.phase, l) && state.Reg(w).Contains(site.key, l.id)
      modifies this
      ensures Valid() && AtListener(log, site, w, snap, i + 1)
      ensures state == WhenCalled(old(state), site, w, old(log)[snap].what.ls[i])
      ensures log == old(log) + [Entry(Ran(site, w, snap, i, old(log)[snap].what.ls[i]), state)]
    {
      var l := log[snap].what.ls[i];
      LegalQuiet(worlds, log);
      CalledChanges(state, site, w, l);
      Record(Ran(site, w, snap, i, l), WhenCalled(state, site, w, l));
      AtListenerRan(old(log), log, site, w, snap, i);
    }

    /** After the call the passive flag is put back. */
    method LeaveListener(site: Site, ran: nat, passive: bool)
      requires Valid() && 0 < ran < |log| && log[ran].what.Ran? && log[ran].what.site == site &&
               Open(log, site.d, site.e)
      requires site.e in state.events && state.events[site.e].dispatching
      requires site.e in log[ran - 1].st.events && log[ran - 1].st.events[site.e].passive == passive
      requires forall k :: ran < k < |log| ==> Advances(log[k].what) != Some(site.d)
      modifies this
      ensures Valid() && log == old(log) + [Entry(Returned(site, ran), state)]
      ensures state == old(state).Set(site.e, old(state).events[site.e].(passive := passive))
    {
      LegalQuiet(worlds, log);
      PassiveChanges(state, site.e, passive);
      Record(Returned(site, ran), state.Set(site.e, state.events[site.e].(passive := passive)));
    }

    /** Consider the `i`-th listener of a snapshot, and run it unless it is filtered out or gone. */
    method TryListener(fuel: nat, site: Site, w: World, snap: nat, i: nat)
      requires Valid() && AtListener(log, site, w, snap, i) && i < |log[snap].what.ls|
      requires site.e in state.events && state.events[site.e].dispatching && !state.events[site.e].stopNow
      modifies this
      ensures Valid() && AtListener(log, site, w, snap, i + 1)
      ensures SinceAt(old(log), log, site, w) && KeepsBut(old(state), state, site.e)
      decreases fuel, 1, 1
    {
      var l := log[snap].what.ls[i];
      if !Matches(site.phase, l) {
        AtListenerPassed(log, site, w, snap, i);
        return;
      }
      if !state.Reg(w).Contains(site.key, l.id) {
        assert Settles(log, |log| - 1, snap, i);
        AtListenerPassed(log, site, w, snap, i);
        return;
      }
      CallListener(fuel, site, w, snap, i);
    }

    /** One listener's call: marks and removal before it, the passive flag and errors after it. */
    method CallListener(fuel: nat, site: Site, w: World, snap: nat, i: nat)
      requires Valid() && AtListener(log, site, w, snap, i) && i < |log[snap].what.ls|
      requires site.e in state.events && state.events[site.e].dispatching && !state.events[site.e].stopNow
      requires Matches(site.phase, log[snap].what.ls[i]) && state.Reg(w).Contains(site.key, log[snap].what.ls[i].id)
      modifies this
      ensures Valid() && AtListener(log, site, w, snap, i + 1)
      ensures SinceAt(old(log), log, site, w) && KeepsBut(old(state), state, site.e)
      decreases fuel, 1, 0
    {
      var l := log[snap].what.ls[i];
      var passive, ran := state.events[site.e].passive, |log|;
      EnterListener(site, w, snap, i);
      ghost var ranLog, ranState := log, state;
      RunAndLeave(fuel, site, ran, passive);
      ListenerDone(old(log), ranLog, log, site, w, snap, i);
      ListenerCallKeeps(old(state), ranState, log[|log| - 2].st, state, site, w, l);
    }

    /** The callback, and the passive flag put back. */
    method RunAndLeave(fuel: nat, site: Site, ran: nat, passive: bool)
      requires Valid() && 0 < ran == |log| - 1 && log[ran].what.Ran? && log[ran].what.site == site
      requires Recorded(log, site)
      requires site.e in state.events && state.events[site.e].dispatching
      requires site.e in log[ran - 1].st.events && log[ran - 1].st.events[site.e].passive == passive
      requires site.d < ran
      modifies this
      ensures Valid() && |log| > |old(log)|
      ensures Since(old(log), log[..|log| - 1]) && log[|log| - 1].what == Returned(site, ran)
      ensures var c := log[|log| - 2].st;
        && Keeps(old(state), c) && site.e in c.events
        && state == c.Set(site.e, c.events[site.e].(passive := passive))
      decreases fuel, 1, 0, 0
    {
      ghost var ranLog := log;
      var _ := RunCallback(fuel);
      ghost var calledLog := log;
      RecordedGrows(ranLog, log, site);
      OthersAdvance(ranLog, log, site.d);
      LeaveListener(site, ran, passive);
      assert log[..|log| - 1] == calledLog;
    }

    /** The event handler attribute runs last; answering false cancels the event. */
    method TryHandler(fuel: nat, site: Site, w: World, snap: nat)
      requires Valid() && Snap(log, snap, site, w) && log[snap].what.handler
      requires AtListener(log, site, w, snap, |log[snap].what.ls|)
      requires site.e in state.events && state.events[site.e].dispatching && !state.events[site.e].stopNow
      modifies this
      ensures Valid() && SinceAt(old(log), log, site, w) && KeepsBut(old(state), state, site.e)
      ensures Recorded(log, site) && HandlerRan(log, site, w, snap) && HandlerDone(log, site, w, snap)
      decreases fuel, 1
    {
      RecordQuietly(RanHandler(site, w, snap));
      ghost var ranLog, ranState := log, state;
      assert log[|log| - 1].what == RanHandler(site, w, snap);
      var value := RunCallback(fuel);
      assert log[|ranLog| - 1] == ranLog[|ranLog| - 1];
      assert HandlerRan(log, site, w, snap);
      RecordedGrows(ranLog, log, site);
      ghost var calledLog, calledState := log, state;
      LeaveHandler(site, w, snap, value);
      ListenerCall(old(log), ranLog, calledLog, log, site, w);
      KeepsTransitive(ranState, calledState, state);
    }

    method LeaveHandler(site: Site, w: World, snap: nat, value: bool)
      requires Valid() && Recorded(log, site) && Snap(log, snap, site, w) && HandlerRan(log, site, w, snap)
      requires site.e in state.events && state.events[site.e].dispatching && value == Answer(script(log))
      modifies this
      ensures Valid() && log == old(log) + [Entry(HandlerReturned(site, w, snap, value), state)]
      ensures Keeps(old(state), state) && Recorded(log, site)
      ensures HandlerRan(log, site, w, snap) && HandlerDone(log, site, w, snap)
    {
      LegalQuiet(worlds, log);
      CancelOk(state, site.e);
      var s := if value then state else Cancelled(state, site.e);
      Record(HandlerReturned(site, w, snap, value), s);
      HandlerIsDone(old(log), log, site, w, snap, value);
    }

    /** Record a label that leaves the state as it is. */
    method RecordQuietly(what: Label)
      requires Valid() && !what.Ended? && LabelOk(worlds, log, state, state, what) && ByScript(script, log, what)
      modifies this
      ensures Valid() && log == old(log) + [Entry(what, state)] && state == old(state)
    {
      LegalQuiet(worlds, log);
      NothingChanges(state);
      Record(what, state);
    }

    /** `invoke_listeners`, in one world at one step. */
    method InvokeListeners(fuel: nat, site: Site, w: World)
      requires Valid() && Recorded(log, site) && site.d < site.step
      requires site.e in state.events && state.events[site.e].dispatching && !state.events[site.e].stopNow
      requires w in Worlds(worlds, log[site.d].what)
      requires VisitedBefore(worlds, log, site, w)
      modifies this
      ensures Valid() && Recorded(log, site)
      ensures SinceAt(old(log), log, site, w) && KeepsBut(old(state), state, site.e)
      ensures log != old(log) && log[|log| - 1].what.Done?
      ensures log[|log| - 1].what.site == site && log[|log| - 1].what.w == w
      decreases fuel, 2, 3
    {
      var snap := TakeSnapshot(site, w);
      RunSnapshot(fuel, site, w, snap);
    }

    method TakeSnapshot(site: Site, w: World) returns (snap: nat)
      requires Valid() && Recorded(log, site) && site.d < site.step
      requires site.e in state.events && state.events[site.e].dispatching && !state.events[site.e].stopNow
      requires w in Worlds(worlds, log[site.d].what)
      requires VisitedBefore(worlds, log, site, w)
      modifies this
      ensures Valid() && AtListener(log, site, w, snap, 0) && state == old(state) && snap == |old(log)|
      ensures old(log) <= log && |log| == |old(log)| + 1 && SinceAt(old(log), log, site, w)
    {
      var eventType := state.events[site.e].eventType;
      var ls := state.Reg(w).Snapshot(site.key, eventType);
      var handler := site.phase != Capturing && (w, site.key, eventType) in state.handlers;
      snap := |log|;
      RecordQuietly(Snapped(site, w, ls, handler));
      AtListenerStart(old(log), log, site, w);
    }

    /** The loop over a snapshot: it ends early only when immediate propagation is stopped. */
    method RunListeners(fuel: nat, site: Site, w: World, snap: nat) returns (i: nat)
      requires Valid() && AtListener(log, site, w, snap, 0)
      requires site.e in state.events && state.events[site.e].dispatching && !state.events[site.e].stopNow
      modifies this
      ensures Valid() && AtListener(log, site, w, snap, i)
      ensures SinceAt(old(log), log, site, w) && KeepsBut(old(state), state, site.e)
      ensures state.events[site.e].stopNow || i == |log[snap].what.ls|
      decreases fuel, 2, 0
    {
      i := 0;
      var n := |log[snap].what.ls|;
      while i < n && !state.events[site.e].stopNow
        invariant i <= n && Valid() && AtListener(log, site, w, snap, i)
        invariant SinceAt(old(log), log, site, w) && KeepsBut(old(state), state, site.e)
      {
        ghost var log1, state1 := log, state;
        TryListener(fuel, site, w, snap, i);
        SinceAtTransitive(old(log), log1, log, site, w);
        KeepsButTransitive(old(state), state1, state, site.e);
        i := i + 1;
      }
    }

    /** The listeners of a snapshot, then the handler, then the world is done. */
    method RunSnapshot(fuel: nat, site: Site, w: World, snap: nat)
      requires Valid() && AtListener(log, site, w, snap, 0)
      requires site.e in state.events && state.events[site.e].dispatching && !state.events[site.e].stopNow
      modifies this
      ensures Valid() && Recorded(log, site)
      ensures SinceAt(old(log), log, site, w) && KeepsBut(old(state), state, site.e)
      ensures log != old(log) && log[|log| - 1].what == Done(site, w, snap)
      decreases fuel, 2, 2
    {
      RunTurn(fuel, site, w, snap);
      ghost var log2 := log;
      RecordQuietly(Done(site, w, snap));
      DoneIsSince(old(log), log2, log, site, w, snap);
    }

    method RunTurn(fuel: nat, site: Site, w: World, snap: nat)
      requires Valid() && AtListener(log, site, w, snap, 0)
      requires site.e in state.events && state.events[site.e].dispatching && !state.events[site.e].stopNow
      modifies this
      ensures Valid() && Recorded(log, site)
      ensures SinceAt(old(log), log, site, w) && KeepsBut(old(state), state, site.e)
      ensures DoneOk(log, state, state, site, w, snap)
      decreases fuel, 2, 1
    {
      var i := RunListeners(fuel, site, w, snap);
      ghost var log1, state1 := log, state;
      if log[snap].what.handler && !state.events[site.e].stopNow {
        TryHandler(fuel, site, w, snap);
        AccountedGrows(log1, log, snap, i);
        SinceAtTransitive(old(log), log1, log, site, w);
        KeepsButTransitive(old(state), state1, state, site.e);
      }
    }

    /** Deliver to one world, unless it is another world with nothing registered. */
    method VisitWorld(fuel: nat, site: Site, i: nat, eventType: string)
      requires Valid() && AtWorld(worlds, log, site, i, eventType) && i < |Worlds(worlds, log[site.d].what)|
      requires site.e in state.events && state.events[site.e].dispatching && !state.events[site.e].stopNow
      modifies this
      ensures Valid() && AtWorld(worlds, log, site, i + 1, eventType)
      ensures SinceAt(old(log), log, site, Worlds(worlds, old(log)[site.d].what)[i])
      ensures KeepsBut(old(state), state, site.e)
      decreases fuel, 3
    {
      var began := log[site.d].what;
      var w := Worlds(worlds, began)[i];
      if w != began.origin && !state.HasListener(w, site.key, eventType) {
        assert WorldServed(log, |log| - 1, site, w, eventType);
      } else {
        AtWorldVisited(worlds, log, site, i, eventType);
        InvokeListeners(fuel, site, w);
        assert log[site.d] == old(log)[site.d];
        assert WorldServed(log, |log| - 1, site, w, eventType);
      }
      AtWorldGrows(worlds, old(log), log, site, i, eventType);
    }

    /** `invoke_listeners_in_every_world`: the worlds in order, until immediate propagation stops. */
    method InvokeInEveryWorld(fuel: nat, site: Site)
      requires Valid() && Recorded(log, site) && site.d < site.step && site.step == |log| - 1
      requires site.e in state.events && state.events[site.e].dispatching
      modifies this
      ensures Valid() && SinceStep(old(log), log, site) && KeepsBut(old(state), state, site.e)
      ensures log != old(log) && log[|log| - 1].what == StepDone(site)
      decreases fuel, 4
    {
      var eventType := state.events[site.e].eventType;
      var ws := Worlds(worlds, log[site.d].what);
      var i := 0;
      while i < |ws| && !state.events[site.e].stopNow
        invariant i <= |ws| && Valid() && AtWorld(worlds, log, site, i, eventType)
        invariant SinceStep(old(log), log, site) && KeepsBut(old(state), state, site.e)
      {
        ghost var log1, state1 := log, state;
        assert log[site.d] == old(log)[site.d];
        VisitWorld(fuel, site, i, eventType);
        SinceAtIsSinceStep(old(log), log1, log, site, ws[i]);
        KeepsButTransitive(old(state), state1, state, site.e);
        i := i + 1;
      }
      assert log[site.d] == old(log)[site.d];
      RecordQuietly(StepDone(site));
    }

    /** One step of the plan: record it, and deliver in every world. */
    method Propagate(fuel: nat, d: nat, e: EventId, key: Target, phase: Phase, ghost n: nat)
      requires Valid() && Running(log, state, d, e, n) && !state.events[e].stop
      requires n < |PlanOf(log, d)| && PlanOf(log, d)[n] == (key, phase)
      modifies this
      ensures Valid() && Running(log, state, d, e, n + 1)
      ensures SinceOwn(old(log), log, d) && KeepsBut(old(state), state, e)
      ensures log[d] == old(log)[d]
      decreases fuel, 5
    {
      var site := Site(d, e, |log|, key, phase);
      TakeStep(site, n);
      ghost var stepLog := log;
      InvokeInEveryWorld(fuel, site);
      RunningStep(old(log), stepLog, log, old(state), state, site, n);
      StepIsOwn(old(log), stepLog, log, site);
    }

    method TakeStep(site: Site, ghost n: nat)
      requires Valid() && Running(log, state, site.d, site.e, n) && !state.events[site.e].stop && site.step == |log|
      requires n < |PlanOf(log, site.d)| && PlanOf(log, site.d)[n] == (site.key, site.phase)
      modifies this
      ensures Valid() && log == old(log) + [Entry(Stepped(site), state)] && state == old(state)
      ensures Recorded(log, site) && site.d < site.step
    {
      PlanPrefix(log, site.d, n);
      RecordQuietly(Stepped(site));
    }

    /** The start of a dispatch: retarget, decide "clear targets", build the path. */
    method Prepare(target: Target, ev: Event) returns (related: Option<Node>, clear: bool, path: seq<Target>)
      ensures path == PathOf(state.forest, target, ev.composed) && path != []
      ensures Retargets(state.forest, ev.related, related, NodeOf(target))
      ensures clear == (InShadow(state.forest, NodeOf(target)) || InShadow(state.forest, related))
    {
      related := ev.related;
      if related.Some? {
        var node := RetargetNode(state.forest, related.value, NodeOf(target));
        related := Some(node);
      }
      clear := InShadow(state.forest, NodeOf(target)) || InShadow(state.forest, related);
      path := BuildPath(state.forest, target, ev.composed);
      PathStarts(state.forest, target, ev.composed);
    }

    method Begin(origin: World, target: Target, e: EventId, everyWorld: bool) returns (began: Label)
      requires Valid() && e in state.events
      requires !state.events[e].dispatching && state.events[e].initialized
      requires Asked(origin, target, e, everyWorld)
      modifies this
      ensures Valid() && began.Began? && log == old(log) + [Entry(began, state)]
      ensures began.e == e && began.target == target && began.origin == origin && began.everyWorld == everyWorld
      ensures began.path != [] && Running(log, state, |old(log)|, e, 0)
      ensures e in state.events && state == old(state).Set(e, state.events[e])
    {
      var ev := state.events[e];
      var related, clear, path := Prepare(target, ev);
      LegalQuiet(worlds, log);
      BeginChanges(state, e, target, path, related);
      began := Began(e, target, path, origin, everyWorld, clear);
      Record(began, state.Set(e, ev.(dispatching := true, target := Some(target), path := path, related := related)));
      BeganRuns(worlds, old(log), log, e);
    }

    /** The end of a dispatch: everything that describes the position is reset. */
    method End(d: nat, e: EventId, ghost n: nat) returns (canceled: bool)
      requires Valid() && Running(log, state, d, e, n)
      requires state.events[e].stop || n == |PlanOf(log, d)|
      modifies this
      ensures Valid() && log == old(log) + [Entry(Ended(d), state)]
      ensures e in state.events && canceled == old(state).events[e].canceled
      ensures state == old(state).Set(e, Finish(old(state).events[e], old(log)[d].what.clear))
    {
      canceled := state.events[e].canceled;
      LegalQuiet(worlds, log);
      FinishChanges(state, e, log[d].what.clear);
      Record(Ended(d), state.Set(e, Finish(state.events[e], log[d].what.clear)));
    }

    /** The capture loop, from the far end of the path down to the target's parent. */
    method Capture(fuel: nat, d: nat, e: EventId) returns (ghost n: nat)
      requires Valid() && Running(log, state, d, e, 0)
      modifies this
      ensures Valid() && Running(log, state, d, e, n) && log[d] == old(log)[d]
      ensures SinceOwn(old(log), log, d) && KeepsBut(old(state), state, e)
      ensures state.events[e].stop || n == |log[d].what.path| - 1
      decreases fuel, 6
    {
      var path := log[d].what.path;
      var i := |path| - 1;
      n := 0;
      while i > 0
        invariant 0 <= i < |path| && n == |path| - 1 - i
        invariant Valid() && Running(log, state, d, e, n) && log[d] == old(log)[d]
        invariant SinceOwn(old(log), log, d) && KeepsBut(old(state), state, e)
      {
        if state.events[e].stop { return; }
        ghost var log1, state1 := log, state;
        PlanAt(path, log[d].st.events[e].bubbles, n);
        Propagate(fuel, d, e, path[i], Capturing, n);
        SinceOwnTransitive(old(log), log1, log, d);
        KeepsButTransitive(old(state), state1, state, e);
        i, n := i - 1, n + 1;
      }
    }

    /** The bubble loop, from the target's parent to the far end of the path. */
    method Bubble(fuel: nat, d: nat, e: EventId, ghost start: nat) returns (ghost n: nat)
      requires Valid() && Running(log, state, d, e, start) && state.events[e].bubbles
      requires state.events[e].stop || start == |log[d].what.path|
      modifies this
      ensures Valid() && Running(log, state, d, e, n) && log[d] == old(log)[d]
      ensures SinceOwn(old(log), log, d) && KeepsBut(old(state), state, e)
      ensures state.events[e].stop || n == |PlanOf(log, d)|
      decreases fuel, 6
    {
      var path := log[d].what.path;
      var i := 1;
      n := start;
      while i < |path|
        invariant 1 <= i <= |path| && Valid() && Running(log, state, d, e, n) && log[d] == old(log)[d]
        invariant state.events[e].stop || n == |path| - 1 + i
        invariant SinceOwn(old(log), log, d) && KeepsBut(old(state), state, e)
      {
        if state.events[e].stop { return; }
        ghost var log1, state1 := log, state;
        PlanAt(path, log[d].st.events[e].bubbles, n);
        Propagate(fuel, d, e, path[i], Bubbling, n);
        SinceOwnTransitive(old(log), log1, log, d);
        KeepsButTransitive(old(state), state1, state, e);
        i, n := i + 1, n + 1;
      }
    }

    /** The three phases. */
    method RunPhases(fuel: nat, d: nat, e: EventId) returns (ghost n: nat)
      requires Valid() && Running(log, state, d, e, 0)
      modifies this
      ensures Valid() && Running(log, state, d, e, n) && log[d] == old(log)[d]
      ensures SinceOwn(old(log), log, d) && KeepsBut(old(state), state, e)
      ensures state.events[e].stop || n == |PlanOf(log, d)|
      decreases fuel, 7
    {
      var path := log[d].what.path;
      n := Capture(fuel, d, e);
      ghost var log1, state1 := log, state;
      if !state.events[e].stop {
        PlanAt(path, log[d].st.events[e].bubbles, n);
        Propagate(fuel, d, e, path[0], AtTarget, n);
        n := n + 1;
        SinceOwnTransitive(old(log), log1, log, d);
        KeepsButTransitive(old(state), state1, state, e);
      }
      ghost var log2, state2 := log, state;
      if state.events[e].bubbles {
        n := Bubble(fuel, d, e, n);
        SinceOwnTransitive(old(log), log2, log, d);
        KeepsButTransitive(old(state), state2, state, e);
      }
    }

    /** The engine has decided on a dispatch, or the running callback asks for this one. */
    ghost predicate Asked(origin: World, target: Target, e: EventId, everyWorld: bool)
      reads this
    {
      (log != [] && log[|log| - 1].what.Outside?) || script(log) == Dispatch(origin, target, e, everyWorld)
    }

    /** `dispatch_inner`. An event already under dispatch, or not initialized, is refused and
        nothing happens; otherwise the dispatch runs from its `Began` entry to its `Ended` entry. The
        answer is `false` exactly if the event was canceled already or something cancels it meanwhile. */
    method DispatchInner(fuel: nat, origin: World, target: Target, e: EventId, everyWorld: bool)
      returns (r: Result<bool, ()>)
      requires Valid() && e in state.events
      modifies this
      ensures Valid() && Since(old(log), log) && Keeps(old(state), state)
      ensures r.Err? <==> old(state).events[e].dispatching || !old(state).events[e].initialized
      ensures r.Err? ==> log == old(log) && state == old(state)
      ensures r.Ok? ==>
        var d := |old(log)| + 1;
        && d < |log| - 1 && log[d].what.Began? && log[d].what.e == e
        && log[d].what.target == target && log[d].what.origin == origin && log[d].what.everyWorld == everyWorld
        && log[|log| - 1].what == Ended(d) && e in state.events
        && (r.value <==> !old(state).events[e].canceled && forall k :: d < k < |log| ==> !Cancels(log, k, e))
        && AtRest(state.events[e], log[d].what.clear)
        && state.events[e].target == (if log[d].what.clear then None else Some(target))
      decreases fuel, 9
    {
      if state.events[e].dispatching || !state.events[e].initialized {
        return Err(());
      }
      RecordQuietly(Outside);
      ghost var log1 := log;
      var answer := RunDispatch(fuel, origin, target, e, everyWorld);
      SinceTransitive(old(log), log1, log);
      r := Ok(answer);
    }

    /** A dispatch that is not refused. */
    method RunDispatch(fuel: nat, origin: World, target: Target, e: EventId, everyWorld: bool) returns (answer: bool)
      requires Valid() && Dispatchable(state, e) && Asked(origin, target, e, everyWorld)
      modifies this
      ensures Valid() && Since(old(log), log) && Keeps(old(state), state)
      ensures var d := |old(log)|;
        && d < |log| - 1 && log[d].what.Began? && log[d].what.e == e
        && log[d].what.target == target && log[d].what.origin == origin && log[d].what.everyWorld == everyWorld
        && log[|log| - 1].what == Ended(d) && e in state.events
        && (answer <==> !old(state).events[e].canceled && forall k :: d < k < |log| ==> !Cancels(log, k, e))
        && AtRest(state.events[e], log[d].what.clear)
        && state.events[e].target == (if log[d].what.clear then None else Some(target))
      decreases fuel, 8
    {
      var d := |log|;
      var began := Begin(origin, target, e, everyWorld);
      ghost var log1, state1 := log, state;
      ghost var n := RunPhases(fuel, d, e);
      ghost var log2, state2 := log, state;
      var canceled := End(d, e, n);
      DispatchIsSince(old(log), log1, log2, log);
      assert log[d] == log2[d] == log1[d] == Entry(began, state1);
      DispatchKeeps(old(state), state1, state2, state, e);
      EndsAsBegun(worlds, log, d);
      answer := !canceled;
    }
  }

  lemma PathStarts(f: Forest, target: Target, composed: bool)
    ensures PathOf(f, target, composed) != [] && PathOf(f, target, composed)[0] == target
  {
    if target.NodeTarget? { NodePathFollowsParents(f, target.id, composed, false); }
  }
}
