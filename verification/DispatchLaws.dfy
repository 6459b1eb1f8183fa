/**
  * What holds of every run of nested dispatches, whatever the listeners do: consequences
  * of the log being `Legal`, which the dispatcher's methods maintain.
  */
module DispatchLaws {
  import opened Common
  import opened Forest
  import opened EventPath
  import opened Retarget
  import opened Listeners
  import opened DispatchLog

  lemma ChangesAt(worlds: seq<World>, log: Log, k: nat)
    requires Legal(worlds, log) && 0 < k < |log|
    ensures Changes(log[k - 1].st, log[k].st, Ending(log[..k], log[k].what))
    ensures LabelOk(worlds, log[..k], log[k - 1].st, log[k].st, log[k].what)
  {
    assert LegalAt(worlds, log, k);
  }

  lemma ChangesOnly(worlds: seq<World>, log: Log, k: nat)
    requires Legal(worlds, log) && 0 < k < |log|
    ensures Changes(log[k - 1].st, log[k].st, Ending(log[..k], log[k].what))
  {
    assert LegalAt(worlds, log, k);
  }

  lemma RegistriesEvolve(worlds: seq<World>, log: Log, k: nat, w: World)
    requires Legal(worlds, log) && 0 < k < |log|
    ensures Evolves(log[k - 1].st.Reg(w), log[k].st.Reg(w))
  {
    ChangesOnly(worlds, log, k);
  }

  // ----- Listeners -----

  lemma {:induction false} RegistriesValid(worlds: seq<World>, log: Log, k: nat)
    requires Legal(worlds, log) && k < |log|
    ensures forall w :: log[k].st.Reg(w).Valid()
  {
    if k > 0 {
      RegistriesValid(worlds, log, k - 1);
      assert LegalAt(worlds, log, k);
    }
  }

  /** An id that was minted and is absent stays absent. */
  lemma {:induction false} GoneStaysGone(worlds: seq<World>, log: Log, i: nat, j: nat, w: World, t: Target, id: nat)
    requires Legal(worlds, log) && i <= j < |log|
    requires id <= log[i].st.Reg(w).nextId && !log[i].st.Reg(w).Contains(t, id)
    ensures id <= log[j].st.Reg(w).nextId && !log[j].st.Reg(w).Contains(t, id)
    decreases j
  {
    if i < j {
      GoneStaysGone(worlds, log, i, j - 1, w, t, id);
      RegistriesEvolve(worlds, log, j, w);
      AbsentStaysAbsent(log[j - 1].st.Reg(w), log[j].st.Reg(w), t, id);
    }
  }

  predicate RunsListener(l: Label, w: World, t: Target, id: nat) {
    l.Ran? && l.w == w && l.site.key == t && l.l.id == id
  }

  lemma RanEntry(worlds: seq<World>, log: Log, j: nat)
    requires Legal(worlds, log) && j < |log| && log[j].what.Ran?
    ensures 0 < j && RanOk(log[..j], log[j - 1].st, log[j].st, log[j].what)
  {
    assert 0 < j;
    LabelAt(worlds, log, j);
  }

  /** A snapshot holds registered listeners, in registration order. */
  lemma SnapshotEntry(worlds: seq<World>, log: Log, k: nat)
    requires Legal(worlds, log) && k < |log| && log[k].what.Snapped?
    ensures var l := log[k].what;
            && Ordered(l.ls)
            && forall i :: 0 <= i < |l.ls| ==> log[k].st.Reg(l.w).Contains(l.site.key, l.ls[i].id)
  {
    ChangesAt(worlds, log, k);
    RegistriesValid(worlds, log, k);
    var l := log[k].what;
    SnapshotContained(log[k].st.Reg(l.w), l.site.key, log[k].st.events[l.site.e].eventType);
  }

  /** A listener removed at any earlier moment does not run. */
  lemma RemovedNeverRuns(worlds: seq<World>, log: Log, i: nat, j: nat, w: World, t: Target, id: nat)
    requires Legal(worlds, log) && i < j < |log|
    requires id <= log[i].st.Reg(w).nextId && !log[i].st.Reg(w).Contains(t, id)
    ensures !RunsListener(log[j].what, w, t, id)
  {
    if RunsListener(log[j].what, w, t, id) {
      RanEntry(worlds, log, j);
      GoneStaysGone(worlds, log, i, j - 1, w, t, id);
    }
  }

  /** A listener that runs for a snapshot was registered when the snapshot was taken, so one
      added later, whose id is above every id minted by then, does not run for it. */
  lemma AddedLaterNeverRuns(worlds: seq<World>, log: Log, j: nat)
    requires Legal(worlds, log) && j < |log| && log[j].what.Ran?
    ensures var l := log[j].what;
            && l.snap < j && log[l.snap].what.Snapped? && log[l.snap].what.site == l.site
            && log[l.snap].st.Reg(l.w).Contains(l.site.key, l.l.id)
            && l.l.id <= log[l.snap].st.Reg(l.w).nextId
  {
    RanEntry(worlds, log, j);
    var l := log[j].what;
    SnapshotEntry(worlds, log, l.snap);
    var s := log[l.snap].st;
    RegistriesValid(worlds, log, l.snap);
    var i :| 0 <= i < |s.Reg(l.w).At(l.site.key)| && s.Reg(l.w).At(l.site.key)[i].id == l.l.id;
  }

  /** A `once` listener runs at most once in the whole run, nested dispatches included. */
  lemma OnceRunsOnce(worlds: seq<World>, log: Log, i: nat, j: nat)
    requires Legal(worlds, log) && i < j < |log|
    requires log[i].what.Ran? && log[i].what.l.once
    ensures !RunsListener(log[j].what, log[i].what.w, log[i].what.site.key, log[i].what.l.id)
  {
    OnceDropped(worlds, log, i);
    var l := log[i].what;
    RemovedNeverRuns(worlds, log, i, j, l.w, l.site.key, l.l.id);
  }

  lemma OnceDropped(worlds: seq<World>, log: Log, i: nat)
    requires Legal(worlds, log) && i < |log| && log[i].what.Ran? && log[i].what.l.once
    ensures var l, reg := log[i].what, log[i].st.Reg(log[i].what.w);
            l.l.id <= reg.nextId && !reg.Contains(l.site.key, l.l.id)
  {
    assert 0 < i;
    RegistryValid(worlds, log, i - 1, log[i].what.w);
    RunDrops(log[..i], log[i - 1].st, log[i].st, log[i].what);
    LabelAt(worlds, log, i);
  }

  lemma RegistryValid(worlds: seq<World>, log: Log, k: nat, w: World)
    requires Legal(worlds, log) && k < |log|
    ensures log[k].st.Reg(w).Valid()
  {
    RegistriesValid(worlds, log, k);
  }

  lemma RunDrops(log: Log, p: State, s: State, l: Label)
    requires l.Ran? && l.l.once && p.Reg(l.w).Valid()
    ensures RanOk(log, p, s, l) ==> l.l.id <= s.Reg(l.w).nextId && !s.Reg(l.w).Contains(l.site.key, l.l.id)
  {
    if RanOk(log, p, s, l) {
      DroppedIsGone(p.Reg(l.w), l.site.key, l.l.id);
      assert s.regs == p.regs[l.w := p.Reg(l.w).RemoveById(l.site.key, l.l.id)];
    }
  }

  lemma DroppedIsGone(r: Registry, t: Target, id: nat)
    requires r.Valid() && r.Contains(t, id)
    ensures var after := r.RemoveById(t, id); id <= after.nextId && !after.Contains(t, id)
  {
    var k :| 0 <= k < |r.At(t)| && r.At(t)[k].id == id;
    RemoveByIdEvolves(r, t, id);
  }

  /** Within one world's turn at a step listeners run in registration order, each once. */
  lemma RegistrationOrder(worlds: seq<World>, log: Log, i: nat, j: nat)
    requires Legal(worlds, log) && i < j < |log|
    requires log[i].what.Ran? && log[j].what.Ran? && log[i].what.snap == log[j].what.snap
    ensures log[i].what.l.id < log[j].what.l.id
  {
    RanEntry(worlds, log, i);
    RanEntry(worlds, log, j);
    var snap := log[j].what.snap;
    assert snap < i && log[..j][i] == log[i];
    SnapshotEntry(worlds, log, snap);
  }

  /** The worlds of a step are served in the page's order; a dispatch for one world serves no second. */
  lemma WorldOrder(worlds: seq<World>, log: Log, i: nat, j: nat)
    requires Legal(worlds, log) && i < j < |log|
    requires log[i].what.Snapped? && log[j].what.Snapped? && log[i].what.site == log[j].what.site
    ensures log[i].what.site.d < |log| && log[log[i].what.site.d].what.Began?
    ensures log[log[i].what.site.d].what.everyWorld
    ensures exists a, b :: 0 <= a < b < |worlds| && worlds[a] == log[i].what.w && worlds[b] == log[j].what.w
  {
    assert LegalAt(worlds, log, i);
    assert LegalAt(worlds, log, j);
    assert log[..j][i] == log[i];
    assert Precedes(Worlds(worlds, log[log[i].what.site.d].what), log[i].what.w, log[j].what.w);
  }

  // ----- Steps -----

  lemma StepsSnoc(log: Log, n: nat, d: nat)
    requires n < |log|
    ensures StepsOf(log[..n + 1], d) == StepsOf(log[..n], d)
      + if log[n].what.Stepped? && log[n].what.site.d == d then [(log[n].what.site.key, log[n].what.site.phase)] else []
  {
    assert log[..n + 1][..n] == log[..n];
  }

  /** A dispatch's steps, at every moment, are a prefix of its plan. */
  lemma {:induction false} StepsFollowPlan(worlds: seq<World>, log: Log, d: nat, n: nat)
    requires Legal(worlds, log) && d < n <= |log| && log[d].what.Began?
    ensures log[d].what.e in log[d].st.events && log[d].what.path != []
    ensures StepsOf(log[..n], d) <= PlanOf(log, d)
    decreases n
  {
    BeganEntry(worlds, log, d);
    StepsSnoc(log, n - 1, d);
    if n == d + 1 {
      NoEarlySteps(worlds, log, d, d);
    } else {
      StepsFollowPlan(worlds, log, d, n - 1);
      if log[n - 1].what.Stepped? && log[n - 1].what.site.d == d {
        assert LegalAt(worlds, log, n - 1);
        assert PlanOf(log[..n - 1], d) == PlanOf(log, d);
      }
    }
  }

  lemma BeganEntry(worlds: seq<World>, log: Log, d: nat)
    requires Legal(worlds, log) && d < |log| && log[d].what.Began?
    ensures 0 < d && BeganOk(log[d - 1].st, log[d].st, log[d].what)
    ensures log[d].what.path != [] && NoDup(log[d].what.path) && log[d].what.path[0] == log[d].what.target
  {
    assert LegalAt(worlds, log, d);
    var l, f := log[d].what, log[d - 1].st.forest;
    if l.target.NodeTarget? {
      var composed := log[d - 1].st.events[l.e].composed;
      PathShape(f, l.target.id, composed);
      NodePathFollowsParents(f, l.target.id, composed, false);
    }
  }

  lemma {:induction false} NoEarlySteps(worlds: seq<World>, log: Log, d: nat, n: nat)
    requires Legal(worlds, log) && n <= d < |log|
    ensures StepsOf(log[..n], d) == []
    decreases n
  {
    if n > 0 {
      NoEarlySteps(worlds, log, d, n - 1);
      StepsSnoc(log, n - 1, d);
      if n > 1 { assert LegalAt(worlds, log, n - 1); }
    }
  }

  /** A dispatch that ends has taken all its planned steps, unless propagation was stopped. */
  lemma EndedRanPlan(worlds: seq<World>, log: Log, d: nat, j: nat)
    requires Legal(worlds, log) && j < |log| && log[j].what == Ended(d)
    ensures d < j && log[d].what.Began? && log[d].what.e in log[d].st.events && log[d].what.path != []
    ensures log[d].what.e in log[j - 1].st.events
    ensures StepsOf(log[..j], d) == PlanOf(log, d) || log[j - 1].st.events[log[d].what.e].stop
  {
    assert LegalAt(worlds, log, j);
    assert PlanOf(log[..j], d) == PlanOf(log, d);
  }

  /** How a dispatch begins: with its target set, its related target retargeted against the target, and
      the decision to clear both in the end exactly if one of them is in a shadow tree. */
  lemma BeginsRetargeted(worlds: seq<World>, log: Log, d: nat)
    requires Legal(worlds, log) && d < |log| && log[d].what.Began?
    ensures 0 < d && log[d].what.e in log[d - 1].st.events && log[d].what.e in log[d].st.events
    ensures var l, f := log[d].what, log[d - 1].st.forest;
      var before, ev := log[d - 1].st.events[l.e].related, log[d].st.events[l.e];
      var b := if l.target.NodeTarget? then Some(l.target.id) else None;
      && ev.target == Some(l.target) && ev.dispatching && !log[d - 1].st.events[l.e].dispatching
      && ev.related.Some? == before.Some?
      && (before.Some? ==> (ev.related.value == Retargeted(f, before.value, b) <==> WithinBounds(f, before.value, b)))
      && (l.clear <==> (b.Some? && ShadowRootOf(f, b.value).Some?)
                       || (ev.related.Some? && ShadowRootOf(f, ev.related.value).Some?))
      && (!l.target.NodeTarget? ==> l.path == [l.target])
  {
    BeganEntry(worlds, log, d);
  }

  // ----- One event, one dispatch -----

  /** Dispatch `d` is open after entry `k`. */
  ghost predicate OpenAt(log: Log, d: nat, k: nat) {
    && d <= k < |log| && log[d].what.Began?
    && forall j :: d < j <= k ==> log[j].what != Ended(d)
  }

  /** As long as its dispatch is open an event is marked as dispatching. */
  lemma {:induction false} OpenDispatches(worlds: seq<World>, log: Log, d: nat, k: nat)
    requires Legal(worlds, log) && OpenAt(log, d, k)
    ensures log[d].what.e in log[k].st.events && log[k].st.events[log[d].what.e].dispatching
    decreases k
  {
    BeganEntry(worlds, log, d);
    if d < k {
      OpenDispatches(worlds, log, d, k - 1);
      ChangesOnly(worlds, log, k);
      if Ending(log[..k], log[k].what) == Some(log[d].what.e) {
        EndsOpen(worlds, log, k);
        OneOpenDispatch(worlds, log, d, log[k].what.d, k - 1);
      }
    }
  }

  lemma EndsOpen(worlds: seq<World>, log: Log, k: nat)
    requires Legal(worlds, log) && 0 < k < |log| && log[k].what.Ended?
    ensures OpenAt(log, log[k].what.d, k - 1)
  {
    ChangesAt(worlds, log, k);
  }

  /** No event is under two dispatches at once. */
  lemma {:induction false} OneOpenDispatch(worlds: seq<World>, log: Log, d: nat, d2: nat, k: nat)
    requires Legal(worlds, log) && OpenAt(log, d, k) && OpenAt(log, d2, k)
    requires log[d].what.e == log[d2].what.e
    ensures d == d2
    decreases k
  {
    if d < d2 {
      OpenDispatches(worlds, log, d, d2 - 1);
      BeganEntry(worlds, log, d2);
    } else if d2 < d {
      OpenDispatches(worlds, log, d2, d - 1);
      BeganEntry(worlds, log, d);
    }
  }

  /** The step entry `k` works at, if it is one of a dispatch's own. */
  function SiteOf(l: Label): Option<Site> {
    match l
    case Snapped(site, _, _, _) => Some(site)
    case Ran(site, _, _, _, _) => Some(site)
    case RanHandler(site, _, _) => Some(site)
    case _ => None
  }

  lemma SiteIsOpen(worlds: seq<World>, log: Log, k: nat)
    requires Legal(worlds, log) && 0 < k < |log| && SiteOf(log[k].what).Some?
    ensures var site := SiteOf(log[k].what).value;
            && Recorded(log[..k], site) && OpenAt(log, site.d, k) && log[site.d].what.e == site.e
            && site.e in log[k - 1].st.events && !log[k - 1].st.events[site.e].stopNow
  {
    ChangesAt(worlds, log, k);
  }

  /** While its dispatch stays open, an entry leaves what describes an event alone. */
  lemma StaysFrozen(worlds: seq<World>, log: Log, d: nat, k: nat)
    requires Legal(worlds, log) && d < k && OpenAt(log, d, k)
    ensures var e := log[d].what.e;
            && e in log[k - 1].st.events && e in log[k].st.events
            && log[k - 1].st.events[e].dispatching && log[k].st.events[e].dispatching
            && Frozen(log[k - 1].st.events[e], log[k].st.events[e])
  {
    OpenDispatches(worlds, log, d, k - 1);
    OpenDispatches(worlds, log, d, k);
    ChangesOnly(worlds, log, k);
    if Ending(log[..k], log[k].what) == Some(log[d].what.e) {
      EndingIdles(worlds, log, k);
    }
  }

  lemma EndingIdles(worlds: seq<World>, log: Log, k: nat)
    requires Legal(worlds, log) && 0 < k < |log| && Ending(log[..k], log[k].what).Some?
    ensures var e := Ending(log[..k], log[k].what).value;
            e in log[k].st.events && !log[k].st.events[e].dispatching
  {
    ChangesAt(worlds, log, k);
  }

  lemma {:induction false} FlagsRise(worlds: seq<World>, log: Log, d: nat, i: nat, j: nat)
    requires Legal(worlds, log) && d <= i <= j && OpenAt(log, d, j)
    ensures log[d].what.e in log[i].st.events && log[d].what.e in log[j].st.events
    ensures var a, b := log[i].st.events[log[d].what.e], log[j].st.events[log[d].what.e];
            (a.stop ==> b.stop) && (a.stopNow ==> b.stopNow) && a.eventType == b.eventType
    decreases j
  {
    if i < j {
      FlagsRise(worlds, log, d, i, j - 1);
      StaysFrozen(worlds, log, d, j);
    } else {
      OpenDispatches(worlds, log, d, i);
    }
  }

  /** Once immediate propagation is stopped the dispatch calls nothing more: no listener, no
      handler, not even a snapshot in a further world. */
  lemma NothingAfterStopImmediate(worlds: seq<World>, log: Log, d: nat, i: nat, j: nat)
    requires Legal(worlds, log) && d <= i < j && OpenAt(log, d, j)
    requires log[d].what.e in log[i].st.events && log[i].st.events[log[d].what.e].stopNow
    ensures SiteOf(log[j].what).Some? ==> SiteOf(log[j].what).value.d != d
  {
    if SiteOf(log[j].what).Some? && SiteOf(log[j].what).value.d == d {
      SiteIsOpen(worlds, log, j);
      FlagsRise(worlds, log, d, i, j - 1);
    }
  }

  /** Once propagation is stopped the dispatch takes no further step. */
  lemma NoStepAfterStop(worlds: seq<World>, log: Log, d: nat, i: nat, j: nat)
    requires Legal(worlds, log) && d <= i < j && OpenAt(log, d, j)
    requires log[d].what.e in log[i].st.events && log[i].st.events[log[d].what.e].stop
    ensures !(log[j].what.Stepped? && log[j].what.site.d == d)
  {
    if log[j].what.Stepped? && log[j].what.site.d == d {
      ChangesAt(worlds, log, j);
      FlagsRise(worlds, log, d, i, j - 1);
    }
  }

  // ----- Delivery -----

  /** A registered listener that is still there later was there, the same, all along. */
  lemma {:induction false} PresentThroughout(
      worlds: seq<World>, log: Log, i: nat, k: nat, j: nat, w: World, t: Target, l: Listener)
    requires Legal(worlds, log) && i <= k <= j < |log|
    requires l in log[i].st.Reg(w).At(t) && log[j].st.Reg(w).Contains(t, l.id)
    ensures l in log[k].st.Reg(w).At(t) && log[k].st.Reg(w).Contains(t, l.id)
    decreases k
  {
    if i < k {
      PresentThroughout(worlds, log, i, k - 1, j, w, t, l);
      PresentNext(worlds, log, k, w, t, l);
      if !log[k].st.Reg(w).Contains(t, l.id) { GoneStaysGone(worlds, log, k, j, w, t, l.id); }
    } else {
      IsContained(log[i].st.Reg(w), t, l);
    }
  }

  lemma PresentNext(worlds: seq<World>, log: Log, k: nat, w: World, t: Target, l: Listener)
    requires Legal(worlds, log) && 0 < k < |log| && l in log[k - 1].st.Reg(w).At(t)
    ensures var b := log[k].st.Reg(w); if b.Contains(t, l.id) then l in b.At(t) else l.id <= b.nextId
  {
    RegistryValid(worlds, log, k - 1, w);
    RegistriesEvolve(worlds, log, k, w);
    PresentOrGone(log[k - 1].st.Reg(w), log[k].st.Reg(w), t, l);
  }

  lemma IsContained(r: Registry, t: Target, l: Listener)
    requires l in r.At(t)
    ensures r.Contains(t, l.id)
  {
    var n :| 0 <= n < |r.At(t)| && r.At(t)[n] == l;
  }

  lemma PresentOrGone(a: Registry, b: Registry, t: Target, l: Listener)
    requires a.Valid() && Evolves(a, b) && l in a.At(t)
    ensures if b.Contains(t, l.id) then l in b.At(t) else l.id <= b.nextId
  {
    var n :| 0 <= n < |a.At(t)| && a.At(t)[n] == l;
    if b.Contains(t, l.id) { PresentIsSame(a, b, t, l); }
  }

  ghost predicate RunsAt(log: Log, r: nat, site: Site, w: World, l: Listener)
    requires r < |log|
  {
    log[r].what.Ran? && log[r].what.site == site && log[r].what.w == w && log[r].what.l == l
  }

  lemma TurnEntries(worlds: seq<World>, log: Log, k: nat)
    requires Legal(worlds, log) && k < |log| && log[k].what.Done?
    ensures var s, w, snap := log[k].what.site, log[k].what.w, log[k].what.snap;
            && 0 < k && 0 < snap < k && s.step < snap && s.d < s.step && Snap(log, snap, s, w) &&
               s.e in log[k - 1].st.events
            && s.e in log[snap - 1].st.events && log[s.d].what.Began? && log[s.d].what.e == s.e
            && log[snap].what.ls == log[snap - 1].st.Reg(w).Snapshot(s.key, log[snap - 1].st.events[s.e].eventType)
            && (log[k - 1].st.events[s.e].stopNow || AllAccounted(log[..k], snap, |log[snap].what.ls|))
  {
    assert 0 < k;
    LabelAt(worlds, log, k);
    SnapEntry(worlds, log, log[k].what.snap);
  }

  lemma SnapEntry(worlds: seq<World>, log: Log, k: nat)
    requires Legal(worlds, log) && k < |log| && log[k].what.Snapped?
    ensures var s := log[k].what.site;
            && 0 < k && s.d < s.step < k && log[s.d].what.Began? && log[s.d].what.e == s.e &&
               s.e in log[k - 1].st.events
            && log[k].what.ls == log[k - 1].st.Reg(log[k].what.w).Snapshot(s.key, log[k - 1].st.events[s.e].eventType)
  {
    assert 0 < k;
    LabelAt(worlds, log, k);
    LabelAt(worlds, log, log[k].what.site.step);
  }

  lemma FinishedEntry(worlds: seq<World>, log: Log, d: nat, j: nat, s: nat) returns (k: nat)
    requires Legal(worlds, log) && j < |log| && log[j].what == Ended(d)
    requires s < j && log[s].what.Stepped? && log[s].what.site.d == d
    ensures var site := log[s].what.site;
            && site.step == s && d < s < k < j && log[k].what == StepDone(site)
            && log[d].what.Began? && log[d].what.e == site.e && OpenAt(log, d, j - 1)
  {
    SteppedEntry(worlds, log, d, s);
    EndedEntry(worlds, log, d, j);
    var site := log[s].what.site;
    assert log[..j][s] == log[s] && Finished(log[..j], site);
    k :| site.step < k < j && log[..j][k].what == StepDone(site);
  }

  lemma SteppedEntry(worlds: seq<World>, log: Log, d: nat, s: nat)
    requires Legal(worlds, log) && s < |log| && log[s].what.Stepped? && log[s].what.site.d == d
    ensures log[s].what.site.step == s && d < s && log[d].what.Began? && log[d].what.e == log[s].what.site.e
  {
    ChangesAt(worlds, log, s);
  }

  lemma EndedEntry(worlds: seq<World>, log: Log, d: nat, j: nat)
    requires Legal(worlds, log) && j < |log| && log[j].what == Ended(d)
    ensures d < j && OpenAt(log, d, j - 1)
    ensures forall s :: 0 <= s < j && log[..j][s].what.Stepped? && log[..j][s].what.site.d == d ==>
              Finished(log[..j], log[..j][s].what.site)
  {
    ChangesAt(worlds, log, j);
  }

  ghost predicate ServedBefore(log: Log, k: nat, site: Site, w: World, eventType: string)
    requires k <= |log| && site.d < |log| && log[site.d].what.Began?
  {
    exists i :: site.step <= i < k && WorldServed(log, i, site, w, eventType)
  }

  lemma StepDoneEntry(worlds: seq<World>, log: Log, k: nat)
    requires Legal(worlds, log) && 0 < k < |log| && log[k].what.StepDone?
    ensures var site := log[k].what.site;
            && site.d < site.step < k && log[site.d].what.Began? && site.e in log[k - 1].st.events
            && (log[k - 1].st.events[site.e].stopNow
                || forall w :: w in Worlds(worlds, log[site.d].what) ==>
                     ServedBefore(log, k, site, w, log[k - 1].st.events[site.e].eventType))
  {
    ChangesAt(worlds, log, k);
    var site := log[k].what.site;
    ChangesAt(worlds, log, site.step);
    var eventType := log[k - 1].st.events[site.e].eventType;
    if !log[k - 1].st.events[site.e].stopNow {
      forall w | w in Worlds(worlds, log[site.d].what)
        ensures ServedBefore(log, k, site, w, eventType)
      {
        assert Served(log[..k], site, w, eventType);
        var i :| site.step <= i < k && WorldServed(log[..k], i, site, w, eventType);
        assert WorldServed(log, i, site, w, eventType);
      }
    }
  }

  /** At some entry from `from` on and before `to` the listener is not registered. */
  ghost predicate Absent(log: Log, from: nat, to: nat, w: World, t: Target, id: nat)
    requires to <= |log|
  {
    exists m :: from <= m < to && !log[m].st.Reg(w).Contains(t, id)
  }

  /** The step calls the listener before entry `to`. */
  ghost predicate Called(log: Log, to: nat, site: Site, w: World, l: Listener)
    requires to <= |log|
  {
    exists r :: site.step < r < to && RunsAt(log, r, site, w, l)
  }

  lemma PresentUntil(worlds: seq<World>, log: Log, i: nat, k: nat, j: nat, w: World, t: Target, l: Listener)
    requires Legal(worlds, log) && i <= k < j <= |log|
    requires l in log[i].st.Reg(w).At(t)
    ensures l in log[k].st.Reg(w).At(t) || Absent(log, i, j, w, t, l.id)
  {
    if log[k].st.Reg(w).Contains(t, l.id) { PresentThroughout(worlds, log, i, k, k, w, t, l); }
  }

  /** A world's turn at a step, not cut short, calls every matching listener that was registered
      when the step began and has been there throughout: whatever it does not call was removed. */
  lemma TurnRunsOrRemoved(worlds: seq<World>, log: Log, k: nat, l: Listener)
    requires Legal(worlds, log) && 0 < k < |log| && log[k].what.Done?
    requires var s, w := log[k].what.site, log[k].what.w;
      && s.e in log[k - 1].st.events && !log[k - 1].st.events[s.e].stopNow
      && s.step < |log| && l in log[s.step].st.Reg(w).At(s.key) && (s.phase == Capturing ==> l.capture)
      && (s.phase == Bubbling ==> !l.capture)
      && l.eventType == log[k - 1].st.events[s.e].eventType
    ensures var s, w := log[k].what.site, log[k].what.w;
            Called(log, k, s, w, l) || Absent(log, s.step, k, w, s.key, l.id)
  {
    var s, w, snap := log[k].what.site, log[k].what.w, log[k].what.snap;
    TurnEntries(worlds, log, k);
    if !Absent(log, s.step, k, w, s.key, l.id) {
      PresentUntil(worlds, log, s.step, snap - 1, k, w, s.key, l);
      TurnType(worlds, log, k);
      assert l in log[snap].what.ls;
      SnapshotSettled(worlds, log, k, l);
    }
  }

  /** A listener of the turn's snapshot that stayed registered was called. */
  lemma SnapshotSettled(worlds: seq<World>, log: Log, k: nat, l: Listener)
    requires Legal(worlds, log) && 0 < k < |log| && log[k].what.Done?
    requires var s, w, snap := log[k].what.site, log[k].what.w, log[k].what.snap;
      && s.step < snap < k && Snap(log, snap, s, w) && AllAccounted(log[..k], snap, |log[snap].what.ls|)
      && l in log[snap].what.ls && Matches(s.phase, l) && !Absent(log, s.step, k, w, s.key, l.id)
    ensures Called(log, k, log[k].what.site, log[k].what.w, l)
  {
    var s, w, snap := log[k].what.site, log[k].what.w, log[k].what.snap;
    var i :| 0 <= i < |log[snap].what.ls| && log[snap].what.ls[i] == l;
    assert Accounted(log[..k], snap, i);
    var r :| snap <= r < k && Settles(log[..k], r, snap, i);
    assert log[r].st.Reg(w).Contains(s.key, l.id);
    RanEntry(worlds, log, r);
    assert RunsAt(log, r, s, w, l);
  }

  /** The event's type does not change during a turn. */
  lemma TurnType(worlds: seq<World>, log: Log, k: nat)
    requires Legal(worlds, log) && 0 < k < |log| && log[k].what.Done?
    ensures var s, snap := log[k].what.site, log[k].what.snap;
            && 0 < snap < k && s.e in log[snap - 1].st.events && s.e in log[k - 1].st.events
            && log[snap - 1].st.events[s.e].eventType == log[k - 1].st.events[s.e].eventType
  {
    var s := log[k].what.site;
    TurnEntries(worlds, log, k);
    ChangesAt(worlds, log, k);
    assert OpenAt(log, s.d, k - 1);
    FlagsRise(worlds, log, s.d, log[k].what.snap - 1, k - 1);
  }

  /** Delivery at one step. Unless immediate propagation is stopped there, each world calls every
      matching listener that was registered when the step began, or it was removed meanwhile. */
  lemma StepRunsOrRemoved(worlds: seq<World>, log: Log, k: nat, w: World, l: Listener)
    requires Legal(worlds, log) && 0 < k < |log| && log[k].what.StepDone?
    requires var s := log[k].what.site;
      && s.e in log[k - 1].st.events && !log[k - 1].st.events[s.e].stopNow
      && s.d < |log| && log[s.d].what.Began?
      && (if log[s.d].what.everyWorld then w in worlds else w == log[s.d].what.origin)
      && s.step < |log| && l in log[s.step].st.Reg(w).At(s.key) && (s.phase == Capturing ==> l.capture)
      && (s.phase == Bubbling ==> !l.capture)
      && l.eventType == log[k - 1].st.events[s.e].eventType
    ensures var s := log[k].what.site;
            Called(log, k, s, w, l) || Absent(log, s.step, k, w, s.key, l.id)
  {
    var s := log[k].what.site;
    StepDoneEntry(worlds, log, k);
    StepOpen(worlds, log, k);
    assert w in Worlds(worlds, log[s.d].what);
    assert ServedBefore(log, k, s, w, l.eventType);
    var i :| s.step <= i < k && WorldServed(log, i, s, w, l.eventType);
    if log[i].what.Done? && log[i].what.site == s && log[i].what.w == w {
      StepTurn(worlds, log, i, k, l);
      Widen(log, i, k, s, w, l);
    } else {
      PresentUntil(worlds, log, s.step, i, k, w, s.key, l);
      ListenerKeepsBusy(log[i].st, w, s.key, l);
    }
  }

  /** A world's turn within the step that ended at `k`. */
  lemma StepTurn(worlds: seq<World>, log: Log, i: nat, k: nat, l: Listener)
    requires Legal(worlds, log) && 0 < k < |log| && log[k].what.StepDone? && i < k && log[i].what.Done?
    requires var s, w := log[k].what.site, log[i].what.w;
      && s.step <= i && log[i].what.site == s && OpenAt(log, s.d, k - 1) && log[s.d].what.e == s.e
      && s.e in log[k - 1].st.events && !log[k - 1].st.events[s.e].stopNow
      && s.step < |log| && l in log[s.step].st.Reg(w).At(s.key) && (s.phase == Capturing ==> l.capture)
      && (s.phase == Bubbling ==> !l.capture)
      && l.eventType == log[k - 1].st.events[s.e].eventType
    ensures var s, w := log[k].what.site, log[i].what.w;
            Called(log, i, s, w, l) || Absent(log, s.step, i, w, s.key, l.id)
  {
    TurnEntries(worlds, log, i);
    FlagsRise(worlds, log, log[k].what.site.d, i - 1, k - 1);
    TurnRunsOrRemoved(worlds, log, i, l);
  }

  lemma ListenerKeepsBusy(st: State, w: World, t: Target, l: Listener)
    ensures l in st.Reg(w).At(t) ==> st.HasListener(w, t, l.eventType)
  {
    if l in st.Reg(w).At(t) { assert l in st.Reg(w).Snapshot(t, l.eventType); }
  }

  lemma StepOpen(worlds: seq<World>, log: Log, k: nat)
    requires Legal(worlds, log) && 0 < k < |log| && log[k].what.StepDone?
    ensures var s := log[k].what.site; OpenAt(log, s.d, k - 1) && log[s.d].what.e == s.e
  {
    ChangesAt(worlds, log, k);
  }

  lemma Widen(log: Log, i: nat, k: nat, site: Site, w: World, l: Listener)
    requires i <= k <= |log|
    ensures Called(log, i, site, w, l) ==> Called(log, k, site, w, l)
    ensures Absent(log, site.step, i, w, site.key, l.id) ==> Absent(log, site.step, k, w, site.key, l.id)
  {
    if r :| site.step < r < i && RunsAt(log, r, site, w, l) { assert RunsAt(log, r, site, w, l); }
    if m :| site.step <= m < i && !log[m].st.Reg(w).Contains(site.key, l.id) {
      assert site.step <= m < k && !log[m].st.Reg(w).Contains(site.key, l.id);
    }
  }

  /** Delivery is complete. A dispatch that ends has finished every step it took; and unless
      immediate propagation was stopped by the end of the step, each matching listener that was
      registered when the step began, in any of the dispatch's worlds, was called at the step or
      was not registered at some moment of it. */
  lemma DeliveredToAll(worlds: seq<World>, log: Log, d: nat, j: nat, s: nat, w: World, l: Listener) returns (k: nat)
    requires Legal(worlds, log) && 0 < j < |log| && log[j].what == Ended(d)
    requires s < j && log[s].what.Stepped? && log[s].what.site.d == d && d < |log| && log[d].what.Began?
    requires if log[d].what.everyWorld then w in worlds else w == log[d].what.origin
    requires var site := log[s].what.site;
      && l in log[s].st.Reg(w).At(site.key) && (site.phase == Capturing ==> l.capture)
      && (site.phase == Bubbling ==> !l.capture)
      && log[d].what.e in log[s].st.events && l.eventType == log[s].st.events[log[d].what.e].eventType
    ensures var site := log[s].what.site;
            && s < k < j && log[k].what == StepDone(site) && site.e in log[k - 1].st.events
            && (log[k - 1].st.events[site.e].stopNow || Called(log, k, site, w, l) ||
               Absent(log, s, k, w, site.key, l.id))
  {
    var site := log[s].what.site;
    k := FinishedEntry(worlds, log, d, j, s);
    StepDoneEntry(worlds, log, k);
    FlagsRise(worlds, log, d, s, k - 1);
    if !log[k - 1].st.events[site.e].stopNow { StepRunsOrRemoved(worlds, log, k, w, l); }
  }

  /** At some entry from `from` on and before `to` no handler is set. */
  ghost predicate Unhandled(log: Log, from: nat, to: nat, w: World, t: Target, eventType: string)
    requires to <= |log|
  {
    exists m :: from <= m < to && (w, t, eventType) !in log[m].st.handlers
  }

  /** A handler's call and its answer. */
  ghost predicate HandlerCalled(log: Log, to: nat, site: Site, w: World)
    requires to <= |log|
  {
    && (exists r :: site.step < r < to && log[r].what.RanHandler? && log[r].what.site == site && log[r].what.w == w)
    && exists r :: site.step < r < to && log[r].what.HandlerReturned? && log[r].what.site == site && log[r].what.w == w
  }

  lemma TurnRunsHandler(worlds: seq<World>, log: Log, k: nat)
    requires Legal(worlds, log) && 0 < k < |log| && log[k].what.Done?
    requires var s := log[k].what.site;
      s.e in log[k - 1].st.events && !log[k - 1].st.events[s.e].stopNow && s.phase != Capturing
    ensures var s, w := log[k].what.site, log[k].what.w;
            && s.step < k
            && (HandlerCalled(log, k, s, w) || Unhandled(log, s.step, k, w, s.key, log[k - 1].st.events[s.e].eventType))
  {
    var s, w, snap := log[k].what.site, log[k].what.w, log[k].what.snap;
    TurnEntries(worlds, log, k);
    TurnType(worlds, log, k);
    SnapHandler(worlds, log, snap);
    DoneHandler(worlds, log, k);
  }

  lemma SnapHandler(worlds: seq<World>, log: Log, k: nat)
    requires Legal(worlds, log) && 0 < k < |log| && log[k].what.Snapped?
    ensures var s := log[k].what.site;
            && s.e in log[k - 1].st.events
            && (s.phase != Capturing
                && (log[k].what.w, s.key, log[k - 1].st.events[s.e].eventType) in log[k - 1].st.handlers
                ==> log[k].what.handler)
  {
    LabelAt(worlds, log, k);
  }

  lemma DoneHandler(worlds: seq<World>, log: Log, k: nat)
    requires Legal(worlds, log) && 0 < k < |log| && log[k].what.Done?
    ensures var s, w, snap := log[k].what.site, log[k].what.w, log[k].what.snap;
            && snap < k && s.e in log[k - 1].st.events && s.step < snap && Snap(log, snap, s, w)
            && (!log[k - 1].st.events[s.e].stopNow && log[snap].what.handler ==> HandlerCalled(log, k, s, w))
  {
    var s, w, snap := log[k].what.site, log[k].what.w, log[k].what.snap;
    TurnEntries(worlds, log, k);
    LabelAt(worlds, log, k);
    if !log[k - 1].st.events[s.e].stopNow && log[snap].what.handler {
      assert HandlerRan(log[..k], s, w, snap);
      var r :| snap < r < k && log[..k][r].what == RanHandler(s, w, snap);
      assert log[r].what.RanHandler? && log[r].what.site == s && log[r].what.w == w;
      assert HandlerDone(log[..k], s, w, snap);
      var q, value :| snap < q < k && log[..k][q].what == HandlerReturned(s, w, snap, value);
      assert log[q].what.HandlerReturned? && log[q].what.site == s && log[q].what.w == w;
    }
  }

  /** A handler that is set throughout a step at its target, or on the way up, is called there, in each
      of the dispatch's worlds, unless immediate propagation was stopped by the end of the step. */
  lemma HandlerDelivered(worlds: seq<World>, log: Log, d: nat, j: nat, s: nat, w: World) returns (k: nat)
    requires Legal(worlds, log) && 0 < j < |log| && log[j].what == Ended(d)
    requires s < j && log[s].what.Stepped? && log[s].what.site.d == d && d < |log| && log[d].what.Began?
    requires if log[d].what.everyWorld then w in worlds else w == log[d].what.origin
    requires log[s].what.site.phase != Capturing
    requires log[d].what.e in log[s].st.events
    ensures var site, eventType := log[s].what.site, log[s].st.events[log[d].what.e].eventType;
            && s < k < j && log[k].what == StepDone(site) && site.e in log[k - 1].st.events
            && (log[k - 1].st.events[site.e].stopNow || HandlerCalled(log, k, site, w)
                || Unhandled(log, s, k, w, site.key, eventType))
  {
    var site, eventType := log[s].what.site, log[s].st.events[log[d].what.e].eventType;
    k := FinishedEntry(worlds, log, d, j, s);
    StepDoneEntry(worlds, log, k);
    FlagsRise(worlds, log, d, s, k - 1);
    if !log[k - 1].st.events[site.e].stopNow {
      assert w in Worlds(worlds, log[site.d].what);
      assert ServedBefore(log, k, site, w, eventType);
      var i :| site.step <= i < k && WorldServed(log, i, site, w, eventType);
      if log[i].what.Done? && log[i].what.site == site && log[i].what.w == w {
        HandlerInTurn(worlds, log, d, i, k, eventType);
      }
    }
  }

  lemma HandlerInTurn(worlds: seq<World>, log: Log, d: nat, i: nat, k: nat, eventType: string)
    requires Legal(worlds, log) && 0 < i < k < |log| && log[i].what.Done? && OpenAt(log, d, k - 1)
    requires var s := log[i].what.site;
      && s.d == d && s.phase != Capturing && log[d].what.e == s.e && s.e in log[k - 1].st.events
      && !log[k - 1].st.events[s.e].stopNow && log[k - 1].st.events[s.e].eventType == eventType
    ensures var s, w := log[i].what.site, log[i].what.w;
            s.step < i && (HandlerCalled(log, k, s, w) || Unhandled(log, s.step, k, w, s.key, eventType))
  {
    var s, w := log[i].what.site, log[i].what.w;
    TurnEntries(worlds, log, i);
    FlagsRise(worlds, log, d, i - 1, k - 1);
    TurnRunsHandler(worlds, log, i);
    if m :| s.step <= m < i && (w, s.key, eventType) !in log[m].st.handlers {
      assert s.step <= m < k && (w, s.key, eventType) !in log[m].st.handlers;
    }
  }

  // ----- What a callee sees -----

  /** The last call dispatch `d` made of a listener. */
  function LastCall(log: Log, d: nat): Option<Site> {
    if log == [] then None
    else
      var l := log[|log| - 1].what;
      if l.Ran? && l.site.d == d then Some(l.site) else LastCall(log[..|log| - 1], d)
  }

  ghost predicate Shows(ev: Event, site: Option<Site>) {
    match site
    case None => ev.currentTarget == None && ev.phase == NoPhase
    case Some(s) => ev.currentTarget == Some(s.key) && ev.phase == s.phase
  }

  lemma {:induction false} NoEarlyCall(worlds: seq<World>, log: Log, d: nat, n: nat)
    requires Legal(worlds, log) && n <= d < |log|
    ensures LastCall(log[..n], d) == None
  {
    if n > 0 {
      assert log[..n][..n - 1] == log[..n - 1];
      NoEarlyCall(worlds, log, d, n - 1);
      if n > 1 && log[n - 1].what.Ran? { SiteIsOpen(worlds, log, n - 1); }
    }
  }

  /** While a dispatch is open, its event shows the position of its last listener call. */
  lemma {:induction false} ShowsLastCall(worlds: seq<World>, log: Log, d: nat, k: nat)
    requires Legal(worlds, log) && OpenAt(log, d, k)
    ensures log[d].what.e in log[k].st.events
    ensures Shows(log[k].st.events[log[d].what.e], LastCall(log[..k + 1], d))
    decreases k
  {
    assert log[..k + 1][..k] == log[..k];
    if k == d {
      ShowsNothingYet(worlds, log, d);
    } else {
      ShowsLastCall(worlds, log, d, k - 1);
      OpenDispatches(worlds, log, d, k - 1);
      OpenDispatches(worlds, log, d, k);
      PositionStep(worlds, log, d, k);
    }
  }

  /** A dispatch begins with an event that shows no position. */
  lemma ShowsNothingYet(worlds: seq<World>, log: Log, d: nat)
    requires Legal(worlds, log) && d < |log| && log[d].what.Began?
    ensures log[d].what.e in log[d].st.events && Shows(log[d].st.events[log[d].what.e], LastCall(log[..d + 1], d))
  {
    assert log[..d + 1][..d] == log[..d];
    BeganEntry(worlds, log, d);
    NoEarlyCall(worlds, log, d, d);
    if d > 1 { ChangesOnly(worlds, log, d - 1); }
  }

  /** Only the dispatch's own calls move the position. */
  lemma PositionStep(worlds: seq<World>, log: Log, d: nat, k: nat)
    requires Legal(worlds, log) && OpenAt(log, d, k) && d < k
    requires log[d].what.e in log[k - 1].st.events && log[k - 1].st.events[log[d].what.e].dispatching
    requires log[d].what.e in log[k].st.events && log[k].st.events[log[d].what.e].dispatching
    ensures var a, b := log[k - 1].st.events[log[d].what.e], log[k].st.events[log[d].what.e];
            if log[k].what.Ran? && log[k].what.site.d == d
            then b.currentTarget == Some(log[k].what.site.key) && b.phase == log[k].what.site.phase
            else b.currentTarget == a.currentTarget && b.phase == a.phase
  {
    if log[k].what.Ran? {
      CallMoves(worlds, log, d, k);
    } else {
      LabelKeepsPosition(worlds, log[..k], log[k - 1].st, log[k].st, log[k].what, log[d].what.e);
      LabelAt(worlds, log, k);
    }
  }

  lemma LabelKeepsPosition(worlds: seq<World>, log: Log, p: State, s: State, l: Label, e: EventId)
    requires !l.Ran? && e in p.events && p.events[e].dispatching && e in s.events && s.events[e].dispatching
    ensures LabelOk(worlds, log, p, s, l) ==>
              s.events[e].currentTarget == p.events[e].currentTarget && s.events[e].phase == p.events[e].phase
  {
  }

  lemma CallMoves(worlds: seq<World>, log: Log, d: nat, k: nat)
    requires Legal(worlds, log) && OpenAt(log, d, k) && d < k && log[k].what.Ran?
    requires log[d].what.e in log[k - 1].st.events && log[d].what.e in log[k].st.events
    ensures var a, b := log[k - 1].st.events[log[d].what.e], log[k].st.events[log[d].what.e];
            if log[k].what.site.d == d
            then b.currentTarget == Some(log[k].what.site.key) && b.phase == log[k].what.site.phase
            else b.currentTarget == a.currentTarget && b.phase == a.phase
  {
    OwnCall(worlds, log, d, k);
    ChangesAt(worlds, log, k);
  }

  /** A call for an event is a call of the event's open dispatch. */
  lemma OwnCall(worlds: seq<World>, log: Log, d: nat, k: nat)
    requires Legal(worlds, log) && OpenAt(log, d, k) && d < k && log[k].what.Ran?
    ensures log[k].what.site.d == d <==> log[k].what.site.e == log[d].what.e
  {
    SiteIsOpen(worlds, log, k);
    if log[k].what.site.e == log[d].what.e { OneOpenDispatch(worlds, log, d, log[k].what.site.d, k); }
  }

  /** A listener is always told its own position. */
  lemma ListenerSeesPosition(worlds: seq<World>, log: Log, j: nat)
    requires Legal(worlds, log) && j < |log| && log[j].what.Ran?
    ensures log[j].what.site.e in log[j].st.events &&
            Shows(log[j].st.events[log[j].what.site.e], Some(log[j].what.site))
  {
    RanEntry(worlds, log, j);
  }

  lemma {:induction false} LastCallEntry(log: Log, d: nat)
    requires LastCall(log, d).Some?
    ensures exists q :: 0 <= q < |log| && CallsAt(log, q, LastCall(log, d).value) && LastCall(log, d).value.d == d
    decreases |log|
  {
    var n := |log| - 1;
    if log[n].what.Ran? && log[n].what.site.d == d {
      assert CallsAt(log, n, LastCall(log, d).value);
    } else {
      LastCallEntry(log[..n], d);
      var q :| 0 <= q < n && CallsAt(log[..n], q, LastCall(log, d).value);
      assert CallsAt(log, q, LastCall(log, d).value);
    }
  }

  ghost predicate CallsAt(log: Log, q: nat, site: Site)
    requires q < |log|
  {
    log[q].what.Ran? && log[q].what.site == site
  }

  /** The last call is not older than any call. */
  lemma {:induction false} LastCallIsLast(log: Log, d: nat, r: nat) returns (q: nat)
    requires r < |log| && log[r].what.Ran? && log[r].what.site.d == d
    ensures r <= q < |log| && LastCall(log, d).Some? && CallsAt(log, q, LastCall(log, d).value)
    ensures LastCall(log, d).value.d == d
    decreases |log|
  {
    var n := |log| - 1;
    if log[n].what.Ran? && log[n].what.site.d == d {
      q := n;
    } else {
      q := LastCallIsLast(log[..n], d, r);
    }
  }

  lemma PlanNoDup(path: seq<Target>, bubbles: bool)
    requires path != [] && NoDup(path)
    ensures NoDup(Plan(path, bubbles))
  {
  }

  lemma {:induction false} StepsGrow(log: Log, d: nat, a: nat, b: nat)
    requires a <= b <= |log|
    ensures |StepsOf(log[..a], d)| <= |StepsOf(log[..b], d)|
    decreases b
  {
    if a < b {
      StepsGrow(log, d, a, b - 1);
      StepsSnoc(log, b - 1, d);
    }
  }

  lemma StepIsPlanned(worlds: seq<World>, log: Log, s: nat)
    requires Legal(worlds, log) && s < |log| && log[s].what.Stepped?
    ensures var site := log[s].what.site;
            && site.step == s && site.d < s && log[site.d].what.Began?
            && log[site.d].what.e in log[site.d].st.events && log[site.d].what.path != []
            && |StepsOf(log[..s], site.d)| < |PlanOf(log, site.d)|
            && PlanOf(log, site.d)[|StepsOf(log[..s], site.d)|] == (site.key, site.phase)
  {
    ChangesAt(worlds, log, s);
    var site := log[s].what.site;
    var steps, plan := StepsOf(log[..s], site.d), PlanOf(log, site.d);
    assert PlanOf(log[..s], site.d) == plan;
    assert (steps + [(site.key, site.phase)])[|steps|] == (site.key, site.phase);
  }

  /** A dispatch never stands at the same position twice. */
  lemma PositionsDiffer(worlds: seq<World>, log: Log, s: nat, t: nat)
    requires Legal(worlds, log) && s < t < |log| && log[s].what.Stepped? && log[t].what.Stepped?
    requires log[s].what.site.d == log[t].what.site.d
    ensures (log[s].what.site.key, log[s].what.site.phase) != (log[t].what.site.key, log[t].what.site.phase)
  {
    var d := log[s].what.site.d;
    StepIsPlanned(worlds, log, s);
    StepIsPlanned(worlds, log, t);
    StepsSnoc(log, s, d);
    StepsGrow(log, d, s + 1, t);
    BeganEntry(worlds, log, d);
    PlanNoDup(log[d].what.path, log[d].st.events[log[d].what.e].bubbles);
  }

  /** An event handler attribute sees the event's true `currentTarget` and `eventPhase` exactly
      when some listener has already been called at the same step, in any world: the
      handler call itself sets neither. */
  lemma HandlerSeesPosition(worlds: seq<World>, log: Log, j: nat)
    requires Legal(worlds, log) && j < |log| && log[j].what.RanHandler?
    ensures var site := log[j].what.site;
            && site.e in log[j].st.events
            && (Shows(log[j].st.events[site.e], Some(site))
                <==> exists r :: site.step < r < j && CallsAt(log, r, site))
  {
    assert j > 0;
    var site := log[j].what.site;
    SiteIsOpen(worlds, log, j);
    ShowsLastCall(worlds, log, site.d, j);
    var upTo := log[..j + 1];
    if r :| site.step < r < j && CallsAt(log, r, site) {
      var q := LastCallIsLast(upTo, site.d, r);
      assert upTo[q] == log[q] && q != j;
      SameStep(worlds, log, q, j, LastCall(upTo, site.d).value);
    } else if LastCall(upTo, site.d).Some? {
      LastCallEntry(upTo, site.d);
      var last := LastCall(upTo, site.d).value;
      var q :| 0 <= q < j + 1 && CallsAt(upTo, q, last);
      OlderStep(worlds, log, q, j, last);
    }
  }

  /** A page whose window has an event handler and no listener. */
  function HandlerPage(): State {
    EmptyIsWellFormed();
    State(map[], {(0, Window, "x")}, map[0 := HandlerEvent(false)], EMPTY)
  }

  function HandlerEvent(dispatching: bool): Event {
    Event("x", false, false, false, None, if dispatching then Some(Window) else None, None, NoPhase,
          false, false, false, true, dispatching, if dispatching then [Window] else [], false)
  }

  const HANDLER_SITE := Site(1, 0, 2, Window, AtTarget)

  function HandlerRun(): (log: Log)
    ensures |log| == 5
  {
    var st := HandlerPage().Set(0, HandlerEvent(true));
    [Entry(Started, HandlerPage()),
     Entry(Began(0, Window, [Window], 0, false, false), st),
     Entry(Stepped(HANDLER_SITE), st),
     Entry(Snapped(HANDLER_SITE, 0, [], true), st),
     Entry(RanHandler(HANDLER_SITE, 0, 3), st)]
  }

  /** The handler of an element nobody listens on is shown no `currentTarget` and no phase. */
  lemma HandlerSeesNothing()
    ensures Legal([0], HandlerRun()) && HandlerRun()[4].what.RanHandler?
    ensures 0 in HandlerRun()[4].st.events && !Shows(HandlerRun()[4].st.events[0], Some(HANDLER_SITE))
  {
    var log := HandlerRun();
    HandlerRunChanges();
    HandlerRunSteps();
    forall k | 0 < k < |log| ensures LegalAt([0], log, k) {
      assert log[..k][k - 1] == log[k - 1];
    }
  }

  lemma HandlerRunChanges()
    ensures StartOk(HandlerPage())
    ensures forall k :: 0 < k < |HandlerRun()| ==> Changes(HandlerRun()[k - 1].st, HandlerRun()[k].st, None)
  {
  }

  lemma HandlerRunSteps()
    ensures forall k :: 0 < k < |HandlerRun()| ==>
              LabelOk([0], HandlerRun()[..k], HandlerRun()[k - 1].st, HandlerRun()[k].st, HandlerRun()[k].what)
  {
    HandlerFirst();
    HandlerRest();
    forall k | 0 < k < |HandlerRun()|
      ensures LabelOk([0], HandlerRun()[..k], HandlerRun()[k - 1].st, HandlerRun()[k].st, HandlerRun()[k].what)
    {
      assert k == 1 || k == 2 || k == 3 || k == 4;
    }
  }

  lemma HandlerFirst()
    ensures var log := HandlerRun();
      && LabelOk([0], log[..1], log[0].st, log[1].st, log[1].what)
      && LabelOk([0], log[..2], log[1].st, log[2].st, log[2].what)
  {
    HandlerBegins();
    HandlerStep(HandlerRun()[..2], HandlerRun()[1].st);
  }

  lemma HandlerRest()
    ensures var log := HandlerRun();
      && LabelOk([0], log[..3], log[2].st, log[3].st, log[3].what)
      && LabelOk([0], log[..4], log[3].st, log[4].st, log[4].what)
  {
    HandlerCall(HandlerRun()[..3], HandlerRun()[..4], HandlerRun()[1].st);
  }

  lemma HandlerBegins()
    ensures BeganOk(HandlerRun()[0].st, HandlerRun()[1].st, HandlerRun()[1].what)
  {
  }

  lemma HandlerStep(log: Log, st: State)
    requires log == HandlerRun()[..2] && st == log[1].st
    ensures SteppedOk(log, st, st, HANDLER_SITE)
  {
    StepsSnoc(log, 0, 1);
    StepsSnoc(log, 1, 1);
    assert log[..0] == [] && log[..2] == log;
    assert StepsOf(log, 1) == [];
    assert PlanOf(log, 1) == [(Window, AtTarget)];
  }

  lemma HandlerCall(log: Log, next: Log, st: State)
    requires log == HandlerRun()[..3] && next == HandlerRun()[..4] && st == log[1].st
    ensures SnappedOk([0], log, st, st, HandlerRun()[3].what) && RanHandlerOk(next, st, st, HANDLER_SITE, 0, 3)
  {
    assert Recorded(log, HANDLER_SITE) && Recorded(next, HANDLER_SITE);
  }

  /** A call after the current step began is a call at the current step. */
  lemma SameStep(worlds: seq<World>, log: Log, q: nat, j: nat, last: Site)
    requires Legal(worlds, log) && q < j < |log| && log[j].what.RanHandler? && CallsAt(log, q, last)
    requires last.d == log[j].what.site.d && log[j].what.site.step < q
    ensures last == log[j].what.site
  {
    var site := log[j].what.site;
    SiteIsOpen(worlds, log, j);
    SiteIsOpen(worlds, log, q);
    assert log[..j][site.step] == log[site.step] && log[..q][last.step] == log[last.step];
    assert log[..q][site.step] == log[site.step] && log[..j][last.step] == log[last.step];
  }

  /** A call at another step shows another position. */
  lemma OlderStep(worlds: seq<World>, log: Log, q: nat, j: nat, last: Site)
    requires Legal(worlds, log) && q < j < |log| && log[j].what.RanHandler? && CallsAt(log, q, last)
    requires last.d == log[j].what.site.d
    requires !exists r :: log[j].what.site.step < r < j && CallsAt(log, r, log[j].what.site)
    ensures (last.key, last.phase) != (log[j].what.site.key, log[j].what.site.phase)
  {
    var site := log[j].what.site;
    SiteIsOpen(worlds, log, j);
    SiteIsOpen(worlds, log, q);
    assert log[..j][site.step] == log[site.step] && log[..q][last.step] == log[last.step];
    if last.step < site.step {
      PositionsDiffer(worlds, log, last.step, site.step);
    } else {
      SameStep(worlds, log, q, j, last);
      assert CallsAt(log, q, site);
    }
  }

  // ----- What actions do, and what cancels and stops an event -----

  /** What page code does is done at once, and in full. */
  lemma ActionIsPerformed(worlds: seq<World>, log: Log, k: nat)
    requires Legal(worlds, log) && 0 < k < |log| && log[k].what.Acted?
    ensures log[k].st == Perform(log[k - 1].st, log[k].what.a)
  {
    LabelAt(worlds, log, k);
  }

  /** Each action page code takes has its effect: on the registries, the handlers and the tree... */
  lemma RegistryActionTakesEffect(p: State, a: Action)
    ensures var s := Perform(p, a);
      match a
      case AddListener(w, t, l) => s.Reg(w).At(t) == p.Reg(w).At(t) + [l.(id := p.Reg(w).nextId + 1)]
      case RemoveListener(w, t, id) => forall l :: l in s.Reg(w).At(t) <==> l in p.Reg(w).At(t) && l.id != id
      case AbortSignal(w, signal) =>
        forall t, l :: l in s.Reg(w).At(t) <==> l in p.Reg(w).At(t) && l.signal != Some(signal)
      case FinalizeTarget(w, t) => s.Reg(w).At(t) == []
      case SetHandler(w, t, eventType, present) => (w, t, eventType) in s.handlers <==> present
      case ChangeTree(f) => s.forest == f
      case _ => s.regs == p.regs && s.handlers == p.handlers && s.forest == p.forest
  {
    var s := Perform(p, a);
    match a {
      case AddListener(w, t, l) => InsertEvolves(p.Reg(w), t, l);
      case AbortSignal(w, signal) =>
        RemoveBySignalEvolves(p.Reg(w), signal);
        assert s.Reg(w) == p.Reg(w).RemoveBySignal(signal);
      case _ =>
    }
  }

  /** ...and on the event it names; on every other event it has none. */
  lemma EventActionTakesEffect(p: State, a: Action, e: EventId)
    requires e in p.events
    ensures e in Perform(p, a).events
    ensures var x, y := p.events[e], Perform(p, a).events[e];
      var init := a.InitEvent? && a.e == e && !x.dispatching;
      && (y.canceled <==> !init && (x.canceled || (a == PreventDefault(e) && x.cancelable && !x.passive)))
      && (y.stop <==> !init && (x.stop || a == StopPropagation(e) || a == StopImmediatePropagation(e)))
      && (y.stopNow <==> !init && (x.stopNow || a == StopImmediatePropagation(e)))
      && y.dispatching == x.dispatching && y.composed == x.composed && y.related == x.related
      && (init ==> y.initialized && y.eventType == a.eventType && y.bubbles == a.bubbles && y.cancelable == a.cancelable
                   && y.target == None)
      && (!init ==> y.initialized == x.initialized && y.eventType == x.eventType && y.bubbles == x.bubbles
                    && y.cancelable == x.cancelable && y.target == x.target)
  {
  }

  /** One entry's part in that, while the event is under dispatch. */
  lemma FlagsStep(worlds: seq<World>, log: Log, d: nat, k: nat)
    requires Legal(worlds, log) && d < k && OpenAt(log, d, k)
    ensures var e := log[d].what.e;
      && e in log[k - 1].st.events && e in log[k].st.events
      && var x, y, l := log[k - 1].st.events[e], log[k].st.events[e], log[k].what;
      && (y.canceled <==>
            x.canceled
            || ((l == Acted(PreventDefault(e)) || (l.HandlerReturned? && l.site.e == e && !l.value))
                && x.cancelable && !x.passive))
      && (y.stop <==> x.stop || l == Acted(StopPropagation(e)) || l == Acted(StopImmediatePropagation(e)))
      && (y.stopNow <==> x.stopNow || l == Acted(StopImmediatePropagation(e)))
  {
    StaysFrozen(worlds, log, d, k);
    if log[k].what.Acted? {
      ActionIsPerformed(worlds, log, k);
      EventActionTakesEffect(log[k - 1].st, log[k].what.a, log[d].what.e);
    } else {
      LabelSetsNoFlag(worlds, log[..k], log[k - 1].st, log[k].st, log[k].what, log[d].what.e);
      LabelAt(worlds, log, k);
    }
  }

  lemma LabelSetsNoFlag(worlds: seq<World>, log: Log, p: State, s: State, l: Label, e: EventId)
    requires !l.Acted? && e in p.events && p.events[e].dispatching && e in s.events && s.events[e].dispatching
    ensures LabelOk(worlds, log, p, s, l) ==>
      && s.events[e].stop == p.events[e].stop && s.events[e].stopNow == p.events[e].stopNow
      && (s.events[e].canceled <==>
            p.events[e].canceled
            || (l.HandlerReturned? && l.site.e == e && !l.value && p.events[e].cancelable && !p.events[e].passive))
  {
  }

  /** While its dispatch is open an event is canceled exactly if it was when the dispatch began, or since
      then `preventDefault` was called on it, or a handler of its answered `false`, at a moment when it was
      cancelable and no passive listener of its was running. */
  lemma {:induction false} CanceledExactly(worlds: seq<World>, log: Log, d: nat, j: nat)
    requires Legal(worlds, log) && OpenAt(log, d, j)
    ensures var e := log[d].what.e;
      && e in log[d].st.events && e in log[j].st.events
      && (log[j].st.events[e].canceled <==>
            log[d].st.events[e].canceled
            || exists k :: d < k <= j
                 && (log[k].what == Acted(PreventDefault(e))
                     || (log[k].what.HandlerReturned? && log[k].what.site.e == e && !log[k].what.value))
                 && e in log[k - 1].st.events
                 && log[k - 1].st.events[e].cancelable && !log[k - 1].st.events[e].passive)
    decreases j
  {
    if d < j {
      CanceledExactly(worlds, log, d, j - 1);
      FlagsStep(worlds, log, d, j);
    } else {
      OpenDispatches(worlds, log, d, d);
    }
  }

  /** Likewise its stop flags: `stopImmediatePropagation` sets both, `stopPropagation` the one. */
  lemma {:induction false} StoppedExactly(worlds: seq<World>, log: Log, d: nat, j: nat)
    requires Legal(worlds, log) && OpenAt(log, d, j)
    ensures var e := log[d].what.e;
      && e in log[d].st.events && e in log[j].st.events
      && (log[j].st.events[e].stopNow <==>
            log[d].st.events[e].stopNow
            || exists k :: d < k <= j && log[k].what == Acted(StopImmediatePropagation(e)))
      && (log[j].st.events[e].stop <==>
            log[d].st.events[e].stop
            || exists k :: d < k <= j && (log[k].what == Acted(StopPropagation(e))
                                          || log[k].what == Acted(StopImmediatePropagation(e))))
    decreases j
  {
    if d < j {
      StoppedExactly(worlds, log, d, j - 1);
      FlagsStep(worlds, log, d, j);
    } else {
      OpenDispatches(worlds, log, d, d);
    }
  }

  /** What a finished dispatch leaves of the event: its flag, and its target unless that is to be cleared. */
  lemma EndsAsBegun(worlds: seq<World>, log: Log, d: nat)
    requires Legal(worlds, log) && 0 < |log| - 1 && log[|log| - 1].what == Ended(d)
    ensures d < |log| - 1 && 0 < d && log[d].what.Began?
    ensures var e, s := log[d].what.e, log[|log| - 1].st;
      && e in log[d - 1].st.events && e in s.events
      && (s.events[e].canceled <==>
            log[d - 1].st.events[e].canceled || exists k :: d < k < |log| && Cancels(log, k, e))
      && s.events[e].target == (if log[d].what.clear then None else Some(log[d].what.target))
  {
    var j := |log| - 1;
    EndedEntry(worlds, log, d, j);
    BeganEntry(worlds, log, d);
    TargetStays(worlds, log, d, j - 1);
    EndKeeps(worlds, log, d);
    CanceledUntilEnd(worlds, log, d);
  }

  lemma EndKeeps(worlds: seq<World>, log: Log, d: nat)
    requires Legal(worlds, log) && 0 < |log| - 1 && log[|log| - 1].what == Ended(d)
    requires d < |log| && log[d].what.Began? && log[d].what.e in log[|log| - 2].st.events
    ensures var e, p, s := log[d].what.e, log[|log| - 2].st, log[|log| - 1].st;
      && e in s.events && s.events[e].canceled == p.events[e].canceled
      && s.events[e].target == if log[d].what.clear then None else p.events[e].target
  {
    LabelAt(worlds, log, |log| - 1);
  }

  lemma CanceledUntilEnd(worlds: seq<World>, log: Log, d: nat)
    requires Legal(worlds, log) && 0 < d < |log| - 1 && log[|log| - 1].what == Ended(d) && OpenAt(log, d, |log| - 2)
    ensures var e := log[d].what.e;
      && e in log[d].st.events && e in log[|log| - 2].st.events
      && (log[|log| - 2].st.events[e].canceled <==>
            log[d].st.events[e].canceled || exists k :: d < k < |log| && Cancels(log, k, e))
  {
    var e := log[d].what.e;
    CanceledExactly(worlds, log, d, |log| - 2);
    if k :| d < k < |log| && Cancels(log, k, e) {
      assert k <= |log| - 2;
    }
    forall k | d < k <= |log| - 2 ensures Cancels(log, k, e) <==>
      ((log[k].what == Acted(PreventDefault(e))
        || (log[k].what.HandlerReturned? && log[k].what.site.e == e && !log[k].what.value))
       && e in log[k - 1].st.events && log[k - 1].st.events[e].cancelable && !log[k - 1].st.events[e].passive) {}
  }

  lemma {:induction false} TargetStays(worlds: seq<World>, log: Log, d: nat, j: nat)
    requires Legal(worlds, log) && OpenAt(log, d, j)
    ensures log[d].what.e in log[j].st.events
    ensures log[j].st.events[log[d].what.e].target == Some(log[d].what.target)
    decreases j
  {
    if d < j {
      TargetStays(worlds, log, d, j - 1);
      StaysFrozen(worlds, log, d, j);
    } else {
      BeganEntry(worlds, log, d);
    }
  }

  // ----- Passive listeners -----

  /** An entry that is not its dispatch's own keeps a passive event passive and uncancelled. */
  lemma PassiveStep(worlds: seq<World>, log: Log, d: nat, k: nat)
    requires Legal(worlds, log) && d < k && OpenAt(log, d, k) && Advances(log[k].what) != Some(d)
    requires log[d].what.e in log[k - 1].st.events && log[k - 1].st.events[log[d].what.e].passive
    ensures var e := log[d].what.e;
            && e in log[k].st.events && log[k].st.events[e].passive
            && log[k].st.events[e].canceled == log[k - 1].st.events[e].canceled
  {
    var e := log[d].what.e;
    StaysFrozen(worlds, log, d, k);
    OtherSite(worlds, log, d, k);
    LabelAt(worlds, log, k);
  }

  lemma LabelAt(worlds: seq<World>, log: Log, k: nat)
    requires Legal(worlds, log) && 0 < k < |log|
    ensures LabelOk(worlds, log[..k], log[k - 1].st, log[k].st, log[k].what)
  {
    assert LegalAt(worlds, log, k);
  }

  /** Calls and returns of other dispatches concern other events. */
  lemma OtherSite(worlds: seq<World>, log: Log, d: nat, k: nat)
    requires Legal(worlds, log) && d < k && OpenAt(log, d, k) && Advances(log[k].what) != Some(d)
    ensures log[k].what.Ran? || log[k].what.Returned? || log[k].what.HandlerReturned? ==>
              log[k].what.site.e != log[d].what.e
  {
    LabelAt(worlds, log, k);
    if log[k].what.Ran? || log[k].what.Returned? || log[k].what.HandlerReturned? {
      var site := log[k].what.site;
      assert OpenAt(log, site.d, k) && log[site.d].what.e == site.e;
      if site.e == log[d].what.e { OneOpenDispatch(worlds, log, d, site.d, k); }
    }
  }

  lemma {:induction false} PassiveHolds(worlds: seq<World>, log: Log, d: nat, i: nat, k: nat)
    requires Legal(worlds, log) && d <= i <= k && OpenAt(log, d, k)
    requires log[d].what.e in log[i].st.events && log[i].st.events[log[d].what.e].passive
    requires forall m :: i < m <= k ==> Advances(log[m].what) != Some(d)
    ensures var e := log[d].what.e;
            && e in log[k].st.events && log[k].st.events[e].passive
            && log[k].st.events[e].canceled == log[i].st.events[e].canceled
    decreases k
  {
    if i < k {
      PassiveHolds(worlds, log, d, i, k - 1);
      PassiveStep(worlds, log, d, k);
    }
  }

  /** Nothing done during a passive listener's call, however deeply nested, cancels the event. */
  lemma PassiveNeverCancels(worlds: seq<World>, log: Log, i: nat, j: nat)
    requires Legal(worlds, log) && 0 < j < |log| && log[j].what.Returned? && log[j].what.ran == i
    requires i < |log| && log[i].what.Ran? && log[i].what.l.passive
    ensures var e := log[j].what.site.e;
            && 0 < i < j && e in log[i - 1].st.events && e in log[j].st.events
            && log[j].st.events[e].canceled == log[i - 1].st.events[e].canceled
  {
    LabelAt(worlds, log, j);
    RanEntry(worlds, log, i);
    PassiveHolds(worlds, log, log[j].what.site.d, i, j - 1);
  }
}
