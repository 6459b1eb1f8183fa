/** One world's listener lists, with the registry's add, remove and query operations. */
module Listeners {
  import opened Common
  import opened Forest

  /** `id` is minted per registry and never reused; the callback itself is opaque. */
  datatype Listener = Listener(
    id: nat, eventType: string, capture: bool, once: bool, passive: bool, signal: Option<nat>)

  datatype Registry = Registry(nextId: nat, lists: map<Target, seq<Listener>>) {

    function At(t: Target): seq<Listener> {
      if t in lists then lists[t] else []
    }

    function Insert(t: Target, l: Listener): Registry {
      Registry(nextId + 1, lists[t := At(t) + [l.(id := nextId + 1)]])
    }

    function RemoveById(t: Target, id: nat): Registry {
      Put(t, Without(At(t), id))
    }

    function RemoveBySignal(signal: nat): Registry {
      this.(lists := map t | t in lists && Unsignalled(lists[t], signal) != [] :: Unsignalled(lists[t], signal))
    }

    function RemoveTarget(t: Target): Registry {
      this.(lists := lists - {t})
    }

    /** An emptied list leaves the map. */
    function Put(t: Target, s: seq<Listener>): Registry {
      this.(lists := if s == [] then lists - {t} else lists[t := s])
    }

    function Snapshot(t: Target, eventType: string): seq<Listener> {
      OfType(At(t), eventType)
    }

    predicate Contains(t: Target, id: nat) {
      exists i :: 0 <= i < |At(t)| && At(t)[i].id == id
    }

    /** Lists are in registration order and name only minted ids. */
    ghost predicate Valid() {
      forall t :: Ordered(At(t)) && forall i :: 0 <= i < |At(t)| ==> At(t)[i].id <= nextId
    }
  }

  const NO_LISTENERS := Registry(0, map[])

  ghost predicate Ordered(s: seq<Listener>) {
    forall i, j :: 0 <= i < j < |s| ==> s[i].id < s[j].id
  }

  ghost predicate Within(s: seq<Listener>, t: seq<Listener>) {
    forall i :: 0 <= i < |s| ==> s[i] in t
  }

  function Without(s: seq<Listener>, id: nat): (r: seq<Listener>)
    ensures Within(r, s)
    ensures forall i :: 0 <= i < |r| ==> r[i].id != id
    ensures forall l :: l in s && l.id != id ==> l in r
    ensures Ordered(s) ==> Ordered(r)
  {
    if s == [] then []
    else if s[|s| - 1].id == id then Without(s[..|s| - 1], id)
    else Without(s[..|s| - 1], id) + [s[|s| - 1]]
  }

  function Unsignalled(s: seq<Listener>, signal: nat): (r: seq<Listener>)
    ensures Within(r, s)
    ensures forall l :: l in r <==> l in s && l.signal != Some(signal)
    ensures Ordered(s) ==> Ordered(r)
  {
    if s == [] then []
    else if s[|s| - 1].signal == Some(signal) then Unsignalled(s[..|s| - 1], signal)
    else Unsignalled(s[..|s| - 1], signal) + [s[|s| - 1]]
  }

  function OfType(s: seq<Listener>, eventType: string): (r: seq<Listener>)
    ensures Within(r, s)
    ensures forall l :: l in r <==> l in s && l.eventType == eventType
    ensures Ordered(s) ==> Ordered(r)
  {
    if s == [] then []
    else if s[|s| - 1].eventType == eventType then OfType(s[..|s| - 1], eventType) + [s[|s| - 1]]
    else OfType(s[..|s| - 1], eventType)
  }

  /** What one operation may do to a registry: ids are only minted upwards, and a listener
      present afterwards was there before, unchanged, or is newly minted. */
  ghost predicate Evolves(before: Registry, after: Registry) {
    && before.nextId <= after.nextId
    && (before.Valid() ==> after.Valid())
    && forall t, l :: l in after.At(t) ==> l in before.At(t) || before.nextId < l.id
  }

  lemma InsertEvolves(r: Registry, t: Target, l: Listener)
    ensures Evolves(r, r.Insert(t, l))
    ensures forall u :: r.Insert(t, l).At(u) == if u == t then r.At(t) + [l.(id := r.nextId + 1)] else r.At(u)
  {
    var after := r.Insert(t, l);
    assert forall u :: after.At(u) == if u == t then r.At(t) + [l.(id := r.nextId + 1)] else r.At(u);
    if r.Valid() {
      forall u
        ensures Ordered(after.At(u)) && forall i :: 0 <= i < |after.At(u)| ==> after.At(u)[i].id <= after.nextId
      {
        assert Ordered(r.At(u));
      }
    }
  }

  /** Dropping entries, whichever they are, evolves. */
  lemma ShrinkEvolves(r: Registry, after: Registry)
    requires after.nextId == r.nextId
    requires forall t :: Within(after.At(t), r.At(t)) && (Ordered(r.At(t)) ==> Ordered(after.At(t)))
    ensures Evolves(r, after)
  {
    forall t, l | l in after.At(t) ensures l in r.At(t) {
      assert Within(after.At(t), r.At(t));
    }
    if r.Valid() {
      forall t
        ensures Ordered(after.At(t)) && forall i :: 0 <= i < |after.At(t)| ==> after.At(t)[i].id <= after.nextId
      {
        assert Within(after.At(t), r.At(t)) && Ordered(r.At(t));
      }
    }
  }

  lemma RemoveByIdEvolves(r: Registry, t: Target, id: nat)
    ensures Evolves(r, r.RemoveById(t, id)) && !r.RemoveById(t, id).Contains(t, id)
    ensures forall u, x :: (u != t || x != id) && r.Contains(u, x) ==> r.RemoveById(t, id).Contains(u, x)
  {
    var after := r.RemoveById(t, id);
    assert forall u :: after.At(u) == if u == t then Without(r.At(t), id) else r.At(u);
    ShrinkEvolves(r, after);
    forall u, x | (u != t || x != id) && r.Contains(u, x) ensures after.Contains(u, x) {
      var i :| 0 <= i < |r.At(u)| && r.At(u)[i].id == x;
      assert r.At(u)[i] in after.At(u);
      var j :| 0 <= j < |after.At(u)| && after.At(u)[j] == r.At(u)[i];
    }
  }

  lemma RemoveBySignalEvolves(r: Registry, signal: nat)
    ensures Evolves(r, r.RemoveBySignal(signal))
    ensures forall t, l :: l in r.RemoveBySignal(signal).At(t) <==> l in r.At(t) && l.signal != Some(signal)
  {
    var after := r.RemoveBySignal(signal);
    assert forall t :: after.At(t) == Unsignalled(r.At(t), signal);
    ShrinkEvolves(r, after);
  }

  lemma RemoveTargetEvolves(r: Registry, t: Target)
    ensures Evolves(r, r.RemoveTarget(t)) && forall id :: !r.RemoveTarget(t).Contains(t, id)
  {
    var after := r.RemoveTarget(t);
    assert forall u :: after.At(u) == if u == t then [] else r.At(u);
    ShrinkEvolves(r, after);
  }

  lemma SnapshotContained(r: Registry, t: Target, eventType: string)
    ensures var s := r.Snapshot(t, eventType);
            && (forall l :: l in s <==> l in r.At(t) && l.eventType == eventType)
            && (forall i :: 0 <= i < |s| ==> r.Contains(t, s[i].id) && s[i].eventType == eventType)
            && (r.Valid() ==> Ordered(s))
  {
    var s := r.Snapshot(t, eventType);
    forall i | 0 <= i < |s| ensures r.Contains(t, s[i].id) && s[i].eventType == eventType {
      assert s[i] in r.At(t);
      var j :| 0 <= j < |r.At(t)| && r.At(t)[j] == s[i];
    }
    if r.Valid() { assert Ordered(r.At(t)); }
  }

  /** What is gone stays gone: a minted id that is absent can never come back. */
  lemma AbsentStaysAbsent(a: Registry, b: Registry, t: Target, id: nat)
    requires Evolves(a, b) && id <= a.nextId && !a.Contains(t, id)
    ensures id <= b.nextId && !b.Contains(t, id)
  {
  }

  /** What is still there under its id is the very same listener. */
  lemma PresentIsSame(a: Registry, b: Registry, t: Target, l: Listener)
    requires a.Valid() && Evolves(a, b) && l in a.At(t) && b.Contains(t, l.id)
    ensures l in b.At(t)
  {
    var i :| 0 <= i < |b.At(t)| && b.At(t)[i].id == l.id;
    var x := b.At(t)[i];
    assert x in b.At(t);
    var j :| 0 <= j < |a.At(t)| && a.At(t)[j] == l;
    assert l.id <= a.nextId;
    var k :| 0 <= k < |a.At(t)| && a.At(t)[k] == x;
    assert Ordered(a.At(t));
  }
}
