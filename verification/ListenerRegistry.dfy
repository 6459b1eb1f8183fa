/**
  * The registry as the program keeps it: a counter and a map of lists, updated in place, each
  * operation the one of `Listeners.Registry`.
  */
module ListenerRegistry {
  import opened Common
  import opened Forest
  import opened Listeners

  class ListenerRegistry {
    var nextId: nat
    var lists: map<Target, seq<Listener>>

    ghost function View(): Registry
      reads this
    {
      Registry(nextId, lists)
    }

    constructor ()
      ensures View() == NO_LISTENERS
    {
      nextId, lists := 0, map[];
    }

    /** `insert`: the listener's own id is ignored, a new one is minted. */
    method Insert(target: Target, l: Listener)
      modifies this
      ensures View() == old(View()).Insert(target, l)
    {
      nextId := nextId + 1;
      var list := if target in lists then lists[target] else [];
      lists := lists[target := list + [l.(id := nextId)]];
    }

    /** `remove_by_signal`. */
    method RemoveBySignal(signal: nat)
      modifies this`lists
      ensures View() == old(View()).RemoveBySignal(signal)
    {
      var todo := lists.Keys;
      while todo != {}
        invariant todo <= old(lists).Keys
        invariant forall t :: t in lists <==> t in old(lists) && (t in todo || Unsignalled(old(lists)[t], signal) != [])
        invariant forall t :: t in lists ==> lists[t] == if t in todo then old(lists)[t]
                  else Unsignalled(old(lists)[t], signal)
        decreases |todo|
      {
        var t :| t in todo;
        var kept := RetainOthers(lists[t], signal);
        lists := if kept == [] then lists - {t} else lists[t := kept];
        todo := todo - {t};
      }
      assert lists == old(View()).RemoveBySignal(signal).lists;
    }

    /** `remove_by_id`. */
    method RemoveById(target: Target, id: nat)
      modifies this`lists
      ensures View() == old(View()).RemoveById(target, id)
    {
      if target !in lists {
        assert lists - {target} == lists;
        return;
      }
      var list := lists[target];
      var kept: seq<Listener> := [];
      for i := 0 to |list|
        invariant kept == Without(list[..i], id)
      {
        assert list[..i + 1][..i] == list[..i];
        if list[i].id != id { kept := kept + [list[i]]; }
      }
      assert list[..|list|] == list;
      lists := if kept == [] then lists - {target} else lists[target := kept];
    }

    method RemoveTarget(target: Target)
      modifies this`lists
      ensures View() == old(View()).RemoveTarget(target)
    {
      lists := lists - {target};
    }

    method Snapshot(target: Target, eventType: string) returns (snapshot: seq<Listener>)
      ensures snapshot == View().Snapshot(target, eventType)
    {
      snapshot := [];
      if target in lists {
        var list := lists[target];
        for i := 0 to |list|
          invariant snapshot == OfType(list[..i], eventType)
        {
          assert list[..i + 1][..i] == list[..i];
          if list[i].eventType == eventType { snapshot := snapshot + [list[i]]; }
        }
        assert list[..|list|] == list;
      }
    }

    method Contains(target: Target, id: nat) returns (r: bool)
      ensures r <==> View().Contains(target, id)
    {
      if target !in lists { return false; }
      var list := lists[target];
      for i := 0 to |list|
        invariant forall j :: 0 <= j < i ==> list[j].id != id
      {
        if list[i].id == id {
          assert View().At(target)[i].id == id;
          return true;
        }
      }
      return false;
    }
  }

  /** `retain` on one list. */
  method RetainOthers(list: seq<Listener>, signal: nat) returns (kept: seq<Listener>)
    ensures kept == Unsignalled(list, signal)
  {
    kept := [];
    for i := 0 to |list|
      invariant kept == Unsignalled(list[..i], signal)
    {
      assert list[..i + 1][..i] == list[..i];
      if list[i].signal != Some(signal) { kept := kept + [list[i]]; }
    }
    assert list[..|list|] == list;
  }
}
