/**
  * The connectivity log as the program keeps it: a queue in the DOM, a numbered log shared by
  * the page's worlds, cursors and hold tables updated in place. Each operation takes the
  * step of `Connectivity` it stands for.
  */
module ConnectivityLog {
  import opened Connectivity

  /** A log entry carries its sequence number. */
  datatype Logged = Logged(number: nat, change: Change)

  /** Entries numbered from `from + 1` on. */
  ghost predicate Numbered(log: seq<Logged>, history: seq<Change>, from: nat) {
    && from <= |history| && |log| == |history| - from
    && forall i :: 0 <= i < |log| ==> log[i] == Logged(from + i + 1, history[from + i])
  }

  class PageGlobal {
    var connected: set<Node>
    var pins: map<Token, Node>
    var queue: seq<Change>
    var log: seq<Logged>
    var seqNo: nat
    var worlds: map<World, WorldState>
    /** The live worlds in order of creation. */
    var order: seq<World>
    ghost var history: seq<Change>
    ghost var low: nat

    ghost function Now(): State
      reads this
    {
      State(connected, pins, queue, history, low, worlds)
    }

    ghost predicate Valid()
      reads this
    {
      && Sound(Now()) && seqNo == |history| && Numbered(log, history, low)
      && forall w :: w in order <==> w in worlds
    }

    constructor ()
      ensures Valid() && Now() == EMPTY
    {
      connected, pins, queue, log, seqNo, worlds, order := {}, map[], [], [], 0, map[], [];
      history, low := [], 0;
    }

    /** `set_connectedness_composed`, for one node. */
    method SetConnected(n: Node, flag: bool)
      requires Valid()
      modifies this
      ensures Valid() && Now() == Flip(old(Now()), n, flag)
      ensures connected == if flag then old(connected) + {n} else old(connected) - {n}
      ensures queue == old(queue) + if (n in old(connected)) != flag && n in pins.Values then [Change(n, flag)] else []
    {
      NextSound(Now(), if flag then Connect(n) else Disconnect(n), Flip(Now(), n, flag));
      if (n in connected) != flag {
        if Pinned(State(connected, pins, queue, [], 0, worlds), n) {
          queue := queue + [Change(n, flag)];
        }
        connected := if flag then connected + {n} else connected - {n};
      }
    }

    /** `node_to_js`. */
    method NodeToJs(w: World, n: Node, t: Token)
      requires Valid() && w in worlds && t !in pins
      modifies this
      ensures Valid() && Now() == Mint(old(Now()), w, n, t)
      ensures n in old(worlds)[w].live ==> Now() == old(Now())
      ensures n !in old(worlds)[w].live ==>
        && pins == old(pins)[t := n] && w in worlds && worlds[w].live == old(worlds)[w].live[n := t]
        && worlds[w].strong == old(worlds)[w].strong + (if n in connected then {n} else {})
        && worlds[w].pending == old(worlds)[w].pending + if n in connected then {} else {n}
    {
      NextSound(Now(), Wrap(w, n, t), Mint(Now(), w, n, t));
      var ws := worlds[w];
      if n in ws.live { return; }
      ws := ws.(live := ws.live[n := t]);
      pins := pins[t := n];
      if n in connected {
        ws := ws.(strong := ws.strong + {n});
      } else {
        ws := ws.(pending := ws.pending + {n});
      }
      worlds := worlds[w := ws];
    }

    /** `install_world`: a fresh world starts at the end of the log. */
    method InstallWorld(w: World, frame: FrameId)
      requires Valid() && w !in worlds
      modifies this
      ensures Valid() && Next(old(Now()), Open(w, frame), Now())
    {
      worlds := worlds[w := WorldState(frame, map[], {}, {}, seqNo, seqNo, [])];
      order := order + [w];
    }

    /** The DOM's queue moves into the log. */
    method TakeQueue()
      requires Valid()
      modifies this
      ensures Valid() && queue == [] && history == old(history) + old(queue)
      ensures connected == old(connected) && pins == old(pins) && worlds == old(worlds) && low == old(low) &&
              order == old(order)
    {
      var taken := queue;
      queue := [];
      for i := 0 to |taken|
        invariant history == old(history) + taken[..i] && seqNo == |history| && Numbered(log, history, low)
        invariant queue == [] && connected == old(connected) && pins == old(pins) && worlds == old(worlds)
        invariant low == old(low) && order == old(order)
      {
        seqNo := seqNo + 1;
        log := log + [Logged(seqNo, taken[i])];
        history := history + [taken[i]];
      }
    }

    /** The entries past a cursor. */
    method ReadPast(cursor: nat) returns (changes: seq<Change>)
      requires Valid() && cursor <= |history|
      ensures changes == Unread(history, low, cursor)
    {
      changes := [];
      ghost var from := if low < cursor then cursor else low;
      for i := 0 to |log|
        invariant changes == if low + i <= from then [] else history[from..low + i]
      {
        if log[i].number > cursor {
          changes := changes + [log[i].change];
        }
      }
    }

    /** Apply the changes in order to one world's strong holds. */
    method ApplyChanges(w: World, changes: seq<Change>) returns (strong: set<Node>)
      requires w in worlds
      ensures strong == ApplyAll(worlds[w].strong, changes, connected, worlds[w].live.Keys)
    {
      strong := worlds[w].strong;
      for i := 0 to |changes|
        invariant strong == ApplyAll(worlds[w].strong, changes[..i], connected, worlds[w].live.Keys)
      {
        assert changes[..i + 1][..i] == changes[..i];
        var c := changes[i];
        if c.connected {
          if c.node in connected && c.node in worlds[w].live { strong := strong + {c.node}; }
        } else {
          strong := strong - {c.node};
        }
      }
      assert changes[..|changes|] == changes;
    }

    /** Promote the provisional holds on nodes connected by now. */
    method Settle(strong: set<Node>, pending: set<Node>) returns (r: set<Node>)
      ensures r == strong + (pending * connected)
    {
      r := strong;
      var todo := pending;
      while todo != {}
        invariant todo <= pending && r == strong + ((pending - todo) * connected)
        decreases todo
      {
        var n :| n in todo;
        if n in connected { r := r + {n}; }
        todo := todo - {n};
      }
    }

    /** The smallest cursor among the worlds of a frame. */
    method Slowest(w: World) returns (m: nat)
      requires Valid() && w in worlds
      ensures IsLow(worlds, worlds[w].frame, m)
    {
      m := worlds[w].cursor;
      ghost var at := w;
      for i := 0 to |order|
        invariant at in worlds && worlds[at].frame == worlds[w].frame && worlds[at].cursor == m
        invariant forall j :: 0 <= j < i && worlds[order[j]].frame == worlds[w].frame ==> m <= worlds[order[j]].cursor
      {
        assert order[i] in order;
        if worlds[order[i]].frame == worlds[w].frame && worlds[order[i]].cursor < m {
          m, at := worlds[order[i]].cursor, order[i];
        }
      }
      forall u | u in worlds && worlds[u].frame == worlds[w].frame ensures m <= worlds[u].cursor {
        assert u in order;
        var j :| 0 <= j < |order| && order[j] == u;
      }
    }

    /** Drop the entries up to `m`. */
    method Trim(m: nat)
      requires Valid() && m <= |history|
      modifies this`log, this`low
      ensures Valid() && low == if old(low) < m then m else old(low)
    {
      var kept: seq<Logged> := [];
      ghost var from := if low < m then m else low;
      for i := 0 to |log|
        invariant kept == if low + i <= from then [] else log[from - low..i]
      {
        if log[i].number > m { kept := kept + [log[i]]; }
      }
      log := kept;
      low := from;
    }

    /** `drain_pinned_connectivity`. Answers whether anything was applied or settled. */
    method Drain(w: World) returns (any: bool)
      requires Valid() && w in worlds
      modifies this
      ensures Valid() && DrainStep(old(Now()), w, Now())
      ensures any <==> Ahead(old(Now()), w) != [] || old(worlds)[w].pending != {}
      ensures queue == [] && history == old(history) + old(queue) && connected == old(connected)
      ensures w in worlds && worlds[w].pending == {}
      ensures any && Ahead(old(Now()), w) != [] ==> worlds[w].cursor == |history|
    {
      TakeQueue();
      var ws := worlds[w];
      var changes := ReadPast(ws.cursor);
      assert changes == Ahead(old(Now()), w);
      if changes == [] && ws.pending == {} {
        IdleDrain(old(Now()), w, Now());
        return false;
      }
      var strong := ApplyChanges(w, changes);
      strong := Settle(strong, ws.pending);
      SettledSound(old(Now()), w);
      ws := ws.(strong := strong, pending := {}, applied := ws.applied + changes);
      if changes != [] {
        ws := ws.(cursor := seqNo);
      }
      worlds := worlds[w := ws];
      var m := Slowest(w);
      Trim(m);
      return true;
    }
  }

  lemma IdleDrain(s: State, w: World, t: State)
    requires w in s.worlds && Idle(s, w)
    requires t == s.(queue := [], history := s.history + s.queue)
    ensures DrainStep(s, w, t)
  {
    var ws := s.worlds[w];
    assert ws.applied + [] == ws.applied && ws.strong + ({} * s.connected) == ws.strong;
    assert ApplyAll(ws.strong, [], s.connected, ws.live.Keys) == ws.strong;
    assert s.worlds[w := ws] == s.worlds;
  }

  lemma SettledSound(s: State, w: World)
    requires Sound(s) && w in s.worlds
    ensures Sound(Drained(s, w))
  {
    ApplyAllLive(s.worlds[w].strong, Ahead(s, w), s.connected, s.worlds[w].live.Keys);
  }
}
