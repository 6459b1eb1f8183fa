/**
  * Wrapper retention. Changes of connectedness of wrapped nodes go through one log that every
  * JavaScript world of the page reads with its own cursor; a world holds the wrappers of
  * connected nodes strongly, and the collector may drop any wrapper not held.
  *
  * First the page as a value and its steps, then what every run of steps keeps, then the
  * drain as the program runs it.
  */
module Connectivity {
  import opened Common

  type Node = nat
  type World = nat
  type FrameId = nat
  type Token = nat

  datatype Change = Change(node: Node, connected: bool)

  /** One world: its live wrappers (each with the pin it took), the strong and the provisional
      holds, how far it has read, and, for the record, where it joined and what it has applied. */
  datatype WorldState = WorldState(
    frame: FrameId, live: map<Node, Token>, strong: set<Node>, pending: set<Node>,
    cursor: nat, joined: nat, applied: seq<Change>)

  /** `history` is every change ever logged, in order, the `k`-th numbered `k + 1`; the log is
      what is left of it past `low`. `queue` is what the DOM has not handed over yet. */
  datatype State = State(
    connected: set<Node>, pins: map<Token, Node>, queue: seq<Change>,
    history: seq<Change>, low: nat, worlds: map<World, WorldState>)

  // ----- Steps -----

  predicate Pinned(s: State, n: Node) {
    exists t :: t in s.pins && s.pins[t] == n
  }

  /** A node crosses the connectedness boundary; a pinned one is queued. */
  function Flip(s: State, n: Node, connected: bool): State {
    if (n in s.connected) == connected then s
    else s.(connected := if connected then s.connected + {n} else s.connected - {n},
            queue := if Pinned(s, n) then s.queue + [Change(n, connected)] else s.queue)
  }

  /** `node_to_js`: the live wrapper, or a new one, pinned and held. */
  function Mint(s: State, w: World, n: Node, t: Token): State
    requires w in s.worlds && t !in s.pins
  {
    var ws := s.worlds[w];
    if n in ws.live then s
    else
      var held := if n in s.connected then ws.(strong := ws.strong + {n}) else ws.(pending := ws.pending + {n});
      s.(pins := s.pins[t := n], worlds := s.worlds[w := held.(live := ws.live[n := t])])
  }

  /** What one logged change does to a world's strong holds. */
  function Apply(strong: set<Node>, c: Change, connected: set<Node>, live: set<Node>): set<Node> {
    if c.connected then (if c.node in connected && c.node in live then strong + {c.node} else strong)
    else strong - {c.node}
  }

  function ApplyAll(strong: set<Node>, cs: seq<Change>, connected: set<Node>, live: set<Node>): set<Node> {
    if cs == [] then strong
    else Apply(ApplyAll(strong, cs[..|cs| - 1], connected, live), cs[|cs| - 1], connected, live)
  }

  /** The smallest cursor among the worlds of a frame. */
  ghost predicate IsLow(worlds: map<World, WorldState>, frame: FrameId, m: nat) {
    && (exists w :: w in worlds && worlds[w].frame == frame && worlds[w].cursor == m)
    && forall w :: w in worlds && worlds[w].frame == frame ==> m <= worlds[w].cursor
  }

  /** What a world reads when it drains: the log past its cursor. */
  function Unread(history: seq<Change>, low: nat, cursor: nat): seq<Change> {
    var from := if low < cursor then cursor else low;
    if from <= |history| then history[from..] else []
  }

  /** `drain_pinned_connectivity` up to the trim: take the queue, apply what is unread, settle the
      provisional holds, move the cursor. */
  function Drained(s: State, w: World): State
    requires w in s.worlds
  {
    var ws := s.worlds[w];
    var history := s.history + s.queue;
    var changes := Unread(history, s.low, ws.cursor);
    var strong := ApplyAll(ws.strong, changes, s.connected, ws.live.Keys);
    var settled := ws.(strong := strong + (ws.pending * s.connected), pending := {},
                       cursor := if changes == [] then ws.cursor else |history|,
                       applied := ws.applied + changes);
    s.(queue := [], history := history, worlds := s.worlds[w := settled])
  }

  /** Nothing to apply and nothing provisional: the drain returns before it trims. */
  predicate Idle(s: State, w: World)
    requires w in s.worlds
  {
    Unread(s.history + s.queue, s.low, s.worlds[w].cursor) == [] && s.worlds[w].pending == {}
  }

  /** A whole drain ends with the log trimmed at the slowest world of the draining frame. */
  ghost predicate DrainStep(s: State, w: World, t: State) {
    && w in s.worlds
    && var d := Drained(s, w);
    && t == d.(low := t.low)
    && if Idle(s, w) then t.low == s.low
       else exists m: nat :: IsLow(d.worlds, s.worlds[w].frame, m) && t.low == if s.low < m then m else s.low
  }

  datatype Step =
    | Connect(n: Node)
    | Disconnect(n: Node)
    | Wrap(w: World, n: Node, t: Token)
    | Drain(w: World)
    | Collect(w: World, n: Node)
    | Finalize(t: Token)
    | Pin(n: Node, t: Token)
    | Open(w: World, frame: FrameId)
    | Close(w: World)

  predicate HeldToken(s: State, t: Token) {
    exists w, n :: w in s.worlds && n in s.worlds[w].live && s.worlds[w].live[n] == t
  }

  /** The steps of the page. The collector takes only wrappers that are not held, and a pin is
      given back only after its wrapper is gone. */
  ghost predicate Next(s: State, a: Step, t: State) {
    match a
    case Connect(n) => t == Flip(s, n, true)
    case Disconnect(n) => t == Flip(s, n, false)
    case Wrap(w, n, k) => w in s.worlds && k !in s.pins && t == Mint(s, w, n, k)
    case Drain(w) => DrainStep(s, w, t)
    case Collect(w, n) =>
      && w in s.worlds && n !in s.worlds[w].strong && n !in s.worlds[w].pending
      && t == s.(worlds := s.worlds[w := s.worlds[w].(live := s.worlds[w].live - {n})])
    case Finalize(k) => !HeldToken(s, k) && t == s.(pins := s.pins - {k})
    case Pin(n, k) => k !in s.pins && t == s.(pins := s.pins[k := n])
    case Open(w, frame) =>
      && w !in s.worlds
      && t == s.(worlds := s.worlds[w := WorldState(frame, map[], {}, {}, |s.history|, |s.history|, [])])
    case Close(w) => t == s.(worlds := s.worlds - {w})
  }

  // ----- What runs keep -----

  /** Wrappers pin their nodes, holds are on live wrappers, cursors are inside the history. */
  ghost predicate Sound(s: State) {
    && s.low <= |s.history|
    && forall w :: w in s.worlds ==>
         var ws := s.worlds[w];
         && (forall n :: n in ws.live ==> ws.live[n] in s.pins && s.pins[ws.live[n]] == n)
         && ws.strong <= ws.live.Keys && ws.pending <= ws.live.Keys
         && ws.joined <= ws.cursor <= |s.history|
  }

  /** The last thing a change list says about a node. */
  function LastFor(cs: seq<Change>, n: Node): Option<bool> {
    if cs == [] then None
    else if cs[|cs| - 1].node == n then Some(cs[|cs| - 1].connected)
    else LastFor(cs[..|cs| - 1], n)
  }

  /** What world `w` has yet to apply, the DOM's queue included. */
  ghost function Ahead(s: State, w: World): seq<Change>
    requires w in s.worlds
  {
    Unread(s.history + s.queue, s.low, s.worlds[w].cursor)
  }

  /** The next drain of `w` will leave `n` held: it is provisional, or the last unread change
      connects it, or no unread change names it and it is held already. */
  ghost predicate Secured(s: State, w: World, n: Node)
    requires w in s.worlds
  {
    var ws := s.worlds[w];
    n in ws.pending || LastFor(Ahead(s, w), n) == Some(true)
    || (LastFor(Ahead(s, w), n) == None && n in ws.strong)
  }

  ghost predicate Good(s: State, w: World) {
    w in s.worlds ==> forall n :: n in s.worlds[w].live && n in s.connected ==> Secured(s, w, n)
  }

  /** The retention promise: connected nodes with a live wrapper in `w` are held in `w`. */
  ghost predicate Retained(s: State, w: World) {
    w in s.worlds && forall n :: n in s.worlds[w].live && n in s.connected ==> n in s.worlds[w].strong
  }

  lemma {:induction false} ApplyAllHolds(strong: set<Node>, cs: seq<Change>, connected: set<Node>, live: set<Node>,
                                         n: Node)
    requires n in connected && n in live
    ensures n in ApplyAll(strong, cs, connected, live)
            <==> LastFor(cs, n) == Some(true) || (LastFor(cs, n) == None && n in strong)
  {
    if cs != [] { ApplyAllHolds(strong, cs[..|cs| - 1], connected, live, n); }
  }

  /** After a drain, a connected node with a live wrapper is held exactly if it was secured before. */
  lemma DrainHoldsSecured(s: State, w: World, t: State, n: Node)
    requires Sound(s) && DrainStep(s, w, t) && n in s.worlds[w].live && n in s.connected
    ensures n in t.worlds[w].strong <==> Secured(s, w, n)
  {
    ApplyAllHolds(s.worlds[w].strong, Ahead(s, w), s.connected, s.worlds[w].live.Keys, n);
  }

  /** Some unread change takes the node out of the document. */
  predicate Leaves(cs: seq<Change>, n: Node) {
    exists i :: 0 <= i < |cs| && cs[i].node == n && !cs[i].connected
  }

  lemma {:induction false} ApplyAllReleases(strong: set<Node>, cs: seq<Change>, connected: set<Node>,
                                            live: set<Node>, n: Node)
    requires n !in connected
    ensures n in ApplyAll(strong, cs, connected, live) <==> n in strong && !Leaves(cs, n)
  {
    if cs != [] {
      var init := cs[..|cs| - 1];
      ApplyAllReleases(strong, init, connected, live, n);
      assert Leaves(cs, n) <==> Leaves(init, n) || (cs[|cs| - 1].node == n && !cs[|cs| - 1].connected);
    }
  }

  /** After a drain, a disconnected node is held exactly if it was, and no unread change disconnects it;
      in particular a provisional hold on it is given up. */
  lemma DrainReleases(s: State, w: World, t: State, n: Node)
    requires Sound(s) && DrainStep(s, w, t) && n !in s.connected
    ensures n in t.worlds[w].strong <==>
              n in s.worlds[w].strong && forall i :: 0 <= i < |Ahead(s, w)| ==> Ahead(s, w)[i] != Change(n, false)
    ensures t.worlds[w].pending == {}
  {
    ApplyAllReleases(s.worlds[w].strong, Ahead(s, w), s.connected, s.worlds[w].live.Keys, n);
    var cs := Ahead(s, w);
    assert forall i :: 0 <= i < |cs| ==> (cs[i] == Change(n, false) <==> cs[i].node == n && !cs[i].connected);
  }

  /** A node held though disconnected has its disconnection yet to be read. */
  ghost predicate Released(s: State, w: World) {
    w in s.worlds ==> forall n :: n in s.worlds[w].strong && n !in s.connected ==> Leaves(Ahead(s, w), n)
  }

  /** What a world ought to hold after a drain: the connected nodes with a wrapper in it, and no others. */
  ghost predicate HoldsExactly(s: State, w: World) {
    && w in s.worlds && s.worlds[w].pending == {}
    && forall n :: n in s.worlds[w].strong <==> n in s.worlds[w].live && n in s.connected
  }

  /** A drain makes the holds exact, exactly in good states in which every release is still to be read. */
  lemma DrainIsExact(s: State, w: World, t: State)
    requires Sound(s) && DrainStep(s, w, t)
    ensures HoldsExactly(t, w) <==> Good(s, w) && Released(s, w)
  {
    DrainSound(s, w, t);
    DrainRetains(s, w, t);
    var cs := Ahead(s, w);
    forall n | n !in s.connected ensures n in t.worlds[w].strong <==> n in s.worlds[w].strong && !Leaves(cs, n) {
      ApplyAllReleases(s.worlds[w].strong, cs, s.connected, s.worlds[w].live.Keys, n);
    }
  }

  /** So a drain meets the retention promise exactly in good states. */
  lemma DrainRetains(s: State, w: World, t: State)
    requires Sound(s) && DrainStep(s, w, t)
    ensures Retained(t, w) <==> Good(s, w)
  {
    forall n | n in s.worlds[w].live && n in s.connected
      ensures n in t.worlds[w].strong <==> Secured(s, w, n)
    {
      DrainHoldsSecured(s, w, t, n);
    }
  }

  lemma {:induction false} ApplyAllLive(strong: set<Node>, cs: seq<Change>, connected: set<Node>, live: set<Node>)
    requires strong <= live
    ensures ApplyAll(strong, cs, connected, live) <= live
  {
    if cs != [] { ApplyAllLive(strong, cs[..|cs| - 1], connected, live); }
  }

  lemma DrainSound(s: State, w: World, t: State)
    requires Sound(s) && DrainStep(s, w, t)
    ensures Sound(t)
  {
    ApplyAllLive(s.worlds[w].strong, Ahead(s, w), s.connected, s.worlds[w].live.Keys);
  }

  lemma NextSound(s: State, a: Step, t: State)
    requires Sound(s) && Next(s, a, t)
    ensures Sound(t)
  {
    match a {
      case Drain(w) => DrainSound(s, w, t);
      case _ =>
    }
  }

  /** World `u` has lost nothing to a trim. */
  predicate CaughtUp(s: State, u: World) {
    u in s.worlds ==> s.low <= s.worlds[u].cursor
  }

  /** A wrapper is minted for a connected node whose last unread change is still a disconnect. */
  ghost predicate StaleWrap(s: State, a: Step, u: World) {
    a.Wrap? && a.w == u && u in s.worlds && a.n in s.connected && a.n !in s.worlds[u].live
    && LastFor(Ahead(s, u), a.n) == Some(false)
  }

  /** The trim of one world's drain costs `u` something it has not read. */
  predicate Loses(s: State, t: State, u: World) {
    u in s.worlds && s.low < t.low && s.worlds[u].cursor < t.low
  }

  /** What one trim does to another world: its unread changes are all kept exactly if nothing is lost. */
  lemma TrimKeepsUnread(s: State, w: World, t: State, u: World)
    requires Sound(s) && DrainStep(s, w, t) && u in s.worlds && u != w
    ensures Ahead(t, u) == Ahead(s, u) <==> !Loses(s, t, u)
  {
    assert t.history + t.queue == s.history + s.queue;
    var all := s.history + s.queue;
    var before := if s.low < s.worlds[u].cursor then s.worlds[u].cursor else s.low;
    var after := if t.low < s.worlds[u].cursor then s.worlds[u].cursor else t.low;
    assert |Ahead(s, u)| == |all| - before && |Ahead(t, u)| == |all| - after;
  }

  /** Within one frame no trim loses anything. */
  lemma OneFrameLosesNothing(s: State, w: World, t: State, u: World)
    requires Sound(s) && DrainStep(s, w, t) && u in s.worlds && CaughtUp(s, u)
    requires s.worlds[u].frame == s.worlds[w].frame
    ensures CaughtUp(t, u) && (u != w ==> !Loses(s, t, u))
  {
    var d := Drained(s, w);
    assert u in d.worlds && d.worlds[u].frame == s.worlds[w].frame;
  }

  lemma UnreadSnoc(history: seq<Change>, low: nat, cursor: nat, c: Change)
    requires low <= |history| && cursor <= |history|
    ensures Unread(history + [c], low, cursor) == Unread(history, low, cursor) + [c]
  {
  }

  lemma LastForSnoc(cs: seq<Change>, c: Change, n: Node)
    ensures LastFor(cs + [c], n) == if c.node == n then Some(c.connected) else LastFor(cs, n)
  {
    assert (cs + [c])[..|cs|] == cs;
  }

  lemma FlipGood(s: State, n: Node, connected: bool, u: World)
    requires Sound(s) && Good(s, u)
    ensures Good(Flip(s, n, connected), u)
  {
    var t := Flip(s, n, connected);
    if u in s.worlds {
      var c := Change(n, connected);
      assert s.history + (s.queue + [c]) == (s.history + s.queue) + [c];
      UnreadSnoc(s.history + s.queue, s.low, s.worlds[u].cursor, c);
      forall m | m in t.worlds[u].live && m in t.connected ensures Secured(t, u, m) {
        LastForSnoc(Ahead(s, u), c, m);
        if m == n && n !in s.connected {
          assert s.worlds[u].live[n] in s.pins;
        } else {
          assert Secured(s, u, m);
        }
      }
    }
  }

  lemma DrainGood(s: State, w: World, t: State, u: World)
    requires Sound(s) && DrainStep(s, w, t) && Good(s, u) && (u != w ==> !Loses(s, t, u))
    ensures Good(t, u)
  {
    if u == w {
      DrainRetains(s, w, t);
      assert Ahead(t, w) == [];
    } else if u in s.worlds {
      TrimKeepsUnread(s, w, t, u);
      forall n | n in t.worlds[u].live && n in t.connected ensures Secured(t, u, n) {
        assert Secured(s, u, n);
      }
    }
  }

  lemma WrapGood(s: State, a: Step, t: State, u: World)
    requires Sound(s) && a.Wrap? && Next(s, a, t) && Good(s, u) && !StaleWrap(s, a, u)
    ensures Good(t, u)
  {
    if u in t.worlds {
      assert Ahead(t, u) == Ahead(s, u);
      forall n | n in t.worlds[u].live && n in t.connected ensures Secured(t, u, n) {
        if n in s.worlds[u].live {
          assert Secured(s, u, n);
        } else {
          match LastFor(Ahead(s, u), n) {
            case None =>
            case Some(b) => assert b;
          }
        }
      }
    }
  }

  /** Every step keeps every world good, but for the two that can spoil it. */
  lemma NextGood(s: State, a: Step, t: State, u: World)
    requires Sound(s) && Next(s, a, t) && Good(s, u)
    requires !StaleWrap(s, a, u) && (a.Drain? && a.w != u ==> !Loses(s, t, u))
    ensures Good(t, u)
  {
    match a {
      case Connect(n) => FlipGood(s, n, true, u);
      case Disconnect(n) => FlipGood(s, n, false, u);
      case Drain(w) => DrainGood(s, w, t, u);
      case Wrap(_, _, _) => WrapGood(s, a, t, u);
      case _ =>
        if u in t.worlds && u in s.worlds {
          assert Ahead(t, u) == Ahead(s, u);
          forall n | n in t.worlds[u].live && n in t.connected ensures Secured(t, u, n) {
            assert Secured(s, u, n);
          }
        }
    }
  }

  /** A stale wrap does spoil it: the hold it takes falls at the world's next drain. */
  lemma StaleWrapSpoils(s: State, a: Step, t: State, u: World)
    requires Sound(s) && Next(s, a, t) && StaleWrap(s, a, u)
    ensures !Good(t, u)
  {
    assert Ahead(t, u) == Ahead(s, u);
    assert !Secured(t, u, a.n);
  }

  lemma LeavesSnoc(cs: seq<Change>, c: Change, n: Node)
    ensures Leaves(cs + [c], n) <==> Leaves(cs, n) || (c.node == n && !c.connected)
  {
    assert forall i :: 0 <= i < |cs| ==> (cs + [c])[i] == cs[i];
    if c.node == n && !c.connected { assert (cs + [c])[|cs|] == c; }
  }

  lemma FlipReleased(s: State, n: Node, connected: bool, u: World)
    requires Sound(s) && Released(s, u)
    ensures Released(Flip(s, n, connected), u)
  {
    var t := Flip(s, n, connected);
    if u in s.worlds {
      var c := Change(n, connected);
      assert s.history + (s.queue + [c]) == (s.history + s.queue) + [c];
      UnreadSnoc(s.history + s.queue, s.low, s.worlds[u].cursor, c);
      forall m | m in t.worlds[u].strong && m !in t.connected ensures Leaves(Ahead(t, u), m) {
        LeavesSnoc(Ahead(s, u), c, m);
        if m in s.connected { assert m == n && s.worlds[u].live[n] in s.pins; }
      }
    }
  }

  lemma DrainReleased(s: State, w: World, t: State, u: World)
    requires Sound(s) && DrainStep(s, w, t) && Released(s, u) && (u != w ==> !Loses(s, t, u))
    ensures Released(t, u)
  {
    if u == w {
      var cs := Ahead(s, w);
      forall n | n !in s.connected ensures n in t.worlds[w].strong <==> n in s.worlds[w].strong && !Leaves(cs, n) {
        ApplyAllReleases(s.worlds[w].strong, cs, s.connected, s.worlds[w].live.Keys, n);
      }
    } else if u in s.worlds {
      TrimKeepsUnread(s, w, t, u);
    }
  }

  /** Every step that loses nothing keeps releases to come. */
  lemma NextReleased(s: State, a: Step, t: State, u: World)
    requires Sound(s) && Next(s, a, t) && Released(s, u)
    requires a.Drain? && a.w != u ==> !Loses(s, t, u)
    ensures Released(t, u)
  {
    match a {
      case Connect(n) => FlipReleased(s, n, true, u);
      case Disconnect(n) => FlipReleased(s, n, false, u);
      case Drain(w) => DrainReleased(s, w, t, u);
      case _ =>
        if u in t.worlds && u in s.worlds { assert Ahead(t, u) == Ahead(s, u); }
    }
  }

  // ----- Whole runs -----

  const EMPTY := State({}, map[], [], [], 0, map[])

  /** What a world has applied is the history from where it joined to where it stands. */
  predicate Recorded(s: State, u: World) {
    u in s.worlds ==>
      var ws := s.worlds[u];
      ws.joined <= ws.cursor <= |s.history| && ws.applied == s.history[ws.joined..ws.cursor]
  }

  lemma NextRecorded(s: State, a: Step, t: State, u: World)
    requires Sound(s) && Next(s, a, t) && CaughtUp(s, u) && Recorded(s, u)
    ensures Recorded(t, u)
  {
    if u in s.worlds && u in t.worlds && a.Drain? {
      var ws := s.worlds[u];
      var all := s.history + s.queue;
      SliceOfConcat(s.history, s.queue, ws.joined, ws.cursor);
      SplitTail(all, ws.joined, ws.cursor);
      SplitTail(all, ws.joined, |all|);
    }
  }

  lemma SliceOfConcat<T>(s: seq<T>, t: seq<T>, a: nat, b: nat)
    requires a <= b <= |s|
    ensures (s + t)[a..b] == s[a..b]
  {
  }

  lemma SplitTail<T>(s: seq<T>, a: nat, b: nat)
    requires a <= b <= |s|
    ensures s[a..b] + s[b..] == s[a..]
  {
  }

  /** Each change applied, with its place in the history: the places rise, so nothing is applied
      twice or out of order. */
  ghost predicate AppliedAt(s: State, u: World, places: seq<nat>)
    requires u in s.worlds
  {
    var ws := s.worlds[u];
    && |places| == |ws.applied| && ws.cursor <= |s.history|
    && (forall i :: 0 <= i < |places| ==> ws.joined <= places[i] < ws.cursor && s.history[places[i]] == ws.applied[i])
    && forall i, j :: 0 <= i < j < |places| ==> places[i] < places[j]
  }

  ghost predicate InOrder(s: State, u: World) {
    u in s.worlds ==> exists places :: AppliedAt(s, u, places)
  }

  lemma NextInOrder(s: State, a: Step, t: State, u: World)
    requires Sound(s) && Next(s, a, t) && InOrder(s, u)
    ensures InOrder(t, u)
  {
    if u in t.worlds {
      if u in s.worlds {
        var places :| AppliedAt(s, u, places);
        if a.Drain? {
          DrainInOrder(s, a.w, t, u, places);
        } else {
          assert AppliedAt(t, u, places);
        }
      } else {
        assert AppliedAt(t, u, []);
      }
    }
  }

  lemma DrainInOrder(s: State, w: World, t: State, u: World, places: seq<nat>)
    requires Sound(s) && DrainStep(s, w, t) && u in s.worlds && AppliedAt(s, u, places)
    ensures InOrder(t, u)
  {
    var all := s.history + s.queue;
    assert forall i :: 0 <= i < |places| ==> all[places[i]] == s.history[places[i]];
    if u == w && Ahead(s, w) != [] {
      var from := if s.low < s.worlds[u].cursor then s.worlds[u].cursor else s.low;
      ReadOn(t, u, places, from, s.worlds[u].applied);
    } else {
      assert t.worlds[u].applied == s.worlds[u].applied;
      assert AppliedAt(t, u, places);
    }
  }

  /** A world that has read the history to its end from `from` on. */
  lemma ReadOn(t: State, u: World, places: seq<nat>, from: nat, applied: seq<Change>)
    requires u in t.worlds && from <= |t.history| && t.worlds[u].cursor == |t.history|
    requires t.worlds[u].applied == applied + t.history[from..] && t.worlds[u].joined <= from && |places| == |applied|
    requires forall i :: 0 <= i < |places| ==>
             t.worlds[u].joined <= places[i] < from && t.history[places[i]] == applied[i]
    requires forall i, j :: 0 <= i < j < |places| ==> places[i] < places[j]
    ensures InOrder(t, u)
  {
    var more := places + Upwards(from, |t.history| - from);
    assert AppliedAt(t, u, more);
  }

  function Upwards(from: nat, n: nat): (r: seq<nat>)
    ensures |r| == n && forall i :: 0 <= i < n ==> r[i] == from + i
  {
    seq(n, i requires 0 <= i < n => from + i)
  }

  ghost predicate AllInOrder(s: State) {
    forall u :: InOrder(s, u)
  }

  lemma AllStayInOrder(s: State, a: Step, t: State)
    requires Sound(s) && Next(s, a, t) && AllInOrder(s)
    ensures AllInOrder(t)
  {
    forall u: World ensures InOrder(t, u) {
      assert InOrder(s, u);
      NextInOrder(s, a, t, u);
    }
  }

  /** On every run from an empty page, whatever its frames and however its log is trimmed, each world
      applies changes of its time in the page, in their order and each at most once. */
  lemma {:induction false} AnyRunInOrder(states: seq<State>, steps: seq<Step>)
    requires IsRun(states, steps) && states[0] == EMPTY
    ensures forall i :: 0 <= i < |states| ==> Sound(states[i]) && AllInOrder(states[i])
    decreases |steps|
  {
    if |steps| > 0 {
      var n := |steps| - 1;
      assert IsRun(states[..n + 1], steps[..n]);
      AnyRunInOrder(states[..n + 1], steps[..n]);
      assert states[..n + 1][n] == states[n];
      NextSound(states[n], steps[n], states[n + 1]);
      AllStayInOrder(states[n], steps[n], states[n + 1]);
      forall i | 0 <= i < |states| ensures Sound(states[i]) && AllInOrder(states[i]) {
        if i <= n { assert states[..n + 1][i] == states[i]; }
      }
    }
  }

  ghost predicate OneFrame(s: State, frame: FrameId) {
    forall w :: w in s.worlds ==> s.worlds[w].frame == frame
  }

  ghost predicate Healthy(s: State, frame: FrameId) {
    Sound(s) && OneFrame(s, frame) && forall u :: Good(s, u) && Released(s, u) && CaughtUp(s, u) && Recorded(s, u)
  }

  ghost predicate IsRun(states: seq<State>, steps: seq<Step>) {
    |states| == |steps| + 1 && forall i :: 0 <= i < |steps| ==> Next(states[i], steps[i], states[i + 1])
  }

  /** One frame, and no wrapper minted over an unread disconnect. */
  ghost predicate Orderly(states: seq<State>, steps: seq<Step>, frame: FrameId)
    requires IsRun(states, steps)
  {
    forall i :: 0 <= i < |steps| ==> OrderlyStep(states[i], steps[i], frame)
  }

  ghost predicate OrderlyStep(s: State, a: Step, frame: FrameId) {
    (a.Open? ==> a.frame == frame) && forall u :: !StaleWrap(s, a, u)
  }

  lemma HealthyStep(s: State, a: Step, t: State, frame: FrameId)
    requires Healthy(s, frame) && Next(s, a, t)
    requires OrderlyStep(s, a, frame)
    ensures Healthy(t, frame)
  {
    NextSound(s, a, t);
    forall u ensures Good(t, u) && Released(t, u) && CaughtUp(t, u) && Recorded(t, u) {
      assert Good(s, u) && Released(s, u) && CaughtUp(s, u) && Recorded(s, u) && !StaleWrap(s, a, u);
      if a.Drain? && u in s.worlds { OneFrameLosesNothing(s, a.w, t, u); }
      NextGood(s, a, t, u);
      NextReleased(s, a, t, u);
      NextRecorded(s, a, t, u);
    }
  }

  /** On every orderly run of a one-frame page: each drain leaves its world's connected, wrapped
      nodes held; every world has applied each change logged since it joined once and in order,
      up to its cursor; and no trim has cost any world anything. */
  lemma {:induction false} OrderlyRun(states: seq<State>, steps: seq<Step>, frame: FrameId)
    requires IsRun(states, steps) && Orderly(states, steps, frame) && Healthy(states[0], frame)
    ensures forall i :: 0 <= i < |states| ==> Healthy(states[i], frame)
    ensures forall i :: 0 <= i < |steps| && steps[i].Drain? ==>
      Retained(states[i + 1], steps[i].w) && HoldsExactly(states[i + 1], steps[i].w)
    decreases |steps|
  {
    if |steps| > 0 {
      var n := |steps| - 1;
      assert IsRun(states[..n + 1], steps[..n]);
      assert Orderly(states[..n + 1], steps[..n], frame) by {
        forall i | 0 <= i < n ensures OrderlyStep(states[..n + 1][i], steps[..n][i], frame) {
          assert OrderlyStep(states[i], steps[i], frame);
        }
      }
      OrderlyRun(states[..n + 1], steps[..n], frame);
      assert forall i :: 0 <= i < n + 1 ==> states[..n + 1][i] == states[i];
      HealthyStep(states[n], steps[n], states[n + 1], frame);
      forall i | 0 <= i < |steps| && steps[i].Drain?
        ensures Retained(states[i + 1], steps[i].w) && HoldsExactly(states[i + 1], steps[i].w)
      {
        if i < n {
          assert states[..n + 1][i + 1] == states[i + 1] && steps[..n][i] == steps[i];
        } else {
          assert Good(states[n], steps[n].w) && Released(states[n], steps[n].w);
          DrainRetains(states[n], steps[n].w, states[n + 1]);
          DrainIsExact(states[n], steps[n].w, states[n + 1]);
        }
      }
    }
  }

  lemma EmptyIsHealthy(frame: FrameId)
    ensures Healthy(EMPTY, frame)
  {
  }

  /** So every drain of an orderly run from an empty page leaves its world with holds on the connected
      nodes it has wrappers of, and on no others. */
  lemma EveryDrainRetains(states: seq<State>, steps: seq<Step>, frame: FrameId)
    requires IsRun(states, steps) && states[0] == EMPTY && Orderly(states, steps, frame)
    ensures forall i :: 0 <= i < |steps| && steps[i].Drain? ==> steps[i].w in states[i + 1].worlds
    ensures forall i :: 0 <= i < |steps| && steps[i].Drain? ==>
      var ws := states[i + 1].worlds[steps[i].w];
      ws.pending == {} && forall n :: n in ws.strong <==> n in ws.live && n in states[i + 1].connected
  {
    EmptyIsHealthy(frame);
    OrderlyRun(states, steps, frame);
  }

  // ----- Where the promise breaks -----


  /** Draining one unread change with nothing provisional. */
  lemma DrainOne(s: State, w: World, c: Change)
    requires w in s.worlds && s.worlds[w].pending == {} && s.low <= s.worlds[w].cursor <= |s.history|
    requires s.history + s.queue == s.history[..s.worlds[w].cursor] + [c]
    ensures var ws := s.worlds[w];
            var settled := ws.(strong := Apply(ws.strong, c, s.connected, ws.live.Keys),
                           cursor := |s.history + s.queue|,
                               applied := ws.applied + [c]);
            Drained(s, w) == s.(queue := [], history := s.history + s.queue, worlds := s.worlds[w := settled])
    ensures !Idle(s, w)
  {
    var ws := s.worlds[w];
    assert (s.history[..ws.cursor] + [c])[ws.cursor..] == [c];
    assert Unread(s.history + s.queue, s.low, ws.cursor) == [c];
    assert [c][..0] == [];
    assert ApplyAll(ws.strong, [c], s.connected, ws.live.Keys) == Apply(ws.strong, c, s.connected, ws.live.Keys);
    assert Apply(ws.strong, c, s.connected, ws.live.Keys) + ({} * s.connected)
           == Apply(ws.strong, c, s.connected, ws.live.Keys);
  }

  /** Draining with nothing to read releases what is provisional on detached nodes. */
  lemma DrainNone(s: State, w: World)
    requires w in s.worlds && Ahead(s, w) == [] && s.queue == [] && s.worlds[w].pending !! s.connected
    ensures Drained(s, w) == s.(worlds := s.worlds[w := s.worlds[w].(pending := {})])
  {
    var ws := s.worlds[w];
    assert s.history + [] == s.history && ws.applied + [] == ws.applied;
    assert ws.strong + (ws.pending * s.connected) == ws.strong;
  }

  lemma Extend(states: seq<State>, steps: seq<Step>, a: Step, t: State)
    requires IsRun(states, steps) && Next(states[|steps|], a, t)
    ensures IsRun(states + [t], steps + [a])
  {
  }

  const FRESH := WorldState(0, map[], {}, {}, 0, 0, [])

  /** World 1 holds the wrapper of node 7, whose disconnection is queued. */
  lemma StaleStart() returns (states: seq<State>, steps: seq<Step>)
    ensures IsRun(states, steps) && states[0] == EMPTY
    ensures states[|steps|] == State({}, map[0 := 7], [Change(7, false)], [], 0, map[
              1 := FRESH.(live := map[7 := 0], strong := {7}), 2 := FRESH])
  {
    var s1 := EMPTY.(worlds := map[1 := FRESH]);
    var s2 := s1.(worlds := map[1 := FRESH, 2 := FRESH]);
    var s3 := s2.(connected := {7});
    var s4 := s3.(pins := map[0 := 7], worlds := map[1 := FRESH.(live := map[7 := 0], strong := {7}), 2 := FRESH]);
    var s5 := s4.(connected := {}, queue := [Change(7, false)]);
    assert Pinned(s4, 7) by { assert s4.pins[0] == 7; }
    states, steps := [EMPTY], [];
    Extend(states, steps, Open(1, 0), s1);
    states, steps := states + [s1], steps + [Open(1, 0)];
    Extend(states, steps, Open(2, 0), s2);
    states, steps := states + [s2], steps + [Open(2, 0)];
    Extend(states, steps, Connect(7), s3);
    states, steps := states + [s3], steps + [Connect(7)];
    Extend(states, steps, Wrap(1, 7, 0), s4);
    states, steps := states + [s4], steps + [Wrap(1, 7, 0)];
    Extend(states, steps, Disconnect(7), s5);
    states, steps := states + [s5], steps + [Disconnect(7)];
  }

  /** World 1 reads the disconnection; its wrapper is collected and the pin given back. */
  lemma StaleMiddle() returns (states: seq<State>, steps: seq<Step>)
    ensures IsRun(states, steps) && states[0] == EMPTY
    ensures states[|steps|] == State({}, map[], [], [Change(7, false)], 0, map[
              1 := FRESH.(cursor := 1, applied := [Change(7, false)]), 2 := FRESH])
  {
    states, steps := StaleStart();
    var seven := Change(7, false);
    var s5 := states[|steps|];
    var none: set<Node> := {};
    assert {7} - {7} == none;
    DrainOne(s5, 1, seven);
    var s6 := State({}, map[0 := 7], [], [seven], 0, map[
      1 := FRESH.(live := map[7 := 0], cursor := 1, applied := [seven]), 2 := FRESH]);
    assert Drained(s5, 1) == s6;
    assert DrainStep(s5, 1, s6) by {
      assert s6.worlds[2].cursor == 0;
      assert IsLow(s6.worlds, 0, 0);
    }
    Extend(states, steps, Drain(1), s6);
    states, steps := states + [s6], steps + [Drain(1)];
    var s7 := s6.(worlds := map[1 := FRESH.(cursor := 1, applied := [seven]), 2 := FRESH]);
    assert s6.worlds[1].live - {7} == map[];
    Extend(states, steps, Collect(1, 7), s7);
    states, steps := states + [s7], steps + [Collect(1, 7)];
    var s8 := s7.(pins := map[]);
    assert s7.pins - {0} == map[];
    Extend(states, steps, Finalize(0), s8);
    states, steps := states + [s8], steps + [Finalize(0)];
  }

  /** World 1 reads a disconnect and its wrapper dies, the node is reconnected unpinned and so
      unlogged, world 2 mints a wrapper and holds it - and its drain, only now reading the
      disconnect, drops the hold. */
  lemma StaleDisconnectDropsHold() returns (states: seq<State>, steps: seq<Step>)
    ensures IsRun(states, steps) && states[0] == EMPTY && |steps| > 0 && steps[|steps| - 1] == Drain(2)
    ensures var s := states[|steps|];
            2 in s.worlds && 7 in s.connected && 7 in s.worlds[2].live && !Retained(s, 2)
  {
    states, steps := StaleMiddle();
    var seven := Change(7, false);
    var s8 := states[|steps|];
    var one := s8.worlds[1];
    var s9 := s8.(connected := {7});
    Extend(states, steps, Connect(7), s9);
    states, steps := states + [s9], steps + [Connect(7)];
    var s10 := s9.(pins := map[0 := 7], worlds := map[1 := one, 2 := FRESH.(live := map[7 := 0], strong := {7})]);
    Extend(states, steps, Wrap(2, 7, 0), s10);
    states, steps := states + [s10], steps + [Wrap(2, 7, 0)];
    var none: set<Node> := {};
    assert {7} - {7} == none;
    DrainOne(s10, 2, seven);
    var s11 := s10.(worlds := map[1 := one, 2 := FRESH.(live := map[7 := 0], cursor := 1, applied := [seven])],
               low := 1);
    assert DrainStep(s10, 2, s11) by {
      assert s11.worlds[2].cursor == 1;
      assert IsLow(s11.worlds, 0, 1);
    }
    Extend(states, steps, Drain(2), s11);
    states, steps := states + [s11], steps + [Drain(2)];
  }

  /** World 2, in another frame, has wrapped the detached node 7, whose connection is queued. */
  lemma StarveStart() returns (states: seq<State>, steps: seq<Step>)
    ensures IsRun(states, steps) && states[0] == EMPTY
    ensures states[|steps|] == State({7}, map[0 := 7], [Change(7, true)], [], 0, map[
              1 := FRESH, 2 := FRESH.(frame := 1, live := map[7 := 0])])
  {
    var two := FRESH.(frame := 1, live := map[7 := 0]);
    var s1 := EMPTY.(worlds := map[1 := FRESH]);
    var s2 := s1.(worlds := map[1 := FRESH, 2 := FRESH.(frame := 1)]);
    var s3 := s2.(pins := map[0 := 7], worlds := map[1 := FRESH, 2 := two.(pending := {7})]);
    var s4 := s3.(worlds := map[1 := FRESH, 2 := two]);
    var s5 := s4.(connected := {7}, queue := [Change(7, true)]);
    assert Pinned(s4, 7) by { assert s4.pins[0] == 7; }
    var none: set<Node> := {};
    assert none + {7} == {7};
    assert Ahead(s3, 2) == [];
    DrainNone(s3, 2);
    assert Drained(s3, 2) == s4;
    assert DrainStep(s3, 2, s4) by {
      assert s4.worlds[2].cursor == 0;
      assert IsLow(s4.worlds, 1, 0);
    }
    states, steps := [EMPTY], [];
    Extend(states, steps, Open(1, 0), s1);
    states, steps := states + [s1], steps + [Open(1, 0)];
    Extend(states, steps, Open(2, 1), s2);
    states, steps := states + [s2], steps + [Open(2, 1)];
    Extend(states, steps, Wrap(2, 7, 0), s3);
    states, steps := states + [s3], steps + [Wrap(2, 7, 0)];
    Extend(states, steps, Drain(2), s4);
    states, steps := states + [s4], steps + [Drain(2)];
    Extend(states, steps, Connect(7), s5);
    states, steps := states + [s5], steps + [Connect(7)];
  }

  /** Two frames: the trim looks at its own frame's worlds only, so world 2, in the other frame,
      never reads that its node was connected, and never holds it. */
  lemma TrimStarvesOtherFrame() returns (states: seq<State>, steps: seq<Step>)
    ensures IsRun(states, steps) && states[0] == EMPTY && |steps| > 0 && steps[|steps| - 1] == Drain(2)
    ensures var s := states[|steps|];
            2 in s.worlds && 7 in s.connected && 7 in s.worlds[2].live && !Retained(s, 2)
  {
    states, steps := StarveStart();
    var seven := Change(7, true);
    var s5 := states[|steps|];
    DrainOne(s5, 1, seven);
    var s6 := s5.(queue := [], history := [seven], low := 1,
                  worlds := s5.worlds[1 := FRESH.(cursor := 1, applied := [seven])]);
    assert DrainStep(s5, 1, s6) by {
      assert s6.worlds[1].cursor == 1;
      assert IsLow(s6.worlds, 0, 1);
    }
    Extend(states, steps, Drain(1), s6);
    states, steps := states + [s6], steps + [Drain(1)];
    assert Ahead(s6, 2) == [];
    DrainNone(s6, 2);
    assert s6.worlds[2 := s6.worlds[2]] == s6.worlds;
    assert DrainStep(s6, 2, s6);
    Extend(states, steps, Drain(2), s6);
    states, steps := states + [s6], steps + [Drain(2)];
  }
}
