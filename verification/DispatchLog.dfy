/**
  * What a run of nested dispatches may look like: the page's state, the entries the
  * dispatcher records, and which entry may follow which log.
  */
module DispatchLog {
  import opened Common
  import opened Forest
  import opened EventPath
  import opened Retarget
  import opened Listeners

  type World = nat
  type EventId = nat

  datatype Phase = NoPhase | Capturing | AtTarget | Bubbling

  /** `stop` and `stopNow` are the stop-propagation and stop-immediate-propagation flags. */
  datatype Event = Event(
    eventType: string, bubbles: bool, cancelable: bool, composed: bool,
    related: Option<Node>, target: Option<Target>, currentTarget: Option<Target>, phase: Phase,
    stop: bool, stopNow: bool, canceled: bool, initialized: bool, dispatching: bool,
    path: seq<Target>, passive: bool)

  datatype State = State(
    regs: map<World, Registry>,
    handlers: set<(World, Target, string)>,
    events: map<EventId, Event>,
    forest: Forest)
  {
    function Reg(w: World): Registry {
      if w in regs then regs[w] else NO_LISTENERS
    }

    /** `has_listener`: a listener or an event handler attribute. */
    predicate HasListener(w: World, t: Target, eventType: string) {
      Reg(w).Snapshot(t, eventType) != [] || (w, t, eventType) in handlers
    }

    function Set(e: EventId, ev: Event): State {
      this.(events := events[e := ev])
    }
  }

  /** What a listener may do between being called and returning. */
  datatype Action =
    | AddListener(w: World, t: Target, l: Listener)
    | RemoveListener(w: World, t: Target, id: nat)
    | AbortSignal(w: World, signal: nat)
    | FinalizeTarget(w: World, t: Target)
    | SetHandler(w: World, t: Target, eventType: string, present: bool)
    | CreateEvent(e: EventId, ev: Event)
    | InitEvent(e: EventId, eventType: string, bubbles: bool, cancelable: bool)
    | StopPropagation(e: EventId)
    | StopImmediatePropagation(e: EventId)
    | PreventDefault(e: EventId)
    | ChangeTree(f: Forest)
    | Dispatch(w: World, t: Target, e: EventId, everyWorld: bool)
    | Return(value: bool)

  /** A dispatch is refused for an event under dispatch or not initialized. */
  predicate Dispatchable(s: State, e: EventId) {
    e in s.events && !s.events[e].dispatching && s.events[e].initialized
  }

  /** "Set the canceled flag": `preventDefault`, and a handler's answer of `false`. */
  function Cancelled(s: State, e: EventId): State {
    if e in s.events && s.events[e].cancelable && !s.events[e].passive
    then s.Set(e, s.events[e].(canceled := true)) else s
  }

  function Perform(s: State, a: Action): State {
    match a
    case AddListener(w, t, l) => s.(regs := s.regs[w := s.Reg(w).Insert(t, l)])
    case RemoveListener(w, t, id) => s.(regs := s.regs[w := s.Reg(w).RemoveById(t, id)])
    case AbortSignal(w, signal) => s.(regs := s.regs[w := s.Reg(w).RemoveBySignal(signal)])
    case FinalizeTarget(w, t) => s.(regs := s.regs[w := s.Reg(w).RemoveTarget(t)])
    case SetHandler(w, t, eventType, present) =>
      s.(handlers := if present then s.handlers + {(w, t, eventType)} else s.handlers - {(w, t, eventType)})
    case CreateEvent(e, ev) =>
      if e in s.events then s
      else s.Set(e, ev.(dispatching := false, currentTarget := None, phase := NoPhase, path := [], passive := false))
    case InitEvent(e, eventType, bubbles, cancelable) =>
      if e !in s.events || s.events[e].dispatching then s
      else s.Set(e, s.events[e].(initialized := true, stop := false, stopNow := false, canceled := false,
                                 target := None, eventType := eventType, bubbles := bubbles, cancelable := cancelable))
    case StopPropagation(e) =>
      if e in s.events then s.Set(e, s.events[e].(stop := true)) else s
    case StopImmediatePropagation(e) =>
      if e in s.events then s.Set(e, s.events[e].(stop := true, stopNow := true)) else s
    case PreventDefault(e) => Cancelled(s, e)
    case ChangeTree(f) => s.(forest := f)
    case _ => s
  }

  /** What a callback that is over answers; a listener's answer counts for nothing. */
  predicate Answer(a: Action) {
    a.Return? ==> a.value
  }

  /** One propagation step: dispatch `d` (its position in the log) of event `e`, and
      the position `step` at which the step itself was recorded. */
  datatype Site = Site(d: nat, e: EventId, step: nat, key: Target, phase: Phase)

  datatype Label =
    | Started
    | Outside
    | Acted(a: Action)
    | Began(e: EventId, target: Target, path: seq<Target>, origin: World, everyWorld: bool, clear: bool)
    | Stepped(site: Site)
    | Snapped(site: Site, w: World, ls: seq<Listener>, handler: bool)
    | Ran(site: Site, w: World, snap: nat, i: nat, l: Listener)
    | Returned(site: Site, ran: nat)
    | RanHandler(site: Site, w: World, snap: nat)
    | HandlerReturned(site: Site, w: World, snap: nat, value: bool)
    | Done(site: Site, w: World, snap: nat)
    | StepDone(site: Site)
    | Ended(d: nat)

  /** A label together with the state just after it. */
  datatype Entry = Entry(what: Label, st: State)

  type Log = seq<Entry>

  // ----- What a dispatch is to do -----

  /** Capture from the far end of the path down, then the target, then, if the event bubbles,
      the path upwards. */
  function Plan(path: seq<Target>, bubbles: bool): (p: seq<(Target, Phase)>)
    requires path != []
    ensures |p| == if bubbles then 2 * |path| - 1 else |path|
  {
    var n := |path|;
    seq(if bubbles then 2 * n - 1 else n, i requires 0 <= i < 2 * n - 1 =>
      if i < n - 1 then (path[n - 1 - i], Capturing)
      else if i == n - 1 then (path[0], AtTarget)
      else (path[i - n + 1], Bubbling))
  }

  /** The propagation steps dispatch `d` has taken. */
  function StepsOf(log: Log, d: nat): seq<(Target, Phase)> {
    if log == [] then []
    else
      var what := log[|log| - 1].what;
      StepsOf(log[..|log| - 1], d)
      + if what.Stepped? && what.site.d == d then [(what.site.key, what.site.phase)] else []
  }

  /** Capture listeners sit out the bubble phase, the others the capture phase. */
  predicate Matches(phase: Phase, l: Listener) {
    !(phase == Capturing && !l.capture) && !(phase == Bubbling && l.capture)
  }

  // ----- What one entry may change -----

  /** Between two entries of its dispatch an event keeps what describes it, and its flags
      only rise. */
  ghost predicate Frozen(a: Event, b: Event) {
    && b == a.(stop := b.stop, stopNow := b.stopNow, canceled := b.canceled,
               currentTarget := b.currentTarget, phase := b.phase, passive := b.passive)
    && (a.stop ==> b.stop) && (a.stopNow ==> b.stopNow) && (a.canceled ==> b.canceled)
  }

  /** `Frozen`, with the current position and the passive flag untouched too. */
  ghost predicate Held(a: Event, b: Event) {
    Frozen(a, b) && b.currentTarget == a.currentTarget && b.phase == a.phase && b.passive == a.passive
  }

  /** An event that is not being dispatched shows no position. */
  ghost predicate Quiet(s: State) {
    forall e :: e in s.events && !s.events[e].dispatching ==>
      s.events[e].currentTarget == None && s.events[e].phase == NoPhase && s.events[e].path == []
  }

  ghost predicate Changes(p: State, s: State, ended: Option<EventId>) {
    && (forall w :: Evolves(p.Reg(w), s.Reg(w)))
    && (forall e :: e in p.events ==> e in s.events)
    && (forall e :: e in p.events && p.events[e].dispatching && ended != Some(e) ==> Frozen(p.events[e], s.events[e]))
    && Quiet(s)
  }

  /** Page code touches no position, and cancels only a cancelable event outside a passive listener. */
  ghost predicate ActedOk(p: State, s: State) {
    forall e :: e in p.events && p.events[e].dispatching ==>
      && e in s.events && Held(p.events[e], s.events[e])
      && (s.events[e].canceled && !p.events[e].canceled ==> p.events[e].cancelable && !p.events[e].passive)
  }

  function NodeOf(t: Target): Option<Node> {
    if t.NodeTarget? then Some(t.id) else None
  }

  ghost predicate Retargets(f: Forest, before: Option<Node>, after: Option<Node>, b: Option<Node>) {
    && before.Some? == after.Some?
    && (before.Some? ==> (after.value == Retargeted(f, before.value, b) <==> WithinBounds(f, before.value, b)))
  }

  predicate InShadow(f: Forest, n: Option<Node>) {
    n.Some? && ShadowRootOf(f, n.value).Some?
  }

  ghost predicate BeganOk(p: State, s: State, l: Label)
    requires l.Began?
  {
    && l.e in p.events && !p.events[l.e].dispatching && p.events[l.e].initialized
    && l.e in s.events
    && l.path == PathOf(p.forest, l.target, p.events[l.e].composed)
    && Retargets(p.forest, p.events[l.e].related, s.events[l.e].related, NodeOf(l.target))
    && l.clear == (InShadow(p.forest, NodeOf(l.target)) || InShadow(p.forest, s.events[l.e].related))
    && s == p.Set(l.e, p.events[l.e].(
         dispatching := true, target := Some(l.target), path := l.path, related := s.events[l.e].related))
  }

  /** `d` is the position of a dispatch of `e` that has not ended. */
  ghost predicate Open(log: Log, d: nat, e: EventId) {
    && d < |log| && log[d].what.Began? && log[d].what.e == e
    && e in log[d].st.events && log[d].what.path != []
    && forall k :: d < k < |log| ==> log[k].what != Ended(d)
  }

  /** `site` is the step its dispatch, still open, stands at. */
  ghost predicate Recorded(log: Log, site: Site) {
    && site.step < |log| && log[site.step].what == Stepped(site) && Open(log, site.d, site.e)
    && forall k :: site.step < k < |log| && log[k].what.Stepped? ==> log[k].what.site.d != site.d
  }

  ghost function PlanOf(log: Log, d: nat): seq<(Target, Phase)>
    requires d < |log| && log[d].what.Began? && log[d].what.e in log[d].st.events && log[d].what.path != []
  {
    Plan(log[d].what.path, log[d].st.events[log[d].what.e].bubbles)
  }

  ghost predicate SteppedOk(log: Log, p: State, s: State, site: Site) {
    && s == p && site.step == |log| && Open(log, site.d, site.e) && site.e in p.events
    && p.events[site.e].dispatching && !p.events[site.e].stop
    && StepsOf(log, site.d) + [(site.key, site.phase)] <= PlanOf(log, site.d)
  }

  /** The worlds a dispatch delivers to. */
  function Worlds(worlds: seq<World>, began: Label): seq<World>
    requires began.Began?
  {
    if began.everyWorld then worlds else [began.origin]
  }

  ghost predicate Precedes(ws: seq<World>, a: World, b: World) {
    exists i, j :: 0 <= i < j < |ws| && ws[i] == a && ws[j] == b
  }

  ghost predicate SnappedOk(worlds: seq<World>, log: Log, p: State, s: State, l: Label)
    requires l.Snapped?
  {
    var site := l.site;
    && s == p && Recorded(log, site) && site.e in p.events
    && p.events[site.e].dispatching && !p.events[site.e].stopNow
    && l.w in Worlds(worlds, log[site.d].what)
    && l.ls == p.Reg(l.w).Snapshot(site.key, p.events[site.e].eventType)
    && l.handler == (site.phase != Capturing && (l.w, site.key, p.events[site.e].eventType) in p.handlers)
    && forall k :: site.step < k < |log| && log[k].what.Snapped? && log[k].what.site == site ==>
         Precedes(Worlds(worlds, log[site.d].what), log[k].what.w, l.w)
  }

  ghost predicate Snap(log: Log, snap: nat, site: Site, w: World) {
    snap < |log| && log[snap].what.Snapped? && log[snap].what.site == site && log[snap].what.w == w
  }

  ghost predicate RanOk(log: Log, p: State, s: State, l: Label)
    requires l.Ran?
  {
    var site := l.site;
    && Recorded(log, site) && Snap(log, l.snap, site, l.w)
    && l.i < |log[l.snap].what.ls| && log[l.snap].what.ls[l.i] == l.l
    && Matches(site.phase, l.l) && p.Reg(l.w).Contains(site.key, l.l.id)
    && site.e in p.events && p.events[site.e].dispatching && !p.events[site.e].stopNow
    && s == p.(
         regs := if l.l.once then p.regs[l.w := p.Reg(l.w).RemoveById(site.key, l.l.id)] else p.regs,
         events := p.events[site.e := p.events[site.e].(
           currentTarget := Some(site.key), phase := site.phase, passive := l.l.passive)])
    && forall k :: l.snap < k < |log| ==>
         && (log[k].what.Ran? && log[k].what.snap == l.snap ==> log[k].what.i < l.i)
         && (log[k].what.RanHandler? ==> log[k].what.snap != l.snap)
  }

  /** The dispatch a label advances, if it does. */
  function Advances(l: Label): Option<nat> {
    match l
    case Stepped(site) => Some(site.d)
    case Snapped(site, _, _, _) => Some(site.d)
    case Ran(site, _, _, _, _) => Some(site.d)
    case Returned(site, _) => Some(site.d)
    case RanHandler(site, _, _) => Some(site.d)
    case HandlerReturned(site, _, _, _) => Some(site.d)
    case Done(site, _, _) => Some(site.d)
    case StepDone(site) => Some(site.d)
    case Ended(d) => Some(d)
    case _ => None
  }

  /** Between a call and its return the dispatch that made it does not advance. */
  ghost predicate ReturnedOk(log: Log, p: State, s: State, site: Site, ran: nat) {
    && 0 < ran < |log| && log[ran].what.Ran? && log[ran].what.site == site && Open(log, site.d, site.e)
    && site.e in p.events && p.events[site.e].dispatching && site.e in log[ran - 1].st.events
    && (forall k :: ran < k < |log| ==> Advances(log[k].what) != Some(site.d))
    && s == p.Set(site.e, p.events[site.e].(passive := log[ran - 1].st.events[site.e].passive))
  }

  /** Entry `k` settles the `i`-th listener of a snapshot: it ran there, or was found removed. */
  ghost predicate Settles(log: Log, k: nat, snap: nat, i: nat)
    requires k < |log| && snap < |log| && log[snap].what.Snapped? && i < |log[snap].what.ls|
  {
    var l := log[snap].what;
    || (log[k].what.Ran? && log[k].what.snap == snap && log[k].what.i == i)
    || !log[k].st.Reg(l.w).Contains(l.site.key, l.ls[i].id)
  }

  ghost predicate Accounted(log: Log, snap: nat, i: nat)
    requires snap < |log| && log[snap].what.Snapped? && i < |log[snap].what.ls|
  {
    Matches(log[snap].what.site.phase, log[snap].what.ls[i]) ==>
      exists k :: snap <= k < |log| && Settles(log, k, snap, i)
  }

  ghost predicate AllAccounted(log: Log, snap: nat, n: nat)
    requires snap < |log| && log[snap].what.Snapped? && n <= |log[snap].what.ls|
  {
    forall i :: 0 <= i < n ==> Accounted(log, snap, i)
  }

  ghost predicate RanHandlerOk(log: Log, p: State, s: State, site: Site, w: World, snap: nat) {
    && s == p && Recorded(log, site) && Snap(log, snap, site, w) && log[snap].what.handler
    && site.e in p.events && p.events[site.e].dispatching && !p.events[site.e].stopNow
    && AllAccounted(log, snap, |log[snap].what.ls|)
  }

  /** A handler that answers `false` cancels the event. */
  ghost predicate HandlerReturnedOk(log: Log, p: State, s: State, site: Site, w: World, snap: nat, value: bool) {
    && Recorded(log, site) && Snap(log, snap, site, w) && HandlerRan(log, site, w, snap)
    && site.e in p.events && p.events[site.e].dispatching
    && ActedOk(p, s) && s == if value then p else Cancelled(p, site.e)
  }

  ghost predicate HandlerRan(log: Log, site: Site, w: World, snap: nat) {
    exists k :: snap < k < |log| && log[k].what == RanHandler(site, w, snap)
  }

  ghost predicate HandlerDone(log: Log, site: Site, w: World, snap: nat) {
    exists k, value :: snap < k < |log| && log[k].what == HandlerReturned(site, w, snap, value)
  }

  ghost predicate DoneOk(log: Log, p: State, s: State, site: Site, w: World, snap: nat) {
    && s == p && Recorded(log, site) && Snap(log, snap, site, w) && site.e in p.events
    && (p.events[site.e].stopNow
        || (AllAccounted(log, snap, |log[snap].what.ls|) &&
           (log[snap].what.handler ==> HandlerRan(log, site, w, snap) && HandlerDone(log, site, w, snap))))
  }

  /** Entry `k` settles world `w` at a step: its listeners are done, or it had none. */
  ghost predicate WorldServed(log: Log, k: nat, site: Site, w: World, eventType: string)
    requires k < |log| && site.d < |log| && log[site.d].what.Began?
  {
    || (log[k].what.Done? && log[k].what.site == site && log[k].what.w == w)
    || (w != log[site.d].what.origin && !log[k].st.HasListener(w, site.key, eventType))
  }

  ghost predicate Served(log: Log, site: Site, w: World, eventType: string)
    requires site.d < |log| && log[site.d].what.Began?
  {
    exists k :: site.step <= k < |log| && WorldServed(log, k, site, w, eventType)
  }

  ghost predicate StepDoneOk(worlds: seq<World>, log: Log, p: State, s: State, site: Site) {
    && s == p && Recorded(log, site) && site.e in p.events
    && (p.events[site.e].stopNow
        || forall w :: w in Worlds(worlds, log[site.d].what) ==> Served(log, site, w, p.events[site.e].eventType))
  }

  ghost predicate Finished(log: Log, site: Site) {
    exists k :: site.step < k < |log| && log[k].what == StepDone(site)
  }

  ghost predicate EndedOk(log: Log, p: State, s: State, d: nat) {
    && d < |log| && log[d].what.Began?
    && var e := log[d].what.e;
    && Open(log, d, e) && e in p.events && p.events[e].dispatching
    && (p.events[e].stop || StepsOf(log, d) == PlanOf(log, d))
    && (forall k :: 0 <= k < |log| && log[k].what.Stepped? && log[k].what.site.d == d ==>
       Finished(log, log[k].what.site))
    && s == p.Set(e, p.events[e].(
         dispatching := false, phase := NoPhase, currentTarget := None, stop := false, stopNow := false, path := [],
         target := if log[d].what.clear then None else p.events[e].target,
         related := if log[d].what.clear then None else p.events[e].related))
  }

  ghost predicate LabelOk(worlds: seq<World>, log: Log, p: State, s: State, l: Label) {
    match l
    case Started => false
    case Outside => s == p
    case Acted(a) => ActedOk(p, s) && s == Perform(p, a) && !a.Return? && (a.Dispatch? ==> !Dispatchable(p, a.e))
    case Began(_, _, _, _, _, _) => BeganOk(p, s, l)
    case Stepped(site) => SteppedOk(log, p, s, site)
    case Snapped(_, _, _, _) => SnappedOk(worlds, log, p, s, l)
    case Ran(_, _, _, _, _) => RanOk(log, p, s, l)
    case Returned(site, ran) => ReturnedOk(log, p, s, site, ran)
    case RanHandler(site, w, snap) => RanHandlerOk(log, p, s, site, w, snap)
    case HandlerReturned(site, w, snap, value) => HandlerReturnedOk(log, p, s, site, w, snap, value)
    case Done(site, w, snap) => DoneOk(log, p, s, site, w, snap)
    case StepDone(site) => StepDoneOk(worlds, log, p, s, site)
    case Ended(d) => EndedOk(log, p, s, d)
  }

  /** Entry `k` tries to cancel the event, and may: it is cancelable and no passive listener of its is running. */
  ghost predicate Cancels(log: Log, k: nat, e: EventId)
    requires 0 < k < |log|
  {
    && (log[k].what == Acted(PreventDefault(e))
        || (log[k].what.HandlerReturned? && log[k].what.site.e == e && !log[k].what.value))
    && e in log[k - 1].st.events && log[k - 1].st.events[e].cancelable && !log[k - 1].st.events[e].passive
  }

  /** The event whose dispatch label `l` ends. */
  ghost function Ending(log: Log, l: Label): Option<EventId> {
    if l.Ended? && l.d < |log| && log[l.d].what.Began? then Some(log[l.d].what.e) else None
  }

  ghost predicate NextOk(worlds: seq<World>, log: Log, entry: Entry)
    requires log != []
  {
    var p := log[|log| - 1].st;
    Changes(p, entry.st, Ending(log, entry.what)) && LabelOk(worlds, log, p, entry.st, entry.what)
  }

  /** A page at rest: registries in order, nothing being dispatched. */
  ghost predicate StartOk(s: State) {
    && (forall w :: s.Reg(w).Valid())
    && (forall e :: e in s.events ==> !s.events[e].dispatching)
    && Quiet(s)
  }

  /** Entry `k` may follow what came before it. */
  ghost predicate LegalAt(worlds: seq<World>, log: Log, k: nat)
    requires 0 < k < |log|
  {
    NextOk(worlds, log[..k], log[k])
  }

  ghost predicate Legal(worlds: seq<World>, log: Log) {
    && log != [] && log[0].what.Started? && StartOk(log[0].st)
    && forall k :: 0 < k < |log| ==> LegalAt(worlds, log, k)
  }
}
