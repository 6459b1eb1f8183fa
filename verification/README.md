# Verified model of the binding layer

A Dafny 4.11 model of the parts of the browser's binding layer whose promises range over every
tree, every run or every string, with machine-checked proofs of those promises. It needs
nothing but Dafny: `dafny verify dfyconfig.toml` checks all of it.

Code that updates state in the repository is a class or a loop here, proved against a
specification function or relation; what the repository promises is then proved of that
specification. Where the code falls short of a standard or of its own comments, the code is
modelled as it is, and the list below says when: with the exact condition under which it complies,
proved both ways, and with an input that shows the failure. The few entries marked "always" have no
condition.

## The parts

**Event dispatch** (`Forest`, `EventPath`, `Retarget`, `Listeners`, `ListenerRegistry`,
`DispatchLog`, `Dispatch`, `DispatchLaws`, `DispatchStandard`). A forest of shadow trees; the
propagation path, whose loop ends because each step goes to a node with a lexicographically smaller address; `retarget` against the recursion of
the DOM Standard, section 4.8; and the dispatcher over several JavaScript worlds. A listener is an
arbitrary script: a function from the log of everything so far to its next action, which may add
or remove listeners, abort signals, change the tree, stop or cancel any event, and dispatch others.
The dispatcher's methods record what they do and keep the log `Legal`, a local condition on
each entry; `DispatchLaws` proves what holds of every legal log. `DispatchStandard` holds the plan the
log follows against section 2.9 of the DOM Standard: places, phases, listeners served and their order.

**Structured clone** (`StructuredClone`). The memoised recursion over a heap of primitives,
arrays with holes, objects, Maps, Sets, errors, views and built-in leaves. The memo is shown to
be a graph isomorphism; the grey set holds the objects whose copy is still being filled in. HTML's
own rules, section 2.7.3, are stated beside the program's - what is refused, what is visited, what
a copy is - and the two are compared both ways.

**Iterators** (`TreeOrder`, `NodeIterator`, `TreeWalker`). Pointer-chasing loops over parent,
child and sibling links, proved to be cursors over a filtered preorder.

**Wrapper retention** (`Connectivity`, `ConnectivityLog`). Worlds read one trimmed log through
their own cursors; the collector may take any wrapper not held strongly. First the page as a
transition system and its invariants, then the log, queue, cursor and hold tables as the
program keeps them, each operation shown to take a step of the system.

**Custom element reactions** (`ReactionTrace`, `ElementQueues`, `Reactions`, `ReactionRuns`). The
program's one FIFO with marks is a stack of slices of reactions. HTML section 4.13.6 has a stack of
queues of elements, and a reaction queue on each element. Both are machines over the same traces; the
condition under which they run the same reactions in the same order is proved exact for everything the
program can do. A call is its own work, its drain, and the page script that runs after the drain.

**Frames, history, named properties** (`Frames`, `History`, `NamedProperties`). The explicit-stack
walk over parent links that may be cyclic or dangling; the history window of fifty entries; the
incremental diff that keeps `window`'s properties for frame names, frame indices and ids what HTML
section 7.2.2.3 says of them.

**Console previews** (`Preview`). The bounded encoder over object graphs that change while they are
read: every answer of the engine depends on how many questions were asked before.

**Codecs** (`CssEscape`, `Utf8`, `Multipart`, `Base64`). Printers with the reader the standard
gives for them.

## Where the code differs from the standards or from its comments

- A `load` event whose path reaches its document is given to the window as well
  (`EventPath.NodePathFollowsParents`; `EventPath.LoadReachesWindow`).
- Calling an event handler sets neither `currentTarget` nor `eventPhase`, so a handler at a step
  where no listener was called sees an earlier position or none (`DispatchLaws.HandlerSeesPosition`;
  `DispatchLaws.HandlerSeesNothing`).
- A shadow host is never "at target". The program's plan is the Standard's in places, phases and
  listeners exactly unless a composed event starts inside a shadow tree
  (`DispatchStandard.PlanIsStandard`); if it does not bubble either, the hosts' ordinary listeners are
  never called (`DispatchStandard.LeavesOut`; `DispatchStandard.HostLeftOut`).
- The path is not cut short at the related target, nor is the dispatch dropped when the related target
  is retargeted to the target: the same places are visited exactly if neither the target nor a host that
  is crossed is on the related target's chain of hosts (`DispatchStandard.WholePathVisited`;
  `DispatchStandard.RelatedTargetIsPassed`).
- At a target capture listeners do not run before the others, and the event handler runs last, wherever
  it was set among them: the order is the Standard's exactly if the capture listeners were registered
  before the others and none of the others after the handler (`DispatchStandard.OrderAtTarget`;
  `DispatchStandard.OtherOrders`).
- Shadow hosts are crossed at most 64 times, and the related target's ancestors are searched 1024 deep
  (`Retarget.RetargetNode`; `Retarget.OneHostTooMany`, `Retarget.OneLevelTooDeep`).
- `structuredClone` drops holes at the end of an array and own array properties named like
  inherited ones, keeps a null prototype and an error's own name, and gives every error a message
  (`StructuredClone.CloneIsStandard`; `TrailingHoleIsLost`, `InheritedNameSlipsThrough`,
  `NullPrototypeIsKept`, `ErrorNameIsKept`, `ConstructorErrorBecomesString`).
- It refuses instances of other classes, platform objects HTML can serialize, errors named like a
  member of Object.prototype and errors whose cause fails (`StructuredClone.FailsAlone`;
  `InstanceIsRefused`, `InheritedErrorNameThrows`, `CauseIsVisited`), and clones objects with hidden slots
  and arrays whose passed-over properties HTML refuses (`StructuredClone.SucceedsAlone`;
  `HiddenSlotsSlipThrough`, `InheritedNameSlipsThrough`).
- A disconnect is applied without looking at the node's present state, so an old one can drop the
  hold on a connected wrapper (`Connectivity.StaleDisconnectDropsHold`); the log is trimmed at
  the slowest world of one frame, so with several frames a world can miss changes
  (`Connectivity.TrimStarvesOtherFrame`).
- Custom element reactions run in the order of the FIFO. Once nothing is pending, the order was HTML's
  exactly if every checkpoint was made outside calls and drains, each element was enqueued on only with
  nothing pending or with its pending reactions the last of the current slice, and each call that failed
  or was made outside the main world had nothing pending (`Reactions.RunsInOrder`). A box with two custom
  elements that is moved (`ReactionRuns.MovedBox`), one whose first callback touches the second element
  (`ReactionRuns.RemovedBox`) and a call that throws after moving a node (`ReactionRuns.ThrowingCall`) all
  differ from HTML. `docs/adr/0021-synchronous-ce-reactions.md:174-180` names only the first kind.
- A microtask checkpoint inside a `[CEReactions]` call drains the reactions of the enclosing calls
  too (`Reactions.ExactlyWhenCalm`; `ReactionRuns.CheckpointDrainsCaller`), and page script that runs in
  the call after its drain can leave reactions behind (`Reactions.Document.NativeCall`;
  `ReactionRuns.TailLeavesReaction`): in both cases the queue is not back at its mark.
- Descendant and ancestor frames are recognised within ten levels, so `frame_by_name` may answer another
  frame than the order in its comment - self, descendant, ancestor, other - gives
  (`Frames.FrameByName`; `Frames.DeepAncestorMissed`). HTML's own rule searches subtrees and is not
  compared.
- `window` names no embed, form, img or object element by its `name` attribute, as HTML section
  7.2.2.3 does: always.
- The history is bounded: a step to an entry that was evicted is refused
  (`History.AgreesUnlessRefused`; `History.FirstEntryIsGone`).
- A form-data content that begins with the dashes and the boundary ends its part
  (`Multipart.OpensLikeDelimiter`), and the name escape keeps `%` (`Multipart.UnescapeUndoes`;
  `Multipart.TwoNamesAlike`).

## Assumptions

`DomTree` is represented by what its callers rely on: no node is above itself, a shadow root has
no parent, rendered roots are roots, and an assigned slot lies in the shadow tree of its node's
parent (`Forest.WellFormed`). JavaScript engine operations, page code, the filter of an iterator and the
garbage collector are parameters or arbitrary steps. Strings are sequences of code units or
bytes, as each part says. Sequence numbers, ids and versions are unbounded naturals; the
program's 64-bit counters are not modelled to wrap.

## Model

| member | source | states |
|---|---|---|
| `Forest.DepthFalls` | crates/dom/src/tree.rs:1830-1840 | climbing by parent or by host ends: a depth falls at every step, in every forest where no node is above itself |
| `EventPath.FlatStepFalls` | crates/bindings/src/events.rs:653-677 | every step of `flat_event_parent` - to a slot, a parent or a host - lowers the node's address, the word of steps that leads down to it, in lexicographic order |
| `EventPath.FlatPathNoDup` | crates/bindings/src/events.rs:807-811 | the path loop meets no node twice, so it ends, on every well-formed shadow forest |
| `EventPath.OpenPathEnds` | crates/bindings/src/events.rs:653-677 | a composed event, or one whose target is in no shadow tree, climbs to the root above all hosts |
| `EventPath.ClosedPathEnds` | crates/bindings/src/events.rs:666-675 | a non-composed event from inside a shadow tree stops at that tree's root |
| `EventPath.NodePathFollowsParents` | crates/bindings/src/events.rs:796-817 | the path starts at the target and follows "get the parent" of the DOM Standard to its end, exactly unless it is a `load` event whose path has reached the window |
| `EventPath.LoadReachesWindow` | crates/bindings/src/events.rs:796-817 | a lone document: the path of its `load` event goes on to the window, the Standard's does not |
| `EventPath.FollowsParentsUnique` | crates/bindings/src/events.rs:796-817 | only one sequence follows "get the parent" from a target, so the previous row fixes the path |
| `EventPath.PathShape` | crates/bindings/src/events.rs:796-817 | the path repeats nothing; Window is in it exactly when the target is connected and the event composed or the target in no shadow tree, and then last; before it stands the composed root or the target's shadow root |
| `EventPath.WalkUp` | crates/bindings/src/events.rs:804-811 | the loop over `current` terminates and pushes exactly the flat path |
| `EventPath.BuildPath` | crates/bindings/src/events.rs:798-817 | the `match` over kinds of target builds the path the lemmas speak of, and of a target that is no node the target alone |
| `Retarget.ShadowIncludingInclusiveDescendant` | crates/bindings/src/events.rs:619-640 | the walk answers whether `ancestor` is among the first 1024 shadow-including ancestors |
| `Retarget.BoundedTest` | crates/bindings/src/events.rs:625-638 | for a node less than 1024 deep that is the Standard's shadow-including inclusive ancestor |
| `Retarget.RetargetedSettles` | crates/bindings/src/events.rs:596-616 | the Standard's recursion ends at a settled node of the host chain and is idempotent |
| `Retarget.SettlesAfter` | crates/bindings/src/events.rs:596-616 | on the chain of hosts the crossings lead through unsettled nodes to the first settled one, and only there stands the answer |
| `Retarget.RetargetNode` | crates/bindings/src/events.rs:596-616 | for all inputs: the loop stops at the first host whose shadow root it sees around `b`, or at the 64th; this is the Standard's answer exactly when the Standard stops at the 64th host, or before it at a host that is seen so; for a `b` less than 1024 deep, exactly when it crosses at most 64 hosts |
| `Retarget.OneHostTooMany` | crates/bindings/src/events.rs:596-616 | a node in 65 nested shadow trees: the 64th host is answered, the Standard answers the 65th |
| `Retarget.OneLevelTooDeep` | crates/bindings/src/events.rs:619-640 | two nodes of one shadow tree, the second 1024 steps below its root: the Standard leaves the first alone, the program answers the host |
| `Listeners.InsertEvolves` | crates/bindings/src/events.rs:452-473 | adding mints an id above all others, appends to that target's list and changes no other |
| `Listeners.RemoveByIdEvolves` | crates/bindings/src/events.rs:485-492 | removing takes that id from that target and nothing else |
| `Listeners.RemoveBySignalEvolves` | crates/bindings/src/events.rs:478-483 | an abort sweeps exactly the listeners of its signal, on every target |
| `Listeners.SnapshotContained` | crates/bindings/src/events.rs:502-512 | a snapshot lists exactly the registered listeners of the type, in registration order |
| `ListenerRegistry.ListenerRegistry.Insert` | crates/bindings/src/events.rs:452-473 | the registry in place: the new listener goes last on its target's list, under a fresh id |
| `ListenerRegistry.ListenerRegistry.RemoveBySignal` | crates/bindings/src/events.rs:478-483 | the sweep over the map keeps exactly the other listeners and drops emptied lists |
| `ListenerRegistry.ListenerRegistry.RemoveById` | crates/bindings/src/events.rs:485-492 | one list loses that id, and leaves the map if emptied |
| `ListenerRegistry.ListenerRegistry.Snapshot` | crates/bindings/src/events.rs:502-512 | the listeners of the type, in order |
| `ListenerRegistry.ListenerRegistry.Contains` | crates/bindings/src/events.rs:514-518 | whether the target's list has the id |
| `Listeners.AbsentStaysAbsent` | crates/bindings/src/events.rs:451-494 | an id once minted and gone never comes back, whatever is done to the registry |
| `Listeners.PresentIsSame` | crates/bindings/src/events.rs:451-494 | an id still there names the very same listener |
| `Dispatch.PerformOk` | crates/bindings/src/imp/event.rs:75-145 | no event under dispatch moves, whatever a script does to events and registries, and only a cancelable event outside a passive listener is cancelled |
| `DispatchLaws.ActionIsPerformed` | crates/bindings/src/imp/event.rs:75-145 | each action in the log is carried out there and then |
| `DispatchLaws.RegistryActionTakesEffect` | crates/bindings/src/events.rs:452-494 | what each action does to the registries, the handlers and the tree: a listener goes last under a new id, a removed id, an aborted signal or a finalized target has no listeners left, and nothing else changes |
| `DispatchLaws.EventActionTakesEffect` | crates/bindings/src/imp/event.rs:75-184 | what it does to an event, flag by flag: `preventDefault` cancels it exactly if it is cancelable and no passive listener is running, `stopPropagation` and `stopImmediatePropagation` set the one flag and both, `initEvent` resets them unless the event is under dispatch, and no other action touches them |
| `Dispatch.ScriptsDecide` | crates/bindings/src/events.rs:1065-1160 | every action, nested dispatch and handler's answer in the log is what the running script asked for at that moment |
| `Dispatch.Page.RunCallback` | crates/bindings/src/events.rs:1065-1160 | a callback acts as its script says until that returns, and answers what it returns |
| `Dispatch.Page.TryListener` | crates/bindings/src/events.rs:1065-1126 | one turn of the listener loop: phase filter, removal check, `once` removal before the call, position set, passive flag set and restored; nested dispatches included the log stays legal |
| `Dispatch.Page.TryHandler` | crates/bindings/src/events.rs:1137-1160 | the event handler runs after the listeners; its return is in the log with its answer, and `false` cancels the event as `preventDefault` does |
| `Dispatch.Page.RunListeners` | crates/bindings/src/events.rs:1065-1126 | the loop settles every listener of the snapshot - ran, filtered out or found removed - unless immediate propagation is stopped |
| `Dispatch.Page.InvokeListeners` | crates/bindings/src/events.rs:1033-1162 | one world's turn at a step: snapshot, listeners, handler |
| `Dispatch.Page.InvokeInEveryWorld` | crates/bindings/src/events.rs:971-1017 | the worlds of a step are served in order, those with nothing registered skipped, until immediate propagation stops |
| `Dispatch.Page.Capture` | crates/bindings/src/events.rs:845-850 | the capture loop takes the planned steps from the far end of the path down |
| `Dispatch.Page.Bubble` | crates/bindings/src/events.rs:856-863 | the bubble loop takes them from the target's parent outwards |
| `Dispatch.Page.End` | crates/bindings/src/events.rs:865-888 | the end of a dispatch resets the dispatching flag, position, stop flags and path, and clears target and related target if either was in a shadow tree |
| `Dispatch.Page.DispatchInner` | crates/bindings/src/events.rs:729-894 | for arbitrary scripts, nested dispatches included: refused, with nothing changed, exactly for an event under dispatch or not initialized; otherwise the log grows legally from the dispatch's beginning to its end, every event under another dispatch is held, this one ends with its dispatching flag, position, path and stop flags reset and its target cleared exactly if it or the related target was in a shadow tree when it began, and the answer is `false` exactly if the event was canceled before or something in between cancels it |
| `DispatchLaws.CanceledExactly` | crates/bindings/src/imp/event.rs:125-145 | as long as its dispatch is open an event is canceled exactly if it was when that began, or since then `preventDefault` was called on it or a handler answered `false`, while it was cancelable and no passive listener was running |
| `DispatchLaws.StoppedExactly` | crates/bindings/src/imp/event.rs:75-100 | and its stop flags are set exactly if they were, or `stopPropagation` or `stopImmediatePropagation` was called on it, the latter setting both |
| `DispatchLaws.EndsAsBegun` | crates/bindings/src/events.rs:865-894 | so is it when the dispatch has ended, and its target is the one it began with, unless that is cleared |
| `DispatchLaws.BeginsRetargeted` | crates/bindings/src/events.rs:757-842 | a dispatch begins with its target set, the related target retargeted as the Standard does within the bounds, and the decision to clear both made exactly if one of them is in a shadow tree |
| `DispatchLaws.StepsFollowPlan` | crates/bindings/src/events.rs:844-863 | at every moment the steps a dispatch has taken are a prefix of: path tail reversed capturing, target, path tail bubbling |
| `DispatchLaws.EndedRanPlan` | crates/bindings/src/events.rs:844-863 | a dispatch that ends has taken all of them, unless propagation was stopped |
| `DispatchLaws.PositionsDiffer` | crates/bindings/src/events.rs:844-863 | a dispatch never stands at the same target and phase twice |
| `DispatchLaws.OneOpenDispatch` | crates/bindings/src/events.rs:745-753 | no event is under two dispatches at once, however they nest |
| `DispatchLaws.OpenDispatches` | crates/bindings/src/events.rs:837-842 | as long as its dispatch is open, the event is marked as dispatching |
| `DispatchLaws.RemovedNeverRuns` | crates/bindings/src/events.rs:1071-1074 | a listener removed at any earlier moment of the run does not run |
| `DispatchLaws.AddedLaterNeverRuns` | crates/bindings/src/events.rs:1040-1046 | a listener that runs was registered when its snapshot was taken |
| `DispatchLaws.OnceRunsOnce` | crates/bindings/src/events.rs:1075-1080 | a `once` listener runs at most once in the whole run, re-entrant dispatches included |
| `DispatchLaws.RegistrationOrder` | crates/bindings/src/events.rs:1065-1126 | within a world's turn listeners run in registration order |
| `DispatchLaws.WorldOrder` | crates/bindings/src/events.rs:984-996 | within a step worlds are served in the page's order |
| `DispatchLaws.NothingAfterStopImmediate` | crates/bindings/src/events.rs:988-991 | after stop-immediate the dispatch calls no listener and no handler and takes no snapshot, in any world |
| `DispatchLaws.NoStepAfterStop` | crates/bindings/src/events.rs:845-862 | after stop-propagation it takes no further step |
| `DispatchLaws.TurnRunsOrRemoved` | crates/bindings/src/events.rs:1033-1126 | a world's turn at a step, unless immediate propagation is stopped, calls every matching listener that was registered when the step began - or there was a moment of the step at which it was not registered |
| `DispatchLaws.DeliveredToAll` | crates/bindings/src/events.rs:971-1126 | delivery is complete: a dispatch that ends finished every step it took, and at each, unless immediate propagation was stopped by the end of that step, every matching listener registered when the step began was called there, in each world, or was absent at some moment of the step; `once` listeners, later removals and runs with stop-propagation included |
| `DispatchLaws.HandlerDelivered` | crates/bindings/src/events.rs:1052-1160 | likewise a handler that is set throughout a step at its target or on the way up is called there, in each world, and its answer counts |
| `DispatchLaws.ListenerSeesPosition` | crates/bindings/src/events.rs:1081-1085 | a listener is always shown its own `currentTarget` and `eventPhase` |
| `DispatchLaws.HandlerSeesPosition` | crates/bindings/src/events.rs:1137-1143 | an event handler is shown the true ones exactly when a listener was called before it at the same step; the call itself sets neither |
| `DispatchLaws.HandlerSeesNothing` | crates/bindings/src/events.rs:1137-1143 | a run in which the handler of a target nobody listens on is shown no `currentTarget` and no phase |
| `DispatchLaws.PassiveNeverCancels` | crates/bindings/src/events.rs:1087-1111 | nothing done during a passive listener's call, however deeply nested, cancels its event |
| `DispatchStandard.CrossesWhenComposed` | crates/bindings/src/events.rs:796-811 | along the path some host becomes a target of the Standard exactly if a composed event starts inside a shadow tree |
| `DispatchStandard.PlanIsStandard` | crates/bindings/src/events.rs:844-863 | the three loops serve the Standard's places, with its phases and its kinds of listeners, in its order, exactly unless a composed event starts inside a shadow tree (that `load` reaches the window aside) |
| `DispatchStandard.LeavesOut` | crates/bindings/src/events.rs:856-863 | all listeners the Standard would call are reached exactly unless such an event does not bubble |
| `DispatchStandard.HostListenerUncalled` | crates/bindings/src/events.rs:856-863 | then the ordinary listeners of the hosts crossed are called by the Standard, at target, and by no step of the program |
| `DispatchStandard.HostLeftOut` | crates/bindings/src/events.rs:856-863 | the smallest such tree |
| `DispatchStandard.RetargetsTo` | crates/bindings/src/events.rs:596-616 | retargeting against a node gives that node exactly if it is on the chain of hosts |
| `DispatchStandard.WholePathVisited` | crates/bindings/src/events.rs:762-817 | the program visits the places the Standard does exactly if the related target, not being the target, has neither the target nor a crossed host on its chain of hosts |
| `DispatchStandard.RelatedTargetIsPassed` | crates/bindings/src/events.rs:762-817 | two elements of one shadow tree: the Standard ends the path inside it, the program goes on to the host |
| `DispatchStandard.OrderAtTarget` | crates/bindings/src/events.rs:1065-1143 | at a target the callees come in the Standard's order exactly if the capture listeners were registered before the others and none of the others after the handler was set |
| `DispatchStandard.OtherOrders` | crates/bindings/src/events.rs:1065-1143 | an ordinary listener before a capture listener, and a handler before a listener, come in another order |
| `StructuredClone.Cloner.Clone` | crates/bindings/src/bootstrap.js:552-682 | one call of the recursion: the copy and its memo entries, or a failure of something visited - uncloneable, or an error named like a member of Object.prototype; the memo set before the contents, so cycles end |
| `StructuredClone.StructuredClone` | crates/bindings/src/bootstrap.js:552-682 | over any finite object graph: fails exactly when something is visited that the program refuses - a function, symbol, host object or instance, or an error named like a member of Object.prototype, which throws a TypeError instead; otherwise the memo is a bijection from the reachable objects to fresh ones, each the copy of its original, the input untouched |
| `StructuredClone.CopyIs` | crates/bindings/src/bootstrap.js:552-682 | what each copy is: an array up to its last element, without the properties named like inherited ones; a plain object with its prototype and all its properties; an error with its own name, stack and copied cause; a built-in leaf with its kind and content, a view with its kind, offset and length on the copied buffer, entries and members in their order |
| `StructuredClone.FailsHere` | crates/bindings/src/bootstrap.js:552-682 | what fails, kind by kind: a container exactly if something it holds does, an array by its elements and the properties visited, an error by its name or its cause, an instance or platform object always |
| `StructuredClone.FailsInHtml` | crates/bindings/src/bootstrap.js:552-682 | likewise under HTML's rules |
| `StructuredClone.ValuesFail` | crates/bindings/src/bootstrap.js:552-561 | functions and symbols fail under both, primitives under neither |
| `StructuredClone.EntriesStep` | crates/bindings/src/bootstrap.js:581-588 | distinct Map keys have distinct copies, so no entry overwrites another |
| `StructuredClone.MembersStep` | crates/bindings/src/bootstrap.js:589-594 | distinct Set members have distinct copies, so none is lost |
| `StructuredClone.CompleteIsNotBad` | crates/bindings/src/bootstrap.js:559-561 | a finished copy rules out anything below it on which the clone fails |
| `StructuredClone.CopyIsStandard` | crates/bindings/src/bootstrap.js:552-682 | one copy is what HTML section 2.7.3 says it is, field by field, exactly if its original is ordinary: no array ending in a hole or with an own property named like an inherited one, no null prototype or hidden slots, no instance, no error of another name than the seven or without a message of its own |
| `StructuredClone.CloneIsStandard` | crates/bindings/src/bootstrap.js:552-682 | the whole copy is HTML's exactly when every object HTML would visit is ordinary |
| `StructuredClone.FailsAlone` | crates/bindings/src/bootstrap.js:552-682 | where HTML's clone succeeds, this one fails exactly when it visits an instance of another class, a platform object HTML can serialize, an error named like a member of Object.prototype, or an error whose cause fails |
| `StructuredClone.SucceedsAlone` | crates/bindings/src/bootstrap.js:552-682 | where this clone succeeds, HTML's fails exactly when it visits an object with hidden slots under Object.prototype or an array whose passed-over property fails |
| `StructuredClone.InheritedNameSlipsThrough` | crates/bindings/src/bootstrap.js:572-575 | an array with a function under the name `map` clones here, and not under HTML |
| `StructuredClone.TrailingHoleIsLost` | crates/bindings/src/bootstrap.js:568-571 | a hole at the end of an array is lost: `[,]` has a clone of length zero |
| `StructuredClone.HiddenSlotsSlipThrough` | crates/bindings/src/bootstrap.js:671-682 | an arguments object clones here, and not under HTML |
| `StructuredClone.InstanceIsRefused` | crates/bindings/src/bootstrap.js:671-682 | an instance of a class and a Blob clone under HTML, and not here |
| `StructuredClone.NullPrototypeIsKept` | crates/bindings/src/bootstrap.js:671-678 | a null prototype is kept, where HTML's copy has Object.prototype |
| `StructuredClone.CauseIsVisited` | crates/bindings/src/bootstrap.js:655-670 | an error whose cause is a function clones under HTML, and not here |
| `StructuredClone.InheritedErrorNameThrows` | crates/bindings/src/bootstrap.js:655-658 | an error named `toString` clones under HTML; here a TypeError is thrown, though nothing uncloneable is visited |
| `StructuredClone.ConstructorErrorBecomesString` | crates/bindings/src/bootstrap.js:655-658 | an error named `constructor` is copied to a String object |
| `StructuredClone.ErrorNameIsKept` | crates/bindings/src/bootstrap.js:655-669 | an error's own name is kept, where HTML's copy is named Error; an error without a message gets an empty one |
| `TreeOrder.PreorderComplete` | crates/bindings/src/bootstrap.js:1514-1532 | the preorder of a subtree has every node of it |
| `TreeOrder.PreorderSorted` | crates/bindings/src/bootstrap.js:1514-1532 | in it an ancestor comes before its descendants, and what is below one child before what is below a later one |
| `NodeIterator.PreorderIsOrder` | crates/bindings/src/bootstrap.js:1514-1532 | the pointer chases `#following` and `#preceding` step through the root's preorder, one place at a time, to null at its ends |
| `NodeIterator.NodeIterator.NextNode` | crates/bindings/src/bootstrap.js:1533-1549 | `nextNode` moves a cursor over the accepted nodes of the root's preorder one place forward, and leaves reference and side alone when it answers null |
| `NodeIterator.NodeIterator.PreviousNode` | crates/bindings/src/bootstrap.js:1533-1550 | `previousNode` moves it one place back, likewise |
| `NodeIterator.ForwardRun` | crates/bindings/src/bootstrap.js:1549-1549 | the k-th `nextNode` is the k-th accepted node, and null for ever after the last |
| `NodeIterator.BackwardRun` | crates/bindings/src/bootstrap.js:1550-1550 | `previousNode` from the end enumerates the same list backwards |
| `NodeIterator.TurningRound` | crates/bindings/src/bootstrap.js:1533-1548 | turning round gives the same node again |
| `NodeIterator.RunKeepsAll` | crates/bindings/src/bootstrap.js:1533-1548 | no mix of calls loses or reorders an accepted node |
| `TreeWalker.TreeWalker.NextNode` | crates/bindings/src/bootstrap.js:1633-1654 | the loops find the first node ahead, a rejected node hiding its subtree and a skipped one only itself, or answer null and do not move |
| `TreeWalker.TreeWalker.PreviousNode` | crates/bindings/src/bootstrap.js:1655-1674 | the loops find the last node behind, or answer null and do not move |
| `TreeWalker.ShowIsTreeOrder` | crates/bindings/src/bootstrap.js:1633-1654 | the walk is exactly the accepted nodes below the root without a rejected ancestor below it, each once, in tree order |
| `TreeWalker.NextIsForward` | crates/bindings/src/bootstrap.js:1633-1654 | from the root or a shown node `nextNode` moves one place forward in that walk |
| `TreeWalker.ForwardRun` | crates/bindings/src/bootstrap.js:1633-1654 | from the root the k-th `nextNode` is the k-th node of that walk, and null for ever after the last |
| `TreeWalker.WalkSplits` | crates/bindings/src/bootstrap.js:1633-1674 | at every reachable node, what is behind and what is ahead together are the whole walk |
| `TreeWalker.LastHasNothingAhead` | crates/bindings/src/bootstrap.js:1642-1650 | `nextNode` answers null exactly at the end of the walk, without leaving the root's subtree |
| `TreeWalker.PreviousUndoesNext` | crates/bindings/src/bootstrap.js:1655-1674 | `previousNode` undoes `nextNode` from every shown node, and from the root exactly when the root is accepted |
| `Connectivity.DrainHoldsSecured` | crates/bindings/src/lib.rs:2182-2219 | after a drain a connected node with a live wrapper is held exactly if it was provisional, or the last unread change connects it, or no unread change names it and it was held |
| `Connectivity.DrainReleases` | crates/bindings/src/lib.rs:2182-2219 | after a drain a disconnected node is held exactly if it was and no unread change disconnects it, and no provisional hold is left |
| `Connectivity.DrainRetains` | crates/bindings/src/lib.rs:2144-2241 | the retention promise is met after a drain exactly from such good states |
| `Connectivity.DrainIsExact` | crates/bindings/src/lib.rs:2144-2241 | a drain leaves its world holding exactly the connected nodes with a live wrapper, and nothing provisionally, exactly from the good states in which every release is still to be read |
| `Connectivity.NextReleased` | crates/bindings/src/lib.rs:2144-2241 | every step of the page keeps the releases to come, unless another world's drain trims an entry away |
| `Connectivity.TrimKeepsUnread` | crates/bindings/src/lib.rs:2228-2238 | a trim keeps every change another world has yet to read exactly when it does not raise the low end of the log above that world's cursor |
| `Connectivity.OneFrameLosesNothing` | crates/bindings/src/lib.rs:2228-2238 | within one frame no trim loses anything |
| `Connectivity.NextGood` | crates/bindings/src/lib.rs:2144-2241 | every step of the page - tree changes, wrapping, collection, joining, draining - keeps every world good, but for the two below |
| `Connectivity.StaleWrapSpoils` | crates/bindings/src/cx.rs:485-500 | a wrapper minted for a connected node whose last unread change is a disconnect is not safe |
| `Connectivity.OrderlyRun` | crates/bindings/src/lib.rs:2144-2241 | on every run of a one-frame page without such a wrapper each drain leaves its world's holds exact - on the connected nodes with a live wrapper, and on no others - each world has applied every change since it joined, once and in order, and no trim has cost anything |
| `Connectivity.EveryDrainRetains` | crates/bindings/src/lib.rs:2144-2241 | so, from an empty page, after every drain of such a run a node is held strongly exactly if it is connected and has a live wrapper, and nothing is held provisionally |
| `Connectivity.AnyRunInOrder` | crates/bindings/src/lib.rs:2144-2241 | on every run from an empty page, with any frames and any trims, what a world has applied is an ordered part of the history since it joined, nothing twice |
| `Connectivity.StaleDisconnectDropsHold` | crates/bindings/src/lib.rs:2196-2198 | a run of the page in which the hold on a connected, live wrapper is dropped by an old disconnect |
| `Connectivity.TrimStarvesOtherFrame` | crates/bindings/src/lib.rs:2228-2238 | a run with two frames in which a world never learns that its node was connected |
| `ConnectivityLog.PageGlobal.SetConnected` | crates/dom/src/tree.rs:3314-3330 | a node crossing the boundary is queued exactly if pinned |
| `ConnectivityLog.PageGlobal.NodeToJs` | crates/bindings/src/cx.rs:417-518 | the live wrapper, or a new one, pinned and held strongly or provisionally |
| `ConnectivityLog.PageGlobal.InstallWorld` | crates/bindings/src/lib.rs:205-211 | a new world starts at the end of the log |
| `ConnectivityLog.PageGlobal.Trim` | crates/bindings/src/lib.rs:2234-2238 | the log keeps exactly the entries past the lowest cursor |
| `ConnectivityLog.PageGlobal.Drain` | crates/bindings/src/lib.rs:2144-2241 | the drain over the numbered log and the cursors takes the step the laws are about, empties the queue and the provisional holds, brings the cursor to the end of the log, and answers whether there was anything to do |
| `Reactions.Document.PopFrom` | crates/dom/src/tree.rs:812-821 | takes the oldest reaction at or above the mark |
| `Reactions.Document.Invoke` | crates/bindings/src/lib.rs:2266-2292 | runs reactions from the mark upwards until none is left above it; what is below is untouched if no checkpoint runs meanwhile |
| `Reactions.Document.CallAndDrain` | crates/bindings/src/cx.rs:70-100 | up to the end of its drain: a `[CEReactions]` call drains exactly if its own work succeeds in the main world, and has then brought the queue back exactly when the queue was empty or no checkpoint ran meanwhile, every slice of the enclosing calls with it; a call that fails or runs elsewhere ends without draining, and all it enqueued itself is still pending, after the old queue if no checkpoint ran |
| `Reactions.Document.NativeCall` | crates/bindings/src/cx.rs:70-139 | the whole call, with the frames attached and the inline scripts run after the drain: without a checkpoint the queue is the old one followed by what this tail enqueued and left pending - and, if the call did not drain, by what it enqueued itself; a drained call restores the queue exactly when the tail left nothing and either no checkpoint ran or there was nothing pending; everything enqueued and every call and checkpoint in it is what the page or an operation asked for |
| `ReactionRuns.TailLeavesReaction` | crates/bindings/src/cx.rs:108-137 | a run without a checkpoint in which the tail leaves a reaction above the call's mark |
| `Reactions.Document.MicrotaskCheckpoint` | crates/bindings/src/lib.rs:2246-2248 | drains the whole queue, whoever enqueued it |
| `Reactions.PopKeeps` | crates/bindings/src/lib.rs:2271-2272 | popping at the mark takes the oldest reaction of the innermost slice and touches nothing below |
| `ReactionTrace.ConservedOnce` | crates/dom/src/tree.rs:784-821 | every reaction ever enqueued is pending or has run, not both, and once |
| `Reactions.RanWhatWasEnqueued` | crates/bindings/src/cx.rs:76-100 | during a call that restores the queue, what ran is exactly what was enqueued, each once |
| `ReactionTrace.SlicesInOrder` | crates/bindings/src/cx.rs:76-78 | the slices from the bottom up hold the reactions in the order they were enqueued, so slices of nested calls never interleave |
| `ElementQueues.GuardedConforms` | crates/bindings/src/lib.rs:2266-2292 | if each element is enqueued on only with nothing pending, or with its pending reactions the last of the current slice, and calls that do not drain have nothing pending, then each reaction the program runs is the one HTML's element queues run then, and calls end when HTML's do |
| `ElementQueues.UnguardedIsDoomed` | crates/bindings/src/lib.rs:2266-2292 | after an enqueue or a call against that condition the program and HTML cannot both empty what is pending |
| `ElementQueues.OrderIsHtml` | crates/bindings/src/lib.rs:2266-2292 | so, once all that was enqueued has run, the order was that of HTML 4.13.6 exactly if the condition was kept |
| `ElementQueues.HtmlIsProper` | crates/bindings/src/lib.rs:2253-2260 | HTML makes no checkpoint inside a call or a drain |
| `Reactions.RunsInOrder` | crates/bindings/src/cx.rs:70-139 | for whatever operations, callbacks, nested calls and checkpoints the program goes through: with nothing pending, its order was HTML's exactly if every checkpoint was made with nothing under way and the condition on enqueueing was kept |
| `ReactionRuns.MovedBox` | crates/dom/src/tree.rs:939-981 | a box with two custom elements is moved: disconnected twice, then connected twice, as no run of HTML's machine is |
| `ReactionRuns.MovedBoxInHtml` | crates/dom/src/tree.rs:939-981 | HTML runs the first element's two reactions, then the second's |
| `ReactionRuns.RemovedBox` | crates/dom/src/tree.rs:969-981 | the first element's callback sets an attribute on the second: the second's new reaction runs before its older one |
| `ReactionRuns.RemovedBoxInHtml` | docs/adr/0021-synchronous-ce-reactions.md:174-180 | HTML runs the older one first, inside the nested call |
| `ReactionRuns.ThrowingCall` | crates/bindings/src/imp/parent_node.rs:13-37 | a call that moved a node before it threw keeps the reaction until a checkpoint; HTML runs it before the call returns |
| `Reactions.ExactlyWhenCalm` | crates/dom/src/tree.rs:804-816 | by the end of its drain a call has restored the queue exactly if there was nothing pending or no checkpoint ran in it |
| `ReactionRuns.CheckpointDrainsCaller` | crates/dom/src/tree.rs:804-816 | a run in which a checkpoint inside a call takes the caller's reaction |
| `Frames.FramesInTreeOrder` | crates/bindings/src/state.rs:1186-1226 | for any parent links, cycles and dangling ones included, the explicit-stack walk ends and lists every live frame once: the recursive preorder of what the roots reach, siblings in slot order, then the rest |
| `Frames.TreeOrderMembers` | crates/bindings/src/state.rs:1206-1217 | the preorder lists the frames reached from a root, each once |
| `Frames.TreeOrderSorted` | crates/bindings/src/state.rs:1206-1217 | in it a parent comes before what is below it, and what is below one sibling before what is below a later one |
| `Frames.WalkingStep` | crates/bindings/src/state.rs:1208-1217 | popping one frame and pushing its children in reverse emits the next of the preorder; the "already emitted" guard never fires in it |
| `Frames.IsAncestorFrame` | crates/bindings/src/state.rs:1272-1282 | answers whether the ancestor is among the ten nearest |
| `Frames.FrameByName` | crates/bindings/src/state.rs:1235-1267 | the frame of that name nearest by (self, descendant, ancestor, other) and then tree order, as far as ten levels show; it is the nearest of all exactly when that one's family is seen, or no frame of the name is seen to be related and it comes first in tree order - or, on a loop of parent links, it is the first seen as an ancestor and none is seen nearer |
| `Frames.NearestIs` | crates/bindings/src/state.rs:1235-1267 | what nearest means, against any other frame of the name: self first, then descendants, then ancestors, then the rest, and of frames related alike the first in tree order |
| `Frames.ChoiceKept` | crates/bindings/src/state.rs:1235-1267 | the same of every query: the nearest frame is the one chosen exactly under that condition |
| `Frames.UnseenIsLast` | crates/bindings/src/state.rs:1241-1252 | a frame whose family is not seen ranks last, but for loops of parent links |
| `Frames.DeepAncestorMissed` | crates/bindings/src/state.rs:1272-1282 | eleven levels down the answer is an unrelated frame of the name, and not the ancestor of that name |
| `NamedProperties.FirstNamed` | crates/bindings/src/lib.rs:879-888 | a name resolves to the first child that has it |
| `NamedProperties.ScratchIs` | crates/bindings/src/lib.rs:765-898 | the table from scratch, name by name: a non-empty name is there exactly if a child frame has it or an element of the document has it as its id; the first child of the name has it, before any element; every child has its index |
| `NamedProperties.Window.SyncFrameProperties` | crates/bindings/src/lib.rs:834-898 | after the frame pass the table is the from-scratch one for the new children, and the id pass is skipped only if it would change nothing |
| `NamedProperties.Window.SyncNamedProperties` | crates/bindings/src/lib.rs:765-817 | after every sync, early exits included, the table of frame names and ids and the indices are the ones built from scratch from the present children and ids |
| `NamedProperties.Window.IndexAdd` | crates/dom/src/tree.rs:442-448 | the id index gains the node, and the version moves exactly if the index does |
| `NamedProperties.Window.IndexRemove` | crates/dom/src/tree.rs:450-462 | the id index loses one occurrence, and the version moves exactly if the index does |
| `NamedProperties.Window.Run` | crates/bindings/src/lib.rs:765-898 | for every sequence of frame changes, id changes and adoptions: after a host call the properties are in step |
| `NamedProperties.FramesInStep` | crates/bindings/src/lib.rs:870-893 | deleting the names no child has and laying the children's names over the rest turns one from-scratch table into the other |
| `NamedProperties.WantedUnchanged` | crates/bindings/src/lib.rs:869-897 | when neither loop marks the ids stale, the ids wanted are the same as before |
| `NamedProperties.WantedSuffice` | crates/bindings/src/lib.rs:786-797 | ids that are empty or outranked by a frame make no difference |
| `Preview.Encode` | crates/bindings/src/preview.rs:146-152 | for every object graph, changing and failing reads included: at most four levels, a hundred entries each, items never more than the length; at most 2048 nodes besides those that stand for a failed read, at most 2048 times 101 in all; and for pure reads the unbounded preview with lists cut short - the whole of it if that has no more nodes than the budget |
| `Preview.Encoder.EncodeAt` | crates/bindings/src/preview.rs:161-234 | one node: its cost, its bounds, and what each kind of value is shown as - `Cyclic` exactly for an object on the current path, unless the budget is spent or it is a DOM node, and nothing of an array or object from the fifth level on |
| `Preview.WholeArrayIs` | crates/bindings/src/preview.rs:236-261 | the unbounded preview of an array: its true length and its first hundred items as read, a failed read in its place |
| `Preview.WholeObjectIs` | crates/bindings/src/preview.rs:263-306 | and of an object: its first hundred keys in order, each with what is read there |
| `Preview.Encoder.EncodeArray` | crates/bindings/src/preview.rs:236-261 | the loop over an array stops at the budget and counts its cut honestly |
| `Preview.Encoder.EncodeObject` | crates/bindings/src/preview.rs:263-306 | the loop over the keys, the key list itself cut to the budget |
| `Preview.BuildEnd` | crates/bindings/src/preview.rs:242-256 | a list that ends early does so only if the whole preview exceeds the budget |
| `History.SessionHistory.Push` | crates/bindings/src/state.rs:438-447 | what was ahead is dropped and the entry appended, and past fifty the oldest evicted: still a window on the unbounded history, one step back from the new entry is the old one |
| `History.SessionHistory.TargetOf` | crates/bindings/src/state.rs:421-425 | succeeds exactly when the unbounded history has an entry that many steps away and it was not evicted, and names that entry |
| `History.SessionHistory.Restamp` | crates/bindings/src/state.rs:461-466 | a traversal's load replaces address and document, and keeps the state |
| `History.SessionHistory.Run` | crates/bindings/src/state.rs:363-481 | every reachable state is a non-empty window of at most fifty entries ending where a history ends that refuses exactly the steps to entries evicted by then; it is the unbounded history as long as no step is refused |
| `History.AgreesUnlessRefused` | crates/bindings/src/state.rs:363-481 | the two histories agree after every operation exactly when no step is refused, each step held against what is evicted when it is asked for |
| `History.FirstEntryIsGone` | crates/bindings/src/state.rs:421-447 | fifty pushes and a step back to the first entry: refused, where the unbounded history goes there |
| `History.PushWindow` | crates/bindings/src/state.rs:438-447 | pushing on the window is pushing on the whole, one more evicted at most |
| `CssEscape.Escape` | crates/bindings/src/bootstrap.js:1211-1239 | for every non-empty string of code units the output starts an identifier and reads, by CSS Syntax 4.3.7, 4.3.9 and 4.3.11, as that string with NUL replaced, to the last unit |
| `CssEscape.ReadsBack` | crates/bindings/src/bootstrap.js:1211-1239 | so it does before anything that cannot go on with an identifier, which is left unread |
| `CssEscape.BareWhereItMayBe` | crates/bindings/src/bootstrap.js:1211-1239 | a unit is left unescaped exactly if it may stand in an identifier and the output then still starts one |
| `CssEscape.EscapedHow` | crates/bindings/src/bootstrap.js:1211-1239 | any other is escaped as CSSOM section 2.1 says: a control or a digit by its number, the rest by a backslash, NUL replaced |
| `CssEscape.HexIs` | crates/bindings/src/bootstrap.js:1205-1205 | the number is in lower-case hexadecimal without leading zeros |
| `CssEscape.EscapedAlike` | crates/bindings/src/bootstrap.js:1220-1222 | two strings escape alike exactly when they differ in nothing but NUL against U+FFFD |
| `Utf8.Encode` | crates/bindings/src/bootstrap.js:1288-1314 | for any string the output is well-formed UTF-8: the encoding of the string with lone surrogates replaced |
| `Utf8.PairIs` | crates/bindings/src/bootstrap.js:1293-1301 | a code point above U+FFFF has the high ten bits of the excess in its first half and the low ten in its second |
| `Utf8.BitsOf` | crates/bindings/src/bootstrap.js:1302-1312 | the bytes of a code point hold its bits by the table of RFC 3629 section 3 |
| `Utf8.EncodedIsWellFormed` | crates/bindings/src/bootstrap.js:1288-1314 | whatever the string, the bytes are well-formed by RFC 3629 section 4 |
| `Utf8.EncodedAsRepaired` | crates/bindings/src/bootstrap.js:1293-1301 | every lone surrogate, and nothing else, encodes as U+FFFD |
| `Utf8.Grammar` | crates/bindings/src/bootstrap.js:1357-1372 | the decoder's checks on one sequence are the grammar of RFC 3629 |
| `Utf8.Decode` | crates/bindings/src/bootstrap.js:1348-1379 | fatal mode refuses exactly the malformed bytes; in either mode well-formed bytes give the well-formed string they encode, less a leading BOM unless that is kept |
| `Utf8.OneText` | crates/bindings/src/bootstrap.js:1348-1379 | bytes encode at most one well-formed string, so decoding undoes encoding and encoding undoes decoding |
| `Utf8.DecodesEncoded` | crates/bindings/src/bootstrap.js:1288-1379 | what is decoded from the encoding of any string is that string with lone surrogates replaced: itself exactly if it is well-formed |
| `Multipart.ToMultipart` | crates/bindings/src/netdata.rs:223-266 | for a boundary without CR: a reader by RFC 2046 section 5.1.1 and RFC 7578 sections 4.2 and 4.4, with the header grammar written out, gets back every entry - kind, escaped name and filename, type or its default, exact bytes, in order - exactly when no content could be taken for the end of its part; whatever the boundary, the close-delimiter stands last |
| `Multipart.EscapedByChar` | crates/bindings/src/netdata.rs:273-277 | the three replacements are one pass |
| `Multipart.EscapedIsQuotable` | crates/bindings/src/netdata.rs:268-277 | no escaped value holds CR, LF or a quote |
| `Multipart.UnescapeUndoes` | crates/bindings/src/netdata.rs:273-277 | the escape can be undone exactly when the value looked escaped nowhere |
| `Multipart.TwoNamesAlike` | crates/bindings/src/netdata.rs:273-277 | the names `%0D` and CR are written alike |
| `Multipart.OpensLikeDelimiter` | crates/bindings/src/netdata.rs:223-266 | a content that begins with the dashes and the boundary is such a content, the line break before it counting |
| `Multipart.DelimiterInPart` | crates/bindings/src/netdata.rs:225-260 | in a written part the delimiter occurs nowhere else: not in the headers, not across the part's end |
| `Base64.Encode` | crates/cdp/src/base64.rs:22-46 | the text is the canonical one of RFC 4648 for those bytes |
| `Base64.AlphabetIs` | crates/cdp/src/base64.rs:18-18 | the alphabet is table 1 of RFC 4648 |
| `Base64.DigitsAre` | crates/cdp/src/base64.rs:22-46 | which bits of which byte each digit holds, and where the padding stands |
| `Base64.Decode` | crates/cdp/src/base64.rs:52-79 | succeeds exactly on well-formed text, with the bytes it means |
| `Base64.WellFormedIs` | crates/cdp/src/base64.rs:54-66 | well-formed is: a multiple of four, all of the alphabet but for at most two trailing pads |
| `Base64.MeansOne` | crates/cdp/src/base64.rs:52-79 | a text means one string of bytes |
| `Base64.DecodeEncoded` | crates/cdp/src/base64.rs:22-79 | any bytes, encoded and decoded, are those bytes |
| `Base64.EncodesOne` | crates/cdp/src/base64.rs:22-79 | encoding what was decoded gives the text back exactly when the unused low bits are zero |
## Left out

- Activation behaviour around a click dispatch, and the compilation of content-attribute handlers: they call into code that is not part of this model.
- Dispatch's error exits: the model has normal returns only; an error return of the main world leaves the event marked as dispatching.
- Listeners.Registry: the dispatcher's page holds each world's registry as this value; `ListenerRegistry` is the object it stands for, but the page does not hold the object, so aliasing of registries is not captured.
- Dispatch.Page.DispatchInner: scripts run for a bounded number of actions (`fuel`), and the page's list of worlds does not change during a dispatch.
- Frames.FrameByName: the table of live frames in slot order is a parameter; the sort that produces it and the weak references it is read through are not modelled.
- NodeIterator.NodeIterator.NextNode: the tree and the filter are fixed during a call; a filter that throws, or that re-enters the iterator, is not modelled.
- TreeWalker.TreeWalker.NextNode: `parentNode`, `firstChild`, `nextSibling` and their mirrors are not modelled, nor is a `currentNode` set outside the root's subtree.
- StructuredClone.StructuredClone: getters, proxies, an own property named `__proto__` on a plain object, a polluted Object.prototype or Array.prototype, built-in objects whose prototype was changed so that `instanceof` no longer tells what they are, errors whose name or message is not a string, detached and resizable buffers, views over a SharedArrayBuffer (a view's buffer is a leaf here), and the transfer list are not modelled; numbers are compared as Map keys are.
- StructuredClone.CloneIsStandard: what a user agent attaches to an error besides its name and message is left open, as HTML leaves it.
- Connectivity.OrderlyRun: navigation, which empties the log and the cursors, and the reuse of node slots after a node is freed.
- Reactions.Document.NativeCall: what page script and a call's own work do is arbitrary but of bounded length; page script enqueues only through calls, as HTML demands of every interface, so the upgrade that `new` on a registered constructor enqueues and that does nothing when it runs is left out; a reaction is its element and the moment it was enqueued, and an upgrade includes the callbacks it makes itself.
- NamedProperties.Window.SyncNamedProperties: one document and an installed named properties object; page script that deletes or redefines the accessors, and what an accessor answers when an id has several elements.
- Preview.Encode: reading and rendering of leaf details (stack frames, function names, class names, `toString`) is a question to the engine; the rendering of a preview to text.
- Utf8.Decode: in the replacement mode nothing is claimed for malformed bytes, where the code drops the rest after a truncated sequence.
- Multipart.ToMultipart: texts are given as their UTF-8 bytes; the choice of the boundary.
- History.SessionHistory.Push: `scrollRestoration` and the allocation of document sequence numbers, which do not touch the entries.
- Observer geometry, layout and other floating-point work, network, cookies, storage, dialogs and timers.
- Interface registration, brand checks and argument conversion: many uniform members with nothing to prove across them.
