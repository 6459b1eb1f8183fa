/**
  * The console's value encoder: a walk over an object graph that may be cyclic, may change
  * under the walk and may throw at any read, with one budget of nodes for the whole tree.
  *
  * Reading an object runs page code, so every answer of the engine depends on how many
  * questions came before it.
  */
module Preview {
  import opened Common

  const MAX_DEPTH: nat := 4
  const MAX_ENTRIES: nat := 100
  const MAX_STRING: nat := 8192
  const MAX_NODES: nat := 2048

  type Id = nat

  datatype Value =
    | Undefined
    | Null
    | Bool(b: bool)
    | Number(bits: nat)
    | BigInt(number: int)
    | String(text: string)
    | Symbol(description: string)
    | Object(id: Id)

  datatype Kind = Function | Error | Promise | Array | Other

  datatype Detail = FunctionName | ErrorName | ErrorMessage | ErrorStack | PromiseState | ClassName

  /** What the engine answers, and when: the first argument counts the questions before this one. */
  datatype Engine = Engine(
    kind: Id -> Kind,
    node: (nat, Id) -> Option<(string, string)>,
    digits: (nat, int) -> Result<string, string>,
    detail: (nat, Id, Detail) -> string,
    description: (nat, Id) -> Option<string>,
    length: (nat, Id) -> nat,
    item: (nat, Id, nat) -> Result<Value, string>,
    keys: (nat, Id) -> seq<string>,
    property: (nat, Id, string) -> Result<Value, string>)

  datatype Entry = Entry(key: string, value: ValuePreview)

  datatype ValuePreview =
    | UndefinedPreview
    | NullPreview
    | BoolPreview(b: bool)
    | NumberPreview(bits: nat)
    | BigIntPreview(digits: string)
    | StringPreview(value: string, cut: bool)
    | SymbolPreview(text: string)
    | FunctionPreview(name: string)
    | ArrayPreview(items: seq<ValuePreview>, length: nat, truncated: bool)
    | ObjectPreview(className: string, entries: seq<Entry>, truncated: bool, description: Option<string>)
    | ErrorPreview(name: string, message: string, stack: string)
    | PromisePreview(state: string)
    | NodePreview(name: string, markup: string)
    | Cyclic
    | Elided
    | Threw(message: string)

  // ----- Measures of a preview -----

  function Width(p: ValuePreview): nat {
    match p
    case ArrayPreview(items, _, _) => |items|
    case ObjectPreview(_, entries, _, _) => |entries|
    case _ => 0
  }

  function Child(p: ValuePreview, i: nat): (c: ValuePreview)
    requires i < Width(p)
    ensures c < p
  {
    match p
    case ArrayPreview(items, _, _) => items[i]
    case ObjectPreview(_, entries, _, _) => assert entries[i].value < entries[i]; entries[i].value
  }

  /** All nodes of the tree. */
  function Nodes(p: ValuePreview): (n: nat)
    ensures n >= 1
    decreases p, 1, 0
  {
    1 + NodesUpTo(p, Width(p))
  }

  function NodesUpTo(p: ValuePreview, n: nat): nat
    requires n <= Width(p)
    decreases p, 0, n
  {
    if n == 0 then 0 else NodesUpTo(p, n - 1) + Nodes(Child(p, n - 1))
  }

  /** The nodes that stand for a failed read. */
  function Threws(p: ValuePreview): nat
    decreases p, 1, 0
  {
    (if p.Threw? then 1 else 0) + ThrewsUpTo(p, Width(p))
  }

  function ThrewsUpTo(p: ValuePreview, n: nat): nat
    requires n <= Width(p)
    decreases p, 0, n
  {
    if n == 0 then 0 else ThrewsUpTo(p, n - 1) + Threws(Child(p, n - 1))
  }

  /** Bounded at every level, honest about what was cut, and nested at most `levels` deep. */
  ghost predicate Fits(p: ValuePreview, levels: nat)
    decreases levels
  {
    match p
    case StringPreview(value, cut) => |value| <= 8192 && (cut ==> |value| == 8192)
    case ArrayPreview(items, length, truncated) =>
      && levels > 0 && |items| <= 100 && |items| <= length && (truncated <==> |items| < length)
      && forall i :: 0 <= i < |items| ==> Fits(items[i], levels - 1)
    case ObjectPreview(_, entries, _, _) =>
      && levels > 0 && |entries| <= 100
      && forall i :: 0 <= i < |entries| ==> Fits(entries[i].value, levels - 1)
    case _ => true
  }

  // ----- The preview without a budget -----

  function Cut(text: string): ValuePreview {
    if |text| > MAX_STRING then StringPreview(text[..MAX_STRING], true) else StringPreview(text, false)
  }

  function Least(a: nat, b: nat): nat {
    if a <= b then a else b
  }

  function LevelsLeft(depth: nat): nat {
    if depth < MAX_DEPTH then MAX_DEPTH - depth else 0
  }

  /** The preview of a value, if nothing changed while it was read and nodes were free. */
  ghost function Whole(e: Engine, v: Value, path: seq<Id>, depth: nat): ValuePreview
    decreases LevelsLeft(depth), 1, 0
  {
    match v
    case Undefined => UndefinedPreview
    case Null => NullPreview
    case Bool(b) => BoolPreview(b)
    case Number(bits) => NumberPreview(bits)
    case BigInt(n) => (match e.digits(0, n) case Ok(digits) => BigIntPreview(digits) case Err(m) => Threw(m))
    case String(text) => Cut(text)
    case Symbol(description) => SymbolPreview(description)
    case Object(id) =>
      if e.node(0, id).Some? then NodePreview(e.node(0, id).value.0, e.node(0, id).value.1)
      else if id in path then Cyclic
      else match e.kind(id)
        case Function => FunctionPreview(e.detail(0, id, FunctionName))
        case Error => ErrorPreview(e.detail(0, id, ErrorName), e.detail(0, id, ErrorMessage),
            e.detail(0, id, ErrorStack))
        case Promise => PromisePreview(e.detail(0, id, PromiseState))
        case Array =>
          if depth >= MAX_DEPTH then Elided
          else WholeArray(e, id, path + [id], depth)
        case Other =>
          if depth >= MAX_DEPTH then Elided
          else WholeObject(e, id, path + [id], depth)
  }

  ghost function WholeArray(e: Engine, id: Id, path: seq<Id>, depth: nat): ValuePreview
    requires depth < MAX_DEPTH
    decreases LevelsLeft(depth), 0, 101
  {
    var length := e.length(0, id);
    ArrayPreview(WholeItems(e, id, path, depth, Least(length, MAX_ENTRIES)), length, length > MAX_ENTRIES)
  }

  ghost function WholeItems(e: Engine, id: Id, path: seq<Id>, depth: nat, n: nat): (s: seq<ValuePreview>)
    requires depth < MAX_DEPTH && n <= MAX_ENTRIES
    ensures |s| == n
    decreases LevelsLeft(depth), 0, n
  {
    if n == 0 then [] else WholeItems(e, id, path, depth, n - 1) + [WholeRead(e, e.item(0, id, n - 1), path, depth)]
  }

  ghost function WholeObject(e: Engine, id: Id, path: seq<Id>, depth: nat): ValuePreview
    requires depth < MAX_DEPTH
    decreases LevelsLeft(depth), 0, 101
  {
    var keys := e.keys(0, id);
    ObjectPreview(e.detail(0, id, ClassName), WholeEntries(e, id, path, depth, keys[..Least(|keys|, MAX_ENTRIES)]),
                  |keys| > MAX_ENTRIES, e.description(0, id))
  }

  ghost function WholeEntries(e: Engine, id: Id, path: seq<Id>, depth: nat, keys: seq<string>): (s: seq<Entry>)
    requires depth < MAX_DEPTH && |keys| <= MAX_ENTRIES
    ensures |s| == |keys|
    decreases LevelsLeft(depth), 0, |keys|
  {
    if keys == [] then []
    else
      var key := keys[|keys| - 1];
      WholeEntries(e, id, path, depth, keys[..|keys| - 1])
          + [Entry(key, WholeRead(e, e.property(0, id, key), path, depth))]
  }

  ghost function WholeRead(e: Engine, read: Result<Value, string>, path: seq<Id>, depth: nat): ValuePreview
    requires depth < MAX_DEPTH
    decreases LevelsLeft(depth), 0, 0
  {
    match read
    case Ok(v) => Whole(e, v, path, depth + 1)
    case Err(m) => Threw(m)
  }

  /** What two containers share besides their children: the first may stop early, and says so. */
  ghost predicate SameShell(p: ValuePreview, q: ValuePreview) {
    && Width(p) <= Width(q)
    && match p {
      case ArrayPreview(_, length, truncated) =>
        q.ArrayPreview? && length == q.length && (truncated <==> q.truncated || Width(p) < Width(q))
      case ObjectPreview(className, entries, truncated, description) =>
        && q.ObjectPreview? && className == q.className && description == q.description
        && (truncated <==> q.truncated || Width(p) < Width(q))
        && forall i :: 0 <= i < |entries| ==> entries[i].key == q.entries[i].key
      case _ => false
    }
  }

  /** Equal, but for lists that may stop early and say so. */
  ghost predicate Pruned(p: ValuePreview, q: ValuePreview)
    decreases p
  {
    p == q || (SameShell(p, q) && forall i :: 0 <= i < Width(p) ==> Pruned(Child(p, i), Child(q, i)))
  }

  /** No answer depends on when it is asked for. */
  ghost predicate Stable(e: Engine) {
    && (forall t, id :: e.node(t, id) == e.node(0, id))
    && (forall t, n :: e.digits(t, n) == e.digits(0, n))
    && (forall t, id, d :: e.detail(t, id, d) == e.detail(0, id, d))
    && (forall t, id :: e.description(t, id) == e.description(0, id))
    && (forall t, id :: e.length(t, id) == e.length(0, id))
    && (forall t, id, i :: e.item(t, id, i) == e.item(0, id, i))
    && (forall t, id :: e.keys(t, id) == e.keys(0, id))
    && (forall t, id, k :: e.property(t, id, k) == e.property(0, id, k))
  }

  /** The encoder's answer against the unbounded one: the same tree with lists cut short, and
      the very same tree if that has no more nodes than the budget. */
  ghost predicate Faithful(p: ValuePreview, q: ValuePreview, budget: nat) {
    Pruned(p, q) && (Nodes(q) <= budget ==> p == q)
  }

  /** Every node is paid for or is one of the failed reads, and those not paid for are few. */
  ghost predicate Paid(nodes: nat, threws: nat, budget0: nat, budget: nat, extra: nat) {
    && budget <= budget0
    && budget0 - budget <= nodes <= budget0 - budget + threws
    && nodes <= 101 * (budget0 - budget) + extra
  }

  /** A container as far as it is encoded. */
  ghost predicate SoFar(p: ValuePreview, q: ValuePreview, stable: bool, levels: nat,
                        budget0: nat, budget: nat) {
    && Paid(NodesUpTo(p, Width(p)), ThrewsUpTo(p, Width(p)), budget0, budget, Width(p))
    && Fits(p, levels)
    && (stable ==> Building(p, q, budget0))
  }

  /** A value that is no object is shown as it is. */
  ghost predicate ShowsPlain(e: Engine, now: nat, v: Value, p: ValuePreview) {
    && (v.Undefined? <==> p.UndefinedPreview?) && (v.Null? <==> p.NullPreview?)
    && (v.Bool? ==> p == BoolPreview(v.b)) && (v.Number? ==> p == NumberPreview(v.bits))
    && (v.BigInt? ==> if e.digits(now, v.number).Ok? then p == BigIntPreview(e.digits(now, v.number).value)
                      else p == Threw(e.digits(now, v.number).error))
    && (v.String? ==> p.StringPreview? && p.value <= v.text && |p.value| == Least(|v.text|, 8192)
                      && (p.cut <==> |v.text| > 8192))
    && (v.Symbol? ==> p == SymbolPreview(v.description))
  }

  /** An object is shown by the first of these that applies: the DOM node it wraps, its standing on the
      path, its kind; and one that has children of its own is left out from the fifth level on. */
  ghost predicate ShowsObject(e: Engine, now: nat, id: Id, path: seq<Id>, depth: nat, p: ValuePreview) {
    var node, kind := e.node(now, id), e.kind(id);
    if node.Some? then p == NodePreview(node.value.0, node.value.1)
    else if id in path then p == Cyclic
    else
      && (kind.Function? ==> p == FunctionPreview(e.detail(now, id, FunctionName)))
      && (kind.Error? ==> p == ErrorPreview(e.detail(now, id, ErrorName), e.detail(now + 1, id, ErrorMessage),
                                            e.detail(now + 2, id, ErrorStack)))
      && (kind.Promise? ==> p == PromisePreview(e.detail(now, id, PromiseState)))
      && ((kind.Array? || kind.Other?) && depth >= 4 ==> p == Elided)
      && (kind.Array? && depth < 4 ==> p.ArrayPreview?) && (kind.Other? && depth < 4 ==> p.ObjectPreview?)
  }

  class Encoder {
    const engine: Engine
    var path: seq<Id>
    var budget: nat
    var clock: nat

    constructor (engine: Engine)
      ensures path == [] && budget == MAX_NODES && this.engine == engine
    {
      this.engine, path, budget, clock := engine, [], MAX_NODES, 0;
    }

    method EncodeAt(value: Value, depth: nat) returns (p: ValuePreview)
      requires NoDup(path)
      modifies this
      ensures path == old(path)
      ensures old(budget) == 0 ==> p == Elided && budget == 0
      ensures old(budget) > 0 ==> Paid(Nodes(p), Threws(p), old(budget), budget, 0)
      ensures Fits(p, LevelsLeft(depth))
      ensures old(budget) > 0 && !value.Object? ==> ShowsPlain(engine, old(clock), value, p)
      ensures old(budget) > 0 && value.Object? ==> ShowsObject(engine, old(clock), value.id, path, depth, p)
      ensures old(budget) > 0 && Stable(engine) ==> Faithful(p, Whole(engine, value, path, depth), old(budget))
      decreases LevelsLeft(depth), 1
    {
      if budget == 0 { return Elided; }
      budget := budget - 1;
      var now := clock;
      clock := clock + 1;
      match value {
        case Undefined => return UndefinedPreview;
        case Null => return NullPreview;
        case Bool(b) => return BoolPreview(b);
        case Number(bits) => return NumberPreview(bits);
        case String(text) => return Cut(text);
        case BigInt(n) =>
          match engine.digits(now, n) {
            case Ok(digits) => return BigIntPreview(digits);
            case Err(m) => return Threw(m);
          }
        case Symbol(description) => return SymbolPreview(description);
        case Object(id) => p := EncodeId(id, depth, now);
      }
    }

    /** An object, its node paid for. */
    method EncodeId(id: Id, depth: nat, now: nat) returns (p: ValuePreview)
      requires NoDup(path) && clock == now + 1
      modifies this
      ensures path == old(path) && ShowsObject(engine, now, id, path, depth, p)
      ensures Paid(Nodes(p) - 1, Threws(p), old(budget), budget, MAX_ENTRIES)
      ensures Fits(p, LevelsLeft(depth))
      ensures Stable(engine) ==> Faithful(p, Whole(engine, Object(id), path, depth), old(budget) + 1)
      decreases LevelsLeft(depth), 0, 4
    {
      var node := engine.node(now, id);
      if node.Some? { return NodePreview(node.value.0, node.value.1); }
      if id in path { return Cyclic; }
      match engine.kind(id) {
        case Function =>
          return FunctionPreview(engine.detail(now, id, FunctionName));
        case Error =>
          clock := clock + 2;
          return ErrorPreview(engine.detail(now, id, ErrorName), engine.detail(now + 1, id, ErrorMessage),
                              engine.detail(now + 2, id, ErrorStack));
        case Promise =>
          return PromisePreview(engine.detail(now, id, PromiseState));
        case Array =>
          if depth >= MAX_DEPTH { return Elided; }
          p := Descend(id, depth);
        case Other =>
          if depth >= MAX_DEPTH { return Elided; }
          p := Descend(id, depth);
      }
    }

    method Descend(id: Id, depth: nat) returns (p: ValuePreview)
      requires NoDup(path) && id !in path && depth < MAX_DEPTH && (engine.kind(id).Array? || engine.kind(id).Other?)
      modifies this
      ensures path == old(path) && if engine.kind(id).Array? then p.ArrayPreview? else p.ObjectPreview?
      ensures Paid(Nodes(p) - 1, Threws(p), old(budget), budget, MAX_ENTRIES)
      ensures Fits(p, LevelsLeft(depth))
      ensures Stable(engine) ==>
                Faithful(p, if engine.kind(id).Array? then WholeArray(engine, id, path + [id], depth)
                            else WholeObject(engine, id, path + [id], depth), old(budget) + 1)
      decreases LevelsLeft(depth), 0, 3
    {
      path := path + [id];
      if engine.kind(id).Array? {
        p := EncodeArray(id, depth);
      } else {
        p := EncodeObject(id, depth);
      }
      path := path[..|path| - 1];
    }

    /** One item or property, once read. */
    method EncodeRead(read: Result<Value, string>, depth: nat) returns (p: ValuePreview)
      requires NoDup(path) && depth < MAX_DEPTH && budget > 0
      modifies this
      ensures path == old(path)
      ensures Paid(Nodes(p), Threws(p), old(budget), budget, 1)
      ensures Fits(p, LevelsLeft(depth) - 1)
      ensures Stable(engine) ==> Faithful(p, WholeRead(engine, read, path, depth), old(budget))
      decreases LevelsLeft(depth), 0, 0
    {
      match read {
        case Ok(value) =>
          p := EncodeAt(value, depth + 1);
        case Err(m) =>
          p := Threw(m);
      }
    }

    method EncodeArray(id: Id, depth: nat) returns (p: ValuePreview)
      requires NoDup(path) && depth < MAX_DEPTH
      modifies this
      ensures path == old(path) && p.ArrayPreview?
      ensures Paid(Nodes(p) - 1, Threws(p), old(budget), budget, MAX_ENTRIES)
      ensures Fits(p, LevelsLeft(depth))
      ensures Stable(engine) ==> Faithful(p, WholeArray(engine, id, path, depth), old(budget) + 1)
      decreases LevelsLeft(depth), 0, 1
    {
      var length := engine.length(clock, id);
      clock := clock + 1;
      ghost var q := WholeArray(engine, id, path, depth);
      var cap := Least(length, MAX_ENTRIES);
      var items: seq<ValuePreview> := [];
      p := SomeItems([], length);
      NothingYet(p, q, Stable(engine), LevelsLeft(depth), budget);
      while |items| < cap && budget > 0
        invariant p == SomeItems(items, length) && |items| <= cap && path == old(path)
        invariant SoFar(p, q, Stable(engine), LevelsLeft(depth), old(budget), budget)
      {
        ghost var items0, b0 := items, budget;
        var read := engine.item(clock, id, |items|);
        clock := clock + 1;
        var c := EncodeRead(read, depth);
        items := items + [c];
        p := SomeItems(items, length);
        if Stable(engine) { WholeItemAt(engine, id, path, depth, cap, |items0|); }
        OneMoreItem(items0, c, length, q, Stable(engine), LevelsLeft(depth), old(budget), b0, budget);
      }
      Measures(p, |items|);
      if Stable(engine) { BuildEnd(p, q, old(budget), budget); }
    }

    method EncodeObject(id: Id, depth: nat) returns (p: ValuePreview)
      requires NoDup(path) && depth < MAX_DEPTH
      modifies this
      ensures path == old(path) && p.ObjectPreview?
      ensures Paid(Nodes(p) - 1, Threws(p), old(budget), budget, MAX_ENTRIES)
      ensures Fits(p, LevelsLeft(depth))
      ensures Stable(engine) ==> Faithful(p, WholeObject(engine, id, path, depth), old(budget) + 1)
      decreases LevelsLeft(depth), 0, 2
    {
      var className := engine.detail(clock, id, ClassName);
      var all := engine.keys(clock + 1, id);
      clock := clock + 2;
      ghost var q := WholeObject(engine, id, path, depth);
      var keys := all[..Least(|all|, Least(MAX_ENTRIES, budget))];
      ghost var d := if Stable(engine) then q.description else None;
      if Stable(engine) { WholeEntriesAre(engine, id, path, depth, |keys|); }
      var entries := EncodeEntries(id, depth, keys, className, |all|, d, q);
      var description := engine.description(clock, id);
      clock := clock + 1;
      ObjectEnd(className, entries, |all|, d, description, q, Stable(engine), LevelsLeft(depth), old(budget), budget);
      p := SomeEntries(className, entries, |all|, description);
    }

    method EncodeEntries(id: Id, depth: nat, keys: seq<string>,
                         ghost className: string, ghost total: nat, ghost d: Option<string>, ghost q: ValuePreview)
      returns (entries: seq<Entry>)
      requires NoDup(path) && depth < MAX_DEPTH && |keys| <= MAX_ENTRIES && |keys| <= total
      requires Stable(engine) ==>
                 && SameShell(SomeEntries(className, [], total, d), q) && |keys| <= |q.entries| <= total
                 && (q.truncated <==> |q.entries| < total)
                 && forall i :: 0 <= i < |keys| ==> WholeEntry(q, i, engine, id, path, depth, keys[i])
      modifies this
      ensures path == old(path) && |entries| <= |keys| && (|entries| == |keys| || budget == 0)
      ensures SoFar(SomeEntries(className, entries, total, d), q, Stable(engine), LevelsLeft(depth),
                    old(budget), budget)
      decreases LevelsLeft(depth), 0, 1
    {
      entries := [];
      ghost var g := SomeEntries(className, [], total, d);
      NothingYet(g, q, Stable(engine), LevelsLeft(depth), budget);
      while |entries| < |keys| && budget > 0
        invariant g == SomeEntries(className, entries, total, d) && |entries| <= |keys| && path == old(path)
        invariant SoFar(g, q, Stable(engine), LevelsLeft(depth), old(budget), budget)
      {
        ghost var entries0, b0 := entries, budget;
        var key := keys[|entries|];
        var read := engine.property(clock, id, key);
        clock := clock + 1;
        var c := EncodeRead(read, depth);
        entries := entries + [Entry(key, c)];
        g := SomeEntries(className, entries, total, d);
        assert Stable(engine) ==> WholeEntry(q, |entries0|, engine, id, path, depth, key);
        OneMoreEntry(className, entries0, Entry(key, c), total, d, q, Stable(engine), LevelsLeft(depth),
                     old(budget), b0, budget);
      }
    }
  }

  /** The entry of a key in an unbounded preview. */
  ghost predicate WholeEntry(q: ValuePreview, i: nat, e: Engine, id: Id, path: seq<Id>, depth: nat, key: string)
    requires depth < MAX_DEPTH
  {
    q.ObjectPreview? && i < |q.entries| && q.entries[i] == Entry(key, WholeRead(e, e.property(0, id, key), path, depth))
  }

  lemma WholeEntriesAre(e: Engine, id: Id, path: seq<Id>, depth: nat, n: nat)
    requires depth < MAX_DEPTH && n <= Least(|e.keys(0, id)|, MAX_ENTRIES)
    ensures forall i :: 0 <= i < n ==> WholeEntry(WholeObject(e, id, path, depth), i, e, id, path, depth,
            e.keys(0, id)[i])
  {
    var keys := e.keys(0, id);
    forall i | 0 <= i < n ensures WholeEntry(WholeObject(e, id, path, depth), i, e, id, path, depth, keys[i]) {
      WholeEntryAt(e, id, path, depth, keys[..Least(|keys|, MAX_ENTRIES)], i);
    }
  }

  lemma NothingYet(p: ValuePreview, q: ValuePreview, stable: bool, levels: nat, budget: nat)
    requires Width(p) == 0 && Fits(p, levels) && (stable ==> SameShell(p, q))
    ensures SoFar(p, q, stable, levels, budget, budget)
  {
  }

  lemma OneMore(p0: ValuePreview, p: ValuePreview, q: ValuePreview, stable: bool, levels: nat,
                budget0: nat, budget1: nat, budget: nat)
    requires SoFar(p0, q, stable, levels, budget0, budget1) && levels > 0
    requires Width(p) == Width(p0) + 1 <= MAX_ENTRIES && SameChildren(p0, p, Width(p0))
    requires Paid(Nodes(Child(p, Width(p0))), Threws(Child(p, Width(p0))), budget1, budget, 1) &&
             Fits(Child(p, Width(p0)), levels - 1)
    requires p.ArrayPreview? ==> |p.items| <= p.length && (p.truncated <==> |p.items| < p.length)
    requires stable ==>
               Width(p) <= Width(q) && SameShell(p, q) && Faithful(Child(p, Width(p0)), Child(q, Width(p0)), budget1)
    ensures SoFar(p, q, stable, levels, budget0, budget)
  {
    NodesExtend(p0, p);
    if stable { BuildStep(p0, p, q, budget0, budget1); }
    FitsStep(p0, p, levels);
  }

  lemma OneMoreItem(items: seq<ValuePreview>, c: ValuePreview, length: nat, q: ValuePreview, stable: bool, levels: nat,
                    budget0: nat, budget1: nat, budget: nat)
    requires SoFar(SomeItems(items, length), q, stable, levels, budget0, budget1) && levels > 0
    requires |items| < MAX_ENTRIES && |items| < length
    requires Paid(Nodes(c), Threws(c), budget1, budget, 1) && Fits(c, levels - 1)
    requires stable ==> |items| < Width(q) <= length && Faithful(c, Child(q, |items|), budget1)
    requires stable && q.ArrayPreview? ==> (q.truncated <==> Width(q) < length)
    ensures SoFar(SomeItems(items + [c], length), q, stable, levels, budget0, budget)
  {
    OneMore(SomeItems(items, length), SomeItems(items + [c], length), q, stable, levels,
            budget0, budget1, budget);
  }

  lemma OneMoreEntry(className: string, entries: seq<Entry>, e: Entry, total: nat, d: Option<string>, q: ValuePreview,
                     stable: bool, levels: nat, budget0: nat, budget1: nat, budget: nat)
    requires SoFar(SomeEntries(className, entries, total, d), q, stable, levels, budget0, budget1) && levels > 0
    requires |entries| < MAX_ENTRIES && |entries| < total
    requires Paid(Nodes(e.value), Threws(e.value), budget1, budget, 1) && Fits(e.value, levels - 1)
    requires stable ==> |entries| < Width(q) <= total && Faithful(e.value, Child(q, |entries|), budget1)
    requires stable && q.ObjectPreview? ==> (q.truncated <==> Width(q) < total) && e.key == q.entries[|entries|].key
    ensures SoFar(SomeEntries(className, entries + [e], total, d), q, stable, levels, budget0, budget)
  {
    EntriesGrow(className, entries, e, total, d);
    if stable { ShellGrows(className, entries, e, total, d, q); }
    OneMore(SomeEntries(className, entries, total, d), SomeEntries(className, entries + [e], total, d), q,
            stable, levels, budget0, budget1, budget);
  }

  lemma EntriesGrow(className: string, entries: seq<Entry>, e: Entry, total: nat, d: Option<string>)
    ensures var p0, p := SomeEntries(className, entries, total, d), SomeEntries(className, entries + [e], total, d);
            && Width(p0) == |entries| && Width(p) == |entries| + 1
            && SameChildren(p0, p, |entries|) && Child(p, |entries|) == e.value
  {
    var p0, p := SomeEntries(className, entries, total, d), SomeEntries(className, entries + [e], total, d);
    forall i | 0 <= i < |entries| ensures Child(p0, i) == Child(p, i) {}
  }

  lemma ShellGrows(className: string, entries: seq<Entry>, e: Entry, total: nat, d: Option<string>, q: ValuePreview)
    requires SameShell(SomeEntries(className, entries, total, d), q) && |entries| < Width(q) <= total
    requires q.ObjectPreview? && (q.truncated <==> Width(q) < total) && e.key == q.entries[|entries|].key
    ensures SameShell(SomeEntries(className, entries + [e], total, d), q)
  {
  }

  lemma FitsStep(p0: ValuePreview, p: ValuePreview, levels: nat)
    requires levels > 0 && Fits(p0, levels) && Width(p) == Width(p0) + 1 <= MAX_ENTRIES &&
             SameChildren(p0, p, Width(p0))
    requires Fits(Child(p, Width(p0)), levels - 1)
    requires p.ArrayPreview? ==> |p.items| <= p.length && (p.truncated <==> |p.items| < p.length)
    ensures Fits(p, levels)
  {
    forall i | 0 <= i < Width(p) ensures Fits(Child(p, i), levels - 1) {
      if i < Width(p0) { FitsChild(p0, levels, i); assert Child(p, i) == Child(p0, i); }
    }
    match p {
      case ArrayPreview(items, _, _) => assert forall i :: 0 <= i < |items| ==> items[i] == Child(p, i);
      case ObjectPreview(_, entries, _, _) => assert forall i :: 0 <= i < |entries| ==> entries[i].value == Child(p, i);
      case _ =>
    }
  }

  lemma FitsChild(p: ValuePreview, levels: nat, i: nat)
    requires Fits(p, levels) && i < Width(p)
    ensures levels > 0 && Fits(Child(p, i), levels - 1)
  {
  }

  /** An array preview that stopped after these items. */
  function SomeItems(items: seq<ValuePreview>, length: nat): ValuePreview {
    ArrayPreview(items, length, length > |items|)
  }

  function SomeEntries(className: string, entries: seq<Entry>, total: nat, description: Option<string>): ValuePreview {
    ObjectPreview(className, entries, total > |entries|, description)
  }

  /** `p` is `q` as far as it got; and exactly so, had the budget sufficed for all of `q`. */
  ghost predicate Building(p: ValuePreview, q: ValuePreview, budget: nat) {
    SameShell(p, q) && PrunedChildren(p, q) && (Nodes(q) <= budget + 1 ==> SameChildren(p, q, Width(p)))
  }

  ghost predicate PrunedChildren(p: ValuePreview, q: ValuePreview) {
    Width(p) <= Width(q) && forall i :: 0 <= i < Width(p) ==> Pruned(Child(p, i), Child(q, i))
  }

  ghost predicate SameChildren(p: ValuePreview, q: ValuePreview, n: nat) {
    n <= Width(p) && n <= Width(q) && forall i :: 0 <= i < n ==> Child(p, i) == Child(q, i)
  }

  lemma {:induction false} NodesOfSame(p: ValuePreview, q: ValuePreview, n: nat)
    requires SameChildren(p, q, n)
    ensures NodesUpTo(p, n) == NodesUpTo(q, n) && ThrewsUpTo(p, n) == ThrewsUpTo(q, n)
  {
    if n > 0 {
      assert Child(p, n - 1) == Child(q, n - 1);
      NodesOfSame(p, q, n - 1);
    }
  }

  lemma {:induction false} NodesGrow(p: ValuePreview, m: nat, n: nat)
    requires m <= n <= Width(p)
    ensures NodesUpTo(p, n) >= NodesUpTo(p, m) + (n - m)
  {
    if m < n { NodesGrow(p, m, n - 1); }
  }

  lemma NodesExtend(p0: ValuePreview, p: ValuePreview)
    requires Width(p) == Width(p0) + 1 && SameChildren(p0, p, Width(p0))
    ensures NodesUpTo(p, Width(p)) == NodesUpTo(p0, Width(p0)) + Nodes(Child(p, Width(p0)))
    ensures ThrewsUpTo(p, Width(p)) == ThrewsUpTo(p0, Width(p0)) + Threws(Child(p, Width(p0)))
  {
    var n := Width(p0);
    NodesOfSame(p0, p, n);
    OneMoreUpTo(p, n);
  }

  lemma OneMoreUpTo(p: ValuePreview, n: nat)
    requires n < Width(p)
    ensures NodesUpTo(p, n + 1) == NodesUpTo(p, n) + Nodes(Child(p, n))
    ensures ThrewsUpTo(p, n + 1) == ThrewsUpTo(p, n) + Threws(Child(p, n))
  {
  }

  lemma SameNodes(p: ValuePreview, q: ValuePreview)
    requires !p.Threw? && !q.Threw?
    requires Width(p) == Width(q) && SameChildren(p, q, Width(p))
    ensures Nodes(p) == Nodes(q) && Threws(p) == Threws(q)
  {
    var n := Width(p);
    NodesOfSame(p, q, n);
    Measures(p, n);
    Measures(q, n);
  }

  lemma Measures(p: ValuePreview, n: nat)
    requires n == Width(p) && !p.Threw?
    ensures Nodes(p) == 1 + NodesUpTo(p, n) && Threws(p) == ThrewsUpTo(p, n)
  {
  }

  /** One more child. */
  lemma BuildStep(p0: ValuePreview, p: ValuePreview, q: ValuePreview, budget: nat, left: nat)
    requires Building(p0, q, budget) && Width(p) == Width(p0) + 1 <= Width(q) && SameChildren(p0, p, Width(p0))
    requires Faithful(Child(p, Width(p0)), Child(q, Width(p0)), left)
    requires left + NodesUpTo(p0, Width(p0)) >= budget
    requires SameShell(p, q)
    ensures Building(p, q, budget)
  {
    PrunedStep(p0, p, q);
    if Nodes(q) <= budget + 1 {
      EnoughLeft(p0, q, budget, left);
      SameStep(p0, p, q);
    }
  }

  /** If all of `q` can be paid for, so can its next child. */
  lemma EnoughLeft(p0: ValuePreview, q: ValuePreview, budget: nat, left: nat)
    requires Width(p0) < Width(q) && SameChildren(p0, q, Width(p0)) && Nodes(q) <= budget + 1
    requires left + NodesUpTo(p0, Width(p0)) >= budget
    ensures Nodes(Child(q, Width(p0))) <= left
  {
    NodesOfSame(p0, q, Width(p0));
    ChildWithin(q, Width(p0));
  }

  lemma ChildWithin(q: ValuePreview, n: nat)
    requires n < Width(q)
    ensures 1 + NodesUpTo(q, n) + Nodes(Child(q, n)) <= Nodes(q)
  {
    NodesGrow(q, n + 1, Width(q));
  }

  lemma SameStep(p0: ValuePreview, p: ValuePreview, q: ValuePreview)
    requires Width(p) == Width(p0) + 1 && SameChildren(p0, p, Width(p0)) && SameChildren(p0, q, Width(p0))
    requires Width(p) <= Width(q) && Child(p, Width(p0)) == Child(q, Width(p0))
    ensures SameChildren(p, q, Width(p))
  {
    forall i | 0 <= i < Width(p) ensures Child(p, i) == Child(q, i) {
      if i < Width(p0) { assert Child(p0, i) == Child(p, i); }
    }
  }

  lemma PrunedStep(p0: ValuePreview, p: ValuePreview, q: ValuePreview)
    requires PrunedChildren(p0, q) && Width(p) == Width(p0) + 1 <= Width(q) && SameChildren(p0, p, Width(p0))
    requires Pruned(Child(p, Width(p0)), Child(q, Width(p0)))
    ensures PrunedChildren(p, q)
  {
    forall i | 0 <= i < Width(p) ensures Pruned(Child(p, i), Child(q, i)) {
      if i < Width(p0) { assert Child(p0, i) == Child(p, i); }
    }
  }

  /** The list ended where the whole one does, or the budget did not reach that far. */
  lemma BuildEnd(p: ValuePreview, q: ValuePreview, budget: nat, left: nat)
    requires Building(p, q, budget) && (Width(p) == Width(q) || left == 0 || Width(q) > budget)
    requires left + NodesUpTo(p, Width(p)) >= budget
    ensures Faithful(p, q, budget + 1)
  {
    if Nodes(q) <= budget + 1 {
      NodesOfSame(p, q, Width(p));
      NodesGrow(q, Width(p), Width(q));
      NodesGrow(q, 0, Width(q));
      AllSame(p, q);
    }
  }

  lemma ObjectEnd(className: string, entries: seq<Entry>, total: nat, d: Option<string>, description: Option<string>,
                  q: ValuePreview, stable: bool, levels: nat, budget0: nat, budget: nat)
    requires SoFar(SomeEntries(className, entries, total, d), q, stable, levels, budget0, budget) &&
             |entries| <= MAX_ENTRIES
    requires stable ==> d == description && (|entries| == Width(q) || budget == 0 || Width(q) > budget0)
    ensures var p := SomeEntries(className, entries, total, description);
            && Paid(Nodes(p) - 1, Threws(p), budget0, budget, MAX_ENTRIES) && Fits(p, levels)
            && (stable ==> Faithful(p, q, budget0 + 1))
  {
    var g, p := SomeEntries(className, entries, total, d), SomeEntries(className, entries, total, description);
    Measures(g, |entries|);
    SameNodes(g, p);
    if stable { BuildEnd(g, q, budget0, budget); }
  }

  lemma AllSame(p: ValuePreview, q: ValuePreview)
    requires SameShell(p, q) && Width(p) == Width(q) && SameChildren(p, q, Width(p))
    ensures p == q
  {
    match p {
      case ArrayPreview(items, _, _) =>
        forall i | 0 <= i < |items| ensures items[i] == q.items[i] { assert Child(p, i) == Child(q, i); }
      case ObjectPreview(_, entries, _, _) =>
        forall i | 0 <= i < |entries| ensures entries[i] == q.entries[i] { assert Child(p, i) == Child(q, i); }
    }
  }

  /** The unbounded preview of an array: its true length, and its first hundred items as they are read. */
  lemma WholeArrayIs(e: Engine, id: Id, path: seq<Id>, depth: nat, i: nat)
    requires e.node(0, id).None? && id !in path && e.kind(id).Array? && depth < 4
    ensures var p := Whole(e, Object(id), path, depth);
            && p.ArrayPreview? && p.length == e.length(0, id) && |p.items| == Least(e.length(0, id), 100)
            && (p.truncated <==> e.length(0, id) > 100)
            && (i < |p.items| && e.item(0, id, i).Ok? ==>
                  p.items[i] == Whole(e, e.item(0, id, i).value, path + [id], depth + 1))
            && (i < |p.items| && e.item(0, id, i).Err? ==> p.items[i] == Threw(e.item(0, id, i).error))
  {
    var n := Least(e.length(0, id), MAX_ENTRIES);
    if i < n { WholeItemAt(e, id, path + [id], depth, n, i); }
  }

  /** The unbounded preview of an object: its first hundred keys in their order, and under each what is
      read there. */
  lemma WholeObjectIs(e: Engine, id: Id, path: seq<Id>, depth: nat, i: nat)
    requires e.node(0, id).None? && id !in path && e.kind(id).Other? && depth < 4
    ensures var p, keys := Whole(e, Object(id), path, depth), e.keys(0, id);
            && p.ObjectPreview? && p.className == e.detail(0, id, ClassName) && p.description == e.description(0, id)
            && |p.entries| == Least(|keys|, 100) && (p.truncated <==> |keys| > 100)
            && (i < |p.entries| ==> p.entries[i].key == keys[i])
            && (i < |p.entries| && e.property(0, id, keys[i]).Ok? ==>
                  p.entries[i].value == Whole(e, e.property(0, id, keys[i]).value, path + [id], depth + 1))
            && (i < |p.entries| && e.property(0, id, keys[i]).Err? ==>
                  p.entries[i].value == Threw(e.property(0, id, keys[i]).error))
  {
    var keys := e.keys(0, id);
    var n := Least(|keys|, MAX_ENTRIES);
    if i < n { WholeEntryAt(e, id, path + [id], depth, keys[..n], i); }
  }

  lemma {:induction false} WholeItemAt(e: Engine, id: Id, path: seq<Id>, depth: nat, n: nat, i: nat)
    requires depth < MAX_DEPTH && i < n <= MAX_ENTRIES
    ensures WholeItems(e, id, path, depth, n)[i] == WholeRead(e, e.item(0, id, i), path, depth)
  {
    if i < n - 1 { WholeItemAt(e, id, path, depth, n - 1, i); }
  }

  lemma {:induction false} WholeEntryAt(e: Engine, id: Id, path: seq<Id>, depth: nat, keys: seq<string>, i: nat)
    requires depth < MAX_DEPTH && i < |keys| <= MAX_ENTRIES
    ensures WholeEntries(e, id, path, depth, keys)[i]
            == Entry(keys[i], WholeRead(e, e.property(0, id, keys[i]), path, depth))
    decreases |keys|
  {
    if i < |keys| - 1 { WholeEntryAt(e, id, path, depth, keys[..|keys| - 1], i); }
  }

  /** Whatever the graph is and whatever reading it does: the preview is bounded, and it is the
      unbounded preview when reads are pure and that has at most the budget's nodes. */
  method Encode(engine: Engine, value: Value) returns (p: ValuePreview)
    ensures Fits(p, 4)
    ensures Nodes(p) - Threws(p) <= 2048 && Nodes(p) <= 2048 * 101
    ensures p != Cyclic
    ensures Stable(engine) ==> Faithful(p, Whole(engine, value, [], 0), 2048)
  {
    var encoder := new Encoder(engine);
    p := encoder.EncodeAt(value, 0);
  }
}
