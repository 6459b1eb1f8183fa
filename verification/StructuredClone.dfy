/**
  * `structuredCloneInner`: a memoised copy of an object graph.
  *
  * The heap is a map from references to objects; a clone allocates above it. The memo
  * sends each visited object to its copy, and is what the copied graph is isomorphic by.
  */
module StructuredClone {
  import opened Common

  type Ref = nat

  /** A primitive, up to SameValueZero. */
  datatype Prim = Null | Undefined | Bool(b: bool) | Number(n: nat) | BigInt(i: int) | Str(s: string)

  datatype Value = Primitive(p: Prim) | Symbol | Function | Ob(r: Ref)

  datatype Proto = ObjectProto | NullProto

  type Props = seq<(string, Value)>

  /** `Array.elems` marks holes with `None`. `Plain` has Object.prototype or null for prototype;
      it is `slotted` if it has internal slots all the same, as an arguments object has. `Instance` is
      an ordinary object of any other prototype. `Leaf` is a built-in copied by its content alone
      (Date, RegExp, ArrayBuffer, wrapper objects, DOMException), `extras` its own properties;
      `View` is a typed array or DataView. `ErrorOb.message` is the own property, if any. `Host` is
      everything else with state of its own: platform objects, promises, weak maps; a few of the
      platform objects (Blob, File, DOMRect) and the BigInt wrapper HTML can serialize. */
  datatype Object =
    | Array(elems: seq<Option<Value>>, props: Props)
    | Plain(proto: Proto, slotted: bool, props: Props)
    | Instance(props: Props)
    | MapOb(entries: seq<(Value, Value)>)
    | SetOb(members: seq<Value>)
    | Leaf(kind: string, payload: string, extras: Props)
    | View(kind: string, buffer: Ref, offset: nat, length: nat)
    | ErrorOb(name: string, message: Option<string>, stack: Option<string>, cause: Option<Value>)
    | Host(serializable: bool)

  /** DataCloneError; or the TypeError of `new` on what is no constructor. */
  datatype Failure = DataClone | NotAConstructor

  /** The seven keys of `errorCtorByName`, and the names it inherits: one is a constructor. */
  const NATIVE: set<string> :=
    {"Error", "EvalError", "RangeError", "ReferenceError", "SyntaxError", "TypeError", "URIError"}

  const INHERITED: set<string> :=
    {"__defineGetter__", "__defineSetter__", "__lookupGetter__", "__lookupSetter__", "__proto__", "hasOwnProperty",
     "isPrototypeOf", "propertyIsEnumerable", "toLocaleString", "toString", "valueOf"}

  /** Whose rules are followed: the program's, under which own properties of an array that are
      named like an inherited one (`inh` is the set of those names) are passed over, or those of HTML
      section 2.7.3. */
  datatype Rules = Program(inh: set<string>) | Html

  type Heap = map<Ref, Object>
  type Memo = map<Ref, Ref>

  /** What a JavaScript heap guarantees: references resolve, Map keys and Set members are
      distinct, a view has a buffer. */
  ghost predicate WellFormed(h: Heap) {
    forall r :: r in h ==>
      && (forall rules, k :: HasKid(rules, h[r], k) && k.Ob? ==> k.r in h)
      && (h[r].MapOb? ==> forall i, j :: 0 <= i < j < |h[r].entries| ==> h[r].entries[i].0 != h[r].entries[j].0)
      && (h[r].SetOb? ==> NoDup(h[r].members))
      && (h[r].View? ==> h[r].buffer in h && h[h[r].buffer].Leaf?)
  }

  /** `k` is a value the clone of `o` visits. HTML does not visit the cause of an error. */
  ghost predicate HasKid(rules: Rules, o: Object, k: Value) {
    match o
    case Array(elems, props) =>
      (exists i :: 0 <= i < |elems| && elems[i] == Some(k))
      || (exists i :: 0 <= i < |props| && props[i].1 == k && !Skips(rules, props[i].0))
    case Plain(_, slotted, props) => !(slotted && rules.Html?) && exists i :: 0 <= i < |props| && props[i].1 == k
    case Instance(props) => rules.Html? && exists i :: 0 <= i < |props| && props[i].1 == k
    case MapOb(entries) => exists i :: 0 <= i < |entries| && (entries[i].0 == k || entries[i].1 == k)
    case SetOb(members) => k in members
    case View(_, buffer, _, _) => k == Ob(buffer)
    case ErrorOb(_, _, _, cause) => rules.Program? && cause == Some(k)
    case _ => false
  }

  predicate Skips(rules: Rules, name: string) {
    rules.Program? && name in rules.inh
  }

  /** An object that is not cloned, whatever it holds. */
  predicate Refuses(rules: Rules, o: Object, f: Failure) {
    match o
    case Host(serializable) => f == DataClone && (rules.Program? || !serializable)
    case Instance(_) => f == DataClone && rules.Program?
    case Plain(_, slotted, _) => f == DataClone && rules.Html? && slotted
    case ErrorOb(name, _, _, _) => f == NotAConstructor && rules.Program? && name in INHERITED
    case _ => false
  }

  /** A value that fails this way is found within `n` steps of `v`. */
  ghost predicate BadWithin(h: Heap, rules: Rules, v: Value, f: Failure, n: nat)
    decreases n
  {
    match v
    case Primitive(_) => false
    case Symbol => f == DataClone
    case Function => f == DataClone
    case Ob(r) =>
      r in h && (Refuses(rules, h[r], f) ||
          (n > 0 && exists k :: HasKid(rules, h[r], k) && BadWithin(h, rules, k, f, n - 1)))
  }

  ghost predicate Bad(h: Heap, rules: Rules, v: Value, f: Failure) {
    exists n: nat :: BadWithin(h, rules, v, f, n)
  }

  /** The clone of `v` fails. */
  ghost predicate Fails(h: Heap, rules: Rules, v: Value) {
    exists f :: Bad(h, rules, v, f)
  }

  ghost predicate ReachesWithin(h: Heap, rules: Rules, v: Value, x: Ref, n: nat): (b: bool)
    ensures b ==> x in h
    decreases n
  {
    v.Ob? && v.r in h &&
    (v.r == x || (n > 0 && exists k :: HasKid(rules, h[v.r], k) && ReachesWithin(h, rules, k, x, n - 1)))
  }

  ghost predicate Reaches(h: Heap, rules: Rules, v: Value, x: Ref): (b: bool)
    ensures b ==> x in h
  {
    exists n: nat :: ReachesWithin(h, rules, v, x, n)
  }

  lemma BadThroughKid(h: Heap, rules: Rules, x: Ref, k: Value, f: Failure)
    requires x in h && HasKid(rules, h[x], k) && Bad(h, rules, k, f)
    ensures Bad(h, rules, Ob(x), f)
  {
    var n: nat :| BadWithin(h, rules, k, f, n);
    assert BadWithin(h, rules, Ob(x), f, n + 1);
  }

  lemma ReachesThroughKid(h: Heap, rules: Rules, x: Ref, k: Value)
    requires x in h && HasKid(rules, h[x], k)
    ensures forall y :: Reaches(h, rules, k, y) ==> Reaches(h, rules, Ob(x), y)
  {
    forall y | Reaches(h, rules, k, y) ensures Reaches(h, rules, Ob(x), y) {
      var n: nat :| ReachesWithin(h, rules, k, y, n);
      assert ReachesWithin(h, rules, Ob(x), y, n + 1);
    }
  }

  // ----- Copies -----

  /** `w` is what `v` becomes under the memo. */
  predicate Same(v: Value, w: Value, m: Memo) {
    match v
    case Primitive(_) => w == v
    case Ob(r) => r in m && w == Ob(m[r])
    case _ => false
  }

  predicate SameOption(v: Option<Value>, w: Option<Value>, m: Memo) {
    match v
    case None => w == None
    case Some(x) => w.Some? && Same(x, w.value, m)
  }

  predicate SameProps(a: Props, b: Props, m: Memo) {
    |a| == |b| && forall i :: 0 <= i < |a| ==> a[i].0 == b[i].0 && Same(a[i].1, b[i].1, m)
  }

  /** How many elements survive: everything up to the last one present. */
  function Kept(elems: seq<Option<Value>>): (n: nat)
    ensures n <= |elems|
    ensures n > 0 ==> elems[n - 1].Some?
    ensures forall i :: n <= i < |elems| ==> elems[i] == None
  {
    if elems == [] then 0
    else if elems[|elems| - 1].Some? then |elems| else Kept(elems[..|elems| - 1])
  }

  function KeptProps(props: Props, inh: set<string>): (r: Props)
    ensures forall i :: 0 <= i < |r| ==> r[i] in props && r[i].0 !in inh
    ensures forall p :: p in props && p.0 !in inh ==> p in r
    ensures (forall i :: 0 <= i < |props| ==> props[i].0 !in inh) ==> r == props
  {
    if props == [] then []
    else
      var last := props[|props| - 1];
      KeptProps(props[..|props| - 1], inh) + if last.0 in inh then [] else [last]
  }

  function CopyOf(v: Option<Value>, m: Memo): Option<Value> {
    match v
    case Some(Ob(r)) => if r in m then Some(Ob(m[r])) else None
    case _ => v
  }

  /** What the error branch builds: an error, its message an own property in any case; or, for an
      error named `constructor`, what `new Object` makes of the message, a String object. */
  function ErrorCopy(name: string, message: Option<string>, stack: Option<string>, cause: Option<Value>): Object {
    var text := if message.Some? then message.value else "";
    if name == "constructor" then
      Leaf("String", text, (if stack.Some? then [("stack", Primitive(Str(stack.value)))] else [])
                           + if cause.Some? then [("cause", cause.value)] else [])
    else
      ErrorOb(name, Some(text), stack, cause)
  }

  /** `p` is the copy of `o`. */
  ghost predicate IsCopy(inh: set<string>, o: Object, p: Object, m: Memo) {
    match o
    case Array(elems, props) =>
      && p.Array? && |p.elems| == Kept(elems)
      && (forall i :: 0 <= i < |p.elems| ==> SameOption(elems[i], p.elems[i], m))
      && SameProps(KeptProps(props, inh), p.props, m)
    case Plain(proto, _, props) => p.Plain? && p.proto == proto && !p.slotted && SameProps(props, p.props, m)
    case MapOb(entries) =>
      && p.MapOb? && |p.entries| == |entries|
      && forall i :: 0 <= i < |entries| ==>
         Same(entries[i].0, p.entries[i].0, m) && Same(entries[i].1, p.entries[i].1, m)
    case SetOb(members) =>
      p.SetOb? && |p.members| == |members| && forall i :: 0 <= i < |members| ==> Same(members[i], p.members[i], m)
    case Leaf(_, _, _) => p == o.(extras := [])
    case View(_, buffer, _, _) => buffer in m && p == o.(buffer := m[buffer])
    case ErrorOb(name, message, stack, cause) =>
      && name !in INHERITED && SameOption(cause, CopyOf(cause, m), m)
      && p == ErrorCopy(name, message, stack, CopyOf(cause, m))
    case _ => false
  }

  /** A copied object has all its visited values copied too. */
  lemma CopyMapsKids(inh: set<string>, o: Object, p: Object, m: Memo, k: Value)
    requires IsCopy(inh, o, p, m) && HasKid(Program(inh), o, k)
    ensures k.Primitive? || (k.Ob? && k.r in m)
  {
    match o {
      case Array(elems, props) =>
        if i :| 0 <= i < |elems| && elems[i] == Some(k) {
          assert SameOption(elems[i], p.elems[i], m);
        } else {
          var i :| 0 <= i < |props| && props[i].1 == k && props[i].0 !in inh;
          assert props[i] in KeptProps(props, inh);
          var j :| 0 <= j < |KeptProps(props, inh)| && KeptProps(props, inh)[j] == props[i];
        }
      case MapOb(entries) =>
        var i :| 0 <= i < |entries| && (entries[i].0 == k || entries[i].1 == k);
      case _ =>
    }
  }

  /** The copy of `x` is complete. */
  ghost predicate Copied(inh: set<string>, input: Heap, heap: Heap, m: Memo, x: Ref) {
    x in input && x in m && m[x] in heap && IsCopy(inh, input[x], heap[m[x]], m)
  }

  ghost predicate Extends(a: Memo, b: Memo) {
    forall x :: x in a ==> x in b && b[x] == a[x]
  }

  lemma CopyExtends(inh: set<string>, o: Object, p: Object, a: Memo, b: Memo)
    requires IsCopy(inh, o, p, a) && Extends(a, b)
    ensures IsCopy(inh, o, p, b)
  {
  }

  ghost predicate Injective(m: Memo) {
    forall x, y :: x in m && y in m && m[x] == m[y] ==> x == y
  }

  /** Distinct values have distinct copies. */
  lemma SameInjective(v: Value, w: Value, a: Value, b: Value, m: Memo)
    requires Injective(m) && Same(v, a, m) && Same(w, b, m) && v != w
    ensures a != b
  {
  }

  lemma LeafIsAlone(h: Heap, rules: Rules, b: Ref)
    requires b in h && h[b].Leaf?
    ensures !Fails(h, rules, Ob(b)) && forall y :: Reaches(h, rules, Ob(b), y) ==> y == b
  {
  }

  lemma KidInHeap(h: Heap, rules: Rules, x: Ref, k: Value)
    requires WellFormed(h) && x in h && HasKid(rules, h[x], k)
    ensures k.Ob? ==> k.r in h
  {
  }

  // ----- The algorithm -----

  /** `out[i] = v` on a dense-or-holey list: missing places become holes. */
  function SetIndex(elems: seq<Option<Value>>, i: nat, v: Value): seq<Option<Value>>
    requires |elems| <= i
  {
    elems + seq(i - |elems|, _ => None) + [Some(v)]
  }

  /** `mapSet`: an equal key is overwritten in place. */
  function MapSet(entries: seq<(Value, Value)>, k: Value, v: Value): seq<(Value, Value)> {
    if entries == [] then [(k, v)]
    else if entries[0].0 == k then [(k, v)] + entries[1..]
    else [entries[0]] + MapSet(entries[1..], k, v)
  }

  lemma {:induction false} MapSetAppends(entries: seq<(Value, Value)>, k: Value, v: Value)
    requires forall i :: 0 <= i < |entries| ==> entries[i].0 != k
    ensures MapSet(entries, k, v) == entries + [(k, v)]
  {
    if entries != [] {
      MapSetAppends(entries[1..], k, v);
      assert [entries[0]] + (entries[1..] + [(k, v)]) == entries + [(k, v)];
    }
  }

  // ----- Copies in the making -----

  /** The first `n` elements of an array are copied. */
  ghost predicate ElemsFilled(elems: seq<Option<Value>>, n: nat, o: Object, m: Memo)
    requires n <= |elems|
  {
    && o.Array? && o.props == [] && |o.elems| == Kept(elems[..n])
    && forall j :: 0 <= j < |o.elems| ==> SameOption(elems[j], o.elems[j], m)
  }

  /** What is left to visit, a measure of the recursion. */
  lemma FewerLeft(all: set<Ref>, a: set<Ref>, b: set<Ref>)
    requires a <= b
    ensures all - b <= all - a
  {
  }

  lemma ElemsStart(elems: seq<Option<Value>>, m: Memo)
    ensures ElemsFilled(elems, 0, Array([], []), m)
  {
    assert elems[..0] == [];
  }

  lemma ElemsStep(elems: seq<Option<Value>>, n: nat, o: Object, a: Memo, v: Option<Value>, b: Memo)
    requires n < |elems| && ElemsFilled(elems, n, o, a) && Extends(a, b)
    requires SameOption(elems[n], v, b)
    ensures ElemsFilled(elems, n + 1, if v.None? then o else Array(SetIndex(o.elems, n, v.value), []), b)
  {
    assert elems[..n + 1][..n] == elems[..n];
    var k := Kept(elems[..n]);
    forall j | k <= j < n ensures elems[j] == None { assert elems[..n][j] == None; }
  }

  /** The first `n` own named properties are copied. */
  ghost predicate PropsFilled(props: Props, inh: set<string>, n: nat, copied: Props, m: Memo)
    requires n <= |props|
  {
    SameProps(KeptProps(props[..n], inh), copied, m)
  }

  lemma PropsStep(props: Props, inh: set<string>, n: nat, copied: Props, a: Memo, v: Value, b: Memo)
    requires n < |props| && PropsFilled(props, inh, n, copied, a) && Extends(a, b)
    requires props[n].0 !in inh ==> Same(props[n].1, v, b)
    ensures PropsFilled(props, inh, n + 1, if props[n].0 in inh then copied else copied + [(props[n].0, v)], b)
  {
    assert props[..n + 1][..n] == props[..n];
  }

  ghost predicate EntriesFilled(entries: seq<(Value, Value)>, n: nat, copied: seq<(Value, Value)>, m: Memo)
    requires n <= |entries|
  {
    |copied| == n && forall i :: 0 <= i < n ==> Same(entries[i].0, copied[i].0, m) && Same(entries[i].1, copied[i].1, m)
  }

  /** Distinct keys have distinct copies, so `mapSet` never overwrites. */
  lemma EntriesStep(entries: seq<(Value, Value)>, n: nat, copied: seq<(Value, Value)>, a: Memo, k: Value, v: Value,
                    b: Memo)
    requires n < |entries| && EntriesFilled(entries, n, copied, a) && Extends(a, b) && Injective(b)
    requires forall i :: 0 <= i < n ==> entries[i].0 != entries[n].0
    requires Same(entries[n].0, k, b) && Same(entries[n].1, v, b)
    ensures EntriesFilled(entries, n + 1, MapSet(copied, k, v), b)
  {
    forall i | 0 <= i < n ensures copied[i].0 != k {
      SameInjective(entries[i].0, entries[n].0, copied[i].0, k, b);
    }
    MapSetAppends(copied, k, v);
  }

  ghost predicate MembersFilled(members: seq<Value>, n: nat, copied: seq<Value>, m: Memo)
    requires n <= |members|
  {
    |copied| == n && forall i :: 0 <= i < n ==> Same(members[i], copied[i], m)
  }

  lemma MembersStep(members: seq<Value>, n: nat, copied: seq<Value>, a: Memo, v: Value, b: Memo)
    requires n < |members| && MembersFilled(members, n, copied, a) && Extends(a, b) && Injective(b)
    requires NoDup(members) && Same(members[n], v, b)
    ensures MembersFilled(members, n + 1, SetAdd(copied, v), b)
  {
    forall i | 0 <= i < n ensures copied[i] != v {
      SameInjective(members[i], members[n], copied[i], v, b);
    }
  }

  /** `setAdd`: a member already there is not added again. */
  function SetAdd(members: seq<Value>, v: Value): seq<Value> {
    if v in members then members else members + [v]
  }

  lemma ArrayIsCopied(inh: set<string>, x: Object, o: Object, a: Memo, p: Object, b: Memo)
    requires x.Array? && ElemsFilled(x.elems, |x.elems|, o, a) && Extends(a, b)
    requires p.Array? && p.elems == o.elems && PropsFilled(x.props, inh, |x.props|, p.props, b)
    ensures IsCopy(inh, x, p, b)
  {
    assert x.elems[..|x.elems|] == x.elems;
    assert x.props[..|x.props|] == x.props;
  }

  class Cloner {
    const input: Heap
    const inh: set<string>
    var heap: Heap
    var memo: Memo
    var next: Ref
    /** Visited objects whose copy is still being filled in. */
    ghost var grey: set<Ref>

    ghost predicate Valid()
      reads this
    {
      && WellFormed(input)
      && (forall r :: r in input ==> r in heap && heap[r] == input[r])
      && (forall r :: r in heap ==> r < next)
      && memo.Keys <= input.Keys && grey <= memo.Keys
      && (forall x :: x in memo ==> memo[x] in heap && memo[x] !in input)
      && Injective(memo)
      && (forall x {:trigger Copied(inh, input, heap, memo, x)} ::
            x in memo && x !in grey ==> Copied(inh, input, heap, memo, x))
    }

    constructor (input: Heap, inh: set<string>, next: Ref)
      requires WellFormed(input) && forall r :: r in input ==> r < next
      ensures Valid() && memo == map[] && grey == {} && heap == input && this.input == input && this.inh == inh
    {
      this.input, this.inh, this.heap, this.memo, this.next, this.grey := input, inh, input, map[], next, {};
    }

    /** Allocates the copy of `x` and enters it in the memo. */
    method Allocate(x: Ref, o: Object) returns (out: Ref)
      requires Valid() && x in input && x !in memo
      modifies this
      ensures Valid() && out !in old(heap) && heap == old(heap)[out := o]
      ensures memo == old(memo)[x := out] && grey == old(grey) + {x}
    {
      out := next;
      forall y | y in memo && y !in grey ensures Copied(inh, input, heap[out := o], memo[x := out], y) {
        assert Copied(inh, input, heap, memo, y);
        CopyExtends(inh, input[y], heap[memo[y]], memo, memo[x := out]);
      }
      heap, memo, next, grey := heap[out := o], memo[x := out], next + 1, grey + {x};
    }

    /** Rewrites a copy that is being filled in. */
    method Write(x: Ref, o: Object)
      requires Valid() && x in grey
      modifies `heap
      ensures Valid() && heap == old(heap)[memo[x] := o]
    {
      forall y | y in memo && y !in grey ensures Copied(inh, input, heap[memo[x] := o], memo, y) {
        assert Copied(inh, input, heap, memo, y);
      }
      heap := heap[memo[x] := o];
    }

    /** A copy is complete. */
    ghost method Complete(x: Ref)
      requires Valid() && x in grey && IsCopy(inh, input[x], heap[memo[x]], memo)
      modifies `grey
      ensures Valid() && grey == old(grey) - {x}
    {
      forall y | y in memo && y !in grey - {x} ensures Copied(inh, input, heap, memo, y) {
        assert y == x || Copied(inh, input, heap, memo, y);
      }
      grey := grey - {x};
    }

    /** Since heap `h` and memo `m`, objects were only added, all of them copies of what `v` reaches. */
    ghost predicate Grew(h: Heap, m: Memo, v: Value)
      reads this
    {
      && (forall r :: r in h ==> r in heap && heap[r] == h[r])
      && Extends(m, memo)
      && forall y :: y in memo && y !in m ==> Reaches(input, Program(inh), v, y)
    }

    /** A view is cloned after its buffer, before it is in the memo itself. */
    ghost function Rank(v: Value): nat {
      if v.Ob? && v.r in input && input[v.r].View? then 1 else 0
    }

    /** Since heap `h`, memo `m` and grey set `g`, `x` was entered and its copy is being filled in. */
    ghost predicate Filling(x: Ref, h: Heap, m: Memo, g: set<Ref>)
      reads this
    {
      Valid() && x !in g && grey == g + {x} && memo[x] !in h && Grew(h, m, Ob(x))
    }

    /** `structuredCloneInner`. */
    method Clone(v: Value) returns (r: Result<Value, Failure>)
      requires Valid() && (v.Ob? ==> v.r in input)
      modifies this
      ensures r.Ok? ==> Valid() && grey == old(grey) && Grew(old(heap), old(memo), v) && Same(v, r.value, memo)
      ensures r.Err? ==> Bad(input, Program(inh), v, r.error)
      decreases input.Keys - memo.Keys, Rank(v), 1
    {
      match v {
        case Primitive(_) => return Ok(v);
        case Ob(x) =>
          if x in memo { return Ok(Ob(memo[x])); }
          match heap[x] {
            case Array(_, _) => r := CloneArray(x);
            case Plain(_, _, _) => r := ClonePlain(x);
            case MapOb(_) => r := CloneMap(x);
            case SetOb(_) => r := CloneSet(x);
            case Leaf(_, _, _) => r := CloneLeaf(x);
            case View(_, _, _, _) => r := CloneView(x);
            case ErrorOb(_, _, _, _) => r := CloneError(x);
            case _ =>
              assert BadWithin(input, Program(inh), v, DataClone, 0);
              return Err(DataClone);
          }
        case _ =>
          assert BadWithin(input, Program(inh), v, DataClone, 0);
          return Err(DataClone);
      }
    }

    /** Clones a value that `x` holds. */
    method CloneKid(x: Ref, k: Value) returns (r: Result<Value, Failure>)
      requires Valid() && x in input && HasKid(Program(inh), input[x], k)
      modifies this
      ensures r.Ok? ==> Valid() && grey == old(grey) && Grew(old(heap), old(memo), Ob(x)) && Same(k, r.value, memo)
      ensures r.Err? ==> Bad(input, Program(inh), Ob(x), r.error)
      decreases input.Keys - memo.Keys, Rank(k), 2
    {
      KidInHeap(input, Program(inh), x, k);
      ReachesThroughKid(input, Program(inh), x, k);
      r := Clone(k);
      if r.Err? { BadThroughKid(input, Program(inh), x, k, r.error); }
    }

    /** Enters `x` with an empty copy. */
    method Open(x: Ref, o: Object)
      requires Valid() && x in input && x !in memo
      modifies this
      ensures Filling(x, old(heap), old(memo), old(grey)) && heap[memo[x]] == o && memo.Keys == old(memo).Keys + {x}
    {
      assert ReachesWithin(input, Program(inh), Ob(x), x, 0);
      var _ := Allocate(x, o);
    }

    /** Clones a value that `x`, being filled in, holds; what is filled in so far stays. */
    method FillKid(x: Ref, k: Value, ghost h: Heap, ghost m: Memo, ghost g: set<Ref>)
        returns (r: Result<Value, Failure>)
      requires Filling(x, h, m, g) && HasKid(Program(inh), input[x], k)
      modifies this
      ensures r.Ok? ==>
        && Filling(x, h, m, g) && heap[memo[x]] == old(heap[memo[x]])
        && Extends(old(memo), memo) && Same(k, r.value, memo)
      ensures r.Err? ==> Bad(input, Program(inh), Ob(x), r.error)
      decreases input.Keys - memo.Keys, Rank(k), 3
    {
      r := CloneKid(x, k);
    }

    method FillWrite(x: Ref, o: Object, ghost h: Heap, ghost m: Memo, ghost g: set<Ref>)
      requires Filling(x, h, m, g)
      modifies `heap
      ensures Filling(x, h, m, g) && heap[memo[x]] == o
    {
      Write(x, o);
    }

    method Close(x: Ref, ghost h: Heap, ghost m: Memo, ghost g: set<Ref>) returns (r: Result<Value, Failure>)
      requires Filling(x, h, m, g) && IsCopy(inh, input[x], heap[memo[x]], memo)
      modifies `grey
      ensures r.Ok? && Valid() && grey == g && Grew(h, m, Ob(x)) && Same(Ob(x), r.value, memo)
    {
      Complete(x);
      r := Ok(Ob(memo[x]));
    }

    method FillElems(x: Ref, ghost h: Heap, ghost m: Memo, ghost g: set<Ref>) returns (bad: Option<Failure>)
      requires Filling(x, h, m, g) && input[x].Array? && heap[memo[x]] == Array([], [])
      modifies this
      ensures bad.None? ==> Filling(x, h, m, g) && ElemsFilled(input[x].elems, |input[x].elems|, heap[memo[x]], memo)
      ensures bad.None? ==> Extends(old(memo), memo)
      ensures bad.Some? ==> Bad(input, Program(inh), Ob(x), bad.value)
      decreases input.Keys - memo.Keys, 4
    {
      var elems := heap[x].elems;
      ElemsStart(elems, memo);
      for i := 0 to |elems|
        invariant Filling(x, h, m, g) && ElemsFilled(elems, i, heap[memo[x]], memo)
        invariant Extends(old(memo), memo)
      {
        var more := FillElem(x, i, h, m, g);
        if more.Some? { return more; }
      }
      return None;
    }

    method FillElem(x: Ref, i: nat, ghost h: Heap, ghost m: Memo, ghost g: set<Ref>) returns (bad: Option<Failure>)
      requires Filling(x, h, m, g) && input[x].Array? && i < |input[x].elems|
      requires ElemsFilled(input[x].elems, i, heap[memo[x]], memo)
      modifies this
      ensures bad.None? ==> Filling(x, h, m, g) && ElemsFilled(input[x].elems, i + 1, heap[memo[x]], memo)
      ensures bad.None? ==> Extends(old(memo), memo)
      ensures bad.Some? ==> Bad(input, Program(inh), Ob(x), bad.value)
      decreases input.Keys - memo.Keys, 3
    {
      var e := heap[x].elems[i];
      if e.None? {
        ElemsStep(input[x].elems, i, heap[memo[x]], memo, e, memo);
        return None;
      }
      ghost var o, a := heap[memo[x]], memo;
      assert HasKid(Program(inh), input[x], e.value);
      var v := FillKid(x, e.value, h, m, g);
      if v.Err? { return Some(v.error); }
      ElemsStep(input[x].elems, i, o, a, Some(v.value), memo);
      FillWrite(x, Array(SetIndex(heap[memo[x]].elems, i, v.value), []), h, m, g);
      return None;
    }

    /** Own named properties, those in `skip` passed over. */
    method FillProps(x: Ref, skip: set<string>, ghost h: Heap, ghost m: Memo, ghost g: set<Ref>)
        returns (bad: Option<Failure>)
      requires Filling(x, h, m, g) && (input[x].Array? || input[x].Plain?)
      requires (heap[memo[x]].Array? || heap[memo[x]].Plain?) && heap[memo[x]].props == []
      requires forall i :: 0 <= i < |input[x].props| && input[x].props[i].0 !in skip ==>
               HasKid(Program(inh), input[x], input[x].props[i].1)
      modifies this
      ensures bad.None? ==>
        && Filling(x, h, m, g) && Extends(old(memo), memo)
        && (heap[memo[x]].Array? || heap[memo[x]].Plain?)
        && heap[memo[x]] == old(heap[memo[x]]).(props := heap[memo[x]].props)
        && PropsFilled(input[x].props, skip, |input[x].props|, heap[memo[x]].props, memo)
      ensures bad.Some? ==> Bad(input, Program(inh), Ob(x), bad.value)
      decreases input.Keys - memo.Keys, 4
    {
      var props := heap[x].props;
      ghost var start := heap[memo[x]];
      for i := 0 to |props|
        invariant Filling(x, h, m, g) && Extends(old(memo), memo) && (heap[memo[x]].Array? || heap[memo[x]].Plain?)
        invariant heap[memo[x]] == start.(props := heap[memo[x]].props)
        invariant PropsFilled(props, skip, i, heap[memo[x]].props, memo)
      {
        var more := FillProp(x, i, skip, h, m, g);
        if more.Some? { return more; }
      }
      return None;
    }

    method FillProp(x: Ref, i: nat, skip: set<string>, ghost h: Heap, ghost m: Memo, ghost g: set<Ref>)
      returns (bad: Option<Failure>)
      requires Filling(x, h, m, g) && (input[x].Array? || input[x].Plain?) && i < |input[x].props|
      requires heap[memo[x]].Array? || heap[memo[x]].Plain?
      requires PropsFilled(input[x].props, skip, i, heap[memo[x]].props, memo)
      requires input[x].props[i].0 !in skip ==> HasKid(Program(inh), input[x], input[x].props[i].1)
      modifies this
      ensures bad.None? ==>
        && Filling(x, h, m, g) && Extends(old(memo), memo)
        && (heap[memo[x]].Array? || heap[memo[x]].Plain?)
        && heap[memo[x]] == old(heap[memo[x]]).(props := heap[memo[x]].props)
        && PropsFilled(input[x].props, skip, i + 1, heap[memo[x]].props, memo)
      ensures bad.Some? ==> Bad(input, Program(inh), Ob(x), bad.value)
      decreases input.Keys - memo.Keys, 3, 1
    {
      var prop := heap[x].props[i];
      ghost var copied, a := heap[memo[x]].props, memo;
      if prop.0 in skip {
        PropsStep(input[x].props, skip, i, copied, a, Symbol, memo);
        return None;
      }
      var v := FillKid(x, prop.1, h, m, g);
      if v.Err? { return Some(v.error); }
      PropsStep(input[x].props, skip, i, copied, a, v.value, memo);
      var o := heap[memo[x]];
      FillWrite(x, o.(props := o.props + [(prop.0, v.value)]), h, m, g);
      return None;
    }

    method CloneArray(x: Ref) returns (r: Result<Value, Failure>)
      requires Valid() && x in input && x !in memo && input[x].Array?
      modifies this
      ensures r.Ok? ==> Valid() && grey == old(grey) && Grew(old(heap), old(memo), Ob(x)) && Same(Ob(x), r.value, memo)
      ensures r.Err? ==> Bad(input, Program(inh), Ob(x), r.error)
      decreases input.Keys - memo.Keys, 0, 0
    {
      ghost var h, m, g := heap, memo, grey;
      Open(x, Array([], []));
      var bad := FillArray(x, h, m, g);
      if bad.Some? { return Err(bad.value); }
      r := Close(x, h, m, g);
    }

    method FillArray(x: Ref, ghost h: Heap, ghost m: Memo, ghost g: set<Ref>) returns (bad: Option<Failure>)
      requires Filling(x, h, m, g) && input[x].Array? && heap[memo[x]] == Array([], [])
      modifies this
      ensures bad.None? ==> Filling(x, h, m, g) && IsCopy(inh, input[x], heap[memo[x]], memo)
      ensures bad.Some? ==> Bad(input, Program(inh), Ob(x), bad.value)
      decreases input.Keys - memo.Keys, 5
    {
      bad := FillElems(x, h, m, g);
      if bad.Some? { return; }
      ghost var o, a := heap[memo[x]], memo;
      FewerLeft(input.Keys, old(memo).Keys, a.Keys);
      bad := FillProps(x, inh, h, m, g);
      if bad.Some? { return; }
      ArrayIsCopied(inh, input[x], o, a, heap[memo[x]], memo);
    }

    method ClonePlain(x: Ref) returns (r: Result<Value, Failure>)
      requires Valid() && x in input && x !in memo && input[x].Plain?
      modifies this
      ensures r.Ok? ==> Valid() && grey == old(grey) && Grew(old(heap), old(memo), Ob(x)) && Same(Ob(x), r.value, memo)
      ensures r.Err? ==> Bad(input, Program(inh), Ob(x), r.error)
      decreases input.Keys - memo.Keys, 0, 0
    {
      ghost var h, m, g := heap, memo, grey;
      Open(x, Plain(heap[x].proto, false, []));
      var bad := FillProps(x, {}, h, m, g);
      if bad.Some? { return Err(bad.value); }
      assert input[x].props[..|input[x].props|] == input[x].props;
      r := Close(x, h, m, g);
    }

    method CloneMap(x: Ref) returns (r: Result<Value, Failure>)
      requires Valid() && x in input && x !in memo && input[x].MapOb?
      modifies this
      ensures r.Ok? ==> Valid() && grey == old(grey) && Grew(old(heap), old(memo), Ob(x)) && Same(Ob(x), r.value, memo)
      ensures r.Err? ==> Bad(input, Program(inh), Ob(x), r.error)
      decreases input.Keys - memo.Keys, 0, 0
    {
      ghost var h, m, g := heap, memo, grey;
      var entries := heap[x].entries;
      Open(x, MapOb([]));
      for i := 0 to |entries|
        invariant Filling(x, h, m, g) && heap[memo[x]].MapOb? && EntriesFilled(entries, i, heap[memo[x]].entries, memo)
      {
        var bad := FillEntry(x, i, h, m, g);
        if bad.Some? { return Err(bad.value); }
      }
      r := Close(x, h, m, g);
    }

    method FillEntry(x: Ref, i: nat, ghost h: Heap, ghost m: Memo, ghost g: set<Ref>) returns (bad: Option<Failure>)
      requires Filling(x, h, m, g) && input[x].MapOb? && i < |input[x].entries|
      requires heap[memo[x]].MapOb? && EntriesFilled(input[x].entries, i, heap[memo[x]].entries, memo)
      modifies this
      ensures bad.None? ==>
        && Filling(x, h, m, g) && heap[memo[x]].MapOb?
        && EntriesFilled(input[x].entries, i + 1, heap[memo[x]].entries, memo)
      ensures bad.Some? ==> Bad(input, Program(inh), Ob(x), bad.value)
      decreases input.Keys - memo.Keys, 4
    {
      var entry := heap[x].entries[i];
      ghost var a := memo;
      assert HasKid(Program(inh), input[x], entry.0) && HasKid(Program(inh), input[x], entry.1);
      var k := FillKid(x, entry.0, h, m, g);
      if k.Err? { return Some(k.error); }
      var v := FillKid(x, entry.1, h, m, g);
      if v.Err? { return Some(v.error); }
      assert Extends(a, memo);
      PutEntry(x, i, k.value, v.value, a, h, m, g);
      return None;
    }

    method PutEntry(x: Ref, i: nat, k: Value, v: Value, ghost a: Memo, ghost h: Heap, ghost m: Memo, ghost g: set<Ref>)
      requires Filling(x, h, m, g) && input[x].MapOb? && i < |input[x].entries| && Extends(a, memo)
      requires heap[memo[x]].MapOb? && EntriesFilled(input[x].entries, i, heap[memo[x]].entries, a)
      requires Same(input[x].entries[i].0, k, memo) && Same(input[x].entries[i].1, v, memo)
      modifies `heap
      ensures Filling(x, h, m, g) && heap[memo[x]].MapOb? &&
              EntriesFilled(input[x].entries, i + 1, heap[memo[x]].entries, memo)
    {
      EntriesStep(input[x].entries, i, heap[memo[x]].entries, a, k, v, memo);
      FillWrite(x, MapOb(MapSet(heap[memo[x]].entries, k, v)), h, m, g);
    }

    method CloneSet(x: Ref) returns (r: Result<Value, Failure>)
      requires Valid() && x in input && x !in memo && input[x].SetOb?
      modifies this
      ensures r.Ok? ==> Valid() && grey == old(grey) && Grew(old(heap), old(memo), Ob(x)) && Same(Ob(x), r.value, memo)
      ensures r.Err? ==> Bad(input, Program(inh), Ob(x), r.error)
      decreases input.Keys - memo.Keys, 0, 0
    {
      ghost var h, m, g := heap, memo, grey;
      var members := heap[x].members;
      Open(x, SetOb([]));
      for i := 0 to |members|
        invariant Filling(x, h, m, g) && heap[memo[x]].SetOb? && MembersFilled(members, i, heap[memo[x]].members, memo)
      {
        var bad := FillMember(x, i, h, m, g);
        if bad.Some? { return Err(bad.value); }
      }
      r := Close(x, h, m, g);
    }

    method FillMember(x: Ref, i: nat, ghost h: Heap, ghost m: Memo, ghost g: set<Ref>) returns (bad: Option<Failure>)
      requires Filling(x, h, m, g) && input[x].SetOb? && i < |input[x].members|
      requires heap[memo[x]].SetOb? && MembersFilled(input[x].members, i, heap[memo[x]].members, memo)
      modifies this
      ensures bad.None? ==>
        && Filling(x, h, m, g) && heap[memo[x]].SetOb?
        && MembersFilled(input[x].members, i + 1, heap[memo[x]].members, memo)
      ensures bad.Some? ==> Bad(input, Program(inh), Ob(x), bad.value)
      decreases input.Keys - memo.Keys, 4
    {
      ghost var copied, a := heap[memo[x]].members, memo;
      var v := FillKid(x, heap[x].members[i], h, m, g);
      if v.Err? { return Some(v.error); }
      MembersStep(input[x].members, i, copied, a, v.value, memo);
      FillWrite(x, SetOb(SetAdd(heap[memo[x]].members, v.value)), h, m, g);
      return None;
    }

    method CloneLeaf(x: Ref) returns (r: Result<Value, Failure>)
      requires Valid() && x in input && x !in memo && input[x].Leaf?
      modifies this
      ensures r.Ok? ==> Valid() && grey == old(grey) && Grew(old(heap), old(memo), Ob(x)) && Same(Ob(x), r.value, memo)
      ensures r.Err? ==> Bad(input, Program(inh), Ob(x), r.error)
      decreases input.Keys - memo.Keys, 0, 0
    {
      ghost var h, m, g := heap, memo, grey;
      Open(x, heap[x].(extras := []));
      r := Close(x, h, m, g);
    }

    /** A view's buffer is a leaf, so cloning it succeeds and touches nothing else. */
    method CloneBuffer(x: Ref) returns (r: Result<Value, Failure>)
      requires Valid() && x in input && x !in memo && input[x].View?
      modifies this
      ensures r.Ok? && Valid() && grey == old(grey) && Grew(old(heap), old(memo), Ob(x)) &&
              Same(Ob(input[x].buffer), r.value, memo)
      ensures x !in memo
      decreases input.Keys - memo.Keys, 0, 2
    {
      var b := heap[x].buffer;
      assert HasKid(Program(inh), input[x], Ob(b));
      KidInHeap(input, Program(inh), x, Ob(b));
      ReachesThroughKid(input, Program(inh), x, Ob(b));
      LeafIsAlone(input, Program(inh), b);
      r := Clone(Ob(b));
    }

    /** Typed arrays and DataViews: the buffer first, the memo entry last. */
    method CloneView(x: Ref) returns (r: Result<Value, Failure>)
      requires Valid() && x in input && x !in memo && input[x].View?
      modifies this
      ensures r.Ok? ==> Valid() && grey == old(grey) && Grew(old(heap), old(memo), Ob(x)) && Same(Ob(x), r.value, memo)
      ensures r.Err? ==> Bad(input, Program(inh), Ob(x), r.error)
      decreases input.Keys - memo.Keys, 1, 0
    {
      var o := heap[x];
      ghost var h, m, g := heap, memo, grey;
      r := CloneBuffer(x);
      Open(x, o.(buffer := r.value.r));
      r := Close(x, h, m, g);
    }

    /** The constructor is looked up by name in an object that inherits more names than it has. */
    method CloneError(x: Ref) returns (r: Result<Value, Failure>)
      requires Valid() && x in input && x !in memo && input[x].ErrorOb?
      modifies this
      ensures r.Ok? ==> Valid() && grey == old(grey) && Grew(old(heap), old(memo), Ob(x)) && Same(Ob(x), r.value, memo)
      ensures r.Err? ==> Bad(input, Program(inh), Ob(x), r.error)
      decreases input.Keys - memo.Keys, 0, 0
    {
      ghost var h, m, g := heap, memo, grey;
      var o := heap[x];
      if o.name in INHERITED {
        assert BadWithin(input, Program(inh), Ob(x), NotAConstructor, 0);
        return Err(NotAConstructor);
      }
      Open(x, ErrorCopy(o.name, o.message, o.stack, None));
      if o.cause.Some? {
        var v := FillKid(x, o.cause.value, h, m, g);
        if v.Err? { return v; }
        FillWrite(x, ErrorCopy(o.name, o.message, o.stack, Some(v.value)), h, m, g);
      }
      r := Close(x, h, m, g);
    }
  }

  // ----- What the clone is -----

  /** Every visited object's copy is complete, and the memo holds nothing else. */
  ghost predicate AllCopied(input: Heap, inh: set<string>, heap: Heap, m: Memo) {
    forall x :: x in m ==> Copied(inh, input, heap, m, x)
  }

  /** A complete copy rules out anything uncloneable below. */
  lemma {:induction false} CompleteIsNotBad(
      input: Heap, inh: set<string>, heap: Heap, m: Memo, v: Value, f: Failure, n: nat)
    requires AllCopied(input, inh, heap, m) && (v.Primitive? || (v.Ob? && v.r in m))
    ensures !BadWithin(input, Program(inh), v, f, n)
    decreases n
  {
    if v.Ob? && BadWithin(input, Program(inh), v, f, n) {
      assert Copied(inh, input, heap, m, v.r);
      var k :| HasKid(Program(inh), input[v.r], k) && BadWithin(input, Program(inh), k, f, n - 1);
      CopyMapsKids(inh, input[v.r], heap[m[v.r]], m, k);
      CompleteIsNotBad(input, inh, heap, m, k, f, n - 1);
    }
  }

  lemma {:induction false} CompleteIsClosed(input: Heap, inh: set<string>, heap: Heap, m: Memo, v: Value, x: Ref,
                                            n: nat)
    requires AllCopied(input, inh, heap, m) && (v.Primitive? || (v.Ob? && v.r in m))
    requires ReachesWithin(input, Program(inh), v, x, n)
    ensures x in m
    decreases n
  {
    if v.r != x {
      assert Copied(inh, input, heap, m, v.r);
      var k :| HasKid(Program(inh), input[v.r], k) && ReachesWithin(input, Program(inh), k, x, n - 1);
      CopyMapsKids(inh, input[v.r], heap[m[v.r]], m, k);
      CompleteIsClosed(input, inh, heap, m, k, x, n - 1);
    }
  }

  /** `structuredClone` without a transfer list: it fails exactly when something it cannot clone is
      visited, and with a failure of something visited; otherwise the memo is a bijection from what
      is reachable onto fresh objects, each the copy of its original, and the input is untouched. */
  method StructuredClone(input: Heap, inh: set<string>, next: Ref, v: Value)
    returns (r: Result<Value, Failure>, heap: Heap, memo: Memo)
    requires WellFormed(input) && (v.Ob? ==> v.r in input) && forall x :: x in input ==> x < next
    ensures r.Err? <==> Fails(input, Program(inh), v)
    ensures r.Err? ==> Bad(input, Program(inh), v, r.error)
    ensures r.Ok? ==>
      && (forall x :: x in memo <==> Reaches(input, Program(inh), v, x))
      && Injective(memo) && (forall x :: x in memo ==> memo[x] !in input)
      && (forall x :: x in input ==> x in heap && heap[x] == input[x])
      && AllCopied(input, inh, heap, memo)
      && (if v.Primitive? then r.value == v else v.Ob? && v.r in memo && r.value == Ob(memo[v.r]))
  {
    var c := new Cloner(input, inh, next);
    r := c.Clone(v);
    heap, memo := c.heap, c.memo;
    if r.Ok? {
      forall x | x in memo ensures Copied(inh, input, heap, memo, x) {}
      if Fails(input, Program(inh), v) {
        var f :| Bad(input, Program(inh), v, f);
        var n: nat :| BadWithin(input, Program(inh), v, f, n);
        CompleteIsNotBad(input, inh, heap, memo, v, f, n);
      }
      forall x | Reaches(input, Program(inh), v, x) ensures x in memo {
        var n: nat :| ReachesWithin(input, Program(inh), v, x, n);
        CompleteIsClosed(input, inh, heap, memo, v, x, n);
      }
    }
  }

  /** What the program's copies are: arrays lose the holes at their end and the properties named like
      inherited ones, plain objects keep a null prototype, errors their own name. */
  lemma CopyIs(inh: set<string>, o: Object, p: Object, m: Memo)
    requires IsCopy(inh, o, p, m)
    ensures o.Array? ==>
      && p.Array? && |p.elems| <= |o.elems| && (p.elems != [] ==> o.elems[|p.elems| - 1].Some?)
      && (forall i :: |p.elems| <= i < |o.elems| ==> o.elems[i] == None)
      && (forall i :: 0 <= i < |p.elems| ==>
            if o.elems[i].None? then p.elems[i] == None
            else p.elems[i].Some? && Deserialized(o.elems[i].value, p.elems[i].value, m))
      && DeserializedProps(KeptProps(o.props, inh), p.props, m)
    ensures o.Plain? ==> p.Plain? && p.proto == o.proto && !p.slotted && DeserializedProps(o.props, p.props, m)
    ensures o.ErrorOb? && o.name != "constructor" ==>
      && p.ErrorOb? && p.name == o.name && p.stack == o.stack && p.cause.Some? == o.cause.Some?
      && p.message == Some(if o.message.Some? then o.message.value else "")
      && (o.cause.Some? ==> Deserialized(o.cause.value, p.cause.value, m))
    ensures !o.Array? && !o.Plain? && !o.ErrorOb? ==> StandardCopy(o, p, m) && !o.Instance? && !o.Host?
  {
    SameIsDeserialized(m);
    if o.Array? { SamePropsAre(KeptProps(o.props, inh), p.props, m); }
    if o.Plain? { SamePropsAre(o.props, p.props, m); }
  }

  // ----- What fails -----

  lemma FailsAtOnceOrBelow(h: Heap, rules: Rules, x: Ref)
    requires x in h
    ensures Fails(h, rules, Ob(x)) <==>
              (exists f :: Refuses(rules, h[x], f)) || exists k :: HasKid(rules, h[x], k) && Fails(h, rules, k)
  {
    if f :| Bad(h, rules, Ob(x), f) {
      var n: nat :| BadWithin(h, rules, Ob(x), f, n);
      if !Refuses(rules, h[x], f) {
        var k :| HasKid(rules, h[x], k) && BadWithin(h, rules, k, f, n - 1);
        assert Bad(h, rules, k, f);
      }
    }
    if f :| Refuses(rules, h[x], f) {
      assert BadWithin(h, rules, Ob(x), f, 0);
      assert Bad(h, rules, Ob(x), f);
    }
    if k :| HasKid(rules, h[x], k) && Fails(h, rules, k) {
      var f :| Bad(h, rules, k, f);
      BadThroughKid(h, rules, x, k, f);
    }
  }

  /** Functions and symbols fail everywhere, primitives nowhere. */
  lemma ValuesFail(h: Heap, rules: Rules, v: Value)
    requires !v.Ob?
    ensures Fails(h, rules, v) <==> v == Function || v == Symbol
  {
    if v == Function || v == Symbol {
      assert BadWithin(h, rules, v, DataClone, 0);
      assert Bad(h, rules, v, DataClone);
    }
  }

  lemma SomeKid(h: Heap, rules: Rules, x: Ref, k: Value)
    requires x in h && HasKid(rules, h[x], k) && Fails(h, rules, k)
    ensures Fails(h, rules, Ob(x))
  {
    FailsAtOnceOrBelow(h, rules, x);
  }

  lemma SomeRefusal(h: Heap, rules: Rules, x: Ref, f: Failure)
    requires x in h && Refuses(rules, h[x], f)
    ensures Fails(h, rules, Ob(x))
  {
    FailsAtOnceOrBelow(h, rules, x);
  }

  /** When an object cannot be cloned here, in terms of what it holds. */
  lemma FailsHere(h: Heap, inh: set<string>, x: Ref)
    requires x in h
    ensures var r, o, fails := Program(inh), h[x], Fails(h, Program(inh), Ob(x));
      && (o.Array? ==> (fails <==>
            (exists i :: 0 <= i < |o.elems| && o.elems[i].Some? && Fails(h, r, o.elems[i].value))
            || exists i :: 0 <= i < |o.props| && o.props[i].0 !in inh && Fails(h, r, o.props[i].1)))
      && (o.Plain? ==> (fails <==> exists i :: 0 <= i < |o.props| && Fails(h, r, o.props[i].1)))
      && (o.MapOb? ==> (fails <==>
            exists i :: 0 <= i < |o.entries| && (Fails(h, r, o.entries[i].0) || Fails(h, r, o.entries[i].1))))
      && (o.SetOb? ==> (fails <==> exists i :: 0 <= i < |o.members| && Fails(h, r, o.members[i])))
      && (o.View? ==> (fails <==> Fails(h, r, Ob(o.buffer))))
      && (o.ErrorOb? ==> (fails <==>
            o.name in {"__defineGetter__", "__defineSetter__", "__lookupGetter__", "__lookupSetter__", "__proto__",
                       "hasOwnProperty", "isPrototypeOf", "propertyIsEnumerable", "toLocaleString", "toString",
                       "valueOf"}
            || (o.cause.Some? && Fails(h, r, o.cause.value))))
      && (o.Leaf? ==> !fails) && (o.Instance? || o.Host? ==> fails)
  {
    var r := Program(inh);
    FailsAtOnceOrBelow(h, r, x);
    match h[x] {
      case Array(elems, props) =>
        if i :| 0 <= i < |elems| && elems[i].Some? && Fails(h, r, elems[i].value) { SomeKid(h, r, x, elems[i].value); }
        if i :| 0 <= i < |props| && props[i].0 !in inh && Fails(h, r, props[i].1) { SomeKid(h, r, x, props[i].1); }
      case Plain(_, _, props) =>
        if i :| 0 <= i < |props| && Fails(h, r, props[i].1) { SomeKid(h, r, x, props[i].1); }
      case MapOb(entries) =>
        if i :| 0 <= i < |entries| && Fails(h, r, entries[i].0) { SomeKid(h, r, x, entries[i].0); }
        if i :| 0 <= i < |entries| && Fails(h, r, entries[i].1) { SomeKid(h, r, x, entries[i].1); }
      case SetOb(members) =>
        if i :| 0 <= i < |members| && Fails(h, r, members[i]) { SomeKid(h, r, x, members[i]); }
      case View(_, buffer, _, _) => if Fails(h, r, Ob(buffer)) { SomeKid(h, r, x, Ob(buffer)); }
      case Instance(_) => SomeRefusal(h, r, x, DataClone);
      case Host(_) => SomeRefusal(h, r, x, DataClone);
      case ErrorOb(name, _, _, cause) =>
        if name in INHERITED { SomeRefusal(h, r, x, NotAConstructor); }
        if cause.Some? && Fails(h, r, cause.value) { SomeKid(h, r, x, cause.value); }
      case _ =>
    }
  }

  /** And when HTML's clone fails. */
  lemma FailsInHtml(h: Heap, x: Ref)
    requires x in h
    ensures var o, fails := h[x], Fails(h, Html, Ob(x));
      && (o.Array? ==> (fails <==>
            (exists i :: 0 <= i < |o.elems| && o.elems[i].Some? && Fails(h, Html, o.elems[i].value))
            || exists i :: 0 <= i < |o.props| && Fails(h, Html, o.props[i].1)))
      && (o.Plain? || o.Instance? ==> (fails <==>
            (o.Plain? && o.slotted) || exists i :: 0 <= i < |o.props| && Fails(h, Html, o.props[i].1)))
      && (o.MapOb? ==> (fails <==>
            exists i :: 0 <= i < |o.entries| && (Fails(h, Html, o.entries[i].0) || Fails(h, Html, o.entries[i].1))))
      && (o.SetOb? ==> (fails <==> exists i :: 0 <= i < |o.members| && Fails(h, Html, o.members[i])))
      && (o.View? ==> (fails <==> Fails(h, Html, Ob(o.buffer))))
      && (o.Leaf? || o.ErrorOb? ==> !fails) && (o.Host? ==> (fails <==> !o.serializable))
  {
    FailsAtOnceOrBelow(h, Html, x);
    match h[x] {
      case Array(elems, props) =>
        if i :| 0 <= i < |elems| && elems[i].Some? && Fails(h, Html, elems[i].value) {
          SomeKid(h, Html, x, elems[i].value);
        }
        if i :| 0 <= i < |props| && Fails(h, Html, props[i].1) { SomeKid(h, Html, x, props[i].1); }
      case Plain(_, slotted, props) =>
        if slotted { SomeRefusal(h, Html, x, DataClone); }
        else if i :| 0 <= i < |props| && Fails(h, Html, props[i].1) { SomeKid(h, Html, x, props[i].1); }
      case Instance(props) =>
        if i :| 0 <= i < |props| && Fails(h, Html, props[i].1) { SomeKid(h, Html, x, props[i].1); }
      case MapOb(entries) =>
        if i :| 0 <= i < |entries| && Fails(h, Html, entries[i].0) { SomeKid(h, Html, x, entries[i].0); }
        if i :| 0 <= i < |entries| && Fails(h, Html, entries[i].1) { SomeKid(h, Html, x, entries[i].1); }
      case SetOb(members) =>
        if i :| 0 <= i < |members| && Fails(h, Html, members[i]) { SomeKid(h, Html, x, members[i]); }
      case View(_, buffer, _, _) => if Fails(h, Html, Ob(buffer)) { SomeKid(h, Html, x, Ob(buffer)); }
      case Host(serializable) => if !serializable { SomeRefusal(h, Html, x, DataClone); }
      case _ =>
    }
  }

  // ----- Against HTML's structured clone, section 2.7.3 -----

  /** A value serialized and deserialized: a primitive is itself, an object is its entry in the memory. */
  predicate Deserialized(v: Value, w: Value, m: Memo) {
    if v.Primitive? then w == v else v.Ob? && v.r in m && w == Ob(m[v.r])
  }

  predicate DeserializedProps(a: Props, b: Props, m: Memo) {
    |a| == |b| && forall i :: 0 <= i < |a| ==> a[i].0 == b[i].0 && Deserialized(a[i].1, b[i].1, m)
  }

  /** HTML's copy of one object: an array keeps its length and all its own properties; an object's
      prototype is Object.prototype; Map entries and Set members keep their order; a built-in keeps its kind
      and content and no properties, a view its kind, offset and length on the copy of its buffer; an
      error's name is one of the seven, its message an own property if it was one, and what else comes
      with it is left open. */
  ghost predicate StandardCopy(o: Object, p: Object, m: Memo) {
    match o
    case Array(elems, props) =>
      && p.Array? && |p.elems| == |elems|
      && (forall i :: 0 <= i < |elems| ==>
            if elems[i].None? then p.elems[i] == None
            else p.elems[i].Some? && Deserialized(elems[i].value, p.elems[i].value, m))
      && DeserializedProps(props, p.props, m)
    case Plain(_, slotted, props) =>
      !slotted && p.Plain? && !p.slotted && p.proto == ObjectProto && DeserializedProps(props, p.props, m)
    case Instance(props) =>
      p.Plain? && !p.slotted && p.proto == ObjectProto && DeserializedProps(props, p.props, m)
    case MapOb(entries) =>
      && p.MapOb? && |p.entries| == |entries|
      && forall i :: 0 <= i < |entries| ==>
           Deserialized(entries[i].0, p.entries[i].0, m) && Deserialized(entries[i].1, p.entries[i].1, m)
    case SetOb(members) =>
      && p.SetOb? && |p.members| == |members|
      && forall i :: 0 <= i < |members| ==> Deserialized(members[i], p.members[i], m)
    case Leaf(kind, payload, _) => p == Leaf(kind, payload, [])
    case View(kind, buffer, offset, length) => buffer in m && p == View(kind, m[buffer], offset, length)
    case ErrorOb(name, message, _, _) =>
      && p.ErrorOb? && p.message == message
      && p.name == if name in {"EvalError", "RangeError", "ReferenceError", "SyntaxError", "TypeError", "URIError"}
                   then name else "Error"
    case Host(_) => false
  }

  /** No hole at the end of an array, no own property of it named like an inherited one; no null
      prototype, no hidden slots; an error of a native name with a message of its own. */
  ghost predicate Ordinary(inh: set<string>, o: Object) {
    match o
    case Array(elems, props) => Kept(elems) == |elems| && forall i :: 0 <= i < |props| ==> props[i].0 !in inh
    case Plain(proto, slotted, _) => proto == ObjectProto && !slotted
    case ErrorOb(name, message, _, _) => name in NATIVE && message.Some?
    case Instance(_) => false
    case Host(_) => false
    case _ => true
  }

  lemma {:induction false} KeptPropsShorter(props: Props, inh: set<string>)
    ensures |KeptProps(props, inh)| <= |props|
    ensures |KeptProps(props, inh)| == |props| <==> forall i :: 0 <= i < |props| ==> props[i].0 !in inh
  {
    if props != [] {
      KeptPropsShorter(props[..|props| - 1], inh);
    }
  }

  /** One copy is HTML's exactly when the original is ordinary. */
  lemma CopyIsStandard(inh: set<string>, o: Object, p: Object, m: Memo)
    requires IsCopy(inh, o, p, m)
    ensures StandardCopy(o, p, m) <==> Ordinary(inh, o)
  {
    SameIsDeserialized(m);
    if o.Array? { ArrayIsStandard(inh, o, p, m); }
  }

  lemma ArrayIsStandard(inh: set<string>, o: Object, p: Object, m: Memo)
    requires IsCopy(inh, o, p, m) && o.Array?
    ensures StandardCopy(o, p, m) <==> Ordinary(inh, o)
  {
    KeptPropsShorter(o.props, inh);
    if Kept(o.elems) == |o.elems| { ElemsAre(o.elems, p.elems, m); }
    if KeptProps(o.props, inh) == o.props { SamePropsAre(o.props, p.props, m); }
    if StandardCopy(o, p, m) { assert |KeptProps(o.props, inh)| == |o.props|; }
  }

  lemma ElemsAre(a: seq<Option<Value>>, b: seq<Option<Value>>, m: Memo)
    requires |a| == |b| && forall i :: 0 <= i < |b| ==> SameOption(a[i], b[i], m)
    ensures forall i :: 0 <= i < |a| ==>
              if a[i].None? then b[i] == None else b[i].Some? && Deserialized(a[i].value, b[i].value, m)
  {
    SameIsDeserialized(m);
  }

  lemma SameIsDeserialized(m: Memo)
    ensures forall v, w :: Same(v, w, m) <==> Deserialized(v, w, m)
  {
  }

  lemma SamePropsAre(a: Props, b: Props, m: Memo)
    ensures SameProps(a, b, m) <==> DeserializedProps(a, b, m)
  {
    SameIsDeserialized(m);
  }

  /** Everything HTML would visit has HTML's copy. */
  ghost predicate StandardClone(input: Heap, v: Value, heap: Heap, m: Memo) {
    forall x :: Reaches(input, Html, v, x) ==> x in m && m[x] in heap && StandardCopy(input[x], heap[m[x]], m)
  }

  lemma StandardKid(inh: set<string>, o: Object, k: Value)
    requires Ordinary(inh, o) && HasKid(Html, o, k)
    ensures HasKid(Program(inh), o, k)
  {
  }

  /** HTML visits nothing else as long as it meets ordinary objects only. */
  lemma {:induction false} StandardVisits(
      input: Heap, inh: set<string>, heap: Heap, m: Memo, v: Value, x: Ref, n: nat)
    requires AllCopied(input, inh, heap, m) && (v.Primitive? || (v.Ob? && v.r in m))
    requires forall y :: Reaches(input, Html, v, y) ==> Ordinary(inh, input[y])
    requires ReachesWithin(input, Html, v, x, n)
    ensures x in m
    decreases n
  {
    if v.r != x {
      assert Copied(inh, input, heap, m, v.r);
      assert ReachesWithin(input, Html, v, v.r, 0);
      var k :| HasKid(Html, input[v.r], k) && ReachesWithin(input, Html, k, x, n - 1);
      StandardKid(inh, input[v.r], k);
      CopyMapsKids(inh, input[v.r], heap[m[v.r]], m, k);
      ReachesThroughKid(input, Html, v.r, k);
      StandardVisits(input, inh, heap, m, k, x, n - 1);
    }
  }

  /** The clone is HTML's exactly when every object HTML would visit is ordinary. */
  lemma CloneIsStandard(input: Heap, inh: set<string>, heap: Heap, m: Memo, v: Value)
    requires AllCopied(input, inh, heap, m) && (v.Primitive? || (v.Ob? && v.r in m))
    ensures StandardClone(input, v, heap, m) <==> forall x :: Reaches(input, Html, v, x) ==> Ordinary(inh, input[x])
  {
    if forall x :: Reaches(input, Html, v, x) ==> Ordinary(inh, input[x]) {
      forall x | Reaches(input, Html, v, x) ensures x in m && m[x] in heap && StandardCopy(input[x], heap[m[x]], m) {
        var n: nat :| ReachesWithin(input, Html, v, x, n);
        StandardVisits(input, inh, heap, m, v, x, n);
        assert Copied(inh, input, heap, m, x);
        CopyIsStandard(inh, input[x], heap[m[x]], m);
      }
    }
    if StandardClone(input, v, heap, m) {
      forall x | Reaches(input, Html, v, x) ensures Ordinary(inh, input[x]) {
        assert Copied(inh, input, heap, m, x);
        CopyIsStandard(inh, input[x], heap[m[x]], m);
      }
    }
  }

  /** What the program refuses and HTML does not: an ordinary object with a prototype of its own, a
      platform object HTML can serialize, an error named like a member of Object.prototype, an error
      whose cause fails. */
  ghost predicate RefusedHere(h: Heap, inh: set<string>, o: Object) {
    || o.Instance? || (o.Host? && o.serializable)
    || (o.ErrorOb? && (o.name in INHERITED || (o.cause.Some? && Fails(h, Program(inh), o.cause.value))))
  }

  /** Where HTML's clone succeeds, this one fails exactly when it visits such an object. */
  lemma FailsAlone(h: Heap, inh: set<string>, v: Value)
    requires !Fails(h, Html, v)
    ensures Fails(h, Program(inh), v) <==>
              exists x :: Reaches(h, Program(inh), v, x) && RefusedHere(h, inh, h[x])
  {
    if Fails(h, Program(inh), v) {
      var f :| Bad(h, Program(inh), v, f);
      var n: nat :| BadWithin(h, Program(inh), v, f, n);
      var x := FindRefused(h, inh, v, f, n);
    }
    if x :| Reaches(h, Program(inh), v, x) && RefusedHere(h, inh, h[x]) {
      var n: nat :| ReachesWithin(h, Program(inh), v, x, n);
      RefusedFails(h, inh, v, x, n);
    }
  }

  lemma {:induction false} FindRefused(h: Heap, inh: set<string>, v: Value, f: Failure, n: nat) returns (x: Ref)
    requires !Fails(h, Html, v) && BadWithin(h, Program(inh), v, f, n)
    ensures Reaches(h, Program(inh), v, x) && RefusedHere(h, inh, h[x])
    decreases n
  {
    x := if v.Ob? then v.r else 0;
    ValuesFailAlike(h, Program(inh), Html, v, f, n);
    if v.Ob? {
      assert ReachesWithin(h, Program(inh), v, x, 0);
      HereToo(h, inh, x, f);
      if !Refuses(Program(inh), h[x], f) {
        var k :| HasKid(Program(inh), h[x], k) && BadWithin(h, Program(inh), k, f, n - 1);
        assert Bad(h, Program(inh), k, f);
        if !h[x].ErrorOb? {
          KidSucceeds(h, Html, x, k);
          var y := FindRefused(h, inh, k, f, n - 1);
          ReachesThroughKid(h, Program(inh), x, k);
          return y;
        }
      }
    }
  }

  lemma ValuesFailAlike(h: Heap, a: Rules, b: Rules, v: Value, f: Failure, n: nat)
    requires BadWithin(h, a, v, f, n)
    ensures !v.Ob? ==> Fails(h, b, v)
  {
    if !v.Ob? {
      assert BadWithin(h, b, v, f, 0);
      assert Bad(h, b, v, f);
    }
  }

  /** Where HTML succeeds, an object the program refuses is one of those HTML does not. */
  lemma HereToo(h: Heap, inh: set<string>, x: Ref, f: Failure)
    requires x in h && !Fails(h, Html, Ob(x))
    ensures !(h[x].Plain? && h[x].slotted)
    ensures Refuses(Program(inh), h[x], f) ==> RefusedHere(h, inh, h[x])
  {
    var refused := BadWithin(h, Html, Ob(x), DataClone, 0);
    assert refused ==> Bad(h, Html, Ob(x), DataClone);
  }

  lemma KidSucceeds(h: Heap, rules: Rules, x: Ref, k: Value)
    requires x in h && HasKid(rules, h[x], k) && !Fails(h, rules, Ob(x))
    ensures !Fails(h, rules, k)
  {
    if f :| Bad(h, rules, k, f) { BadThroughKid(h, rules, x, k, f); }
  }

  lemma {:induction false} RefusedFails(h: Heap, inh: set<string>, v: Value, x: Ref, n: nat)
    requires ReachesWithin(h, Program(inh), v, x, n) && RefusedHere(h, inh, h[x])
    ensures Fails(h, Program(inh), v)
    decreases n
  {
    if v.r == x {
      var o := h[x];
      if o.ErrorOb? && o.name !in INHERITED {
        var f :| Bad(h, Program(inh), o.cause.value, f);
        BadThroughKid(h, Program(inh), x, o.cause.value, f);
      } else {
        var f := if o.ErrorOb? then NotAConstructor else DataClone;
        assert BadWithin(h, Program(inh), v, f, 0);
        assert Bad(h, Program(inh), v, f);
      }
    } else {
      var k :| HasKid(Program(inh), h[v.r], k) && ReachesWithin(h, Program(inh), k, x, n - 1);
      RefusedFails(h, inh, k, x, n - 1);
      var f :| Bad(h, Program(inh), k, f);
      BadThroughKid(h, Program(inh), v.r, k, f);
    }
  }

  /** What HTML refuses and the program does not: an object with hidden slots under Object.prototype, an
      array whose passed-over property fails. */
  ghost predicate AcceptedHere(h: Heap, inh: set<string>, o: Object) {
    || (o.Plain? && o.slotted)
    || (o.Array? && exists i :: 0 <= i < |o.props| && o.props[i].0 in inh && Fails(h, Html, o.props[i].1))
  }

  /** Where this clone succeeds, HTML's fails exactly when HTML's visits such an object. */
  lemma SucceedsAlone(h: Heap, inh: set<string>, v: Value)
    requires !Fails(h, Program(inh), v)
    ensures Fails(h, Html, v) <==> exists x :: Reaches(h, Html, v, x) && AcceptedHere(h, inh, h[x])
  {
    if Fails(h, Html, v) {
      var f :| Bad(h, Html, v, f);
      var n: nat :| BadWithin(h, Html, v, f, n);
      var x := FindAccepted(h, inh, v, f, n);
    }
    if x :| Reaches(h, Html, v, x) && AcceptedHere(h, inh, h[x]) {
      var n: nat :| ReachesWithin(h, Html, v, x, n);
      AcceptedFails(h, inh, v, x, n);
    }
  }

  lemma {:induction false} FindAccepted(h: Heap, inh: set<string>, v: Value, f: Failure, n: nat) returns (x: Ref)
    requires !Fails(h, Program(inh), v) && BadWithin(h, Html, v, f, n)
    ensures Reaches(h, Html, v, x) && AcceptedHere(h, inh, h[x])
    decreases n
  {
    x := if v.Ob? then v.r else 0;
    ValuesFailAlike(h, Html, Program(inh), v, f, n);
    if v.Ob? {
      assert ReachesWithin(h, Html, v, x, 0);
      NotRefused(h, inh, x);
      if !Refuses(Html, h[x], f) {
        var k :| HasKid(Html, h[x], k) && BadWithin(h, Html, k, f, n - 1);
        assert Bad(h, Html, k, f);
        if HasKid(Program(inh), h[x], k) {
          KidSucceeds(h, Program(inh), x, k);
          var y := FindAccepted(h, inh, k, f, n - 1);
          ReachesThroughKid(h, Html, x, k);
          return y;
        }
      }
    }
  }

  lemma NotRefused(h: Heap, inh: set<string>, x: Ref)
    requires x in h && !Fails(h, Program(inh), Ob(x))
    ensures !h[x].Host? && !h[x].Instance?
  {
    var refused := BadWithin(h, Program(inh), Ob(x), DataClone, 0);
    assert refused ==> Bad(h, Program(inh), Ob(x), DataClone);
  }

  lemma {:induction false} AcceptedFails(h: Heap, inh: set<string>, v: Value, x: Ref, n: nat)
    requires ReachesWithin(h, Html, v, x, n) && AcceptedHere(h, inh, h[x])
    ensures Fails(h, Html, v)
    decreases n
  {
    if v.r == x {
      if h[x].Plain? {
        assert BadWithin(h, Html, v, DataClone, 0);
        assert Bad(h, Html, v, DataClone);
      } else {
        var i :| 0 <= i < |h[x].props| && h[x].props[i].0 in inh && Fails(h, Html, h[x].props[i].1);
        var f :| Bad(h, Html, h[x].props[i].1, f);
        assert HasKid(Html, h[x], h[x].props[i].1);
        BadThroughKid(h, Html, x, h[x].props[i].1, f);
      }
    } else {
      var k :| HasKid(Html, h[v.r], k) && ReachesWithin(h, Html, k, x, n - 1);
      AcceptedFails(h, inh, k, x, n - 1);
      var f :| Bad(h, Html, k, f);
      BadThroughKid(h, Html, v.r, k, f);
    }
  }

  // ----- One input for each difference -----

  lemma AloneAndFine(h: Heap, rules: Rules, x: Ref)
    requires x in h && forall k :: HasKid(rules, h[x], k) ==> k.Primitive?
    ensures forall f :: !Refuses(rules, h[x], f) ==> !Bad(h, rules, Ob(x), f)
  {
    forall f, n: nat | !Refuses(rules, h[x], f) ensures !BadWithin(h, rules, Ob(x), f, n) {
      if n > 0 { assert forall k: Value :: k.Primitive? ==> !BadWithin(h, rules, k, f, n - 1); }
    }
  }

  lemma FailsAtOnce(h: Heap, rules: Rules, x: Ref, f: Failure)
    requires x in h && Refuses(rules, h[x], f)
    ensures Bad(h, rules, Ob(x), f)
  {
    assert BadWithin(h, rules, Ob(x), f, 0);
  }

  /** `a = []; a.map = () => {}`: HTML refuses to clone it, the program clones it to `[]`. */
  lemma InheritedNameSlipsThrough()
    ensures var h := map[0 := Array([], [("map", Function)])];
            WellFormed(h) && Fails(h, Html, Ob(0)) && !Fails(h, Program({"map"}), Ob(0))
  {
    var h := map[0 := Array([], [("map", Function)])];
    assert h[0].props[0].1 == Function;
    assert HasKid(Html, h[0], Function) && BadWithin(h, Html, Function, DataClone, 0);
    assert Bad(h, Html, Function, DataClone);
    BadThroughKid(h, Html, 0, Function, DataClone);
    AloneAndFine(h, Program({"map"}), 0);
  }

  /** An arguments object: HTML refuses it, the program clones it as a plain object. */
  lemma HiddenSlotsSlipThrough()
    ensures var h := map[0 := Plain(ObjectProto, true, [])];
            WellFormed(h) && Fails(h, Html, Ob(0)) && !Fails(h, Program({}), Ob(0))
  {
    var h := map[0 := Plain(ObjectProto, true, [])];
    FailsAtOnce(h, Html, 0, DataClone);
    AloneAndFine(h, Program({}), 0);
  }

  /** `new (class A {})` and `new Blob`: HTML clones both, the program neither. */
  lemma InstanceIsRefused()
    ensures var h := map[0 := Instance([]), 1 := Host(true)];
            WellFormed(h) && forall x :: x in h ==> Fails(h, Program({}), Ob(x)) && !Fails(h, Html, Ob(x))
  {
    var h := map[0 := Instance([]), 1 := Host(true)];
    FailsAtOnce(h, Program({}), 0, DataClone);
    FailsAtOnce(h, Program({}), 1, DataClone);
    AloneAndFine(h, Html, 0);
    AloneAndFine(h, Html, 1);
  }

  /** `new Error("", { cause: () => {} })`: HTML does not look at the cause. */
  lemma CauseIsVisited()
    ensures var h := map[0 := ErrorOb("Error", Some(""), None, Some(Function))];
            WellFormed(h) && Fails(h, Program({}), Ob(0)) && !Fails(h, Html, Ob(0))
  {
    var h := map[0 := ErrorOb("Error", Some(""), None, Some(Function))];
    assert HasKid(Program({}), h[0], Function) && BadWithin(h, Program({}), Function, DataClone, 0);
    assert Bad(h, Program({}), Function, DataClone);
    BadThroughKid(h, Program({}), 0, Function, DataClone);
    AloneAndFine(h, Html, 0);
  }

  /** An error named `toString`: nothing uncloneable is visited, and the clone throws a TypeError. */
  lemma InheritedErrorNameThrows()
    ensures var h := map[0 := ErrorOb("toString", Some(""), None, None)];
            && WellFormed(h) && Bad(h, Program({}), Ob(0), NotAConstructor)
            && !Bad(h, Program({}), Ob(0), DataClone) && !Fails(h, Html, Ob(0))
  {
    var h := map[0 := ErrorOb("toString", Some(""), None, None)];
    FailsAtOnce(h, Program({}), 0, NotAConstructor);
    AloneAndFine(h, Program({}), 0);
    AloneAndFine(h, Html, 0);
  }

  /** An error named `constructor`: its copy is a String object. */
  lemma ConstructorErrorBecomesString(p: Object)
    requires IsCopy({}, ErrorOb("constructor", Some("boom"), None, None), p, map[])
    ensures p == Leaf("String", "boom", []) && !StandardCopy(ErrorOb("constructor", Some("boom"), None, None), p, map[])
  {
  }

  /** `[,]` has length one, its clone length zero. */
  lemma TrailingHoleIsLost(p: Object)
    requires IsCopy({}, Array([None], []), p, map[])
    ensures p == Array([], []) && !StandardCopy(Array([None], []), p, map[])
  {
    assert p.elems == [] && p.props == [];
  }

  /** `Object.create(null)`: HTML's copy has Object.prototype, this one none. */
  lemma NullPrototypeIsKept(p: Object)
    requires IsCopy({}, Plain(NullProto, false, []), p, map[])
    ensures p == Plain(NullProto, false, []) && !StandardCopy(Plain(NullProto, false, []), p, map[])
  {
  }

  /** An error of a name of its own keeps it, where HTML's copy is named `Error`; and one without a
      message gets an empty one. */
  lemma ErrorNameIsKept(p: Object, q: Object)
    requires IsCopy({}, ErrorOb("MyError", Some(""), None, None), p, map[])
    requires IsCopy({}, ErrorOb("Error", None, None, None), q, map[])
    ensures p.ErrorOb? && p.name == "MyError" && !StandardCopy(ErrorOb("MyError", Some(""), None, None), p, map[])
    ensures q.ErrorOb? && q.message == Some("") && !StandardCopy(ErrorOb("Error", None, None, None), q, map[])
  {
  }
}
