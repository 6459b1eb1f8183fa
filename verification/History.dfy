/**
  * The session history keeps at most fifty entries; what it shows is a window on the history
  * that would have kept them all.
  */
module History {
  import opened Common

  const MAX_HISTORY_ENTRIES: nat := 50

  datatype Entry = Entry(url: string, state: Option<string>, documentSeq: nat)

  /** A list of entries and a place in it. */
  datatype Timeline = Timeline(entries: seq<Entry>, index: nat) {
    ghost predicate Valid() {
      index < |entries|
    }

    /** HTML's history: what was ahead is dropped, the new entry is appended and current. */
    function Pushed(e: Entry): Timeline
      requires index < |entries|
    {
      Timeline(entries[..index + 1] + [e], index + 1)
    }

    function WithEntry(at: nat, e: Entry): Timeline
      requires at < |entries|
    {
      Timeline(entries[at := e], index)
    }

    /** The index `delta` steps away, if there is an entry there. */
    function Target(delta: int): Option<nat> {
      if 0 <= index + delta < |entries| then Some(index + delta) else None
    }
  }

  function SaturatingSub(a: nat, b: nat): nat {
    if a >= b then a - b else 0
  }

  /** `b` shows the end of `u`: the same entries but for the first `evicted`, the same place. */
  ghost predicate Window(b: Timeline, u: Timeline, evicted: nat) {
    && b.Valid() && u.Valid() && |b.entries| <= 50
    && evicted + |b.entries| == |u.entries| && b.entries == u.entries[evicted..]
    && u.index == b.index + evicted
  }

  /** A step exists in the window exactly when it exists in the whole history at an entry not evicted. */
  lemma TargetShifted(b: Timeline, u: Timeline, evicted: nat, delta: int)
    requires Window(b, u, evicted)
    ensures match b.Target(delta)
            case Some(i) => u.Target(delta) == Some(i + evicted) && b.entries[i] == u.entries[i + evicted]
            case None => u.Target(delta).None? || u.Target(delta).value < evicted
  {
  }

  lemma PushWindow(b: Timeline, u: Timeline, evicted: nat, e: Entry)
    requires Window(b, u, evicted)
    ensures var longer := b.Pushed(e);
            var drop := if |longer.entries| > MAX_HISTORY_ENTRIES then |longer.entries| - MAX_HISTORY_ENTRIES else 0;
            drop <= longer.index && Window(Timeline(longer.entries[drop..], longer.index - drop), u.Pushed(e),
                evicted + drop)
  {
    assert b.entries[..b.index + 1] == u.entries[evicted..][..b.index + 1] == u.entries[evicted..u.index + 1];
    assert b.Pushed(e).entries == u.Pushed(e).entries[evicted..];
  }

  datatype Operation =
    | Push(entry: Entry)
    | Replace(entry: Entry)
    /** A same-document traversal, or one that loads a document and stamps the entry with it. */
    | Traverse(delta: int, stamp: Option<(string, nat)>)

  class SessionHistory {
    var entries: seq<Entry>
    var index: nat
    /** The history that keeps everything. */
    ghost var whole: Timeline
    ghost var evicted: nat

    ghost function View(): Timeline
      reads this
    {
      Timeline(entries, index)
    }

    ghost predicate Valid()
      reads this
    {
      Window(View(), whole, evicted)
    }

    constructor (url: string)
      ensures Valid() && whole == Timeline([Entry(url, None, 0)], 0)
    {
      entries, index := [Entry(url, None, 0)], 0;
      whole, evicted := Timeline([Entry(url, None, 0)], 0), 0;
    }

    /** `target_of`. */
    method TargetOf(delta: int) returns (target: Option<nat>)
      requires Valid()
      ensures target.Some? <==> evicted <= whole.index + delta < |whole.entries|
      ensures target.Some? ==> target.value < |entries| && target.value + evicted == whole.index + delta
      ensures target.Some? ==> entries[target.value] == whole.entries[whole.index + delta]
    {
      TargetShifted(View(), whole, evicted, delta);
      var at := index + delta;
      if at < 0 { return None; }
      return if at < |entries| then Some(at) else None;
    }

    method SetIndex(at: nat)
      requires Valid()
      modifies this
      ensures Valid() && evicted == old(evicted)
      ensures whole.entries == old(whole.entries)
      ensures whole.index == if at < |old(entries)| then at + evicted else old(whole.index)
    {
      if at < |entries| {
        index := at;
        whole := whole.(index := at + evicted);
      }
    }

    /** Whatever was ahead is gone, and one step back leads to where the page was. */
    method Push(url: string, state: Option<string>, documentSeq: nat)
      requires Valid()
      modifies this
      ensures Valid() && whole.index == old(whole.index) + 1
      ensures whole.entries == old(whole.entries[..whole.index + 1]) + [Entry(url, state, documentSeq)]
      ensures evicted == EvictedStep(old(whole), Operation.Push(Entry(url, state, documentSeq)), old(evicted))
      ensures evicted > old(evicted) ==> |entries| == 50
      ensures index == |entries| - 1 > 0 && entries[index] == Entry(url, state, documentSeq)
      ensures entries[index - 1] == old(entries[index])
    {
      var e := Entry(url, state, documentSeq);
      PushWindow(View(), whole, evicted, e);
      whole := whole.Pushed(e);
      entries := entries[..index + 1] + [e];
      index := |entries| - 1;
      Trim();
    }

    method Trim()
      requires |entries| > 0 && index == |entries| - 1
      modifies this`entries, this`index, this`evicted
      ensures var drop := if |old(entries)| > MAX_HISTORY_ENTRIES then |old(entries)| - MAX_HISTORY_ENTRIES else 0;
              entries == old(entries)[drop..] && index == old(index) - drop && evicted == old(evicted) + drop
    {
      if |entries| > MAX_HISTORY_ENTRIES {
        var drop := |entries| - MAX_HISTORY_ENTRIES;
        entries := entries[drop..];
        index := SaturatingSub(index, drop);
        evicted := evicted + drop;
      }
    }

    method Replace(url: string, state: Option<string>, documentSeq: nat)
      requires Valid()
      modifies this
      ensures Valid() && evicted == old(evicted)
      ensures whole.index == old(whole.index)
      ensures whole.entries == old(whole.entries[whole.index := Entry(url, state, documentSeq)])
    {
      entries := entries[index := Entry(url, state, documentSeq)];
      whole := whole.WithEntry(whole.index, Entry(url, state, documentSeq));
    }

    /** A new document for an entry, whose state stays. */
    method Restamp(at: nat, url: string, documentSeq: nat)
      requires Valid()
      modifies this
      ensures Valid() && evicted == old(evicted)
      ensures whole.index == old(whole.index)
      ensures whole.entries == if at < |old(entries)|
                               then old(whole.entries[at + evicted := Entry(url, entries[at].state, documentSeq)])
                               else old(whole.entries)
    {
      if at < |entries| {
        whole := whole.WithEntry(at + evicted, Entry(url, entries[at].state, documentSeq));
        entries := entries[at := entries[at].(url := url, documentSeq := documentSeq)];
      }
    }

    method Apply(operation: Operation)
      requires Valid()
      modifies this
      ensures Valid() && whole == After(old(whole), operation, old(evicted))
      ensures evicted == EvictedStep(old(whole), operation, old(evicted))
    {
      match operation {
        case Push(e) => Push(e.url, e.state, e.documentSeq);
        case Replace(e) => Replace(e.url, e.state, e.documentSeq);
        case Traverse(delta, stamp) =>
          var target := TargetOf(delta);
          match target {
            case None =>
            case Some(at) =>
              SetIndex(at);
              match stamp {
                case None =>
                case Some(s) => Restamp(at, s.0, s.1);
              }
          }
      }
    }

    /** The entries kept are the end of a history that refuses the steps to what is evicted by then;
        it is the history in which nothing is ever evicted as long as no step is refused. */
    method Run(operations: seq<Operation>)
      requires Valid()
      modifies this
      ensures Valid() && Bounded(old(whole), old(evicted), operations) == (whole, evicted)
      ensures NeverRefused(old(whole), old(evicted), operations) ==> whole == AfterAll(old(whole), operations)
    {
      var i := 0;
      ghost var u, m := whole, evicted;
      AllOf(operations);
      while i < |operations|
        invariant 0 <= i <= |operations| && Valid()
        invariant Bounded(u, m, operations[..i]) == (whole, evicted)
      {
        Apply(operations[i]);
        assert operations[..i + 1][..i] == operations[..i];
        i := i + 1;
      }
      AgreesUnlessRefused(u, m, operations);
    }
  }

  /** One operation on a whole history whose first `evicted` entries are out of reach. */
  ghost function After(u: Timeline, operation: Operation, evicted: nat): (v: Timeline)
    requires u.Valid()
    ensures v.Valid()
  {
    match operation
    case Push(e) => u.Pushed(e)
    case Replace(e) => u.WithEntry(u.index, e)
    case Traverse(delta, stamp) =>
      match u.Target(delta)
      case None => u
      case Some(at) =>
        if at < evicted then u
        else
          var moved := u.(index := at);
          match stamp
          case None => moved
          case Some(s) => moved.WithEntry(at, Entry(s.0, u.entries[at].state, s.1))
  }

  /** The history in which nothing is ever evicted. */
  ghost function AfterAll(u: Timeline, operations: seq<Operation>): (v: Timeline)
    requires u.Valid()
    ensures v.Valid()
  {
    if operations == [] then u
    else After(AfterAll(u, operations[..|operations| - 1]), operations[|operations| - 1], 0)
  }

  /** A push keeps the last fifty entries. */
  ghost function EvictedStep(u: Timeline, operation: Operation, evicted: nat): nat {
    if operation.Push? && u.index + 2 > evicted + 50
    then u.index + 2 - 50
    else evicted
  }

  /** The history that refuses steps to what is evicted, and how much of it that is by now. */
  ghost function Bounded(u: Timeline, evicted: nat, operations: seq<Operation>): (r: (Timeline, nat))
    requires u.Valid() && evicted <= u.index
    ensures r.0.Valid() && r.1 <= r.0.index
  {
    if operations == [] then (u, evicted)
    else
      var before := Bounded(u, evicted, operations[..|operations| - 1]);
      var last := operations[|operations| - 1];
      (After(before.0, last, before.1), EvictedStep(before.0, last, before.1))
  }

  /** The operation is a step to an entry that exists in the whole history and is evicted. */
  ghost predicate Refused(u: Timeline, evicted: nat, operation: Operation) {
    match operation
    case Traverse(delta, _) => u.Target(delta).Some? && u.Target(delta).value < evicted
    case _ => false
  }

  /** No step is refused, each held against what is evicted when it is asked for. */
  ghost predicate NeverRefused(u: Timeline, evicted: nat, operations: seq<Operation>)
    requires u.Valid() && evicted <= u.index
  {
    operations == [] ||
    (var before := operations[..|operations| - 1];
     var r := Bounded(u, evicted, before);
     NeverRefused(u, evicted, before) && !Refused(r.0, r.1, operations[|operations| - 1]))
  }

  /** After each of the operations the two histories are equal. */
  ghost predicate Agrees(u: Timeline, evicted: nat, operations: seq<Operation>)
    requires u.Valid() && evicted <= u.index
  {
    && (operations == [] || Agrees(u, evicted, operations[..|operations| - 1]))
    && Bounded(u, evicted, operations).0 == AfterAll(u, operations)
  }

  /** The bound shows exactly when it refuses a step. */
  lemma {:induction false} AgreesUnlessRefused(u: Timeline, evicted: nat, operations: seq<Operation>)
    requires u.Valid() && evicted <= u.index
    ensures Agrees(u, evicted, operations) <==> NeverRefused(u, evicted, operations)
    ensures Agrees(u, evicted, operations) ==> Bounded(u, evicted, operations).0 == AfterAll(u, operations)
  {
    if operations != [] {
      AgreesUnlessRefused(u, evicted, operations[..|operations| - 1]);
    }
  }

  /** After `n` pushes. */
  lemma {:induction false} Pushes(u: Timeline, e: Entry, n: nat)
    requires u == Timeline([e], 0)
    ensures var ops := seq(n, _ => Push(e));
            var (v, evicted) := Bounded(u, 0, ops);
            && v == AfterAll(u, ops) && |v.entries| == n + 1 && v.index == n
            && evicted == if n < 50 then 0 else n + 1 - 50
  {
    if n > 0 {
      Pushes(u, e, n - 1);
      assert seq(n, _ => Push(e))[..n - 1] == seq(n - 1, _ => Push(e));
    }
  }

  /** Fifty pushes, and back to the first entry: it is gone, and the step goes nowhere. */
  lemma FirstEntryIsGone(u: Timeline, e: Entry, ops: seq<Operation>)
    requires u == Timeline([e], 0) && ops == seq(50, _ => Push(e)) + [Traverse(-50, None)]
    ensures !NeverRefused(u, 0, ops)
    ensures Bounded(u, 0, ops).0.index == 50 && AfterAll(u, ops).index == 0
  {
    Pushes(u, e, 50);
    assert ops[..50] == seq(50, _ => Push(e)) && ops[50] == Traverse(-50, None);
  }

  lemma AllOf<T>(s: seq<T>)
    ensures s[..|s|] == s
  {
  }
}
