/**
  * The window's properties for frame names, frame indices and element ids: kept by difference,
  * behind two early exits, and yet always the table built from nothing by the rule of HTML section
  * 7.2.2.3 for these names. That section also names embed, form, img and object elements by their
  * `name` attribute; the program does not.
  */
module NamedProperties {
  import opened Common

  type Frame = nat
  type Node = nat
  type Document = nat

  datatype Child = Child(frame: Frame, name: string)

  datatype Accessor = FrameOf(frame: Frame) | ElementWithId(id: string)

  type Table = map<string, Accessor>

  // ----- The table from scratch -----

  /** The names children answer to; a nameless child has none. */
  function Names(children: seq<Child>): set<string> {
    set c | c in children && c.name != "" :: c.name
  }

  ghost predicate FirstAt(children: seq<Child>, name: string, i: nat) {
    i < |children| && children[i].name == name && forall j :: 0 <= j < i ==> children[j].name != name
  }

  /** The first child of a name. */
  function FirstNamed(children: seq<Child>, name: string): (f: Frame)
    requires name in Names(children)
    ensures exists i: nat :: FirstAt(children, name, i) && children[i].frame == f
  {
    if children[0].name == name then
      assert FirstAt(children, name, 0);
      children[0].frame
    else
      var f := FirstNamed(children[1..], name);
      assert exists i: nat :: FirstAt(children, name, i) && children[i].frame == f by {
        var i: nat :| FirstAt(children[1..], name, i) && children[1..][i].frame == f;
        assert forall j :: 0 < j < i + 1 ==> children[j] == children[1..][j - 1];
        assert FirstAt(children, name, i + 1);
      }
      f
  }

  function FromScratch(children: seq<Child>, ids: set<string>): Table {
    map name | name in Names(children) + ids && name != "" ::
      if name in Names(children) then FrameOf(FirstNamed(children, name)) else ElementWithId(name)
  }

  function Indices(children: seq<Child>): map<nat, Frame> {
    map i: nat | i < |children| :: children[i].frame
  }

  // ----- The document's id index -----

  type Index = map<string, seq<Node>>

  function DocumentOf(documents: map<Node, Document>, n: Node): Document {
    if n in documents then documents[n] else 0
  }

  /** `id_names_in`. */
  function IdNames(ids: Index, documents: map<Node, Document>, doc: Document): set<string> {
    set name | name in ids && exists n :: n in ids[name] && DocumentOf(documents, n) == doc
  }

  /** The ids that get an accessor: neither empty nor outranked by a child of the name. */
  function Wanted(ids: set<string>, children: seq<Child>): set<string> {
    ids - {""} - Names(children)
  }

  datatype Change =
    | ChildrenChange(children: seq<Child>)
    | IdAppears(id: string, node: Node)
    | IdLeaves(id: string, node: Node)
    | Adoption(node: Node, doc: Document)
    | HostCall

  class Window {
    const document: Document

    // What the page changes.
    var children: seq<Child>
    var ids: Index
    var documents: map<Node, Document>
    var idVersion: nat

    // What is kept in step.
    var table: Table
    var indexed: map<nat, Frame>
    var frameProps: seq<Child>
    var keys: set<string>
    var version: Option<nat>

    ghost function Ids(): set<string>
      reads this
    {
      IdNames(ids, documents, document)
    }

    ghost predicate Valid()
      reads this
    {
      && table == FromScratch(frameProps, keys)
      && indexed == Indices(frameProps)
      && keys !! Names(frameProps) && "" !in keys
      && (version.Some? ==> version.value <= idVersion)
      && (version == Some(idVersion) ==> keys == Wanted(Ids(), frameProps))
    }

    /** Everything is as it would be if built now. */
    ghost predicate InStep()
      reads this
    {
      table == FromScratch(children, Ids()) && indexed == Indices(children)
    }

    /** `install_named_properties`, over a document that may already have ids and frames. */
    constructor (document: Document, children: seq<Child>, ids: Index, documents: map<Node, Document>, idVersion: nat)
      ensures Valid() && InStep()
    {
      this.document, this.children, this.ids, this.documents, this.idVersion := document, children, ids, documents,
          idVersion;
      table, indexed, frameProps, keys, version := map[], map[], [], {}, None;
      new;
      SyncNamedProperties();
    }

    /** `index_add`. */
    method IndexAdd(id: string, node: Node)
      requires Valid()
      modifies this`ids, this`idVersion
      ensures Valid()
      ensures id in ids && ids == old(ids)[id := ids[id]]
      ensures ids[id] == var slot := if id in old(ids) then old(ids)[id] else [];
                         if node in slot then slot else slot + [node]
      ensures idVersion == old(idVersion) <==> ids == old(ids)
    {
      var slot := if id in ids then ids[id] else [];
      if node !in slot {
        ids := ids[id := slot + [node]];
        idVersion := idVersion + 1;
      }
    }

    /** `index_remove`. */
    method IndexRemove(id: string, node: Node)
      requires Valid()
      modifies this`ids, this`idVersion
      ensures Valid()
      ensures idVersion == old(idVersion) <==> ids == old(ids)
      ensures id in old(ids) && node in old(ids)[id] <==> ids != old(ids)
      ensures ids - {id} == old(ids) - {id}
      ensures ids != old(ids) ==> multiset(if id in ids then ids[id] else []) == multiset(old(ids)[id]) - multiset{node}
    {
      if id !in ids || node !in ids[id] { return; }
      var slot := ids[id];
      var pos :| 0 <= pos < |slot| && slot[pos] == node;
      SwapRemove(slot, pos);
      slot := slot[pos := slot[|slot| - 1]][..|slot| - 1];
      ids := if slot == [] then ids - {id} else ids[id := slot];
      idVersion := idVersion + 1;
    }

    /** A node that is in no index may change documents. */
    method Adopt(node: Node, doc: Document)
      requires Valid()
      requires forall id :: id in ids ==> node !in ids[id]
      modifies this`documents
      ensures Valid() && documents == old(documents)[node := doc]
    {
      documents := documents[node := doc];
      assert forall id, n :: id in ids && n in ids[id] ==> DocumentOf(documents, n) == DocumentOf(old(documents), n);
      assert Ids() == old(Ids());
    }

    method SyncNamedProperties()
      requires Valid()
      modifies this`table, this`indexed, this`frameProps, this`keys, this`version
      ensures Valid() && InStep() && version == Some(idVersion)
    {
      SyncFrameProperties();
      if version == Some(idVersion) {
        WantedSuffice(frameProps, Ids());
        return;
      }
      var wanted := Wanted(IdNames(ids, documents, document), frameProps);
      DefineIds(wanted - keys);
      assert keys + (wanted - keys) == wanted + (keys - wanted);
      DeleteIds(wanted, keys - wanted);
      keys := wanted;
      version := Some(idVersion);
      WantedSuffice(frameProps, Ids());
    }

    method DefineIds(added: set<string>)
      requires table == FromScratch(frameProps, keys) && added !! Names(frameProps) && "" !in added && added !! keys
      modifies this`table
      ensures table == FromScratch(frameProps, keys + added)
    {
      var left := added;
      assert keys + (added - left) == keys;
      while left != {}
        invariant left <= added && table == FromScratch(frameProps, keys + (added - left))
        decreases |left|
      {
        var name :| name in left;
        WithId(frameProps, keys + (added - left), name);
        assert keys + (added - (left - {name})) == keys + (added - left) + {name};
        table := table[name := ElementWithId(name)];
        left := left - {name};
      }
      assert keys + (added - left) == keys + added;
    }

    method DeleteIds(wanted: set<string>, removed: set<string>)
      requires table == FromScratch(frameProps, wanted + removed) && removed !! Names(frameProps) && removed !! wanted
      modifies this`table
      ensures table == FromScratch(frameProps, wanted)
    {
      var left := removed;
      while left != {}
        invariant left <= removed && table == FromScratch(frameProps, wanted + left)
        decreases |left|
      {
        var name :| name in left;
        WithoutId(frameProps, wanted + left, name);
        assert wanted + (left - {name}) == wanted + left - {name};
        table := table - {name};
        left := left - {name};
      }
      assert wanted + left == wanted;
    }

    method SyncFrameProperties()
      requires Valid()
      modifies this`table, this`indexed, this`frameProps, this`keys, this`version
      ensures Valid() && frameProps == children && (version == old(version) || version == None)
    {
      if frameProps == children { return; }
      ghost var keys0 := keys;
      var previous := frameProps;
      frameProps := children;
      SyncIndices(previous);
      var left := DeleteGone(previous);
      var taken := DefineNames();
      if left || taken { version := None; }
      FramesInStep(previous, children, keys0);
      if !left && !taken { WantedUnchanged(previous, children, Ids(), keys0); }
    }

    method SyncIndices(previous: seq<Child>)
      requires indexed == Indices(previous)
      modifies this`indexed
      ensures indexed == Indices(children)
    {
      var i := |children|;
      while i < |previous|
        invariant forall k :: k in indexed <==> 0 <= k < |previous| && !(|children| <= k < i)
        invariant forall k :: k in indexed ==> indexed[k] == previous[k].frame
      {
        indexed := indexed - {i};
        i := i + 1;
      }
      i := 0;
      while i < |children|
        invariant 0 <= i <= |children|
        invariant forall k :: k in indexed ==> k < |children|
        invariant forall k :: 0 <= k < i ==> k in indexed && indexed[k] == children[k].frame
      {
        indexed := indexed[i := children[i].frame];
        i := i + 1;
      }
    }

    /** Drops the names no child has any more. */
    method DeleteGone(previous: seq<Child>) returns (stale: bool)
      modifies this`table
      ensures table == old(table) - (Names(previous) - Names(children))
      ensures stale <==> Names(previous) - Names(children) != {}
    {
      stale := false;
      var i := 0;
      while i < |previous|
        invariant 0 <= i <= |previous|
        invariant table == old(table) - (Names(previous[..i]) - Names(children))
        invariant stale <==> Names(previous[..i]) - Names(children) != {}
      {
        var name := previous[i].name;
        NamesExtend(previous, i);
        if name != "" && !exists c :: c in children && c.name == name {
          table := table - {name};
          stale := true;
          assert name in Names(previous[..i + 1]) - Names(children);
        } else {
          assert Names(previous[..i + 1]) - Names(children) == Names(previous[..i]) - Names(children);
        }
        i := i + 1;
      }
      assert previous[..i] == previous;
    }

    /** Gives each name to the first child that has it, and takes it from the ids. */
    method DefineNames() returns (stale: bool)
      modifies this`table, this`keys
      ensures table == Overlaid(old(table), children)
      ensures keys == old(keys) - Names(children) && (stale <==> old(keys) * Names(children) != {})
    {
      stale := false;
      var defined: set<string> := {};
      var i := 0;
      while i < |children|
        invariant 0 <= i <= |children|
        invariant defined == Names(children[..i])
        invariant table == Overlaid(old(table), children[..i])
        invariant keys == old(keys) - defined && (stale <==> old(keys) * defined != {})
      {
        var frame, name := children[i].frame, children[i].name;
        NamesExtend(children, i);
        OverlaidExtends(old(table), children, i);
        if name != "" && name !in defined {
          if name in keys { assert name in old(keys) * (defined + {name}); }
          else { assert old(keys) * (defined + {name}) == old(keys) * defined; }
          defined := defined + {name};
          table := table[name := FrameOf(frame)];
          stale := stale || name in keys;
          keys := keys - {name};
        }
        i := i + 1;
      }
      assert children[..i] == children;
    }

    method Apply(change: Change)
      requires Valid()
      modifies this
      ensures Valid() && (change.HostCall? ==> InStep())
      ensures children == if change.ChildrenChange? then change.children else old(children)
      ensures change.IdAppears? ==> change.id in ids && change.node in ids[change.id]
      ensures change.IdLeaves? ==>
        (ids == old(ids) <==> !(change.id in old(ids) && change.node in old(ids)[change.id]))
      ensures ids == old(ids) || change.IdAppears? || change.IdLeaves?
      ensures documents == if change.Adoption? && forall id :: id in ids ==> change.node !in ids[id]
                           then old(documents)[change.node := change.doc] else old(documents)
    {
      match change {
        case ChildrenChange(cs) => children := cs;
        case IdAppears(id, node) => IndexAdd(id, node);
        case IdLeaves(id, node) => IndexRemove(id, node);
        case Adoption(node, doc) =>
          if forall id :: id in ids ==> node !in ids[id] { Adopt(node, doc); }
        case HostCall => SyncNamedProperties();
      }
    }

    /** Any life of a page: after a host call the properties are in step, whatever came before. */
    method Run(changes: seq<Change>)
      requires Valid()
      modifies this
      ensures Valid() && (changes != [] && changes[|changes| - 1].HostCall? ==> InStep())
    {
      var i := 0;
      while i < |changes|
        invariant 0 <= i <= |changes| && Valid()
        invariant i > 0 && changes[i - 1].HostCall? ==> InStep()
      {
        Apply(changes[i]);
        i := i + 1;
      }
    }
  }

  lemma SwapRemove(slot: seq<Node>, pos: nat)
    requires pos < |slot|
    ensures multiset(slot[pos := slot[|slot| - 1]][..|slot| - 1]) == multiset(slot) - multiset{slot[pos]}
  {
    var n := |slot| - 1;
    var t := slot[pos := slot[n]];
    assert t == t[..n] + [slot[n]];
    var kept, rest := multiset(t[..n]), multiset(slot) - multiset{slot[pos]};
    assert multiset(t) == kept + multiset{slot[n]};
    assert multiset(t) == rest + multiset{slot[n]};
    Cancel(kept, rest, slot[n]);
  }

  lemma Cancel<T>(a: multiset<T>, b: multiset<T>, x: T)
    requires a + multiset{x} == b + multiset{x}
    ensures a == b
  {
    forall y: T ensures a[y] == b[y] {
      assert (a + multiset{x})[y] == (b + multiset{x})[y];
    }
  }

  lemma NamesExtend(children: seq<Child>, i: nat)
    requires i < |children|
    ensures Names(children[..i + 1]) == Names(children[..i]) + if children[i].name == "" then {} else {children[i].name}
  {
    assert children[..i + 1] == children[..i] + [children[i]];
  }

  /** `base` with the names of `children` defined over it. */
  ghost function Overlaid(base: Table, children: seq<Child>): Table {
    map name | name in base.Keys + Names(children) ::
      if name in Names(children) then FrameOf(FirstNamed(children, name)) else base[name]
  }

  lemma FirstNamedAt(children: seq<Child>, name: string, i: nat)
    requires FirstAt(children, name, i) && name in Names(children)
    ensures FirstNamed(children, name) == children[i].frame
  {
    var k: nat :| FirstAt(children, name, k) && children[k].frame == FirstNamed(children, name);
    OneFirst(children, name, i, k);
  }

  lemma OneFirst(children: seq<Child>, name: string, i: nat, k: nat)
    requires FirstAt(children, name, i) && FirstAt(children, name, k)
    ensures i == k
  {
    assert children[i].name == name && children[k].name == name;
  }

  lemma OverlaidExtends(base: Table, children: seq<Child>, i: nat)
    requires i < |children|
    ensures var name := children[i].name;
            Overlaid(base, children[..i + 1]) ==
              if name != "" && name !in Names(children[..i])
              then Overlaid(base, children[..i])[name := FrameOf(children[i].frame)]
              else Overlaid(base, children[..i])
  {
    NamesExtend(children, i);
    forall name | name in Names(children[..i + 1]) { FirstNamedExtends(children, i, name); }
  }

  /** Among more children a name stays with the child that had it. */
  lemma FirstNamedExtends(children: seq<Child>, i: nat, name: string)
    requires i < |children| && name in Names(children[..i + 1])
    ensures FirstNamed(children[..i + 1], name) ==
              if name in Names(children[..i]) then FirstNamed(children[..i], name) else children[i].frame
  {
    var longer, shorter := children[..i + 1], children[..i];
    if name in Names(shorter) {
      var f := FirstNamed(shorter, name);
      var k: nat :| FirstAt(shorter, name, k) && shorter[k].frame == f;
      assert forall j :: 0 <= j <= k ==> longer[j] == shorter[j];
      FirstNamedAt(longer, name, k);
    } else {
      NamesExtend(children, i);
      assert forall j :: 0 <= j < i ==> longer[j] == shorter[j] && shorter[j] in shorter;
      FirstNamedAt(longer, name, i);
    }
  }

  /** The two passes over the frames turn one from-scratch table into the other. */
  lemma FramesInStep(previous: seq<Child>, children: seq<Child>, keys: set<string>)
    requires keys !! Names(previous) && "" !in keys
    ensures Overlaid(FromScratch(previous, keys) - (Names(previous) - Names(children)), children)
         == FromScratch(children, keys - Names(children))
  {
  }

  /** When neither pass asks for the ids to be looked at again, there is nothing to look at. */
  lemma WantedUnchanged(previous: seq<Child>, children: seq<Child>, ids: set<string>, keys: set<string>)
    requires Names(previous) - Names(children) == {} && keys * Names(children) == {}
    ensures keys == Wanted(ids, previous) ==> keys == Wanted(ids, children)
  {
    assert forall name :: name in Names(previous) - Names(children) <==>
           name in Names(previous) && name !in Names(children);
    assert forall name :: name in keys * Names(children) <==> name in keys && name in Names(children);
  }

  /** The ids left out for being empty or outranked would not have shown. */
  lemma WantedSuffice(children: seq<Child>, ids: set<string>)
    ensures FromScratch(children, Wanted(ids, children)) == FromScratch(children, ids)
  {
  }

  ghost predicate IdIn(ids: Index, documents: map<Node, Document>, doc: Document, name: string) {
    name in ids && exists n :: n in ids[name] && (if n in documents then documents[n] else 0) == doc
  }

  /** The table from scratch, name by name: a non-empty name is there exactly if a child has it or an
      element of the document has it as its id; the first child of a name has it, before any element. */
  lemma ScratchIs(children: seq<Child>, ids: Index, documents: map<Node, Document>, doc: Document, name: string)
    ensures var table := FromScratch(children, IdNames(ids, documents, doc));
            && (name in table <==>
                  name != "" && ((exists i :: 0 <= i < |children| && children[i].name == name)
                                 || IdIn(ids, documents, doc, name)))
            && (forall i: nat :: name != "" && FirstAt(children, name, i) ==>
                  name in table && table[name] == FrameOf(children[i].frame))
            && (name in table && (forall i :: 0 <= i < |children| ==> children[i].name != name) ==>
                  table[name] == ElementWithId(name))
    ensures forall i :: i in Indices(children) <==> 0 <= i < |children|
    ensures forall i :: 0 <= i < |children| ==> Indices(children)[i] == children[i].frame
  {
    if i :| 0 <= i < |children| && children[i].name == name {
      assert children[i] in children;
    }
    forall i: nat | name != "" && FirstAt(children, name, i) ensures
      name in Names(children) && FirstNamed(children, name) == children[i].frame
    {
      assert children[i] in children;
      FirstNamedAt(children, name, i);
    }
    assert IdIn(ids, documents, doc, name) <==> name in IdNames(ids, documents, doc);
  }

  lemma WithId(children: seq<Child>, ids: set<string>, name: string)
    requires name !in Names(children) && name != ""
    ensures FromScratch(children, ids + {name}) == FromScratch(children, ids)[name := ElementWithId(name)]
  {
  }

  lemma WithoutId(children: seq<Child>, ids: set<string>, name: string)
    requires name !in Names(children)
    ensures FromScratch(children, ids - {name}) == FromScratch(children, ids) - {name}
  {
  }
}
