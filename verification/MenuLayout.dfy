/**
  The tray menu flattened into dbusmenu ids and written out again, cut at a depth
  (`Layout.Build`, `WriteLayoutNode` and `WriteNodeProperties` in
  apps/linux/Tray/StatusNotifierItem.cs).
 */
module MenuLayout {
  import opened Wrappers

  datatype Toggle = NoToggle | Checkmark | Radio

  datatype Item = Item(caption: string, enabled: bool, toggle: Toggle, checked: bool, isSeparator: bool, children: seq<Item>)

  datatype Node = Node(id: nat, item: Option<Item>, childIds: seq<nat>)

  // ---- Properties ----------------------------------------------------------

  /** What a node's property dictionary says. */
  datatype Properties =
    | RootProperties
    | SeparatorProperties
    | EntryProperties(caption: string, enabled: bool, toggle: Option<(bool, bool)>, submenu: bool)

  /** Every underscore doubled: a single one marks a mnemonic. */
  function Escape(caption: string): string {
    if caption == "" then "" else (if caption[0] == '_' then "__" else [caption[0]]) + Escape(caption[1..])
  }

  /** How a menu reads a label: two underscores are one. */
  function Unescape(caption: string): string {
    if caption == "" then ""
    else if |caption| > 1 && caption[0] == '_' && caption[1] == '_' then "_" + Unescape(caption[2..])
    else [caption[0]] + Unescape(caption[1..])
  }

  lemma {:induction false} LabelRoundTrip(caption: string)
    ensures Unescape(Escape(caption)) == caption
  {
    if caption != "" {
      LabelRoundTrip(caption[1..]);
      var escaped := Escape(caption);
      if caption[0] == '_' {
        assert escaped[2..] == Escape(caption[1..]);
      } else {
        assert escaped[1..] == Escape(caption[1..]);
      }
      assert caption == [caption[0]] + caption[1..];
    }
  }

  function PropertiesOf(item: Option<Item>): Properties {
    match item
    case None => RootProperties
    case Some(i) =>
      if i.isSeparator then SeparatorProperties
      else EntryProperties(
        Escape(i.caption), i.enabled,
        if i.toggle.NoToggle? then None else Some((i.toggle.Radio?, i.checked)),
        |i.children| > 0)
  }

  /** What a menu makes of an entry's properties: caption, whether it can be chosen, its toggle, whether it is on. */
  function Read(p: Properties): Option<(string, bool, Toggle, bool)> {
    match p
    case RootProperties | SeparatorProperties => None
    case EntryProperties(caption, enabled, toggle, _) =>
      Some((Unescape(caption), enabled,
            (match toggle
             case None => NoToggle
             case Some((radio, _)) => if radio then Radio else Checkmark),
            toggle.Some? && toggle.value.1))
  }

  /** An entry is read back as it is; only one with a toggle is shown as on. Separators and the root are no entries. */
  lemma PropertiesRoundTrip(item: Item)
    ensures item.isSeparator ==> PropertiesOf(Some(item)) == SeparatorProperties
    ensures !item.isSeparator ==>
              && Read(PropertiesOf(Some(item))) == Some((item.caption, item.enabled, item.toggle, item.checked && item.toggle != NoToggle))
              && PropertiesOf(Some(item)).EntryProperties? && (PropertiesOf(Some(item)).submenu <==> item.children != [])
    ensures PropertiesOf(None) == RootProperties
  {
    LabelRoundTrip(item.caption);
  }

  // ---- Flattening ------------------------------------------------------------

  function Size(items: seq<Item>): nat {
    if items == [] then 0 else 1 + Size(items[0].children) + Size(items[1..])
  }

  /** The ids `items` get when the next free id is `next`. */
  function Ids(items: seq<Item>, next: nat): seq<nat> {
    if items == [] then [] else [next] + Ids(items[1..], next + 1 + Size(items[0].children))
  }

  function NodeOf(item: Item, id: nat): Node {
    Node(id, Some(item), Ids(item.children, id + 1))
  }

  /** `item` is stored under `id`, and its children under the ids that follow. */
  predicate Stored(nodes: map<nat, Node>, item: Item, id: nat)
    decreases item, 1
  {
    id in nodes && nodes[id] == NodeOf(item, id) && AllStored(nodes, item.children, id + 1)
  }

  predicate AllStored(nodes: map<nat, Node>, items: seq<Item>, next: nat)
    decreases items, 0
  {
    items == [] || (Stored(nodes, items[0], next) && AllStored(nodes, items[1..], next + 1 + Size(items[0].children)))
  }

  /** The whole menu, numbered in preorder: ids 0 to its size, each used once. */
  ghost predicate IsFlattening(nodes: map<nat, Node>, menu: seq<Item>) {
    && (forall id :: id in nodes <==> 0 <= id <= Size(menu))
    && nodes[0] == Node(0, None, Ids(menu, 1))
    && AllStored(nodes, menu, 1)
  }

  lemma {:induction false} IdsAreInRange(items: seq<Item>, next: nat)
    ensures |Ids(items, next)| == |items|
    ensures forall c :: c in Ids(items, next) ==> next <= c < next + Size(items)
    ensures forall i, j :: 0 <= i < j < |items| ==> Ids(items, next)[i] < Ids(items, next)[j]
  {
    if items != [] {
      var rest := Ids(items[1..], next + 1 + Size(items[0].children));
      IdsAreInRange(items[1..], next + 1 + Size(items[0].children));
      assert forall j :: 0 <= j < |rest| ==> rest[j] in rest;
    }
  }

  /** Every node carries its own id and only later ids as its children's, all of them in use. */
  ghost predicate IsLayout(nodes: map<nat, Node>, end: nat) {
    forall id :: id in nodes ==>
      && id < end && nodes[id].id == id
      && forall c :: c in nodes[id].childIds ==> c in nodes && id < c
  }

  lemma {:induction false} StoredIdsGrow(nodes: map<nat, Node>, items: seq<Item>, next: nat)
    requires AllStored(nodes, items, next)
    ensures forall id :: next <= id < next + Size(items) ==>
              id in nodes && nodes[id].id == id && forall c :: c in nodes[id].childIds ==> id < c < next + Size(items)
    decreases items
  {
    if items != [] {
      StoredIdsGrow(nodes, items[0].children, next + 1);
      StoredIdsGrow(nodes, items[1..], next + 1 + Size(items[0].children));
      IdsAreInRange(items[0].children, next + 1);
    }
  }

  /** Every child id is present and greater than its parent's. */
  lemma FlatteningIsALayout(nodes: map<nat, Node>, menu: seq<Item>)
    requires IsFlattening(nodes, menu)
    ensures IsLayout(nodes, 1 + Size(menu))
  {
    StoredIdsGrow(nodes, menu, 1);
    IdsAreInRange(menu, 1);
  }

  /** Nodes added outside the ids of `items` leave them stored. */
  lemma {:induction false} StaysStored(nodes: map<nat, Node>, more: map<nat, Node>, items: seq<Item>, next: nat)
    requires AllStored(nodes, items, next)
    requires forall id :: next <= id < next + Size(items) && id in nodes ==> id in more && more[id] == nodes[id]
    ensures AllStored(more, items, next)
    decreases items
  {
    if items != [] {
      StaysStored(nodes, more, items[0].children, next + 1);
      StaysStored(nodes, more, items[1..], next + 1 + Size(items[0].children));
    }
  }

  lemma {:induction false} StoredSnoc(nodes: map<nat, Node>, items: seq<Item>, item: Item, next: nat)
    requires AllStored(nodes, items, next) && Stored(nodes, item, next + Size(items))
    ensures AllStored(nodes, items + [item], next)
    ensures Size(items + [item]) == Size(items) + 1 + Size(item.children)
    ensures Ids(items + [item], next) == Ids(items, next) + [next + Size(items)]
  {
    if items == [] {
      assert [item][1..] == [] && [] + [item] == [item];
    } else {
      assert (items + [item])[1..] == items[1..] + [item];
      StoredSnoc(nodes, items[1..], item, next + 1 + Size(items[0].children));
    }
  }

  // ---- Reading back ------------------------------------------------------------

  /** What a menu receives: an id, its properties and its children. */
  datatype Written = Written(id: nat, properties: Properties, children: seq<Written>)

  /** Ends for every depth, negative ones included, because child ids only grow. */
  function Write(nodes: map<nat, Node>, end: nat, id: nat, depth: int): Written
    requires IsLayout(nodes, end) && id in nodes
    decreases end - id, 1, 0
  {
    Written(id, PropertiesOf(nodes[id].item), if depth == 0 then [] else WriteAll(nodes, end, id, nodes[id].childIds, depth - 1))
  }

  function WriteAll(nodes: map<nat, Node>, end: nat, parent: nat, ids: seq<nat>, depth: int): seq<Written>
    requires IsLayout(nodes, end) && parent in nodes
    requires forall c :: c in ids ==> c in nodes && parent < c
    decreases end - parent, 0, |ids|
  {
    if ids == [] then []
    else
      assert ids[0] in ids && forall c :: c in ids[1..] ==> c in ids;
      [Write(nodes, end, ids[0], depth)] + WriteAll(nodes, end, parent, ids[1..], depth)
  }

  /** The menu itself, without ids: cut below `depth` levels, or whole for a negative depth. */
  datatype Tree = Tree(properties: Properties, children: seq<Tree>)

  function Menu(items: seq<Item>, depth: int): seq<Tree>
    decreases items, 0
  {
    if items == [] then []
    else
      [MenuItem(items[0], depth)] + Menu(items[1..], depth)
  }

  function MenuItem(item: Item, depth: int): Tree
    decreases item, 1
  {
    Tree(PropertiesOf(Some(item)), if depth == 0 then [] else Menu(item.children, depth - 1))
  }

  function Shape(w: Written): Tree {
    Tree(w.properties, Shapes(w.children))
  }

  function Shapes(ws: seq<Written>): seq<Tree> {
    if ws == [] then [] else [Shape(ws[0])] + Shapes(ws[1..])
  }

  lemma {:induction false} WritingGivesTheItem(nodes: map<nat, Node>, end: nat, item: Item, id: nat, depth: int)
    requires IsLayout(nodes, end) && Stored(nodes, item, id)
    ensures Shape(Write(nodes, end, id, depth)) == MenuItem(item, depth)
    decreases item, 1
  {
    if depth != 0 {
      assert nodes[id].childIds == Ids(item.children, id + 1);
      WritingGivesTheItems(nodes, end, id, item.children, id + 1, depth - 1);
    }
  }

  lemma ShapesOf(first: Written, others: seq<Written>)
    ensures Shapes([first] + others) == [Shape(first)] + Shapes(others)
  {
    assert ([first] + others)[1..] == others;
  }

  /** Writing the nodes of `items` gives `items`, cut at the depth. */
  lemma {:induction false} WritingGivesTheItems(
      nodes: map<nat, Node>, end: nat, parent: nat, items: seq<Item>, next: nat, depth: int)
    requires IsLayout(nodes, end) && parent in nodes
    requires AllStored(nodes, items, next)
    requires forall c :: c in Ids(items, next) ==> c in nodes && parent < c
    ensures Shapes(WriteAll(nodes, end, parent, Ids(items, next), depth)) == Menu(items, depth)
    decreases items, 0
  {
    if items != [] {
      var ids := Ids(items, next);
      var after := next + 1 + Size(items[0].children);
      assert ids[0] == next && ids[1..] == Ids(items[1..], after);
      assert forall c :: c in ids[1..] ==> c in ids;
      WritingGivesTheItem(nodes, end, items[0], next, depth);
      WritingGivesTheItems(nodes, end, parent, items[1..], after, depth);
      ShapesOf(Write(nodes, end, next, depth), WriteAll(nodes, end, parent, ids[1..], depth));
    }
  }

  /** Reading back from id 0 gives the menu: the whole tree at a negative depth, and the tree cut at `depth` levels otherwise. */
  lemma ReadingBackGivesTheMenu(nodes: map<nat, Node>, menu: seq<Item>, depth: int)
    requires IsFlattening(nodes, menu) && IsLayout(nodes, 1 + Size(menu))
    ensures Shape(Write(nodes, 1 + Size(menu), 0, depth))
            == Tree(RootProperties, if depth == 0 then [] else Menu(menu, depth - 1))
  {
    if depth != 0 {
      WritingGivesTheItems(nodes, 1 + Size(menu), 0, menu, 1, depth - 1);
    }
  }

  // ---- Preorder ---------------------------------------------------------------

  function IdsIn(w: Written): seq<nat> {
    [w.id] + AllIdsIn(w.children)
  }

  function AllIdsIn(ws: seq<Written>): seq<nat> {
    if ws == [] then [] else IdsIn(ws[0]) + AllIdsIn(ws[1..])
  }

  function Range(from: nat, count: nat): seq<nat>
    decreases count
  {
    if count == 0 then [] else [from] + Range(from + 1, count - 1)
  }

  lemma {:induction false} RangeConcat(from: nat, a: nat, b: nat)
    ensures Range(from, a) + Range(from + a, b) == Range(from, a + b)
    decreases a
  {
    if a > 0 {
      RangeConcat(from + 1, a - 1, b);
      assert [from] + Range(from + 1, a - 1) + Range(from + a, b) == [from] + (Range(from + 1, a - 1) + Range(from + a, b));
    }
  }

  lemma {:induction false} WrittenIdsOfItem(nodes: map<nat, Node>, end: nat, item: Item, id: nat, depth: int)
    requires IsLayout(nodes, end) && Stored(nodes, item, id) && depth < 0
    ensures IdsIn(Write(nodes, end, id, depth)) == Range(id, 1 + Size(item.children))
    decreases item, 1
  {
    assert nodes[id].childIds == Ids(item.children, id + 1);
    WrittenIdsOfItems(nodes, end, id, item.children, id + 1, depth - 1);
    RangeConcat(id, 1, Size(item.children));
  }

  lemma AllIdsOf(first: Written, others: seq<Written>)
    ensures AllIdsIn([first] + others) == IdsIn(first) + AllIdsIn(others)
  {
    assert ([first] + others)[1..] == others;
  }

  lemma {:induction false} WrittenIdsOfItems(
      nodes: map<nat, Node>, end: nat, parent: nat, items: seq<Item>, next: nat, depth: int)
    requires IsLayout(nodes, end) && parent in nodes && depth < 0
    requires AllStored(nodes, items, next)
    requires forall c :: c in Ids(items, next) ==> c in nodes && parent < c
    ensures AllIdsIn(WriteAll(nodes, end, parent, Ids(items, next), depth)) == Range(next, Size(items))
    decreases items, 0
  {
    if items != [] {
      var ids := Ids(items, next);
      var below := 1 + Size(items[0].children);
      assert ids[0] == next && ids[1..] == Ids(items[1..], next + below);
      assert forall c :: c in ids[1..] ==> c in ids;
      var first, others := Write(nodes, end, next, depth), WriteAll(nodes, end, parent, ids[1..], depth);
      assert IdsIn(first) == Range(next, below) by {
        WrittenIdsOfItem(nodes, end, items[0], next, depth);
      }
      assert AllIdsIn(others) == Range(next + below, Size(items[1..])) by {
        WrittenIdsOfItems(nodes, end, parent, items[1..], next + below, depth);
      }
      AllIdsOf(first, others);
      RangeConcat(next, below, Size(items[1..]));
    }
  }

  /** Written whole, the ids come in the order 0, 1, 2, ...: the numbering is preorder and uses every id once. */
  lemma IdsArePreorder(nodes: map<nat, Node>, menu: seq<Item>, depth: int)
    requires IsFlattening(nodes, menu) && IsLayout(nodes, 1 + Size(menu)) && depth < 0
    ensures IdsIn(Write(nodes, 1 + Size(menu), 0, depth)) == Range(0, 1 + Size(menu))
  {
    WrittenIdsOfItems(nodes, 1 + Size(menu), 0, menu, 1, depth - 1);
    RangeConcat(0, 1, Size(menu));
  }

  function Height(items: seq<Item>): nat {
    if items == [] then 0
    else
      var first, rest := 1 + Height(items[0].children), Height(items[1..]);
      if first > rest then first else rest
  }

  /** A depth no menu reaches is as good as a negative one. */
  lemma {:induction false} DeepEnoughIsWhole(items: seq<Item>, depth: int, negative: int)
    requires negative < 0 && depth >= Height(items)
    ensures Menu(items, depth) == Menu(items, negative)
    decreases items
  {
    if items != [] {
      DeepEnoughIsWhole(items[0].children, depth - 1, negative - 1);
      DeepEnoughIsWhole(items[1..], depth, negative);
    }
  }

  // ---- As it runs ------------------------------------------------------------------

  class Builder {
    var nodes: map<nat, Node>
    var nextId: nat

    constructor ()
      ensures nodes == map[] && nextId == 1
    {
      nodes := map[];
      nextId := 1;
    }

    /** Numbers `items` and everything below them, in order. */
    method Add(items: seq<Item>) returns (ids: seq<nat>)
      requires forall id :: id in nodes ==> id < nextId
      modifies this
      ensures ids == Ids(items, old(nextId)) && nextId == old(nextId) + Size(items)
      ensures AllStored(nodes, items, old(nextId))
      ensures forall id :: id in nodes <==> id in old(nodes) || old(nextId) <= id < nextId
      ensures forall id :: id in old(nodes) ==> nodes[id] == old(nodes)[id]
      decreases items
    {
      ids := [];
      var i := 0;
      while i < |items|
        invariant 0 <= i <= |items|
        invariant ids == Ids(items[..i], old(nextId)) && nextId == old(nextId) + Size(items[..i])
        invariant AllStored(nodes, items[..i], old(nextId))
        invariant forall id :: id in nodes <==> id in old(nodes) || old(nextId) <= id < nextId
        invariant forall id :: id in old(nodes) ==> nodes[id] == old(nodes)[id]
      {
        var id := AddOne(items[i], items[..i], old(nextId));
        assert items[..i + 1] == items[..i] + [items[i]];
        StoredSnoc(nodes, items[..i], items[i], old(nextId));
        ids := ids + [id];
        i := i + 1;
      }
      assert items[..i] == items;
    }

    /** Numbers one item, next to the `earlier` ones numbered from `start`. */
    method AddOne(item: Item, ghost earlier: seq<Item>, ghost start: nat) returns (id: nat)
      requires forall i :: i in nodes ==> i < nextId
      requires AllStored(nodes, earlier, start) && start + Size(earlier) <= nextId
      modifies this
      ensures id == old(nextId) && nextId == id + 1 + Size(item.children)
      ensures Stored(nodes, item, id) && AllStored(nodes, earlier, start)
      ensures forall i :: i in nodes <==> i in old(nodes) || old(nextId) <= i < nextId
      ensures forall i :: i in old(nodes) ==> nodes[i] == old(nodes)[i]
      decreases item
    {
      id := nextId;
      nextId := nextId + 1;
      var childIds := Add(item.children);
      ghost var below := nodes;
      nodes := nodes[id := Node(id, Some(item), childIds)];
      StaysStored(below, nodes, item.children, id + 1);
      StaysStored(old(nodes), nodes, earlier, start);
    }
  }

  /** `Layout.Build`. */
  method Build(menu: seq<Item>) returns (nodes: map<nat, Node>)
    ensures IsFlattening(nodes, menu)
  {
    var builder := new Builder();
    var ids := builder.Add(menu);
    nodes := builder.nodes[0 := Node(0, None, ids)];
    StaysStored(builder.nodes, nodes, menu, 1);
  }

  lemma {:induction false} WriteAllIs(nodes: map<nat, Node>, end: nat, parent: nat, ids: seq<nat>, depth: int, all: seq<Written>)
    requires IsLayout(nodes, end) && parent in nodes
    requires forall c :: c in ids ==> c in nodes && parent < c
    requires |all| == |ids| && forall k :: 0 <= k < |ids| ==> ids[k] in ids && all[k] == Write(nodes, end, ids[k], depth)
    ensures WriteAll(nodes, end, parent, ids, depth) == all
    decreases |ids|
  {
    if ids != [] {
      assert forall c :: c in ids[1..] ==> c in ids;
      assert ids[0] in ids;
      WriteAllIs(nodes, end, parent, ids[1..], depth, all[1..]);
      assert all == [all[0]] + all[1..];
    }
  }

  /** `WriteLayoutNode`. */
  method WriteNode(nodes: map<nat, Node>, ghost end: nat, id: nat, depth: int) returns (w: Written)
    requires IsLayout(nodes, end) && id in nodes
    ensures w == Write(nodes, end, id, depth)
    decreases end - id, 1
  {
    var children := [];
    if depth != 0 {
      children := WriteChildren(nodes, end, id, nodes[id].childIds, depth - 1);
    }
    w := Written(id, PropertiesOf(nodes[id].item), children);
  }

  method WriteChildren(nodes: map<nat, Node>, ghost end: nat, parent: nat, ids: seq<nat>, depth: int)
      returns (children: seq<Written>)
    requires IsLayout(nodes, end) && parent in nodes
    requires forall c :: c in ids ==> c in nodes && parent < c
    ensures children == WriteAll(nodes, end, parent, ids, depth)
    decreases end - parent, 0
  {
    children := [];
    var i := 0;
    while i < |ids|
      invariant 0 <= i <= |ids| && |children| == i
      invariant forall k :: 0 <= k < i ==> ids[k] in ids && children[k] == Write(nodes, end, ids[k], depth)
    {
      assert ids[i] in ids;
      var child := WriteNode(nodes, end, ids[i], depth);
      children := children + [child];
      i := i + 1;
    }
    WriteAllIs(nodes, end, parent, ids, depth, children);
  }
}
