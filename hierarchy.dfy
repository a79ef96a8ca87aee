/** The Hierarchy panel's walk over the scene tree.

    Each frame the panel emits one collapsible tree item per GameObject,
    depth first and in pre-order, starting at the scene's root. The display
    flags of an item follow from three facts about its node: it has no
    children, it is the root, it is the current selection. Children are
    walked, in index order, only when the node's item is open, and a left or
    right click on an open item other than the root makes its node the
    scene's selection, while the walk is still running.

    What the GUI library answers (is this item open, was it clicked with the
    left or the right button) is not computed here: a `Gui` value of oracle
    functions stands in for those answers. */
module Hierarchy {

  datatype Option<T> = None | Some(value: T)

  /** Node identity; the engine compares GameObject pointers. */
  type ObjectId = nat

  /** A scene-tree node: its identity, its display name and its children in
      insertion order. */
  datatype GameObject = GameObject(id: ObjectId, name: string, childs: seq<GameObject>)

  // Tree-node flag bits, with the values of Dear ImGui's ImGuiTreeNodeFlags_*.
  const Selected: bv32 := 0x1
  const DefaultOpen: bv32 := 0x20
  const OpenOnArrow: bv32 := 0x80
  const Leaf: bv32 := 0x100
  const SpanAvailWidth: bv32 := 0x800

  predicate Has(flags: bv32, flag: bv32)
  {
    flags & flag != 0
  }

  /** The display flags of a node's tree item: always open-on-arrow and
      full-width, plus one flag for each of the three facts that holds, and
      nothing else. */
  function NodeFlags(isLeaf: bool, isRoot: bool, isSelected: bool): (f: bv32)
    ensures Has(f, OpenOnArrow) && Has(f, SpanAvailWidth)
    ensures Has(f, Leaf) <==> isLeaf
    ensures Has(f, DefaultOpen) <==> isRoot
    ensures Has(f, Selected) <==> isSelected
    ensures f & !(OpenOnArrow | SpanAvailWidth | Leaf | DefaultOpen | Selected) == 0
  {
    (OpenOnArrow | SpanAvailWidth)
    | (if isLeaf then Leaf else 0)
    | (if isRoot then DefaultOpen else 0)
    | (if isSelected then Selected else 0)
  }

  /** The GUI library's answers for the current frame, per node. */
  datatype Gui = Gui(
    open: ObjectId -> bool,
    leftClicked: ObjectId -> bool,
    rightClicked: ObjectId -> bool)

  /** One emitted tree item: the node it stands for (its label is the node's
      name) and the flags it was drawn with. */
  datatype TreeItem = TreeItem(node: GameObject, flags: bv32)

  /** What a walk produces: the items in emission order and the selection
      when it ends. */
  datatype Frame = Frame(items: seq<TreeItem>, selection: Option<ObjectId>)

  /** Reference definition of the walk from node `g`, with root `rootId`,
      starting with selection `sel`. */
  function Walk(g: GameObject, rootId: ObjectId, gui: Gui, sel: Option<ObjectId>): Frame
    decreases g, |g.childs| + 1
  {
    var item := TreeItem(g, NodeFlags(g.childs == [], g.id == rootId, sel == Some(g.id)));
    if !gui.open(g.id) then
      Frame([item], sel)
    else
      var sel' := if g.id != rootId && (gui.leftClicked(g.id) || gui.rightClicked(g.id)) then Some(g.id) else sel;
      var rest := WalkChildren(g, |g.childs|, rootId, gui, sel');
      Frame([item] + rest.items, rest.selection)
  }

  /** The walks of the first `i` children of `g`, one after the other, each
      starting with the selection the previous one left. */
  function WalkChildren(g: GameObject, i: nat, rootId: ObjectId, gui: Gui, sel: Option<ObjectId>): Frame
    requires i <= |g.childs|
    decreases g, i
  {
    if i == 0 then
      Frame([], sel)
    else
      var before := WalkChildren(g, i - 1, rootId, gui, sel);
      var last := Walk(g.childs[i - 1], rootId, gui, before.selection);
      Frame(before.items + last.items, last.selection)
  }

  /** The scene's part in the walk: which node is the root and which, if
      any, is selected. */
  class Scene {
    var rootObject: GameObject
    var selected: Option<ObjectId>

    constructor (rootObject: GameObject)
      ensures this.rootObject == rootObject && selected == None
    {
      this.rootObject := rootObject;
      selected := None;
    }

    /** Make `g` the selected node. */
    method SelectItem(g: GameObject)
      modifies this`selected
      ensures selected == Some(g.id)
    {
      selected := Some(g.id);
    }
  }

  /** Emit the tree item of `g` and, when it is open, handle clicks on it and
      walk its children in order. */
  method ProcessGameObject(scene: Scene, g: GameObject, gui: Gui) returns (items: seq<TreeItem>)
    modifies scene`selected
    ensures Frame(items, scene.selected) == Walk(g, scene.rootObject.id, gui, old(scene.selected))
    decreases g
  {
    var flags := OpenOnArrow | SpanAvailWidth;
    if g.childs == [] {
      flags := flags | Leaf;
    }
    if g.id == scene.rootObject.id {
      flags := flags | DefaultOpen;
    }
    if Some(g.id) == scene.selected {
      flags := flags | Selected;
    }
    items := [TreeItem(g, flags)];
    if gui.open(g.id) {
      if g.id != scene.rootObject.id {
        if gui.leftClicked(g.id) {
          scene.SelectItem(g);
        }
        if gui.rightClicked(g.id) {
          scene.SelectItem(g);
        }
      }
      ghost var afterClicks := scene.selected;
      if g.childs != [] {
        var i := 0;
        while i < |g.childs|
          invariant 0 <= i <= |g.childs|
          invariant |items| >= 1 && items[0] == TreeItem(g, flags)
          invariant Frame(items[1..], scene.selected) == WalkChildren(g, i, scene.rootObject.id, gui, afterClicks)
        {
          var sub := ProcessGameObject(scene, g.childs[i], gui);
          items := items + sub;
          i := i + 1;
        }
      }
    }
  }

  /** The panel's body: walk the whole tree from the scene's root. */
  method Draw(scene: Scene, gui: Gui) returns (items: seq<TreeItem>)
    modifies scene`selected
    ensures Frame(items, scene.selected) == Walk(scene.rootObject, scene.rootObject.id, gui, old(scene.selected))
  {
    items := ProcessGameObject(scene, scene.rootObject, gui);
  }

  // ---------------------------------------------------------------------
  // Visit order

  /** The nodes of a list of items, in order. */
  function Nodes(items: seq<TreeItem>): (ns: seq<GameObject>)
    ensures |ns| == |items|
    ensures forall k :: 0 <= k < |items| ==> ns[k] == items[k].node
  {
    seq(|items|, k requires 0 <= k < |items| => items[k].node)
  }

  lemma NodesAppend(a: seq<TreeItem>, b: seq<TreeItem>)
    ensures Nodes(a + b) == Nodes(a) + Nodes(b)
  {
  }

  /** Pre-order listing of the nodes under `g` that a walk reaches when it
      enters the children of open nodes only. */
  function Visible(g: GameObject, open: ObjectId -> bool): seq<GameObject>
    decreases g, |g.childs| + 1
  {
    [g] + (if open(g.id) then VisibleChildren(g, |g.childs|, open) else [])
  }

  /** The listings of the first `i` children of `g`, one after the other. */
  function VisibleChildren(g: GameObject, i: nat, open: ObjectId -> bool): seq<GameObject>
    requires i <= |g.childs|
    decreases g, i
  {
    if i == 0 then [] else VisibleChildren(g, i - 1, open) + Visible(g.childs[i - 1], open)
  }

  /** The items of a walk stand for the nodes of the tree in pre-order,
      children in index order, entering a node's children exactly when its
      item is open; the selection changes made during the walk do not
      affect which nodes are visited. */
  lemma {:induction false} WalkOrder(g: GameObject, rootId: ObjectId, gui: Gui, sel: Option<ObjectId>)
    ensures Nodes(Walk(g, rootId, gui, sel).items) == Visible(g, gui.open)
    decreases g, |g.childs| + 1
  {
    var item := TreeItem(g, NodeFlags(g.childs == [], g.id == rootId, sel == Some(g.id)));
    if gui.open(g.id) {
      var sel' := if g.id != rootId && (gui.leftClicked(g.id) || gui.rightClicked(g.id)) then Some(g.id) else sel;
      WalkChildrenOrder(g, |g.childs|, rootId, gui, sel');
      NodesAppend([item], WalkChildren(g, |g.childs|, rootId, gui, sel').items);
    }
  }

  lemma {:induction false} WalkChildrenOrder(g: GameObject, i: nat, rootId: ObjectId, gui: Gui, sel: Option<ObjectId>)
    requires i <= |g.childs|
    ensures Nodes(WalkChildren(g, i, rootId, gui, sel).items) == VisibleChildren(g, i, gui.open)
    decreases g, i
  {
    if i > 0 {
      var before := WalkChildren(g, i - 1, rootId, gui, sel);
      WalkChildrenOrder(g, i - 1, rootId, gui, sel);
      WalkOrder(g.childs[i - 1], rootId, gui, before.selection);
      NodesAppend(before.items, Walk(g.childs[i - 1], rootId, gui, before.selection).items);
    }
  }

  /** A leaf, and a node whose item is closed, produce their own item and
      nothing else: the walk does not descend from them. */
  lemma NoDescentBelowLeafOrClosed(g: GameObject, rootId: ObjectId, gui: Gui, sel: Option<ObjectId>)
    requires g.childs == [] || !gui.open(g.id)
    ensures |Walk(g, rootId, gui, sel).items| == 1
    ensures Walk(g, rootId, gui, sel).items[0].node == g
  {
  }

  // ---------------------------------------------------------------------
  // Each reachable node once

  function IdsOf(ns: seq<GameObject>): (ids: seq<ObjectId>)
    ensures |ids| == |ns|
    ensures forall k :: 0 <= k < |ns| ==> ids[k] == ns[k].id
  {
    seq(|ns|, k requires 0 <= k < |ns| => ns[k].id)
  }

  lemma IdsOfAppend(a: seq<GameObject>, b: seq<GameObject>)
    ensures IdsOf(a + b) == IdsOf(a) + IdsOf(b)
  {
  }

  function AllOpen(id: ObjectId): bool
  {
    true
  }

  /** No two nodes of the tree under `g` share an identity, as in the
      engine's tree, where every node has one parent and there are no
      cycles. */
  ghost predicate UniqueIds(g: GameObject)
  {
    forall id :: multiset(IdsOf(Visible(g, AllOpen)))[id] <= 1
  }

  /** Whatever is open, a walk lists no node more often than the whole tree
      holds it. */
  lemma {:induction false} VisibleWithinTree(g: GameObject, open: ObjectId -> bool)
    ensures multiset(IdsOf(Visible(g, open))) <= multiset(IdsOf(Visible(g, AllOpen)))
    decreases g, |g.childs| + 1
  {
    VisibleChildrenWithinTree(g, |g.childs|, open);
    IdsOfAppend([g], if open(g.id) then VisibleChildren(g, |g.childs|, open) else []);
    IdsOfAppend([g], VisibleChildren(g, |g.childs|, AllOpen));
  }

  lemma {:induction false} VisibleChildrenWithinTree(g: GameObject, i: nat, open: ObjectId -> bool)
    requires i <= |g.childs|
    ensures multiset(IdsOf(VisibleChildren(g, i, open))) <= multiset(IdsOf(VisibleChildren(g, i, AllOpen)))
    decreases g, i
  {
    if i > 0 {
      VisibleChildrenWithinTree(g, i - 1, open);
      VisibleWithinTree(g.childs[i - 1], open);
      IdsOfAppend(VisibleChildren(g, i - 1, open), Visible(g.childs[i - 1], open));
      IdsOfAppend(VisibleChildren(g, i - 1, AllOpen), Visible(g.childs[i - 1], AllOpen));
    }
  }

  /** In a tree without shared nodes, a walk from the root emits every node
      it reaches exactly once. */
  lemma WalkVisitsEachOnce(g: GameObject, gui: Gui, sel: Option<ObjectId>)
    requires UniqueIds(g)
    ensures forall id :: multiset(IdsOf(Nodes(Walk(g, g.id, gui, sel).items)))[id] <= 1
  {
    WalkOrder(g, g.id, gui, sel);
    VisibleWithinTree(g, gui.open);
  }

  // ---------------------------------------------------------------------
  // Flags and selection

  /** The item is open, not the root's, and was clicked with either button. */
  predicate Clicks(item: TreeItem, rootId: ObjectId, gui: Gui)
  {
    var id := item.node.id;
    id != rootId && gui.open(id) && (gui.leftClicked(id) || gui.rightClicked(id))
  }

  /** The selection after `items` were emitted starting from `sel`: the node
      of the last item clicked, or `sel` when none was. */
  function LastClicked(sel: Option<ObjectId>, items: seq<TreeItem>, rootId: ObjectId, gui: Gui): Option<ObjectId>
  {
    if items == [] then sel
    else if Clicks(items[|items| - 1], rootId, gui) then Some(items[|items| - 1].node.id)
    else LastClicked(sel, items[..|items| - 1], rootId, gui)
  }

  lemma {:induction false} LastClickedAppend(sel: Option<ObjectId>, a: seq<TreeItem>, b: seq<TreeItem>, rootId: ObjectId, gui: Gui)
    ensures LastClicked(sel, a + b, rootId, gui) == LastClicked(LastClicked(sel, a, rootId, gui), b, rootId, gui)
    decreases |b|
  {
    if b == [] {
      assert a + b == a;
    } else {
      assert (a + b)[..|a + b| - 1] == a + b[..|b| - 1];
      LastClickedAppend(sel, a, b[..|b| - 1], rootId, gui);
    }
  }

  /** `item` carries the flags computed from its node with `selNow` as the
      current selection. */
  predicate DrawnWith(item: TreeItem, rootId: ObjectId, selNow: Option<ObjectId>)
  {
    item.flags == NodeFlags(item.node.childs == [], item.node.id == rootId, selNow == Some(item.node.id))
  }

  /** Every item of `f` was drawn with the selection of its moment, and `f`
      ends with the selection the clicks so far leave. */
  predicate Consistent(sel: Option<ObjectId>, f: Frame, rootId: ObjectId, gui: Gui)
  {
    && f.selection == LastClicked(sel, f.items, rootId, gui)
    && forall k :: 0 <= k < |f.items| ==> DrawnWith(f.items[k], rootId, LastClicked(sel, f.items[..k], rootId, gui))
  }

  lemma ConsistentAppend(s0: Option<ObjectId>, a: seq<TreeItem>, s1: Option<ObjectId>, b: seq<TreeItem>, s2: Option<ObjectId>, rootId: ObjectId, gui: Gui)
    requires Consistent(s0, Frame(a, s1), rootId, gui)
    requires Consistent(s1, Frame(b, s2), rootId, gui)
    ensures Consistent(s0, Frame(a + b, s2), rootId, gui)
  {
    LastClickedAppend(s0, a, b, rootId, gui);
    forall k | 0 <= k < |a + b|
      ensures DrawnWith((a + b)[k], rootId, LastClicked(s0, (a + b)[..k], rootId, gui))
    {
      if k < |a| {
        assert (a + b)[..k] == a[..k];
      } else {
        assert (a + b)[..k] == a + b[..k - |a|];
        LastClickedAppend(s0, a, b[..k - |a|], rootId, gui);
      }
    }
  }

  lemma {:induction false} WalkConsistent(g: GameObject, rootId: ObjectId, gui: Gui, sel: Option<ObjectId>)
    ensures Consistent(sel, Walk(g, rootId, gui, sel), rootId, gui)
    decreases g, |g.childs| + 1
  {
    var item := TreeItem(g, NodeFlags(g.childs == [], g.id == rootId, sel == Some(g.id)));
    assert [item][..0] == [];
    assert [item][..|[item]| - 1] == [];
    if gui.open(g.id) {
      var sel' := if g.id != rootId && (gui.leftClicked(g.id) || gui.rightClicked(g.id)) then Some(g.id) else sel;
      var rest := WalkChildren(g, |g.childs|, rootId, gui, sel');
      WalkChildrenConsistent(g, |g.childs|, rootId, gui, sel');
      ConsistentAppend(sel, [item], sel', rest.items, rest.selection, rootId, gui);
    }
  }

  lemma {:induction false} WalkChildrenConsistent(g: GameObject, i: nat, rootId: ObjectId, gui: Gui, sel: Option<ObjectId>)
    requires i <= |g.childs|
    ensures Consistent(sel, WalkChildren(g, i, rootId, gui, sel), rootId, gui)
    decreases g, i
  {
    if i > 0 {
      var before := WalkChildren(g, i - 1, rootId, gui, sel);
      var last := Walk(g.childs[i - 1], rootId, gui, before.selection);
      WalkChildrenConsistent(g, i - 1, rootId, gui, sel);
      WalkConsistent(g.childs[i - 1], rootId, gui, before.selection);
      ConsistentAppend(sel, before.items, before.selection, last.items, last.selection, rootId, gui);
    }
  }

  /** Every item a walk emits is drawn open-on-arrow and full-width; it is
      marked leaf exactly when its node has no children, default-open
      exactly when its node is the root, and selected exactly when its node
      is the selection at the moment it is drawn, that is, the last open,
      non-root node clicked earlier in the walk, or the selection the walk
      started with when there was none. The walk ends with the last such
      node selected. */
  lemma WalkFlagsAndSelection(g: GameObject, rootId: ObjectId, gui: Gui, sel: Option<ObjectId>)
    ensures Walk(g, rootId, gui, sel).selection == LastClicked(sel, Walk(g, rootId, gui, sel).items, rootId, gui)
    ensures forall k :: 0 <= k < |Walk(g, rootId, gui, sel).items| ==>
      var items := Walk(g, rootId, gui, sel).items;
      && Has(items[k].flags, OpenOnArrow)
      && Has(items[k].flags, SpanAvailWidth)
      && (Has(items[k].flags, Leaf) <==> items[k].node.childs == [])
      && (Has(items[k].flags, DefaultOpen) <==> items[k].node.id == rootId)
      && (Has(items[k].flags, Selected) <==> LastClicked(sel, items[..k], rootId, gui) == Some(items[k].node.id))
  {
    WalkConsistent(g, rootId, gui, sel);
  }

  // ---------------------------------------------------------------------
  // Which clicks matter

  /** `gui` and `gui'` agree on which items are open and, for open items
      other than the root's, on whether either button clicked them. */
  ghost predicate SameEffectiveAnswers(rootId: ObjectId, gui: Gui, gui': Gui)
  {
    forall id ::
      && gui.open(id) == gui'.open(id)
      && (id != rootId && gui.open(id) ==>
            (gui.leftClicked(id) || gui.rightClicked(id)) == (gui'.leftClicked(id) || gui'.rightClicked(id)))
  }

  /** A click on the root or on a closed item changes nothing, and the left
      and the right button have the same effect. */
  lemma {:induction false} OnlyEffectiveClicksMatter(g: GameObject, rootId: ObjectId, gui: Gui, gui': Gui, sel: Option<ObjectId>)
    requires SameEffectiveAnswers(rootId, gui, gui')
    ensures Walk(g, rootId, gui, sel) == Walk(g, rootId, gui', sel)
    decreases g, |g.childs| + 1
  {
    assert gui.open(g.id) == gui'.open(g.id);
    if gui.open(g.id) {
      var sel' := if g.id != rootId && (gui.leftClicked(g.id) || gui.rightClicked(g.id)) then Some(g.id) else sel;
      OnlyEffectiveClicksMatterChildren(g, |g.childs|, rootId, gui, gui', sel');
    }
  }

  lemma {:induction false} OnlyEffectiveClicksMatterChildren(g: GameObject, i: nat, rootId: ObjectId, gui: Gui, gui': Gui, sel: Option<ObjectId>)
    requires i <= |g.childs|
    requires SameEffectiveAnswers(rootId, gui, gui')
    ensures WalkChildren(g, i, rootId, gui, sel) == WalkChildren(g, i, rootId, gui', sel)
    decreases g, i
  {
    if i > 0 {
      OnlyEffectiveClicksMatterChildren(g, i - 1, rootId, gui, gui', sel);
      var before := WalkChildren(g, i - 1, rootId, gui, sel);
      OnlyEffectiveClicksMatter(g.childs[i - 1], rootId, gui, gui', before.selection);
    }
  }

  /** Clicking the same items with the left button or with the right button
      gives the same walk. */
  lemma LeftAndRightAlike(g: GameObject, rootId: ObjectId, open: ObjectId -> bool, clicked: ObjectId -> bool, sel: Option<ObjectId>)
    ensures Walk(g, rootId, Gui(open, clicked, _ => false), sel) == Walk(g, rootId, Gui(open, _ => false, clicked), sel)
  {
    OnlyEffectiveClicksMatter(g, rootId, Gui(open, clicked, _ => false), Gui(open, _ => false, clicked), sel);
  }

  /** Clicks on the root item leave the walk as it would be without them. */
  lemma RootClickIgnored(g: GameObject, gui: Gui, sel: Option<ObjectId>)
    ensures Walk(g, g.id, gui, sel) ==
      Walk(g, g.id, Gui(gui.open, (id: ObjectId) => id != g.id && gui.leftClicked(id), (id: ObjectId) => id != g.id && gui.rightClicked(id)), sel)
  {
    OnlyEffectiveClicksMatter(g, g.id, gui, Gui(gui.open, (id: ObjectId) => id != g.id && gui.leftClicked(id), (id: ObjectId) => id != g.id && gui.rightClicked(id)), sel);
  }

  /** An open leaf other than the root emits one item and is selected
      when either button clicked it. */
  lemma OpenLeafWalk(x: GameObject, rootId: ObjectId, gui: Gui, sel: Option<ObjectId>)
    requires x.childs == [] && gui.open(x.id) && x.id != rootId
    ensures Walk(x, rootId, gui, sel) ==
      Frame([TreeItem(x, NodeFlags(true, false, sel == Some(x.id)))],
            if gui.leftClicked(x.id) || gui.rightClicked(x.id) then Some(x.id) else sel)
  {
  }

  /** The scenario tree: root(0) with children A(1, a leaf) and B(2), and B
      with one child C(3). */
  function ScenarioTree(): GameObject
  {
    GameObject(0, "root", [GameObject(1, "A", []), GameObject(2, "B", [GameObject(3, "C", [])])])
  }

  /** Every item open, only the node `target` clicked, with the left button. */
  function ClickOn(target: ObjectId): Gui
  {
    Gui(AllOpen, (id: ObjectId) => id == target, (id: ObjectId) => false)
  }

  /** In a frame in which only C is clicked, starting with A selected: the
      walk lists root, A, B, C, draws A selected, C not, and ends with C
      selected. */
  lemma ScenarioSecondFrame()
    ensures Nodes(Walk(ScenarioTree(), 0, ClickOn(3), Some(1)).items) == [ScenarioTree(), ScenarioTree().childs[0], ScenarioTree().childs[1], ScenarioTree().childs[1].childs[0]]
    ensures Has(Walk(ScenarioTree(), 0, ClickOn(3), Some(1)).items[1].flags, Selected)
    ensures !Has(Walk(ScenarioTree(), 0, ClickOn(3), Some(1)).items[3].flags, Selected)
    ensures Walk(ScenarioTree(), 0, ClickOn(3), Some(1)).selection == Some(3)
  {
  }

  /** In a first frame with nothing selected and only A clicked: the walk
      lists root, A, B, C and ends with A selected. */
  lemma ScenarioFirstFrame()
    ensures Nodes(Walk(ScenarioTree(), 0, ClickOn(1), None).items) == [ScenarioTree(), ScenarioTree().childs[0], ScenarioTree().childs[1], ScenarioTree().childs[1].childs[0]]
    ensures Walk(ScenarioTree(), 0, ClickOn(1), None).selection == Some(1)
  {
  }
}
