/**
 * `JupyterGISModel`: the document model that edits the layer tree of the
 * shared document (adding layers and groups, renaming and removing groups),
 * answers queries over sources, and loads content.
 */
module GisModel {
  import opened Wrappers
  import opened Json
  import opened LayerTree
  import opened SharedDocument
  import JsArray

  /**
   * What `_getLayerTreeInfo` reports: the top-level group holding the match,
   * the matched group itself and the top-level index (-1 when not found).
   * `innerPath` is the rest of the path below the top-level group, which the
   * source keeps implicitly as the reference `workingGroup`.
   */
  datatype TreeInfo = TreeInfo(
    mainGroup: Option<LayerItem>,
    workingGroup: Option<LayerItem>,
    mainGroupIndex: int,
    innerPath: seq<nat>)

  /** Content as read from a file: every part may be absent. */
  datatype RawContent = RawContent(
    sources: Option<map<string, Source>>,
    layers: Option<map<string, Layer>>,
    layerTree: Option<seq<LayerItem>>,
    options: Option<map<string, Value>>)

  /** How `fromString` ends. */
  datatype LoadOutcome = Loaded | ParseError | FormatError

  /** The options a file without options starts with. */
  function DefaultOptions(): map<string, Value> {
    map["latitude" := Num(0.0), "longitude" := Num(0.0), "zoom" := Num(0.0)]
  }

  /** The content `fromString` installs: each absent part takes its default. */
  function Installed(raw: RawContent): (c: Content)
    ensures raw.sources.None? ==> c.sources == map[]
    ensures raw.layers.None? ==> c.layers == map[]
    ensures raw.layerTree.None? ==> c.layerTree == []
    ensures raw.options.None? ==> c.options == DefaultOptions()
    ensures raw.sources.Some? ==> c.sources == raw.sources.value
    ensures raw.layers.Some? ==> c.layers == raw.layers.value
    ensures raw.layerTree.Some? ==> c.layerTree == raw.layerTree.value
    ensures raw.options.Some? ==> c.options == raw.options.value
  {
    Content(
      raw.sources.GetOr(map[]),
      raw.layers.GetOr(map[]),
      raw.layerTree.GetOr([]),
      raw.options.GetOr(DefaultOptions()))
  }

  /** Content written out in full. */
  function Saved(c: Content): RawContent {
    RawContent(Some(c.sources), Some(c.layers), Some(c.layerTree), Some(c.options))
  }

  /** Loading what `getContent` returned installs the same content again. */
  lemma SaveLoadRoundTrip(c: Content)
    ensures Installed(Saved(c)) == c
  {
  }

  // ---------------------------------------------------------------------------
  // The effect of each tree edit, as a function of the tree before it
  // ---------------------------------------------------------------------------

  /** `if (groupName)`: a parent group was named (undefined and "" are falsy). */
  predicate GroupNameGiven(groupName: Option<string>) {
    groupName.Some? && groupName.value != ""
  }

  /** The item will be placed: at the root, or in a parent group that exists. */
  predicate Resolves(tree: seq<LayerItem>, groupName: Option<string>) {
    !GroupNameGiven(groupName) || FindGroup(tree, groupName.value).Some?
  }

  /** The two outcomes of `_getLayerTreeInfo`, in terms of the found path. */
  lemma LayerTreeInfoCases(tree: seq<LayerItem>, name: string)
    ensures FindGroup(tree, name).None? ==> LayerTreeInfo(tree, name) == TreeInfo(None, None, -1, [])
    ensures FindGroup(tree, name).Some? ==>
      var p := FindGroup(tree, name).value;
      && ValidPath(tree, p)
      && LayerTreeInfo(tree, name) == TreeInfo(Some(tree[p[0]]), Some(ItemAt(tree, p)), p[0], p[1..])
  {
    if FindGroup(tree, name).Some? {
      FindFromSound(tree, name, 0);
    }
  }

  /** The walk down a path starts at its top-level entry. */
  lemma PathStart(tree: seq<LayerItem>, p: Path)
    requires ValidPath(tree, p)
    ensures ValidPath(tree, p[..1]) && ItemAt(tree, p[..1]) == tree[p[0]]
  {
    assert p[..1] == [p[0]];
  }

  /** What `_getLayerTreeInfo(name)` reports on `tree`. */
  function LayerTreeInfo(tree: seq<LayerItem>, name: string): (info: TreeInfo)
    ensures info.mainGroupIndex == -1 <==> FindGroup(tree, name).None?
    ensures info.mainGroupIndex == -1 ==> info.mainGroup.None? && info.workingGroup.None?
    ensures info.mainGroupIndex != -1 ==>
      var p := [info.mainGroupIndex] + info.innerPath;
      && 0 <= info.mainGroupIndex < |tree|
      && FindGroup(tree, name) == Some(p)
      && NamedGroupAt(tree, p, name)
      && info.mainGroup == Some(tree[info.mainGroupIndex])
      && info.workingGroup == Some(ItemAt(tree, p))
  {
    match FindGroup(tree, name)
    case None => TreeInfo(None, None, -1, [])
    case Some(p) =>
      FindFromSound(tree, name, 0);
      assert [p[0]] + p[1..] == p;
      TreeInfo(Some(tree[p[0]]), Some(ItemAt(tree, p)), p[0], p[1..])
  }

  /** The tree after `_addLayerTreeItem(item, groupName, index)`. */
  function TreeAfterAdd(tree: seq<LayerItem>, item: LayerItem, groupName: Option<string>, index: Option<int>)
    : seq<LayerItem>
  {
    if GroupNameGiven(groupName) then
      match FindGroup(tree, groupName.value)
      case None => tree
      case Some(p) =>
        FindFromSound(tree, groupName.value, 0);
        var g := ItemAt(tree, p);
        ReplaceAt(tree, p, Group(g.name, JsArray.Insert(g.layers, index.GetOr(|g.layers|), item)))
    else
      JsArray.Insert(tree, index.GetOr(|tree|), item)
  }

  /**
   * `_addLayerTreeItem`: without a parent name the item goes into the root at
   * `index ?? length`; under an unknown parent nothing changes; under a known
   * parent the item goes into that group at `index ?? end`, only the top-level
   * slot holding the group is rewritten, and the group keeps its name.
   */
  lemma TreeAfterAddSpec(tree: seq<LayerItem>, item: LayerItem, groupName: Option<string>, index: Option<int>)
    ensures !GroupNameGiven(groupName) ==>
      TreeAfterAdd(tree, item, groupName, index) == JsArray.Insert(tree, index.GetOr(|tree|), item)
    ensures !Resolves(tree, groupName) ==> TreeAfterAdd(tree, item, groupName, index) == tree
    ensures GroupNameGiven(groupName) && Resolves(tree, groupName) ==>
      var p := FindGroup(tree, groupName.value).value;
      var r := TreeAfterAdd(tree, item, groupName, index);
      && NamedGroupAt(tree, p, groupName.value)
      && |r| == |tree|
      && (forall j :: 0 <= j < |tree| && j != p[0] ==> r[j] == tree[j])
      && ValidPath(r, p)
      && ItemAt(r, p) == Group(groupName.value,
           JsArray.Insert(ItemAt(tree, p).layers, index.GetOr(|ItemAt(tree, p).layers|), item))
  {
    if GroupNameGiven(groupName) && Resolves(tree, groupName) {
      var p := FindGroup(tree, groupName.value).value;
      FindFromSound(tree, groupName.value, 0);
      var g := ItemAt(tree, p);
      ReplaceAtEffect(tree, p, Group(g.name, JsArray.Insert(g.layers, index.GetOr(|g.layers|), item)));
    }
  }

  /** Adding an item adds exactly its leaves to the render order, when it is placed at all. */
  lemma {:induction false} TreeAfterAddLeaves(tree: seq<LayerItem>, item: LayerItem, groupName: Option<string>, index: Option<int>)
    ensures multiset(Flatten(TreeAfterAdd(tree, item, groupName, index))) ==
      multiset(Flatten(tree)) + (if Resolves(tree, groupName) then multiset(Flatten([item])) else multiset{})
  {
    if !GroupNameGiven(groupName) {
      InsertLeaves(tree, index.GetOr(|tree|), item);
    } else if Resolves(tree, groupName) {
      var p := FindGroup(tree, groupName.value).value;
      FindFromSound(tree, groupName.value, 0);
      AddIntoGroupLeaves(tree, p, item, index);
    }
  }

  /** Inserting into the group at `p` and writing it back adds exactly the item's leaves. */
  lemma AddIntoGroupLeaves(tree: seq<LayerItem>, p: Path, item: LayerItem, index: Option<int>)
    requires ValidPath(tree, p) && ItemAt(tree, p).Group?
    ensures var g := ItemAt(tree, p);
      multiset(Flatten(ReplaceAt(tree, p, Group(g.name, JsArray.Insert(g.layers, index.GetOr(|g.layers|), item)))))
        == multiset(Flatten(tree)) + multiset(Flatten([item]))
  {
    var g := ItemAt(tree, p);
    var ins := JsArray.Insert(g.layers, index.GetOr(|g.layers|), item);
    var before, after := FlattenReplaceAt(tree, p, Group(g.name, ins));
    FlattenOne(g);
    FlattenOne(Group(g.name, ins));
    InsertLeaves(g.layers, index.GetOr(|g.layers|), item);
  }

  /** Inserting an entry into a list adds exactly its leaves. */
  lemma InsertLeaves(items: seq<LayerItem>, index: int, item: LayerItem)
    ensures multiset(Flatten(JsArray.Insert(items, index, item))) == multiset(Flatten(items)) + multiset(Flatten([item]))
  {
    var k := JsArray.SpliceStart(|items|, index);
    assert items == items[..k] + items[k..];
    FlattenAppend(items[..k], items[k..]);
    FlattenAppend(items[..k] + [item], items[k..]);
    FlattenAppend(items[..k], [item]);
  }

  /** The tree after `addGroup(name, groupName, position)`. */
  function TreeAfterAddGroup(tree: seq<LayerItem>, name: string, groupName: Option<string>, position: Option<int>)
    : seq<LayerItem>
  {
    if FindGroup(tree, name).Some? then tree else TreeAfterAdd(tree, Group(name, []), groupName, position)
  }

  /**
   * After `addGroup`, a group of that name exists iff one existed before or
   * the new group could be placed; an existing name leaves the tree as it is.
   */
  lemma AddGroupSpec(tree: seq<LayerItem>, name: string, groupName: Option<string>, position: Option<int>)
    ensures FindGroup(tree, name).Some? ==> TreeAfterAddGroup(tree, name, groupName, position) == tree
    ensures FindGroup(TreeAfterAddGroup(tree, name, groupName, position), name).Some? <==>
      (FindGroup(tree, name).Some? || Resolves(tree, groupName))
  {
    var r := TreeAfterAddGroup(tree, name, groupName, position);
    var x := Group(name, []);
    FindGroupSpec(r, name);
    if FindGroup(tree, name).None? {
      TreeAfterAddSpec(tree, x, groupName, position);
      if !GroupNameGiven(groupName) {
        var k := JsArray.SpliceStart(|tree|, position.GetOr(|tree|));
        assert r[k] == x;
        assert NamedGroupAt(r, [k], name);
      } else if Resolves(tree, groupName) {
        var p := FindGroup(tree, groupName.value).value;
        var layers := ItemAt(tree, p).layers;
        var k := JsArray.SpliceStart(|layers|, position.GetOr(|layers|));
        ItemAtExtend(r, p, k);
        assert NamedGroupAt(r, p + [k], name);
      }
    }
  }

  /** Adding a layer id adds one occurrence of it to the render order, even when the id is already there. */
  lemma AddLayerLeaves(tree: seq<LayerItem>, id: string, groupName: Option<string>, position: Option<int>)
    ensures multiset(Flatten(TreeAfterAdd(tree, Leaf(id), groupName, position))) ==
      multiset(Flatten(tree)) + (if Resolves(tree, groupName) then multiset{id} else multiset{})
  {
    TreeAfterAddLeaves(tree, Leaf(id), groupName, position);
    FlattenOne(Leaf(id));
  }

  /** The tree after `renameLayerGroup(groupName, newName)`. */
  function TreeAfterRename(tree: seq<LayerItem>, groupName: string, newName: string): seq<LayerItem> {
    match FindGroup(tree, groupName)
    case None => tree
    case Some(p) =>
      FindFromSound(tree, groupName, 0);
      ReplaceAt(tree, p, Group(newName, ItemAt(tree, p).layers))
  }

  /**
   * Renaming changes only the found group's name: its children, every other
   * top-level slot and the render order stay; without a match nothing changes.
   */
  lemma RenameSpec(tree: seq<LayerItem>, groupName: string, newName: string)
    ensures FindGroup(tree, groupName).None? ==> TreeAfterRename(tree, groupName, newName) == tree
    ensures FindGroup(tree, groupName).Some? ==>
      var p := FindGroup(tree, groupName).value;
      var r := TreeAfterRename(tree, groupName, newName);
      && NamedGroupAt(tree, p, groupName)
      && |r| == |tree|
      && (forall j :: 0 <= j < |tree| && j != p[0] ==> r[j] == tree[j])
      && ValidPath(r, p)
      && ItemAt(r, p) == Group(newName, ItemAt(tree, p).layers)
    ensures Flatten(TreeAfterRename(tree, groupName, newName)) == Flatten(tree)
  {
    if FindGroup(tree, groupName).Some? {
      var p := FindGroup(tree, groupName).value;
      FindFromSound(tree, groupName, 0);
      var x := Group(newName, ItemAt(tree, p).layers);
      ReplaceAtEffect(tree, p, x);
      var before, after := FlattenReplaceAt(tree, p, x);
      FlattenOne(x);
      FlattenOne(ItemAt(tree, p));
    }
  }

  /** Renaming a group to an unused name and back restores the tree. */
  lemma RenameRoundTrip(tree: seq<LayerItem>, a: string, b: string)
    requires FindGroup(tree, a).Some? && FindGroup(tree, b).None?
    ensures TreeAfterRename(TreeAfterRename(tree, a, b), b, a) == tree
  {
    var p := FindGroup(tree, a).value;
    FindFromSound(tree, a, 0);
    FindGroupSpec(tree, b);
    var g := ItemAt(tree, p);
    var r1 := TreeAfterRename(tree, a, b);
    assert r1 == ReplaceAt(tree, p, Group(b, g.layers));
    ReplaceAtEffect(tree, p, Group(b, g.layers));
    forall q | NamedGroupAt(r1, q, b)
      ensures q == p
    {
      RenameKeepsOtherPaths(tree, p, b, q);
    }
    FindUnique(r1, b, p);
    ReplaceAtTwice(tree, p, Group(b, g.layers), Group(a, g.layers));
    assert Group(a, g.layers) == g;
    ReplaceAtSame(tree, p);
  }

  /**
   * The tree after `removeLayerGroup(groupName)` as written: every group of
   * that name is filtered out of a copy of the tree, but only the copy's
   * entry at the first match's top-level index is written back, at that index.
   */
  function TreeAfterRemove(tree: seq<LayerItem>, groupName: string): seq<LayerItem> {
    var k := LayerTreeInfo(tree, groupName).mainGroupIndex;
    var updated := RemoveGroups(tree, groupName);
    WriteSlot(tree, k, if 0 <= k < |updated| then Some(updated[k]) else None)
  }

  /**
   * The intended effect of `removeLayerGroup`: the stored tree becomes the
   * filtered tree, with no group of that name left, the surviving layers in
   * their order, and nothing changed when there is no such group.
   */
  function CorrectedTreeAfterRemove(tree: seq<LayerItem>, groupName: string): (r: seq<LayerItem>)
    ensures forall q :: IsGroupPath(r, q) ==> ItemAt(r, q).name != groupName
    ensures IsSubsequence(Flatten(r), Flatten(tree))
    ensures forall p :: ValidPath(tree, p) && ItemAt(tree, p).Leaf? && Outside(tree, p, groupName) ==>
      ItemAt(tree, p).id in Flatten(r)
    ensures forall x :: x in Flatten(r) ==>
      exists p :: ValidPath(tree, p) && ItemAt(tree, p) == Leaf(x) && Outside(tree, p, groupName)
    ensures forall q :: IsGroupPath(tree, q) && Outside(tree, q, groupName) ==>
      exists q' :: IsGroupPath(r, q') && ItemAt(r, q').name == ItemAt(tree, q).name
    ensures FindGroup(tree, groupName).None? ==> r == tree
  {
    var r := RemoveGroups(tree, groupName);
    assert forall p :: ValidPath(tree, p) && ItemAt(tree, p).Leaf? && Outside(tree, p, groupName) ==>
      ItemAt(tree, p).id in Flatten(r) by {
      forall p | ValidPath(tree, p) && ItemAt(tree, p).Leaf? && Outside(tree, p, groupName)
        ensures ItemAt(tree, p).id in Flatten(r)
      {
        RemoveGroupsKeepsLeaf(tree, groupName, p);
      }
    }
    assert forall x :: x in Flatten(r) ==>
      exists p :: ValidPath(tree, p) && ItemAt(tree, p) == Leaf(x) && Outside(tree, p, groupName) by {
      forall x | x in Flatten(r)
        ensures exists p :: ValidPath(tree, p) && ItemAt(tree, p) == Leaf(x) && Outside(tree, p, groupName)
      {
        var p := RemoveGroupsLeafOrigin(tree, groupName, x);
      }
    }
    assert forall q :: IsGroupPath(tree, q) && Outside(tree, q, groupName) ==>
      exists q' :: IsGroupPath(r, q') && ItemAt(r, q').name == ItemAt(tree, q).name by {
      forall q | IsGroupPath(tree, q) && Outside(tree, q, groupName)
        ensures exists q' :: IsGroupPath(r, q') && ItemAt(r, q').name == ItemAt(tree, q).name
      {
        var q' := RemoveGroupsKeepsGroup(tree, groupName, q);
      }
    }
    assert forall q :: IsGroupPath(r, q) ==> ItemAt(r, q).name != groupName by {
      forall q | IsGroupPath(r, q)
        ensures ItemAt(r, q).name != groupName
      {
        RemoveGroupsLeavesNone(tree, groupName, q);
      }
    }
    RemoveGroupsKeepsOrder(tree, groupName);
    FindGroupSpec(tree, groupName);
    if FindGroup(tree, groupName).None? then
      RemoveGroupsAbsent(tree, groupName);
      r
    else
      r
  }

  /** Without a match, `removeLayerGroup` writes nothing (index -1 reads undefined). */
  lemma RemoveNotFound(tree: seq<LayerItem>, groupName: string)
    requires FindGroup(tree, groupName).None?
    ensures TreeAfterRemove(tree, groupName) == tree
  {
  }

  /** Filtering splits around the first match's top-level slot; everything before it survives unchanged. */
  lemma RemoveGroupsAroundFirst(tree: seq<LayerItem>, name: string)
    requires FindGroup(tree, name).Some?
    ensures var k := FindGroup(tree, name).value[0];
      RemoveGroups(tree, name) == tree[..k] + RemoveGroups([tree[k]], name) + RemoveGroups(tree[k + 1..], name)
  {
    var k := FindGroup(tree, name).value[0];
    FirstMatchContext(tree, name);
    RemoveGroupsAbsent(tree[..k], name);
    assert tree == tree[..k] + [tree[k]] + tree[k + 1..];
    RemoveGroupsAppend(tree[..k] + [tree[k]], tree[k + 1..], name);
    RemoveGroupsAppend(tree[..k], [tree[k]], name);
  }

  /**
   * A nested first match: the top-level group holding it is written back with
   * every group of that name removed from its subtree; no other slot changes.
   */
  lemma RemoveNested(tree: seq<LayerItem>, groupName: string)
    requires FindGroup(tree, groupName).Some? && |FindGroup(tree, groupName).value| > 1
    ensures var k := FindGroup(tree, groupName).value[0];
      && k < |tree| && tree[k].Group?
      && TreeAfterRemove(tree, groupName) == tree[k := Group(tree[k].name, RemoveGroups(tree[k].layers, groupName))]
  {
    var k := FindGroup(tree, groupName).value[0];
    FirstMatchContext(tree, groupName);
    RemoveGroupsAroundFirst(tree, groupName);
    assert [tree[k]][1..] == [];
    assert RemoveGroups([tree[k]], groupName) == [Group(tree[k].name, RemoveGroups(tree[k].layers, groupName))];
  }

  /**
   * When the only group of that name is nested, the code as written and the
   * intended removal agree.
   */
  lemma RemoveNestedUniqueAgrees(tree: seq<LayerItem>, groupName: string, p: Path)
    requires NamedGroupAt(tree, p, groupName) && |p| > 1
    requires forall q :: NamedGroupAt(tree, q, groupName) ==> q == p
    ensures TreeAfterRemove(tree, groupName) == CorrectedTreeAfterRemove(tree, groupName)
  {
    FindUnique(tree, groupName, p);
    var k := p[0];
    var y := Group(tree[k].name, RemoveGroups(tree[k].layers, groupName));
    assert TreeAfterRemove(tree, groupName) == tree[k := y] by {
      RemoveNested(tree, groupName);
    }
    assert RemoveGroups(tree, groupName) == tree[..k] + [y] + tree[k + 1..] by {
      var rest := tree[k + 1..];
      RemoveGroupsAroundFirst(tree, groupName);
      UniqueNotAfter(tree, groupName, p, rest);
      RemoveGroupsAbsent(rest, groupName);
      FirstMatchContext(tree, groupName);
      assert [tree[k]][1..] == [];
      assert RemoveGroups([tree[k]], groupName) == [y];
    }
    assert tree[k := y] == tree[..k] + [y] + tree[k + 1..];
  }

  /** The only group of a name sits at `p`: nothing after its top-level slot has that name. */
  lemma UniqueNotAfter(tree: seq<LayerItem>, groupName: string, p: Path, rest: seq<LayerItem>)
    requires NamedGroupAt(tree, p, groupName)
    requires forall q :: NamedGroupAt(tree, q, groupName) ==> q == p
    requires rest == tree[p[0] + 1..]
    ensures forall q :: IsGroupPath(rest, q) ==> ItemAt(rest, q).name != groupName
  {
    var k := p[0];
    forall q | IsGroupPath(rest, q)
      ensures ItemAt(rest, q).name != groupName
    {
      SuffixGroupPath(tree, k + 1, q);
      var q' := [q[0] + k + 1] + q[1..];
      assert q'[0] != p[0];
      assert !NamedGroupAt(tree, q', groupName);
    }
  }

  /**
   * The code as written on a top-level group followed by a layer: the slot of
   * the removed group receives a copy of that layer, so the layer appears
   * twice and the group is gone only by being overwritten.
   */
  lemma RemoveTopLevelDuplicatesSibling()
    ensures TreeAfterRemove([Group("G", []), Leaf("L1")], "G") == [Leaf("L1"), Leaf("L1")]
    ensures CorrectedTreeAfterRemove([Group("G", []), Leaf("L1")], "G") == [Leaf("L1")]
  {
    var tree := [Group("G", []), Leaf("L1")];
    assert FindFrom(tree, "G", 0) == Some([0]);
    assert tree[1..] == [Leaf("L1")];
    assert [Leaf("L1")][1..] == [];
    assert RemoveGroups([Leaf("L1")], "G") == [Leaf("L1")];
    assert RemoveGroups(tree, "G") == [Leaf("L1")];
  }

  /** In general: a top-level first match followed by a layer leaves that layer in both slots. */
  lemma RemoveTopLevelWithLeafAfter(tree: seq<LayerItem>, groupName: string)
    requires FindGroup(tree, groupName).Some? && |FindGroup(tree, groupName).value| == 1
    requires var k := FindGroup(tree, groupName).value[0]; k + 1 < |tree| && tree[k + 1].Leaf?
    ensures var k := FindGroup(tree, groupName).value[0];
      var r := TreeAfterRemove(tree, groupName);
      |r| == |tree| && r[k] == tree[k + 1] && r[k + 1] == tree[k + 1]
  {
    var k := FindGroup(tree, groupName).value[0];
    FindFromSound(tree, groupName, 0);
    assert FindGroup(tree, groupName).value == [k];
    RemoveGroupsAroundFirst(tree, groupName);
    assert [tree[k]][1..] == [];
    assert RemoveGroups([tree[k]], groupName) == [];
    var rest := tree[k + 1..];
    assert rest == [rest[0]] + rest[1..];
    assert RemoveGroups(rest, groupName)[0] == tree[k + 1];
  }

  /**
   * A top-level first match in the last slot: the filtered copy has no entry
   * at that index, so the write is of undefined, which the store is taken to
   * ignore; the group stays where it is.
   */
  lemma RemoveTopLevelLastKeepsTree(tree: seq<LayerItem>, groupName: string)
    requires |tree| > 0 && FindGroup(tree, groupName) == Some([|tree| - 1])
    ensures |RemoveGroups(tree, groupName)| == |tree| - 1
    ensures TreeAfterRemove(tree, groupName) == tree
  {
    var k := |tree| - 1;
    FindFromSound(tree, groupName, 0);
    RemoveGroupsAroundFirst(tree, groupName);
    assert [tree[k]][1..] == [];
    assert RemoveGroups([tree[k]], groupName) == [];
    assert tree[k + 1..] == [];
    assert tree[..k] + [] + [] == tree[..k];
  }

  // ---------------------------------------------------------------------------
  // The model object
  // ---------------------------------------------------------------------------

  class JupyterGISModel {
    const sharedModel: SharedDoc
    var dirty: bool
    var isDisposed: bool

    constructor (sharedModel: SharedDoc)
      ensures this.sharedModel == sharedModel && !dirty && !isDisposed
    {
      this.sharedModel := sharedModel;
      dirty := false;
      isDisposed := false;
    }

    /** `getContent`: the four parts of the shared document. */
    function GetContent(): Content
      reads this, sharedModel
    {
      Content(sharedModel.sources, sharedModel.layers, sharedModel.layerTree, sharedModel.options)
    }

    /**
     * `fromString`: unparsable text (`raw` is None) or content the schema
     * rejects throws before anything is written; otherwise the four parts are
     * installed with their defaults and the model is marked dirty.
     */
    method FromString(raw: Option<RawContent>, validate: RawContent -> bool) returns (outcome: LoadOutcome)
      modifies this, sharedModel
      ensures outcome == (if raw.None? then ParseError else if !validate(raw.value) then FormatError else Loaded)
      ensures outcome != Loaded ==>
        GetContent() == old(GetContent()) && dirty == old(dirty) && isDisposed == old(isDisposed)
      ensures outcome == Loaded ==> GetContent() == Installed(raw.value) && dirty && isDisposed == old(isDisposed)
      ensures sharedModel.editable == old(sharedModel.editable) && sharedModel.isDisposed == old(sharedModel.isDisposed)
    {
      if raw.None? {
        return ParseError;
      }
      if !validate(raw.value) {
        return FormatError;
      }
      sharedModel.SetContent(Installed(raw.value));
      dirty := true;
      return Loaded;
    }

    /** `dispose`: the first call disposes the model and its document; later calls do nothing. */
    method Dispose()
      modifies this, sharedModel
      ensures isDisposed && dirty == old(dirty)
      ensures old(isDisposed) ==> sharedModel.isDisposed == old(sharedModel.isDisposed)
      ensures !old(isDisposed) ==> sharedModel.isDisposed
      ensures GetContent() == old(GetContent()) && sharedModel.editable == old(sharedModel.editable)
    {
      if isDisposed {
        return;
      }
      isDisposed := true;
      sharedModel.Dispose();
    }

    /** `getOrderedLayerIds`: the layer ids in render order. */
    method GetOrderedLayerIds() returns (ids: seq<string>)
      ensures ids == Flatten(sharedModel.layerTree)
    {
      ids := LayerTreeRecursion(sharedModel.layerTree, []);
    }

    /** `getSourcesByType`: the ids of the sources of type `t`, each mapped to the source's name. */
    method GetSourcesByType(t: string) returns (r: map<string, string>)
      ensures r.Keys == set id | id in sharedModel.sources && sharedModel.sources[id].sourceType == t
      ensures forall id :: id in r ==> r[id] == sharedModel.sources[id].name
    {
      var sources := sharedModel.sources;
      var keys := sources.Keys;
      r := map[];
      while keys != {}
        invariant keys <= sources.Keys
        invariant r.Keys == set id | id in sources && id !in keys && sources[id].sourceType == t
        invariant forall id :: id in r ==> r[id] == sources[id].name
        decreases keys
      {
        var sourceId :| sourceId in keys;
        keys := keys - {sourceId};
        var source := sharedModel.GetSource(sourceId);
        if source.Some? && source.value.sourceType == t {
          r := r[sourceId := source.value.name];
        }
      }
    }

    /** `_getLayerTreeInfo`: finds the group, then walks down to it from its top-level group. */
    method GetLayerTreeInfo(groupName: string) returns (info: TreeInfo)
      ensures info == LayerTreeInfo(sharedModel.layerTree, groupName)
    {
      var layerTree := sharedModel.layerTree;
      var indexesPath := FindGroupPath(layerTree, groupName, []);
      ghost var found := FindGroup(layerTree, groupName);
      if |indexesPath| == 0 {
        LayerTreeInfoCases(layerTree, groupName);
        return TreeInfo(None, None, -1, []);
      }
      ghost var p := found.value;
      EmptyPrefix(p);
      FindFromSound(layerTree, groupName, 0);
      PathStart(layerTree, p);
      var mainGroupIndex := indexesPath[0];
      indexesPath := indexesPath[1..];
      var innerPath := indexesPath;
      var mainGroup := layerTree[mainGroupIndex];
      var workingGroup := mainGroup;
      ghost var m := 1;
      while |indexesPath| > 0
        invariant 1 <= m <= |p| && m + |indexesPath| == |p|
        invariant indexesPath == p[m..]
        invariant ValidPath(layerTree, p[..m])
        invariant workingGroup == ItemAt(layerTree, p[..m])
        decreases |indexesPath|
      {
        ItemAtStep(layerTree, p, m);
        var groupIndex := indexesPath[0];
        indexesPath := indexesPath[1..];
        workingGroup := workingGroup.layers[groupIndex];
        m := m + 1;
      }
      assert p[..m] == p;
      LayerTreeInfoCases(layerTree, groupName);
      return TreeInfo(Some(mainGroup), Some(workingGroup), mainGroupIndex, innerPath);
    }

    /**
     * `_addLayerTreeItem`: splices `item` into the named group (rebuilt along
     * its path) and writes back the top-level group, or inserts it at the root.
     */
    method AddLayerTreeItem(item: LayerItem, groupName: Option<string>, index: Option<int>)
      modifies sharedModel
      ensures sharedModel.layerTree == TreeAfterAdd(old(sharedModel.layerTree), item, groupName, index)
      ensures sharedModel.layers == old(sharedModel.layers) && sharedModel.sources == old(sharedModel.sources)
      ensures sharedModel.options == old(sharedModel.options)
      ensures sharedModel.editable == old(sharedModel.editable) && sharedModel.isDisposed == old(sharedModel.isDisposed)
    {
      if GroupNameGiven(groupName) {
        var info := GetLayerTreeInfo(groupName.value);
        if info.workingGroup.Some? && info.mainGroup.Some? {
          var w := info.workingGroup.value;
          var newWorking := Group(w.name, JsArray.Insert(w.layers, index.GetOr(|w.layers|), item));
          var newMain := Rebuild(info.mainGroup.value, info.innerPath, newWorking);
          sharedModel.UpdateLayerTreeItem(info.mainGroupIndex, Some(newMain));
        }
      } else {
        sharedModel.AddLayerTreeItem(index.GetOr(|sharedModel.layerTree|), item);
      }
    }

    /** `addGroup`: adds an empty group unless a group of that name exists anywhere. */
    method AddGroup(name: string, groupName: Option<string>, position: Option<int>)
      modifies sharedModel
      ensures sharedModel.layerTree == TreeAfterAddGroup(old(sharedModel.layerTree), name, groupName, position)
      ensures sharedModel.layers == old(sharedModel.layers) && sharedModel.sources == old(sharedModel.sources)
      ensures sharedModel.options == old(sharedModel.options)
      ensures sharedModel.editable == old(sharedModel.editable) && sharedModel.isDisposed == old(sharedModel.isDisposed)
    {
      var indexesPath := FindGroupPath(sharedModel.layerTree, name, []);
      if |indexesPath| > 0 {
        return;
      }
      AddLayerTreeItem(Group(name, []), groupName, position);
    }

    /**
     * `addLayer`: stores the layer only when the id is new, and always adds a
     * reference to the id to the tree.
     */
    method AddLayer(id: string, layer: Layer, groupName: Option<string>, position: Option<int>)
      modifies sharedModel
      ensures sharedModel.layers == if id in old(sharedModel.layers) then old(sharedModel.layers)
                                    else old(sharedModel.layers)[id := layer]
      ensures sharedModel.layerTree == TreeAfterAdd(old(sharedModel.layerTree), Leaf(id), groupName, position)
      ensures sharedModel.sources == old(sharedModel.sources) && sharedModel.options == old(sharedModel.options)
      ensures sharedModel.editable == old(sharedModel.editable) && sharedModel.isDisposed == old(sharedModel.isDisposed)
    {
      if sharedModel.GetLayer(id).None? {
        sharedModel.AddLayer(id, layer);
      }
      AddLayerTreeItem(Leaf(id), groupName, position);
    }

    /** `renameLayerGroup`: renames the first group of that name and writes back its top-level group. */
    method RenameLayerGroup(groupName: string, newName: string)
      modifies sharedModel
      ensures sharedModel.layerTree == TreeAfterRename(old(sharedModel.layerTree), groupName, newName)
      ensures sharedModel.layers == old(sharedModel.layers) && sharedModel.sources == old(sharedModel.sources)
      ensures sharedModel.options == old(sharedModel.options)
      ensures sharedModel.editable == old(sharedModel.editable) && sharedModel.isDisposed == old(sharedModel.isDisposed)
    {
      var info := GetLayerTreeInfo(groupName);
      if info.workingGroup.Some? && info.mainGroup.Some? {
        var w := info.workingGroup.value;
        var newMain := Rebuild(info.mainGroup.value, info.innerPath, Group(newName, w.layers));
        sharedModel.UpdateLayerTreeItem(info.mainGroupIndex, Some(newMain));
      }
    }

    /** `removeLayerGroup`, as written: see `TreeAfterRemove`. */
    method RemoveLayerGroup(groupName: string)
      modifies sharedModel
      ensures sharedModel.layerTree == TreeAfterRemove(old(sharedModel.layerTree), groupName)
      ensures sharedModel.layers == old(sharedModel.layers) && sharedModel.sources == old(sharedModel.sources)
      ensures sharedModel.options == old(sharedModel.options)
      ensures sharedModel.editable == old(sharedModel.editable) && sharedModel.isDisposed == old(sharedModel.isDisposed)
    {
      var info := GetLayerTreeInfo(groupName);
      var layerTree := sharedModel.layerTree;
      var updatedLayerTree := RemoveGroups(layerTree, groupName);
      var k := info.mainGroupIndex;
      sharedModel.UpdateLayerTreeItem(k, if 0 <= k < |updatedLayerTree| then Some(updatedLayerTree[k]) else None);
    }
  }

  /**
   * The top-level group `main` with `x` put at `inner` below it (or `x`
   * itself when `inner` is empty): the value written back to `main`'s slot.
   */
  function Rebuild(main: LayerItem, inner: Path, x: LayerItem): (r: LayerItem)
    requires inner == [] || (main.Group? && ValidPath(main.layers, inner))
    ensures forall tree: seq<LayerItem>, k: nat ::
      k < |tree| && tree[k] == main && ValidPath(tree, [k] + inner) ==>
      ReplaceAt(tree, [k] + inner, x) == tree[k := r]
  {
    assert forall k: nat :: ([k] + inner)[1..] == inner;
    if inner == [] then x else Group(main.name, ReplaceAt(main.layers, inner, x))
  }
}
