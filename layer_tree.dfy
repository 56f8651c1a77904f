/**
 * The layer tree of a JupyterGIS document and the pure algorithms over it:
 * flattening to render order, locating a group by name, and removing every
 * group of a name together with its subtree.
 */
module LayerTree {
  import opened Wrappers

  /** An entry of the layer tree: a layer id, or a named group of entries. */
  datatype LayerItem = Leaf(id: string) | Group(name: string, layers: seq<LayerItem>)

  /** A position in the tree: one index per level, from the root list down. */
  type Path = seq<nat>

  // ---------------------------------------------------------------------------
  // Paths
  // ---------------------------------------------------------------------------

  /** `path` is non-empty, in range at every level, and passes only through groups. */
  ghost predicate ValidPath(items: seq<LayerItem>, path: Path)
    decreases path
  {
    && |path| > 0
    && path[0] < |items|
    && (|path| == 1 || (items[path[0]].Group? && ValidPath(items[path[0]].layers, path[1..])))
  }

  /** The entry `path` leads to. */
  function ItemAt(items: seq<LayerItem>, path: Path): LayerItem
    requires ValidPath(items, path)
    decreases path
  {
    if |path| == 1 then items[path[0]] else ItemAt(items[path[0]].layers, path[1..])
  }

  /** `path` addresses a group (and, by `ValidPath`, passes only through groups). */
  ghost predicate IsGroupPath(items: seq<LayerItem>, path: Path) {
    ValidPath(items, path) && ItemAt(items, path).Group?
  }

  /** `path` addresses a group named `name`. */
  ghost predicate NamedGroupAt(items: seq<LayerItem>, path: Path, name: string) {
    IsGroupPath(items, path) && ItemAt(items, path).name == name
  }

  /** Pre-order on paths: a group comes before its children, siblings left to right. */
  predicate PreOrderLe(p: Path, q: Path)
    decreases |p|
  {
    p == [] || (q != [] && (p[0] < q[0] || (p[0] == q[0] && PreOrderLe(p[1..], q[1..]))))
  }

  /** Every non-empty prefix of a group path addresses a group. */
  lemma {:induction false} GroupPathPrefixes(items: seq<LayerItem>, p: Path, k: nat)
    requires IsGroupPath(items, p)
    requires 1 <= k <= |p|
    ensures IsGroupPath(items, p[..k])
    decreases p
  {
    if k == |p| {
      assert p[..k] == p;
    } else {
      var g := items[p[0]];
      if k == 1 {
        assert p[..k] == [p[0]];
      } else {
        GroupPathPrefixes(g.layers, p[1..], k - 1);
        assert p[..k][1..] == p[1..][..k - 1];
        assert ItemAt(items, p[..k]) == ItemAt(g.layers, p[1..][..k - 1]);
      }
    }
  }

  /** Pre-order is antisymmetric. */
  lemma {:induction false} PreOrderAntisymmetric(p: Path, q: Path)
    requires PreOrderLe(p, q) && PreOrderLe(q, p)
    ensures p == q
    decreases |p|
  {
    if p != [] && q != [] {
      PreOrderAntisymmetric(p[1..], q[1..]);
      assert p == [p[0]] + p[1..] && q == [q[0]] + q[1..];
    }
  }

  // ---------------------------------------------------------------------------
  // Flattening: Private.layerTreeRecursion / getOrderedLayerIds
  // ---------------------------------------------------------------------------

  /** The leaf ids of `items` in pre-order; groups contribute only their leaves. */
  function Flatten(items: seq<LayerItem>): seq<string>
    decreases items
  {
    if items == [] then []
    else
      (match items[0]
       case Leaf(id) => [id]
       case Group(_, layers) => Flatten(layers))
      + Flatten(items[1..])
  }

  /** The number of leaves in `items`, at any depth. */
  function LeafCount(items: seq<LayerItem>): nat
    decreases items
  {
    if items == [] then 0
    else
      (match items[0]
       case Leaf(_) => 1
       case Group(_, layers) => LeafCount(layers))
      + LeafCount(items[1..])
  }

  /** Flattening distributes over concatenation. */
  lemma {:induction false} FlattenAppend(a: seq<LayerItem>, b: seq<LayerItem>)
    ensures Flatten(a + b) == Flatten(a) + Flatten(b)
    decreases a
  {
    if a == [] {
      assert a + b == b;
    } else {
      assert (a + b)[0] == a[0] && (a + b)[1..] == a[1..] + b;
      FlattenAppend(a[1..], b);
    }
  }

  /** One id per leaf. */
  lemma {:induction false} FlattenLength(items: seq<LayerItem>)
    ensures |Flatten(items)| == LeafCount(items)
    decreases items
  {
    if items != [] {
      if items[0].Group? {
        FlattenLength(items[0].layers);
      }
      FlattenLength(items[1..]);
    }
  }

  /** Every leaf reachable by a path appears in the flattened order. */
  lemma {:induction false} FlattenHasEveryLeaf(items: seq<LayerItem>, p: Path)
    requires ValidPath(items, p) && ItemAt(items, p).Leaf?
    ensures ItemAt(items, p).id in Flatten(items)
    decreases items
  {
    var k := p[0];
    assert items == items[..k] + [items[k]] + items[k + 1..];
    FlattenAppend(items[..k] + [items[k]], items[k + 1..]);
    FlattenAppend(items[..k], [items[k]]);
    assert Flatten([items[k]]) == (match items[k] case Leaf(id) => [id] case Group(_, l) => Flatten(l)) + Flatten([]);
    if |p| > 1 {
      FlattenHasEveryLeaf(items[k].layers, p[1..]);
    }
  }

  /** Every flattened id is the id of a leaf reachable by a path. */
  lemma {:induction false} FlattenOnlyLeaves(items: seq<LayerItem>, x: string) returns (p: Path)
    requires x in Flatten(items)
    ensures ValidPath(items, p) && ItemAt(items, p) == Leaf(x)
    decreases items
  {
    var head := match items[0] case Leaf(id) => [id] case Group(_, l) => Flatten(l);
    if x in head {
      match items[0]
      case Leaf(id) =>
        p := [0];
      case Group(_, l) =>
        var q := FlattenOnlyLeaves(l, x);
        p := [0] + q;
        assert p[1..] == q;
    } else {
      var q := FlattenOnlyLeaves(items[1..], x);
      p := [q[0] + 1] + q[1..];
      assert p[1..] == q[1..];
      assert items[p[0]] == items[1..][q[0]];
    }
  }

  /** Extending a prefix by one item appends that item's leaf ids. */
  lemma FlattenPrefixStep(items: seq<LayerItem>, i: nat, current: seq<string>, piece: seq<string>)
    requires i < |items|
    requires piece == match items[i] case Leaf(id) => [id] case Group(_, layers) => Flatten(layers)
    ensures current + Flatten(items[..i + 1]) == current + Flatten(items[..i]) + piece
  {
    assert items[..i + 1] == items[..i] + [items[i]];
    FlattenAppend(items[..i], [items[i]]);
    assert [items[i]][1..] == [];
  }

  /**
   * The recursive walk of `Private.layerTreeRecursion`: appends the leaf ids of
   * `items` to `current` (a fresh list on every recursive call).
   */
  method LayerTreeRecursion(items: seq<LayerItem>, current: seq<string>) returns (r: seq<string>)
    ensures r == current + Flatten(items)
    decreases items
  {
    r := current;
    for i := 0 to |items|
      invariant r == current + Flatten(items[..i])
    {
      match items[i] {
        case Leaf(id) =>
          FlattenPrefixStep(items, i, current, [id]);
          r := r + [id];
        case Group(_, layers) =>
          var sub := LayerTreeRecursion(layers, []);
          FlattenPrefixStep(items, i, current, Flatten(layers));
          assert sub == Flatten(layers);
          r := r + sub;
      }
    }
    assert items[..|items|] == items;
  }

  // ---------------------------------------------------------------------------
  // Locating a group: Private.findGroupPath
  // ---------------------------------------------------------------------------

  /**
   * The first group named `name` in pre-order among `items[i..]` and their
   * subtrees, as a path from `items`.
   */
  function FindFrom(items: seq<LayerItem>, name: string, i: nat): (r: Option<Path>)
    requires i <= |items|
    ensures r.Some? ==> |r.value| >= 1 && i <= r.value[0] < |items|
    decreases items, |items| - i
  {
    if i == |items| then None
    else
      match items[i]
      case Leaf(_) => FindFrom(items, name, i + 1)
      case Group(n, layers) =>
        if n == name then Some([i])
        else
          match FindFrom(layers, name, 0)
          case Some(p) => Some([i] + p)
          case None => FindFrom(items, name, i + 1)
  }

  /** The path to the first group named `name` in pre-order, if there is one. */
  function FindGroup(items: seq<LayerItem>, name: string): Option<Path> {
    FindFrom(items, name, 0)
  }

  /** A found path addresses a group of that name. */
  lemma {:induction false} FindFromSound(items: seq<LayerItem>, name: string, i: nat)
    requires i <= |items| && FindFrom(items, name, i).Some?
    ensures NamedGroupAt(items, FindFrom(items, name, i).value, name)
    decreases items, |items| - i
  {
    match items[i]
    case Leaf(_) =>
      FindFromSound(items, name, i + 1);
    case Group(n, layers) =>
      if n != name {
        match FindFrom(layers, name, 0)
        case Some(q) =>
          FindFromSound(layers, name, 0);
          var p := [i] + q;
          assert p[1..] == q;
        case None =>
          FindFromSound(items, name, i + 1);
      }
  }

  /** Nothing found from `i` on means no group of that name from `i` on. */
  lemma {:induction false} FindFromNone(items: seq<LayerItem>, name: string, i: nat, q: Path)
    requires i <= |items| && FindFrom(items, name, i).None?
    requires IsGroupPath(items, q) && q[0] >= i
    ensures ItemAt(items, q).name != name
    decreases items, |items| - i
  {
    match items[i]
    case Leaf(_) =>
      FindFromNone(items, name, i + 1, q);
    case Group(n, layers) =>
      if q[0] == i {
        if |q| > 1 {
          FindFromNone(layers, name, 0, q[1..]);
        }
      } else {
        FindFromNone(items, name, i + 1, q);
      }
  }

  /** A found path comes first in pre-order among all groups of that name from `i` on. */
  lemma {:induction false} FindFromFirst(items: seq<LayerItem>, name: string, i: nat, q: Path)
    requires i <= |items| && FindFrom(items, name, i).Some?
    requires NamedGroupAt(items, q, name) && q[0] >= i
    ensures PreOrderLe(FindFrom(items, name, i).value, q)
    decreases items, |items| - i
  {
    var p := FindFrom(items, name, i).value;
    match items[i]
    case Leaf(_) =>
      FindFromFirst(items, name, i + 1, q);
    case Group(n, layers) =>
      if n == name {
        assert p == [i];
        assert p[1..] == [];
      } else if q[0] == i {
        match FindFrom(layers, name, 0)
        case Some(p') =>
          FindFromFirst(layers, name, 0, q[1..]);
          assert p[1..] == p';
        case None =>
          FindFromNone(layers, name, 0, q[1..]);
      } else {
        match FindFrom(layers, name, 0)
        case Some(p') =>
        case None =>
          FindFromFirst(items, name, i + 1, q);
      }
  }

  /**
   * `findGroupPath` returns no path exactly when no group of that name exists
   * anywhere; otherwise its path addresses a group of that name, every prefix
   * of the path addresses a group, and no other group of that name comes
   * before it in pre-order.
   */
  lemma FindGroupSpec(items: seq<LayerItem>, name: string)
    ensures FindGroup(items, name).None? <==>
      (forall q :: IsGroupPath(items, q) ==> ItemAt(items, q).name != name)
    ensures FindGroup(items, name).Some? ==>
      var p := FindGroup(items, name).value;
      && NamedGroupAt(items, p, name)
      && (forall k :: 1 <= k <= |p| ==> IsGroupPath(items, p[..k]))
      && (forall q :: NamedGroupAt(items, q, name) ==> PreOrderLe(p, q))
  {
    match FindGroup(items, name)
    case None =>
      forall q | IsGroupPath(items, q)
        ensures ItemAt(items, q).name != name
      {
        FindFromNone(items, name, 0, q);
      }
    case Some(p) =>
      FindFromSound(items, name, 0);
      forall k | 1 <= k <= |p|
        ensures IsGroupPath(items, p[..k])
      {
        GroupPathPrefixes(items, p, k);
      }
      forall q | NamedGroupAt(items, q, name)
        ensures PreOrderLe(p, q)
      {
        FindFromFirst(items, name, 0, q);
      }
  }

  /** When `p` is the only group of that name, `findGroupPath` finds it. */
  lemma FindUnique(items: seq<LayerItem>, name: string, p: Path)
    requires NamedGroupAt(items, p, name)
    requires forall q :: NamedGroupAt(items, q, name) ==> q == p
    ensures FindGroup(items, name) == Some(p)
  {
    FindGroupSpec(items, name);
  }

  /**
   * The recursive search of `Private.findGroupPath`, with its index
   * accumulator: returns `indexes` extended by the path to the first group
   * named `groupName`, or `indexes` itself when there is none.
   */
  method FindGroupPath(items: seq<LayerItem>, groupName: string, indexes: seq<nat>) returns (r: seq<nat>)
    ensures FindGroup(items, groupName).None? ==> r == indexes
    ensures FindGroup(items, groupName).Some? ==> r == indexes + FindGroup(items, groupName).value
    decreases items
  {
    ghost var goal := FindGroup(items, groupName);
    var index := 0;
    while index < |items|
      invariant 0 <= index <= |items|
      invariant goal == FindFrom(items, groupName, index)
    {
      var item := items[index];
      FindFromStep(items, groupName, index);
      if item.Group? {
        var workingIndexes := indexes + [index];
        if item.name == groupName {
          return workingIndexes;
        }
        var foundIndexes := FindGroupPath(item.layers, groupName, workingIndexes);
        ghost var found := FindFrom(item.layers, groupName, 0);
        if |foundIndexes| > |workingIndexes| {
          assert found.Some?;
          assert indexes + [index] + found.value == indexes + ([index] + found.value);
          return foundIndexes;
        }
        assert found.None?;
      }
      index := index + 1;
    }
    return indexes;
  }

  /** A search started from the root has nothing before the found path. */
  lemma EmptyPrefix(p: Path)
    ensures [] + p == p
  {
  }

  /** One step of the search: a leaf is skipped, a group is the match, is searched, or is skipped. */
  lemma FindFromStep(items: seq<LayerItem>, name: string, i: nat)
    requires i < |items|
    ensures items[i].Leaf? ==> FindFrom(items, name, i) == FindFrom(items, name, i + 1)
    ensures items[i].Group? && items[i].name == name ==> FindFrom(items, name, i) == Some([i])
    ensures items[i].Group? && items[i].name != name && FindFrom(items[i].layers, name, 0).Some? ==>
      FindFrom(items, name, i) == Some([i] + FindFrom(items[i].layers, name, 0).value)
    ensures items[i].Group? && items[i].name != name && FindFrom(items[i].layers, name, 0).None? ==>
      FindFrom(items, name, i) == FindFrom(items, name, i + 1)
  {
  }

  // ---------------------------------------------------------------------------
  // Removing groups: removeLayerGroupItem
  // ---------------------------------------------------------------------------

  /** `items` with every group named `name`, at any depth, dropped with its subtree. */
  function RemoveGroups(items: seq<LayerItem>, name: string): seq<LayerItem>
    decreases items
  {
    if items == [] then []
    else
      (match items[0]
       case Leaf(id) => [Leaf(id)]
       case Group(n, layers) => if n == name then [] else [Group(n, RemoveGroups(layers, name))])
      + RemoveGroups(items[1..], name)
  }

  /** Removal distributes over concatenation: siblings are filtered independently, in order. */
  lemma {:induction false} RemoveGroupsAppend(a: seq<LayerItem>, b: seq<LayerItem>, name: string)
    ensures RemoveGroups(a + b, name) == RemoveGroups(a, name) + RemoveGroups(b, name)
    decreases a
  {
    if a == [] {
      assert a + b == b;
    } else {
      assert (a + b)[0] == a[0] && (a + b)[1..] == a[1..] + b;
      RemoveGroupsAppend(a[1..], b, name);
    }
  }

  /** After removal no group of that name is left anywhere. */
  lemma {:induction false} RemoveGroupsLeavesNone(items: seq<LayerItem>, name: string, q: Path)
    requires IsGroupPath(RemoveGroups(items, name), q)
    ensures ItemAt(RemoveGroups(items, name), q).name != name
    decreases items
  {
    var r := RemoveGroups(items, name);
    var head := match items[0]
      case Leaf(id) => [Leaf(id)]
      case Group(n, layers) => if n == name then [] else [Group(n, RemoveGroups(layers, name))];
    assert r == head + RemoveGroups(items[1..], name);
    if q[0] < |head| {
      assert r[q[0]] == head[0];
      if |q| > 1 {
        RemoveGroupsLeavesNone(items[0].layers, name, q[1..]);
      }
    } else {
      var q' := [q[0] - |head|] + q[1..];
      assert q'[1..] == q[1..];
      assert r[q[0]] == RemoveGroups(items[1..], name)[q'[0]];
      RemoveGroupsLeavesNone(items[1..], name, q');
    }
  }

  /** A tree without a group of that name is left exactly as it is. */
  lemma {:induction false} RemoveGroupsAbsent(items: seq<LayerItem>, name: string)
    requires forall q :: IsGroupPath(items, q) ==> ItemAt(items, q).name != name
    ensures RemoveGroups(items, name) == items
    decreases items
  {
    if items != [] {
      forall q | IsGroupPath(items[1..], q)
        ensures ItemAt(items[1..], q).name != name
      {
        var q' := [q[0] + 1] + q[1..];
        assert q'[1..] == q[1..];
        assert items[q'[0]] == items[1..][q[0]];
        assert IsGroupPath(items, q');
      }
      RemoveGroupsAbsent(items[1..], name);
      if items[0].Group? {
        assert IsGroupPath(items, [0]);
        forall q | IsGroupPath(items[0].layers, q)
          ensures ItemAt(items[0].layers, q).name != name
        {
          var q' := [0] + q;
          assert q'[1..] == q;
          assert IsGroupPath(items, q');
        }
        RemoveGroupsAbsent(items[0].layers, name);
      }
      assert items == [items[0]] + items[1..];
    }
  }

  /** Removing twice is removing once. */
  lemma RemoveGroupsIdempotent(items: seq<LayerItem>, name: string)
    ensures RemoveGroups(RemoveGroups(items, name), name) == RemoveGroups(items, name)
  {
    forall q | IsGroupPath(RemoveGroups(items, name), q)
      ensures ItemAt(RemoveGroups(items, name), q).name != name
    {
      RemoveGroupsLeavesNone(items, name, q);
    }
    RemoveGroupsAbsent(RemoveGroups(items, name), name);
  }

  /** `s` is obtained from `t` by deleting elements: relative order is kept. */
  predicate IsSubsequence(s: seq<string>, t: seq<string>)
    decreases |t|
  {
    s == [] || (t != [] && ((s[0] == t[0] && IsSubsequence(s[1..], t[1..])) || IsSubsequence(s, t[1..])))
  }

  lemma {:induction false} SubsequenceAppend(s1: seq<string>, t1: seq<string>, s2: seq<string>, t2: seq<string>)
    requires IsSubsequence(s1, t1) && IsSubsequence(s2, t2)
    ensures IsSubsequence(s1 + s2, t1 + t2)
    decreases |t1|
  {
    if s1 == [] {
      SubsequenceOfSuffix(s2, t1, t2);
      assert s1 + s2 == s2;
    } else if s1[0] == t1[0] && IsSubsequence(s1[1..], t1[1..]) {
      SubsequenceAppend(s1[1..], t1[1..], s2, t2);
      assert (s1 + s2)[1..] == s1[1..] + s2 && (t1 + t2)[1..] == t1[1..] + t2;
    } else {
      SubsequenceAppend(s1, t1[1..], s2, t2);
      assert (t1 + t2)[1..] == t1[1..] + t2;
    }
  }

  lemma {:induction false} SubsequenceOfSuffix(s: seq<string>, t1: seq<string>, t2: seq<string>)
    requires IsSubsequence(s, t2)
    ensures IsSubsequence(s, t1 + t2)
    decreases |t1|
  {
    if t1 == [] {
      assert t1 + t2 == t2;
    } else {
      SubsequenceOfSuffix(s, t1[1..], t2);
      assert (t1 + t2)[1..] == t1[1..] + t2;
    }
  }

  lemma {:induction false} SubsequenceRefl(s: seq<string>)
    ensures IsSubsequence(s, s)
    decreases |s|
  {
    if s != [] {
      SubsequenceRefl(s[1..]);
    }
  }

  /** The layers that survive a removal keep their relative render order. */
  lemma {:induction false} RemoveGroupsKeepsOrder(items: seq<LayerItem>, name: string)
    ensures IsSubsequence(Flatten(RemoveGroups(items, name)), Flatten(items))
    decreases items
  {
    if items != [] {
      var rest := RemoveGroups(items[1..], name);
      RemoveGroupsKeepsOrder(items[1..], name);
      match items[0]
      case Leaf(id) =>
        assert RemoveGroups(items, name) == [Leaf(id)] + rest;
        FlattenAppend([Leaf(id)], rest);
        SubsequenceAppend([id], [id], Flatten(rest), Flatten(items[1..]));
      case Group(n, layers) =>
        if n == name {
          assert RemoveGroups(items, name) == rest;
          SubsequenceOfSuffix(Flatten(rest), Flatten(layers), Flatten(items[1..]));
        } else {
          var g := Group(n, RemoveGroups(layers, name));
          assert RemoveGroups(items, name) == [g] + rest;
          FlattenAppend([g], rest);
          assert Flatten([g]) == Flatten(RemoveGroups(layers, name));
          RemoveGroupsKeepsOrder(layers, name);
          SubsequenceAppend(Flatten(RemoveGroups(layers, name)), Flatten(layers), Flatten(rest), Flatten(items[1..]));
        }
    }
  }

  /** No entry along `path`, the addressed one included, is a group named `name`. */
  ghost predicate Outside(items: seq<LayerItem>, path: Path, name: string)
    requires ValidPath(items, path)
    decreases path
  {
    var it := items[path[0]];
    && !(it.Group? && it.name == name)
    && (|path| == 1 || Outside(it.layers, path[1..], name))
  }

  /** Removal from a list, split around its top-level slot `k`. */
  lemma RemoveGroupsAround(items: seq<LayerItem>, k: nat, name: string)
    requires k < |items|
    ensures RemoveGroups(items, name)
      == RemoveGroups(items[..k], name) + RemoveGroups([items[k]], name) + RemoveGroups(items[k + 1..], name)
  {
    assert items == items[..k] + [items[k]] + items[k + 1..];
    RemoveGroupsAppend(items[..k] + [items[k]], items[k + 1..], name);
    RemoveGroupsAppend(items[..k], [items[k]], name);
  }

  /** Removal from a single entry: a leaf stays, a group of that name goes, any other group is filtered. */
  lemma RemoveGroupsOne(x: LayerItem, name: string)
    ensures x.Leaf? ==> RemoveGroups([x], name) == [x]
    ensures x.Group? && x.name == name ==> RemoveGroups([x], name) == []
    ensures x.Group? && x.name != name ==> RemoveGroups([x], name) == [Group(x.name, RemoveGroups(x.layers, name))]
  {
    assert [x][1..] == [];
  }

  /** A layer that sits inside no group of that name survives the removal. */
  lemma {:induction false} RemoveGroupsKeepsLeaf(items: seq<LayerItem>, name: string, p: Path)
    requires ValidPath(items, p) && ItemAt(items, p).Leaf? && Outside(items, p, name)
    ensures ItemAt(items, p).id in Flatten(RemoveGroups(items, name))
    decreases p
  {
    var k := p[0];
    var g := items[k];
    RemoveGroupsAround(items, k, name);
    RemoveGroupsOne(g, name);
    var pre, mid, post := RemoveGroups(items[..k], name), RemoveGroups([g], name), RemoveGroups(items[k + 1..], name);
    FlattenAppend(pre + mid, post);
    FlattenAppend(pre, mid);
    if |p| == 1 {
      FlattenOne(g);
    } else {
      RemoveGroupsKeepsLeaf(g.layers, name, p[1..]);
      FlattenOne(Group(g.name, RemoveGroups(g.layers, name)));
    }
  }

  /** Every layer left after the removal sat inside no group of that name. */
  lemma {:induction false} RemoveGroupsLeafOrigin(items: seq<LayerItem>, name: string, x: string) returns (p: Path)
    requires x in Flatten(RemoveGroups(items, name))
    ensures ValidPath(items, p) && ItemAt(items, p) == Leaf(x) && Outside(items, p, name)
    decreases items
  {
    var head := RemoveGroups([items[0]], name);
    RemoveGroupsAround(items, 0, name);
    RemoveGroupsOne(items[0], name);
    assert items[..0] == [] && items[1..] == items[0 + 1..];
    FlattenAppend(head, RemoveGroups(items[1..], name));
    if x in Flatten(head) {
      match items[0]
      case Leaf(id) =>
        FlattenOne(items[0]);
        p := [0];
      case Group(n, layers) =>
        FlattenOne(Group(n, RemoveGroups(layers, name)));
        var q := RemoveGroupsLeafOrigin(layers, name, x);
        p := [0] + q;
        assert p[1..] == q;
    } else {
      var q := RemoveGroupsLeafOrigin(items[1..], name, x);
      p := [q[0] + 1] + q[1..];
      assert p[1..] == q[1..];
      assert items[p[0]] == items[1..][q[0]];
    }
  }

  /** A group that sits inside no group of that name survives, holding its own filtered subtree. */
  lemma {:induction false} RemoveGroupsKeepsGroup(items: seq<LayerItem>, name: string, q: Path) returns (q': Path)
    requires IsGroupPath(items, q) && Outside(items, q, name)
    ensures IsGroupPath(RemoveGroups(items, name), q')
    ensures ItemAt(RemoveGroups(items, name), q')
      == Group(ItemAt(items, q).name, RemoveGroups(ItemAt(items, q).layers, name))
    decreases q
  {
    var k := q[0];
    var g := items[k];
    RemoveGroupsAround(items, k, name);
    RemoveGroupsOne(g, name);
    var pre := RemoveGroups(items[..k], name);
    var g' := Group(g.name, RemoveGroups(g.layers, name));
    var r := RemoveGroups(items, name);
    assert r[|pre|] == g';
    if |q| == 1 {
      q' := [|pre|];
    } else {
      var s := RemoveGroupsKeepsGroup(g.layers, name, q[1..]);
      q' := [|pre|] + s;
      assert q'[1..] == s;
    }
  }

  // ---------------------------------------------------------------------------
  // Replacing the entry at a path (the in-place edits of a group, on values)
  // ---------------------------------------------------------------------------

  /** `items` with the entry at `path` replaced by `x`; the groups above keep their names. */
  function ReplaceAt(items: seq<LayerItem>, path: Path, x: LayerItem): (r: seq<LayerItem>)
    requires ValidPath(items, path)
    ensures |r| == |items|
    decreases path
  {
    if |path| == 1 then items[path[0] := x]
    else
      var g := items[path[0]];
      items[path[0] := Group(g.name, ReplaceAt(g.layers, path[1..], x))]
  }

  /** Only the top-level slot on the path changes, and the path now leads to `x`. */
  lemma {:induction false} ReplaceAtEffect(items: seq<LayerItem>, path: Path, x: LayerItem)
    requires ValidPath(items, path)
    ensures forall j :: 0 <= j < |items| && j != path[0] ==> ReplaceAt(items, path, x)[j] == items[j]
    ensures ValidPath(ReplaceAt(items, path, x), path) && ItemAt(ReplaceAt(items, path, x), path) == x
    decreases path
  {
    if |path| > 1 {
      ReplaceAtEffect(items[path[0]].layers, path[1..], x);
    }
  }

  /**
   * Renaming the group at `p` keeps the shape of the tree: every path stays
   * valid or invalid, kinds are unchanged, and only the name at `p` differs.
   */
  lemma {:induction false} RenameKeepsOtherPaths(items: seq<LayerItem>, p: Path, newName: string, q: Path)
    requires IsGroupPath(items, p)
    ensures var r := ReplaceAt(items, p, Group(newName, ItemAt(items, p).layers));
      && (ValidPath(r, q) <==> ValidPath(items, q))
      && (ValidPath(items, q) ==>
            && ItemAt(r, q).Group? == ItemAt(items, q).Group?
            && (ItemAt(items, q).Group? ==>
                  ItemAt(r, q).name == (if q == p then newName else ItemAt(items, q).name)))
    decreases p
  {
    var x := Group(newName, ItemAt(items, p).layers);
    var r := ReplaceAt(items, p, x);
    ReplaceAtEffect(items, p, x);
    if q != [] && q[0] < |items| {
      if q[0] != p[0] {
        if |q| > 1 {
          assert r[q[0]] == items[q[0]];
        }
      } else if |p| == 1 {
        if |q| > 1 {
          assert r[q[0]].layers == items[q[0]].layers;
          assert ValidPath(r, q) <==> ValidPath(items, q);
        }
      } else {
        var g := items[p[0]];
        assert r[p[0]] == Group(g.name, ReplaceAt(g.layers, p[1..], x));
        assert ItemAt(items, p) == ItemAt(g.layers, p[1..]);
        if |q| > 1 {
          RenameKeepsOtherPaths(g.layers, p[1..], newName, q[1..]);
          assert q == p <==> q[1..] == p[1..];
        }
      }
    }
  }

  /** Writing back the entry a path already holds changes nothing. */
  lemma {:induction false} ReplaceAtSame(items: seq<LayerItem>, path: Path)
    requires ValidPath(items, path)
    ensures ReplaceAt(items, path, ItemAt(items, path)) == items
    decreases path
  {
    if |path| > 1 {
      var g := items[path[0]];
      ReplaceAtSame(g.layers, path[1..]);
    }
  }

  /** A second write at the same path overrides the first. */
  lemma {:induction false} ReplaceAtTwice(items: seq<LayerItem>, path: Path, x: LayerItem, y: LayerItem)
    requires ValidPath(items, path)
    ensures ValidPath(ReplaceAt(items, path, x), path)
    ensures ReplaceAt(ReplaceAt(items, path, x), path, y) == ReplaceAt(items, path, y)
    decreases path
  {
    ReplaceAtEffect(items, path, x);
    if |path| > 1 {
      var g := items[path[0]];
      ReplaceAtTwice(g.layers, path[1..], x, y);
    }
  }

  /** One more step into a group's children. */
  lemma {:induction false} ItemAtExtend(items: seq<LayerItem>, path: Path, j: nat)
    requires ValidPath(items, path) && ItemAt(items, path).Group?
    requires j < |ItemAt(items, path).layers|
    ensures ValidPath(items, path + [j]) && ItemAt(items, path + [j]) == ItemAt(items, path).layers[j]
    decreases path
  {
    var q := path + [j];
    assert q[0] == path[0];
    if |path| == 1 {
      assert q[1..] == [j];
    } else {
      assert q[1..] == path[1..] + [j];
      ItemAtExtend(items[path[0]].layers, path[1..], j);
    }
  }

  /** The recursive step of `FlattenReplaceAt`, inside the top-level group on the path. */
  lemma {:induction false} FlattenStep(items: seq<LayerItem>, path: Path, x: LayerItem)
    returns (before: seq<string>, after: seq<string>)
    requires ValidPath(items, path) && |path| > 1
    ensures Flatten([items[path[0]]]) == before + Flatten([ItemAt(items, path)]) + after
    ensures Flatten([ReplaceAt(items, path, x)[path[0]]]) == before + Flatten([x]) + after
    decreases path, 0
  {
    var g := items[path[0]];
    assert ReplaceAt(items, path, x)[path[0]] == Group(g.name, ReplaceAt(g.layers, path[1..], x));
    before, after := FlattenReplaceAt(g.layers, path[1..], x);
    FlattenOne(g);
    FlattenOne(ReplaceAt(items, path, x)[path[0]]);
  }

  lemma Regroup(p: seq<string>, b: seq<string>, m: seq<string>, a: seq<string>, q: seq<string>)
    ensures p + (b + m + a) + q == (p + b) + m + (a + q)
  {
  }

  /** Replacing one top-level entry replaces its leaves in the flattened order. */
  lemma {:induction false} FlattenReplaceTop(items: seq<LayerItem>, k: nat, y: LayerItem)
    requires k < |items|
    ensures Flatten(items) == Flatten(items[..k]) + Flatten([items[k]]) + Flatten(items[k + 1..])
    ensures Flatten(items[k := y]) == Flatten(items[..k]) + Flatten([y]) + Flatten(items[k + 1..])
  {
    FlattenAround(items, k);
    FlattenAround(items[k := y], k);
    assert items[k := y][..k] == items[..k] && items[k := y][k + 1..] == items[k + 1..];
  }

  /** Splitting the flattened order around one top-level entry. */
  lemma {:induction false} FlattenAround(items: seq<LayerItem>, k: nat)
    requires k < |items|
    ensures Flatten(items) == Flatten(items[..k]) + Flatten([items[k]]) + Flatten(items[k + 1..])
  {
    assert items == items[..k] + [items[k]] + items[k + 1..];
    FlattenAppend(items[..k] + [items[k]], items[k + 1..]);
    FlattenAppend(items[..k], [items[k]]);
  }

  /** The leaves of a single entry. */
  lemma {:induction false} FlattenOne(x: LayerItem)
    ensures Flatten([x]) == match x case Leaf(id) => [id] case Group(_, layers) => Flatten(layers)
  {
    assert [x][1..] == [];
  }

  /**
   * Replacing the entry at a path replaces its leaves in the flattened order,
   * between the same leaves before and after.
   */
  lemma {:induction false} FlattenReplaceAt(items: seq<LayerItem>, path: Path, x: LayerItem)
    returns (before: seq<string>, after: seq<string>)
    requires ValidPath(items, path)
    ensures Flatten(items) == before + Flatten([ItemAt(items, path)]) + after
    ensures Flatten(ReplaceAt(items, path, x)) == before + Flatten([x]) + after
    decreases path, 1
  {
    var k := path[0];
    if |path| == 1 {
      FlattenReplaceTop(items, k, x);
      before, after := Flatten(items[..k]), Flatten(items[k + 1..]);
    } else {
      var g := items[k];
      var y := Group(g.name, ReplaceAt(g.layers, path[1..], x));
      assert ReplaceAt(items, path, x) == items[k := y];
      FlattenReplaceTop(items, k, y);
      var b, a := FlattenStep(items, path, x);
      var pre, post := Flatten(items[..k]), Flatten(items[k + 1..]);
      Regroup(pre, b, Flatten([ItemAt(items, path)]), a, post);
      Regroup(pre, b, Flatten([x]), a, post);
      before, after := pre + b, a + post;
    }
  }

  /** The steps of a valid path: each proper prefix addresses a group holding the next index. */
  lemma {:induction false} ItemAtStep(items: seq<LayerItem>, p: Path, m: nat)
    requires ValidPath(items, p) && 1 <= m < |p|
    ensures ValidPath(items, p[..m]) && ValidPath(items, p[..m + 1])
    ensures ItemAt(items, p[..m]).Group? && p[m] < |ItemAt(items, p[..m]).layers|
    ensures ItemAt(items, p[..m + 1]) == ItemAt(items, p[..m]).layers[p[m]]
    decreases p
  {
    var g := items[p[0]];
    if m == 1 {
      assert p[..1] == [p[0]];
      assert p[..2][1..] == [p[1]];
      assert p[1..][0] == p[1];
    } else {
      ItemAtStep(g.layers, p[1..], m - 1);
      assert p[..m][1..] == p[1..][..m - 1];
      assert p[..m + 1][1..] == p[1..][..m];
    }
  }

  /** A group path into a prefix of the list is the same group path into the whole list. */
  lemma PrefixGroupPath(items: seq<LayerItem>, k: nat, q: Path)
    requires k <= |items| && IsGroupPath(items[..k], q)
    ensures IsGroupPath(items, q) && ItemAt(items, q) == ItemAt(items[..k], q)
  {
    assert items[..k][q[0]] == items[q[0]];
  }

  /** A group path into a suffix of the list, shifted by the suffix's offset. */
  lemma SuffixGroupPath(items: seq<LayerItem>, j: nat, q: Path)
    requires j <= |items| && IsGroupPath(items[j..], q)
    ensures IsGroupPath(items, [q[0] + j] + q[1..])
    ensures ItemAt(items, [q[0] + j] + q[1..]) == ItemAt(items[j..], q)
  {
    var q' := [q[0] + j] + q[1..];
    assert q'[1..] == q[1..];
    assert items[j..][q[0]] == items[q'[0]];
  }

  /** A group path below a top-level group, seen from the top. */
  lemma ChildGroupPath(items: seq<LayerItem>, k: nat, q: Path)
    requires k < |items| && items[k].Group? && IsGroupPath(items[k].layers, q)
    ensures IsGroupPath(items, [k] + q) && ItemAt(items, [k] + q) == ItemAt(items[k].layers, q)
  {
    assert ([k] + q)[1..] == q;
  }

  /** Pre-order compares first indexes first. */
  lemma PreOrderHead(p: Path, q: Path)
    requires p != [] && PreOrderLe(p, q)
    ensures q != [] && p[0] <= q[0]
  {
  }

  /**
   * Nothing before the first match's top-level slot holds a group of that
   * name, and its top-level slot is the match itself or a group of another name.
   */
  lemma FirstMatchContext(items: seq<LayerItem>, name: string)
    requires FindGroup(items, name).Some?
    ensures var p := FindGroup(items, name).value;
      && (forall q :: IsGroupPath(items[..p[0]], q) ==> ItemAt(items[..p[0]], q).name != name)
      && items[p[0]].Group?
      && (|p| > 1 ==> items[p[0]].name != name)
  {
    var p := FindGroup(items, name).value;
    var k := p[0];
    FindGroupSpec(items, name);
    forall q | IsGroupPath(items[..k], q)
      ensures ItemAt(items[..k], q).name != name
    {
      PrefixGroupPath(items, k, q);
      if ItemAt(items[..k], q).name == name {
        PreOrderHead(p, q);
      }
    }
    GroupPathPrefixes(items, p, 1);
    assert p[..1] == [k];
    if |p| > 1 {
      assert IsGroupPath(items, [k]);
      assert !PreOrderLe(p, [k]) by {
        assert [k][1..] == [] && p[1..] != [];
      }
    }
  }
}
