/** The wiki category tree: inheritance unfolded from the children of node.entity, each lineage
    stopping before it would repeat a category. */
module CategoryTree {
  import Names

  type CategoryId = string

  const ENTITY: CategoryId := "node.entity"
  const EXCLUDED_ROOTS: set<CategoryId> := {"node.block", "node.universe"}

  datatype ParentLink = ParentLink(parent: CategoryId, active: bool)

  // displayName is the name, or the id where the name is empty; sortName is its lower-case form.
  datatype NodeType = NodeType(id: CategoryId, kind: string, displayName: string, sortName: string, active: bool,
                               parents: seq<ParentLink>)

  datatype Category = Category(displayName: string, sortName: string)

  datatype Tree = Tree(id: CategoryId, displayName: string, subCategories: seq<Tree>)

  type Categories = map<CategoryId, Category>

  type Children = map<CategoryId, set<CategoryId>>

  function ChildrenOf(children: Children, id: CategoryId): set<CategoryId> {
    if id in children then children[id] else {}
  }

  /*** Reading the schema ***/

  predicate IsWikiCategoryType(t: NodeType) {
    t.active && t.kind == "node" && |t.id| >= 5 && t.id[..5] == "node."
  }

  // A later type with the same id overwrites an earlier one.
  function CategoriesOf(types: seq<NodeType>): (categories: Categories)
    ensures forall id :: id in categories <==> exists t :: t in types && IsWikiCategoryType(t) && t.id == id
  {
    if types == [] then map[]
    else
      var earlier, t := CategoriesOf(types[..|types| - 1]), types[|types| - 1];
      assert types == types[..|types| - 1] + [t];
      if IsWikiCategoryType(t) then earlier[t.id := Category(t.displayName, t.sortName)] else earlier
  }

  method CollectCategories(types: seq<NodeType>) returns (categories: Categories)
    ensures categories == CategoriesOf(types)
  {
    categories := map[];
    for i := 0 to |types|
      invariant categories == CategoriesOf(types[..i])
    {
      assert types[..i + 1][..i] == types[..i];
      if IsWikiCategoryType(types[i]) {
        categories := categories[types[i].id := Category(types[i].displayName, types[i].sortName)];
      }
    }
    assert types[..|types|] == types;
  }

  // An active link between two categories.
  ghost predicate Inherits(types: seq<NodeType>, categories: Categories, parent: CategoryId, child: CategoryId) {
    && parent in categories && child in categories
    && exists t, l :: t in types && t.id == child && l in t.parents && l.active && l.parent == parent
  }

  // One of the first k parent links of t is active and leads to p.
  ghost predicate LinksTo(t: NodeType, k: nat, p: CategoryId)
    requires k <= |t.parents|
  {
    exists j :: 0 <= j < k && t.parents[j].active && t.parents[j].parent == p
  }

  method AddParents(t: NodeType, categories: Categories, before: Children) returns (children: Children)
    requires t.id in categories
    ensures forall p, c :: c in ChildrenOf(children, p) <==>
                           c in ChildrenOf(before, p) || (c == t.id && p in categories && LinksTo(t, |t.parents|, p))
  {
    children := before;
    for k := 0 to |t.parents|
      invariant forall p, c :: c in ChildrenOf(children, p) <==>
                               c in ChildrenOf(before, p) || (c == t.id && p in categories && LinksTo(t, k, p))
    {
      var l := t.parents[k];
      ghost var earlier := children;
      if l.active && l.parent in categories {
        children := children[l.parent := ChildrenOf(children, l.parent) + {t.id}];
      }
      forall p, c
        ensures c in ChildrenOf(children, p) <==>
                c in ChildrenOf(before, p) || (c == t.id && p in categories && LinksTo(t, k + 1, p))
      {
        assert c in ChildrenOf(earlier, p) <==>
               c in ChildrenOf(before, p) || (c == t.id && p in categories && LinksTo(t, k, p));
        assert LinksTo(t, k + 1, p) <==> LinksTo(t, k, p) || (l.active && l.parent == p);
      }
    }
  }

  method CollectChildren(types: seq<NodeType>, categories: Categories) returns (children: Children)
    ensures forall p, c :: c in ChildrenOf(children, p) <==> Inherits(types, categories, p, c)
  {
    children := map[];
    for i := 0 to |types|
      invariant forall p, c :: c in ChildrenOf(children, p) <==> Inherits(types[..i], categories, p, c)
    {
      var t := types[i];
      assert types[..i + 1] == types[..i] + [t];
      forall p, c
        ensures Inherits(types[..i + 1], categories, p, c)
                <==> Inherits(types[..i], categories, p, c)
                     || (p in categories && c in categories && c == t.id && LinksTo(t, |t.parents|, p))
      {
      }
      if t.id in categories {
        children := AddParents(t, categories, children);
      }
    }
    assert types[..|types|] == types;
  }

  /*** Sorting siblings ***/

  predicate Before(categories: Categories, a: CategoryId, b: CategoryId)
    requires a in categories && b in categories
  {
    Names.Less(categories[a].sortName, categories[b].sortName)
    || (categories[a].sortName == categories[b].sortName && Names.Less(a, b))
  }

  ghost predicate Sorted(categories: Categories, ids: seq<CategoryId>) {
    && (forall id | id in ids :: id in categories)
    && forall i, j | 0 <= i < j < |ids| :: Before(categories, ids[i], ids[j])
  }

  lemma BeforeTotal(categories: Categories, a: CategoryId, b: CategoryId)
    requires a in categories && b in categories && a != b
    ensures Before(categories, a, b) || Before(categories, b, a)
  {
    Names.LessTotal(categories[a].sortName, categories[b].sortName);
    Names.LessTotal(a, b);
  }

  lemma BeforeTransitive(categories: Categories, a: CategoryId, b: CategoryId, c: CategoryId)
    requires a in categories && b in categories && c in categories
    requires Before(categories, a, b) && Before(categories, b, c)
    ensures Before(categories, a, c)
  {
    if && Names.Less(categories[a].sortName, categories[b].sortName)
       && Names.Less(categories[b].sortName, categories[c].sortName) {
      Names.LessTransitive(categories[a].sortName, categories[b].sortName, categories[c].sortName);
    }
    if Names.Less(a, b) && Names.Less(b, c) {
      Names.LessTransitive(a, b, c);
    }
  }

  lemma BeforeAsymmetric(categories: Categories, a: CategoryId, b: CategoryId)
    requires a in categories && b in categories && Before(categories, a, b)
    ensures !Before(categories, b, a) && a != b
  {
    if Names.Less(categories[a].sortName, categories[b].sortName) {
      Names.LessAsymmetric(categories[a].sortName, categories[b].sortName);
    } else {
      Names.LessAsymmetric(a, b);
    }
  }

  method PickFirst(categories: Categories, ids: set<CategoryId>) returns (first: CategoryId)
    requires ids != {} && ids <= categories.Keys
    ensures first in ids && forall id | id in ids && id != first :: Before(categories, first, id)
  {
    first :| first in ids;
    var rest := ids - {first};
    while rest != {}
      invariant rest <= ids && first in ids && first !in rest
      invariant forall id | id in ids && id != first && id !in rest :: Before(categories, first, id)
      decreases rest
    {
      var id :| id in rest;
      if Before(categories, id, first) {
        forall other | other in ids && other != id && other !in rest
          ensures Before(categories, id, other)
        {
          if other != first {
            BeforeTransitive(categories, id, first, other);
          }
        }
        first := id;
      } else {
        BeforeTotal(categories, id, first);
      }
      rest := rest - {id};
    }
  }

  method SortIds(categories: Categories, ids: set<CategoryId>) returns (sorted: seq<CategoryId>)
    requires ids <= categories.Keys
    ensures Sorted(categories, sorted) && forall id :: id in sorted <==> id in ids
  {
    sorted := [];
    var rest := ids;
    while rest != {}
      invariant rest <= ids && forall id :: id in sorted <==> id in ids - rest
      invariant Sorted(categories, sorted)
      invariant forall a, b | a in sorted && b in rest :: Before(categories, a, b)
      decreases rest
    {
      var first := PickFirst(categories, rest);
      sorted := sorted + [first];
      rest := rest - {first};
    }
  }

  // A set of categories has one sorted listing.
  lemma {:induction false} SortedUnique(categories: Categories, a: seq<CategoryId>, b: seq<CategoryId>)
    requires Sorted(categories, a) && Sorted(categories, b) && forall id :: id in a <==> id in b
    ensures a == b
  {
    assert (a != [] ==> a[0] in a) && (b != [] ==> b[0] in b);
    if a != [] {
      var i :| 0 <= i < |a| && a[i] == b[0];
      var j :| 0 <= j < |b| && b[j] == a[0];
      if i > 0 && j > 0 {
        BeforeAsymmetric(categories, a[0], b[0]);
      }
      assert a[0] == b[0];
      forall id
        ensures id in a[1..] <==> id in b[1..]
      {
        TailMembers(categories, a, id);
        TailMembers(categories, b, id);
      }
      SortedUnique(categories, a[1..], b[1..]);
    }
  }

  lemma TailMembers(categories: Categories, ids: seq<CategoryId>, id: CategoryId)
    requires ids != [] && Sorted(categories, ids)
    ensures id in ids[1..] <==> id in ids && id != ids[0]
  {
    if id in ids[1..] {
      var k :| 0 <= k < |ids| - 1 && ids[1..][k] == id;
      assert ids[k + 1] == id;
      BeforeAsymmetric(categories, ids[0], ids[k + 1]);
    }
  }

  /*** Reachable categories ***/

  ghost predicate ReachedIn(children: Children, roots: set<CategoryId>, id: CategoryId, n: nat)
    decreases n
  {
    if n == 0 then id in roots
    else exists p :: id in ChildrenOf(children, p) && ReachedIn(children, roots, p, n - 1)
  }

  ghost predicate Reachable(children: Children, roots: set<CategoryId>, id: CategoryId) {
    exists n: nat :: ReachedIn(children, roots, id, n)
  }

  lemma ReachChild(children: Children, roots: set<CategoryId>, p: CategoryId, c: CategoryId)
    requires Reachable(children, roots, p) && c in ChildrenOf(children, p)
    ensures Reachable(children, roots, c)
  {
    var n: nat :| ReachedIn(children, roots, p, n);
    assert ReachedIn(children, roots, p, n + 1 - 1);
    assert ReachedIn(children, roots, c, n + 1);
  }

  lemma {:induction false} ClosedSetKeepsReached(children: Children, roots: set<CategoryId>, closed: set<CategoryId>,
                                                 id: CategoryId, n: nat)
    requires roots <= closed && ReachedIn(children, roots, id, n)
    requires forall p | p in closed :: ChildrenOf(children, p) <= closed
    ensures id in closed
    decreases n
  {
    if n > 0 {
      var p :| id in ChildrenOf(children, p) && ReachedIn(children, roots, p, n - 1);
      ClosedSetKeepsReached(children, roots, closed, p, n - 1);
    }
  }

  method CollectReachable(children: Children, roots: set<CategoryId>, pending: seq<CategoryId>,
                          ghost all: set<CategoryId>)
    returns (included: set<CategoryId>)
    requires forall id :: id in pending <==> id in roots
    requires roots <= all && forall p :: ChildrenOf(children, p) <= all
    ensures forall id :: id in included <==> Reachable(children, roots, id)
  {
    included := roots;
    var stack := pending;
    assert forall id | id in roots :: ReachedIn(children, roots, id, 0);
    while stack != []
      invariant roots <= included <= all
      invariant forall id | id in stack :: id in included
      invariant forall id | id in included :: Reachable(children, roots, id)
      invariant forall p | p in included && p !in stack :: ChildrenOf(children, p) <= included
      decreases all - included, |stack|
    {
      var parent, rest := stack[|stack| - 1], stack[..|stack| - 1];
      assert stack == rest + [parent];
      stack := rest;
      var todo := ChildrenOf(children, parent);
      ghost var before := included;
      while todo != {}
        invariant todo <= ChildrenOf(children, parent)
        invariant before <= included <= all && ChildrenOf(children, parent) - todo <= included
        invariant forall id :: id in stack <==> id in rest || id in included - before
        invariant included == before ==> stack == rest
        invariant forall id | id in included :: Reachable(children, roots, id)
        decreases todo
      {
        var child :| child in todo;
        todo := todo - {child};
        if child !in included {
          ReachChild(children, roots, parent, child);
          included := included + {child};
          stack := stack + [child];
        }
      }
      if included == before {
        assert |stack| == |rest|;
      }
    }
    forall id | Reachable(children, roots, id)
      ensures id in included
    {
      var n: nat :| ReachedIn(children, roots, id, n);
      ClosedSetKeepsReached(children, roots, included, id, n);
    }
  }

  /*** Unfolding ***/

  // path leads down through trees from a top-level one.
  ghost predicate HasPath(trees: seq<Tree>, path: seq<CategoryId>) {
    && path != []
    && exists t :: t in trees && t.id == path[0] && (|path| == 1 || HasPath(t.subCategories, path[1..]))
  }

  ghost predicate WellSorted(categories: Categories, trees: seq<Tree>) {
    && Sorted(categories, TreeIds(trees))
    && forall t | t in trees ::
         t.displayName == categories[t.id].displayName && WellSorted(categories, t.subCategories)
  }

  ghost function TreeIds(trees: seq<Tree>): (ids: seq<CategoryId>)
    ensures |ids| == |trees| && forall i | 0 <= i < |trees| :: ids[i] == trees[i].id
  {
    seq(|trees|, i requires 0 <= i < |trees| => trees[i].id)
  }

  ghost predicate Linked(children: Children, path: seq<CategoryId>) {
    forall i | 0 <= i < |path| - 1 :: path[i + 1] in ChildrenOf(children, path[i])
  }

  ghost predicate Distinct(path: seq<CategoryId>) {
    forall i, j | 0 <= i < j < |path| :: path[i] != path[j]
  }

  // path continues a lineage that ended at a category with these children: it repeats nothing.
  ghost predicate Continues(children: Children, tops: set<CategoryId>, lineage: set<CategoryId>,
                            path: seq<CategoryId>) {
    && path != [] && path[0] in tops
    && Linked(children, path) && Distinct(path)
    && forall id | id in path :: id !in lineage
  }

  // The trees below a category are exactly its simple continuations, with sorted siblings.
  ghost predicate Unfolds(categories: Categories, children: Children, tops: set<CategoryId>, lineage: set<CategoryId>,
                          trees: seq<Tree>)
  {
    && WellSorted(categories, trees)
    && forall path :: HasPath(trees, path) <==> Continues(children, tops, lineage, path)
  }

  // The subtree below each category of a sorted list of siblings.
  ghost predicate UnfoldsEach(categories: Categories, children: Children, ids: seq<CategoryId>,
                              lineage: set<CategoryId>, trees: seq<Tree>)
  {
    && TreeIds(trees) == ids
    && forall i | 0 <= i < |trees| ::
         ids[i] in categories && trees[i].displayName == categories[ids[i]].displayName
         && Unfolds(categories, children, ChildrenOf(children, ids[i]), lineage + {ids[i]}, trees[i].subCategories)
  }

  lemma SiblingsUnfold(categories: Categories, children: Children, tops: set<CategoryId>, lineage: set<CategoryId>,
                       ids: seq<CategoryId>, trees: seq<Tree>)
    requires Sorted(categories, ids) && forall id :: id in ids <==> id in tops - lineage
    requires UnfoldsEach(categories, children, ids, lineage, trees)
    ensures Unfolds(categories, children, tops, lineage, trees)
  {
    forall path
      ensures HasPath(trees, path) <==> Continues(children, tops, lineage, path)
    {
      if path != [] && path[0] in tops - lineage {
        var i :| 0 <= i < |ids| && ids[i] == path[0];
        assert trees[i] in trees && trees[i].id == path[0];
        forall t | t in trees && t.id == path[0]
          ensures t == trees[i]
        {
          var k :| 0 <= k < |trees| && trees[k] == t;
          SortedDistinct(categories, ids, i, k);
        }
        if |path| == 1 {
          assert Continues(children, tops, lineage, path);
        } else {
          assert Unfolds(categories, children, ChildrenOf(children, ids[i]), lineage + {ids[i]},
                         trees[i].subCategories);
        }
      } else if path != [] {
        forall t | t in trees
          ensures t.id != path[0]
        {
          var k :| 0 <= k < |trees| && trees[k] == t;
          assert ids[k] in ids;
        }
        assert path[0] in path;
      }
    }
    forall t | t in trees
      ensures t.displayName == categories[t.id].displayName && WellSorted(categories, t.subCategories)
    {
      var k :| 0 <= k < |trees| && trees[k] == t;
      assert ids[k] == t.id;
    }
  }

  lemma SortedDistinct(categories: Categories, ids: seq<CategoryId>, i: nat, k: nat)
    requires Sorted(categories, ids) && i < |ids| && k < |ids| && ids[i] == ids[k]
    ensures i == k
  {
    if i < k {
      BeforeAsymmetric(categories, ids[i], ids[k]);
    } else if k < i {
      BeforeAsymmetric(categories, ids[k], ids[i]);
    }
  }

  // Recursion ends on cyclic inheritance: each call has one category more in its lineage.
  method BuildSubCategories(categories: Categories, children: Children, id: CategoryId, lineage: set<CategoryId>,
                            ghost all: set<CategoryId>)
    returns (trees: seq<Tree>)
    requires all <= categories.Keys && lineage <= all && forall p :: ChildrenOf(children, p) <= all
    ensures Unfolds(categories, children, ChildrenOf(children, id), lineage, trees)
    decreases all - lineage
  {
    trees := [];
    var sorted := SortIds(categories, ChildrenOf(children, id));
    ghost var kept: seq<CategoryId> := [];
    for i := 0 to |sorted|
      invariant Sorted(categories, kept)
      invariant forall x :: x in kept <==> x in sorted[..i] && x !in lineage
      invariant UnfoldsEach(categories, children, kept, lineage, trees)
    {
      assert sorted[..i + 1] == sorted[..i] + [sorted[i]];
      var child := sorted[i];
      if child in lineage {
        continue;
      }
      assert child in sorted;
      var below := BuildSubCategories(categories, children, child, lineage + {child}, all);
      forall x | x in kept
        ensures Before(categories, x, child)
      {
        var k :| 0 <= k < i && sorted[k] == x;
      }
      trees := trees + [Tree(child, categories[child].displayName, below)];
      kept := kept + [child];
    }
    assert sorted[..|sorted|] == sorted;
    SiblingsUnfold(categories, children, ChildrenOf(children, id), lineage, kept, trees);
  }

  /*** The tree is determined by its paths ***/

  lemma PathBelow(trees: seq<Tree>, categories: Categories, i: nat, path: seq<CategoryId>)
    requires WellSorted(categories, trees) && i < |trees| && path != []
    ensures HasPath(trees, [trees[i].id] + path) <==> HasPath(trees[i].subCategories, path)
  {
    var longer := [trees[i].id] + path;
    assert longer[1..] == path && longer[0] == trees[i].id;
    if HasPath(trees, longer) {
      var t :| t in trees && t.id == longer[0] && HasPath(t.subCategories, longer[1..]);
      var k :| 0 <= k < |trees| && trees[k] == t;
      SortedDistinct(categories, TreeIds(trees), i, k);
    }
  }

  lemma TopPath(trees: seq<Tree>, id: CategoryId)
    ensures HasPath(trees, [id]) <==> id in TreeIds(trees)
  {
    if id in TreeIds(trees) {
      var k :| 0 <= k < |trees| && TreeIds(trees)[k] == id;
      assert trees[k] in trees && trees[k].id == [id][0];
    }
  }

  lemma SameTops(categories: Categories, a: seq<Tree>, b: seq<Tree>)
    requires WellSorted(categories, a) && WellSorted(categories, b)
    requires forall path :: HasPath(a, path) <==> HasPath(b, path)
    ensures TreeIds(a) == TreeIds(b) && |a| == |b|
  {
    forall id
      ensures id in TreeIds(a) <==> id in TreeIds(b)
    {
      TopPath(a, id);
      TopPath(b, id);
    }
    SortedUnique(categories, TreeIds(a), TreeIds(b));
    assert |a| == |TreeIds(a)| == |TreeIds(b)| == |b|;
  }

  lemma SamePathsBelow(categories: Categories, a: seq<Tree>, b: seq<Tree>, i: nat)
    requires WellSorted(categories, a) && WellSorted(categories, b)
    requires forall path :: HasPath(a, path) <==> HasPath(b, path)
    requires i < |a| && i < |b| && a[i].id == b[i].id
    ensures forall path :: HasPath(a[i].subCategories, path) <==> HasPath(b[i].subCategories, path)
  {
    forall path
      ensures HasPath(a[i].subCategories, path) <==> HasPath(b[i].subCategories, path)
    {
      if path != [] {
        PathBelow(a, categories, i, path);
        PathBelow(b, categories, i, path);
      }
    }
  }

  lemma {:induction false} ForestUnique(categories: Categories, a: seq<Tree>, b: seq<Tree>)
    requires WellSorted(categories, a) && WellSorted(categories, b)
    requires forall path :: HasPath(a, path) <==> HasPath(b, path)
    ensures a == b
    decreases a
  {
    SameTops(categories, a, b);
    forall i | 0 <= i < |a|
      ensures a[i] == b[i]
    {
      assert a[i].id == TreeIds(a)[i] == TreeIds(b)[i] == b[i].id;
      assert a[i] in a && b[i] in b;
      SamePathsBelow(categories, a, b, i);
      ForestUnique(categories, a[i].subCategories, b[i].subCategories);
    }
  }

  /*** The operation ***/

  ghost predicate IsRoot(types: seq<NodeType>, categories: Categories, id: CategoryId) {
    Inherits(types, categories, ENTITY, id) && id !in EXCLUDED_ROOTS
  }

  // A lineage from an allowed child of node.entity down active links, without a repetition.
  ghost predicate SimpleLineage(types: seq<NodeType>, categories: Categories, path: seq<CategoryId>) {
    && path != [] && IsRoot(types, categories, path[0])
    && (forall i | 0 <= i < |path| - 1 :: Inherits(types, categories, path[i], path[i + 1]))
    && Distinct(path)
  }

  // The links between included categories, as the source copies them.
  function Restrict(children: Children, included: set<CategoryId>): Children {
    map p | p in children && p in included :: children[p] * included
  }

  lemma {:induction false} LineageStaysIncluded(types: seq<NodeType>, categories: Categories, children: Children,
                                                roots: set<CategoryId>, path: seq<CategoryId>, i: nat)
    requires forall p, c :: c in ChildrenOf(children, p) <==> Inherits(types, categories, p, c)
    requires SimpleLineage(types, categories, path) && i < |path| && path[0] in roots
    ensures Reachable(children, roots, path[i])
  {
    if i == 0 {
      assert ReachedIn(children, roots, path[0], 0);
    } else {
      LineageStaysIncluded(types, categories, children, roots, path, i - 1);
      assert Inherits(types, categories, path[i - 1], path[i - 1 + 1]);
      ReachChild(children, roots, path[i - 1], path[i]);
    }
  }

  lemma ContinuesIsLineage(types: seq<NodeType>, categories: Categories, children: Children, roots: set<CategoryId>,
                           included: set<CategoryId>, path: seq<CategoryId>)
    requires forall p, c :: c in ChildrenOf(children, p) <==> Inherits(types, categories, p, c)
    requires forall id :: id in roots <==> IsRoot(types, categories, id)
    requires forall id :: id in included <==> Reachable(children, roots, id)
    ensures Continues(Restrict(children, included), roots, {}, path) <==> SimpleLineage(types, categories, path)
  {
    if SimpleLineage(types, categories, path) {
      forall i | 0 <= i < |path| - 1
        ensures path[i + 1] in ChildrenOf(Restrict(children, included), path[i])
      {
        LineageStaysIncluded(types, categories, children, roots, path, i);
        LineageStaysIncluded(types, categories, children, roots, path, i + 1);
        assert Inherits(types, categories, path[i], path[i + 1]);
      }
    }
    if Continues(Restrict(children, included), roots, {}, path) {
      forall i | 0 <= i < |path| - 1
        ensures Inherits(types, categories, path[i], path[i + 1])
      {
        assert path[i + 1] in ChildrenOf(Restrict(children, included), path[i]);
      }
    }
  }

  /*** Lineages in terms of the schema alone ***/

  ghost predicate IsCategory(types: seq<NodeType>, id: CategoryId) {
    exists t :: t in types && t.id == id && t.active && t.kind == "node" && "node." <= t.id
  }

  ghost predicate HasParent(types: seq<NodeType>, child: CategoryId, parent: CategoryId) {
    exists t, l :: t in types && t.id == child && l in t.parents && l.active && l.parent == parent
  }

  // Active node types, each below the one before it and none twice, from a child of node.entity down.
  ghost predicate IsLineage(types: seq<NodeType>, path: seq<CategoryId>) {
    && path != [] && path[0] != "node.block" && path[0] != "node.universe"
    && IsCategory(types, "node.entity") && HasParent(types, path[0], "node.entity")
    && (forall i | 0 <= i < |path| :: IsCategory(types, path[i]))
    && (forall i | 0 <= i < |path| - 1 :: HasParent(types, path[i + 1], path[i]))
    && (forall i, j | 0 <= i < j < |path| :: path[i] != path[j])
  }

  lemma SimpleLineageIsLineage(types: seq<NodeType>, path: seq<CategoryId>)
    ensures SimpleLineage(types, CategoriesOf(types), path) <==> IsLineage(types, path)
  {
    var categories := CategoriesOf(types);
    forall id
      ensures id in categories <==> IsCategory(types, id)
    {
      if t :| t in types && t.id == id && t.active && t.kind == "node" && "node." <= t.id {
        assert IsWikiCategoryType(t);
      }
    }
    forall p, c
      ensures Inherits(types, categories, p, c)
              <==> IsCategory(types, p) && IsCategory(types, c) && HasParent(types, c, p)
    {
    }
    if SimpleLineage(types, categories, path) {
      forall i | 0 <= i < |path|
        ensures IsCategory(types, path[i])
      {
        assert i > 0 ==> Inherits(types, categories, path[i - 1], path[i - 1 + 1]);
      }
      forall i | 0 <= i < |path| - 1
        ensures HasParent(types, path[i + 1], path[i])
      {
        assert Inherits(types, categories, path[i], path[i + 1]);
      }
    }
  }

  /*** What a node shows ***/

  // The k-th type is the last wiki category type of its id.
  ghost predicate IsLast(types: seq<NodeType>, k: nat)
    requires k < |types|
  {
    && IsWikiCategoryType(types[k])
    && forall j | k < j < |types| && IsWikiCategoryType(types[j]) :: types[j].id != types[k].id
  }

  lemma {:induction false} LastTypeCounts(types: seq<NodeType>, k: nat)
    requires k < |types| && IsLast(types, k)
    ensures types[k].id in CategoriesOf(types)
    ensures CategoriesOf(types)[types[k].id] == Category(types[k].displayName, types[k].sortName)
  {
    if k < |types| - 1 {
      assert IsLast(types[..|types| - 1], k);
      LastTypeCounts(types[..|types| - 1], k);
    }
  }

  ghost predicate ComesBefore(a: NodeType, b: NodeType) {
    Names.Less(a.sortName, b.sortName) || (a.sortName == b.sortName && Names.Less(a.id, b.id))
  }

  // Each node shows the name of the last type of its id, and siblings are in the order of those types.
  ghost predicate ShowsLast(types: seq<NodeType>, trees: seq<Tree>) {
    && (forall t, k | t in trees && 0 <= k < |types| && IsLast(types, k) && types[k].id == t.id ::
          t.displayName == types[k].displayName)
    && (forall i, j, k, l | 0 <= i < j < |trees| && 0 <= k < |types| && 0 <= l < |types| && IsLast(types, k)
                            && IsLast(types, l) && types[k].id == trees[i].id && types[l].id == trees[j].id ::
          ComesBefore(types[k], types[l]))
    && forall t | t in trees :: ShowsLast(types, t.subCategories)
  }

  lemma {:induction false} SortedShowsLast(types: seq<NodeType>, trees: seq<Tree>)
    requires WellSorted(CategoriesOf(types), trees)
    ensures ShowsLast(types, trees)
  {
    forall k | 0 <= k < |types| && IsLast(types, k)
      ensures types[k].id in CategoriesOf(types)
      ensures CategoriesOf(types)[types[k].id] == Category(types[k].displayName, types[k].sortName)
    {
      LastTypeCounts(types, k);
    }
    forall i, j, k, l | 0 <= i < j < |trees| && 0 <= k < |types| && 0 <= l < |types| && IsLast(types, k)
                        && IsLast(types, l) && types[k].id == trees[i].id && types[l].id == trees[j].id
      ensures ComesBefore(types[k], types[l])
    {
      assert Before(CategoriesOf(types), TreeIds(trees)[i], TreeIds(trees)[j]);
    }
    forall t | t in trees
      ensures ShowsLast(types, t.subCategories)
    {
      SortedShowsLast(types, t.subCategories);
    }
  }

  // The tree holds exactly the simple lineages, with siblings in order.
  method ListWikiCategoryTree(types: seq<NodeType>) returns (tree: seq<Tree>)
    ensures WellSorted(CategoriesOf(types), tree)
    ensures forall path :: HasPath(tree, path) <==> SimpleLineage(types, CategoriesOf(types), path)
    ensures forall path :: HasPath(tree, path) <==> IsLineage(types, path)
    ensures ShowsLast(types, tree)
  {
    var categories := CollectCategories(types);
    var children := CollectChildren(types, categories);
    var roots := ChildrenOf(children, ENTITY) - EXCLUDED_ROOTS;
    forall p, c | c in ChildrenOf(children, p)
      ensures c in categories
    {
      assert Inherits(types, categories, p, c);
    }
    var sortedRoots := SortIds(categories, roots);
    var included := CollectReachable(children, roots, sortedRoots, categories.Keys);
    var kept := Restrict(children, included);
    assert forall p :: ChildrenOf(kept, p) <= ChildrenOf(children, p);
    tree := [];
    for i := 0 to |sortedRoots|
      invariant UnfoldsEach(categories, kept, sortedRoots[..i], {}, tree)
    {
      assert sortedRoots[..i + 1] == sortedRoots[..i] + [sortedRoots[i]];
      var root := sortedRoots[i];
      assert root in sortedRoots && {} + {root} == {root};
      var below := BuildSubCategories(categories, kept, root, {root}, categories.Keys);
      tree := tree + [Tree(root, categories[root].displayName, below)];
    }
    assert sortedRoots[..|sortedRoots|] == sortedRoots;
    SiblingsUnfold(categories, kept, roots, {}, sortedRoots, tree);
    SortedShowsLast(types, tree);
    forall path
      ensures HasPath(tree, path) <==> SimpleLineage(types, categories, path)
      ensures HasPath(tree, path) <==> IsLineage(types, path)
    {
      SimpleLineageIsLineage(types, path);
      ContinuesIsLineage(types, categories, children, roots, included, path);
    }
  }

  /*** Which categories occur ***/

  ghost predicate Occurs(trees: seq<Tree>, id: CategoryId) {
    exists path :: HasPath(trees, path) && path[|path| - 1] == id
  }

  ghost predicate InheritsFromRoot(types: seq<NodeType>, categories: Categories, id: CategoryId, n: nat)
    decreases n
  {
    if n == 0 then IsRoot(types, categories, id)
    else exists p :: Inherits(types, categories, p, id) && InheritsFromRoot(types, categories, p, n - 1)
  }

  // A lineage that repeats a category can be cut back to one that does not.
  lemma {:induction false} SimpleLineageTo(types: seq<NodeType>, categories: Categories, id: CategoryId, n: nat)
    returns (path: seq<CategoryId>)
    requires InheritsFromRoot(types, categories, id, n)
    ensures SimpleLineage(types, categories, path) && path[|path| - 1] == id
    decreases n
  {
    if n == 0 {
      path := [id];
    } else {
      var p :| Inherits(types, categories, p, id) && InheritsFromRoot(types, categories, p, n - 1);
      path := SimpleLineageTo(types, categories, p, n - 1);
      if id in path {
        var i :| 0 <= i < |path| && path[i] == id;
        path := path[..i + 1];
      } else {
        path := path + [id];
      }
    }
  }

  lemma {:induction false} LineageEndIsReached(types: seq<NodeType>, categories: Categories, path: seq<CategoryId>,
                                               i: nat)
    requires SimpleLineage(types, categories, path) && i < |path|
    ensures InheritsFromRoot(types, categories, path[i], i)
  {
    if i > 0 {
      LineageEndIsReached(types, categories, path, i - 1);
      assert Inherits(types, categories, path[i - 1], path[i - 1 + 1]);
    }
  }

  // A tree of the simple lineages shows exactly the categories below node.entity's allowed children.
  lemma OccursIsReachable(types: seq<NodeType>, categories: Categories, tree: seq<Tree>, id: CategoryId)
    requires forall path :: HasPath(tree, path) <==> SimpleLineage(types, categories, path)
    ensures Occurs(tree, id) <==> exists n: nat :: InheritsFromRoot(types, categories, id, n)
  {
    if Occurs(tree, id) {
      var path :| HasPath(tree, path) && path[|path| - 1] == id;
      var n: nat := |path| - 1;
      LineageEndIsReached(types, categories, path, n);
      assert InheritsFromRoot(types, categories, id, n);
    }
    if exists n: nat :: InheritsFromRoot(types, categories, id, n) {
      var n: nat :| InheritsFromRoot(types, categories, id, n);
      var path := SimpleLineageTo(types, categories, id, n);
      assert HasPath(tree, path);
    }
  }
}
