/** What the documentation promises of accepted deltas and the forest needs: which rules matter, what the schema
    checks rule out, and deltas that are accepted and break the forest. */
module AcceptedDeltas {
  import opened Wrappers
  import opened GraphResolution
  import opened GraphRules
  import opened BlockForest
  import opened DeltaSchema
  import opened NodeIdentity
  import opened TypeHierarchy

  /*** Rules that never fire, and rules that say the same ***/

  lemma {:induction false} NamedCounted(entities: seq<EntityNode>, n: EntityNode)
    requires n in entities
    ensures CountNamed(entities, n.id) > 0
  {
    var init, last := entities[..|entities| - 1], entities[|entities| - 1];
    assert entities == init + [last];
    if last != n {
      NamedCounted(init, n);
    }
  }

  // Every listed entity counts as linked to a universe, so two entity rules never fire, and an isolated block
  // always breaks the parent rule as well.
  lemma RulesThatNeverFire(g: Graph, delta: GraphDelta, id: Id)
    ensures !Violates(g, delta, EntityIsolated(id)) && !Violates(g, delta, EntityWithoutUniverse(id))
    ensures Violates(g, delta, BlockIsolated(id)) ==> Violates(g, delta, BlockParentCount(id))
  {
    if id in EntityIds(delta) {
      var n :| n in delta.entities && n.id == id;
      NamedCounted(delta.entities, n);
    }
    if Violates(g, delta, BlockIsolated(id)) {
      var into := set l | l in g.links && l.toId == id;
      assert |into| == 0;
      assert Parents(g.links, id) == {} by {
        assert Parents(g.links, id) <= into;
      }
      CountZero(delta.edges, Into(id));
      CountZero(delta.edges, ParentInto(id));
    }
  }

  // A stored block that is listed again must come without a parent edge: the same edge, or a new one in its
  // place, is always rejected.
  lemma ParentEdgeCannotReturn(g: Graph, delta: GraphDelta, e: Edge)
    requires Anchored(g.blocks, g.links)
    requires e in delta.edges && IsParentKind(e.kind) && e.toId in g.blocks && e.toId in BlockIds(delta.blocks)
    ensures Violates(g, delta, BlockParentCount(e.toId))
  {
    CountZero(delta.edges, ParentInto(e.toId));
    assert ParentInto(e.toId).Holds(e);
  }

  /*** What the schema checks know about roots ***/

  // No rule for DESCRIBED_BY reaches a type below the block type.
  ghost predicate RulesApart(schema: Schema) {
    && !Descends(schema.rows, UNIVERSE, BLOCK)
    && forall r, t | r in schema.rules && r.edgeType == EdgeTypeOf(DescribedBy) && Descends(schema.rows, t, BLOCK) ::
         !Descends(schema.rows, t, r.fromType)
  }

  // On a hierarchy without cycles and with one parent for each type it is enough to look at the types that the
  // rules name.
  lemma RulesApartOnTree(schema: Schema, parents: map<TypeId, TypeId>)
    requires Lists(schema.rows, parents) && Acyclic(parents) && !Descends(schema.rows, UNIVERSE, BLOCK)
    requires forall r | r in schema.rules && r.edgeType == EdgeTypeOf(DescribedBy) ::
               !Descends(schema.rows, r.fromType, BLOCK) && !Descends(schema.rows, BLOCK, r.fromType)
    ensures RulesApart(schema)
  {
    forall r, t | r in schema.rules && r.edgeType == EdgeTypeOf(DescribedBy) && Descends(schema.rows, t, BLOCK)
      ensures !Descends(schema.rows, t, r.fromType)
    {
      if Descends(schema.rows, t, r.fromType) {
        OneBelowOther(schema.rows, parents, t, BLOCK, r.fromType);
      }
    }
  }

  // Two types above the same type lie on its chain, so one of them is above the other.
  lemma OneBelowOther(rows: seq<TypeInheritance>, parents: map<TypeId, TypeId>, t: TypeId, a: TypeId, b: TypeId)
    requires Lists(rows, parents) && Acyclic(parents) && Descends(rows, t, a) && Descends(rows, t, b)
    ensures Descends(rows, a, b) || Descends(rows, b, a)
  {
    assert Ends(parents, t);
    var chain :| Climbs(parents, t, chain);
    WalkersAgree(rows, parents, t, chain);
    var i, j :| 0 <= i < |chain| && 0 <= j < |chain| && chain[i] == a && chain[j] == b;
    TailClimbs(parents, t, chain, i);
    TailClimbs(parents, t, chain, j);
    WalkersAgree(rows, parents, a, chain[i..]);
    WalkersAgree(rows, parents, b, chain[j..]);
    assert if i <= j then b == chain[i..][j - i] else a == chain[j..][i - j];
  }

  lemma {:induction false} ListedBlockType(rows: seq<TypeInheritance>, types: map<Id, TypeId>, blocks: seq<Block>,
                                           valid: set<Id>, id: Id)
    requires forall b | b in blocks :: b.id in valid && Descends(rows, b.typeId, BLOCK)
    requires id in BlockIds(blocks)
    ensures id in WithBlocks(types, blocks, valid) && Descends(rows, WithBlocks(types, blocks, valid)[id], BLOCK)
  {
    var init, last := blocks[..|blocks| - 1], blocks[|blocks| - 1];
    assert blocks == init + [last];
    if last.id != id {
      ListedBlockType(rows, types, init, valid, id);
    }
  }

  // The schema checks let no listed block be the root of another listed block.
  lemma ListedRootIsNoBlock(schema: Schema, valid: set<Id>, delta: GraphDelta, e: Edge)
    requires SchemaAccepts(schema, valid, delta) && RulesApart(schema)
    requires e in delta.edges && e.kind.DescribedBy? && e.toId in BlockIds(delta.blocks)
    ensures e.fromId !in BlockIds(delta.blocks)
  {
    if e.fromId in BlockIds(delta.blocks) {
      forall b | b in delta.blocks
        ensures b.id in valid && Descends(schema.rows, b.typeId, BLOCK)
      {
        assert !Rejects(schema, valid, delta, BadId(b.id));
        assert !Rejects(schema, valid, delta, UnknownNodeType(b.id, b.typeId));
        assert !Rejects(schema, valid, delta, NotUnder(b.id, b.typeId, BLOCK));
      }
      var listed := WithEntities(WithUniverses(delta.universes, valid), delta.entities, valid);
      var types := NodeTypes(delta, valid);
      ListedBlockType(schema.rows, listed, delta.blocks, valid, e.fromId);
      ListedBlockType(schema.rows, listed, delta.blocks, valid, e.toId);
      AcceptedEdgeAllowed(schema, valid, delta, e, types);
    }
  }

  lemma AcceptedEdgeAllowed(schema: Schema, valid: set<Id>, delta: GraphDelta, e: Edge, types: map<Id, TypeId>)
    requires SchemaAccepts(schema, valid, delta) && e in delta.edges && types == NodeTypes(delta, valid)
    requires e.fromId in types && e.toId in types
    ensures EndpointsAllowed(schema, EdgeTypeOf(e.kind), types[e.fromId], types[e.toId])
  {
    assert !Rejects(schema, valid, delta, UnknownEdgeType(e));
    assert !Rejects(schema, valid, delta, EndpointsDisallowed(e, types[e.fromId], types[e.toId]));
  }

  // With rules kept apart from blocks, and no owner's id reused for a block, an accepted delta keeps the forest
  // exactly when it lists every block it gives a parent, no DESCRIBED_BY edge starts at a stored block, and every
  // record finds the node of its id.
  lemma ForestKeptBySchema(g: Graph, schema: Schema, valid: set<Id>, delta: GraphDelta, lookup: Lookup,
                           levels: map<Id, int>, roots: map<Id, Id>)
    requires WellFormed(g) && Accepted(g, schema, valid, delta, lookup, levels, roots) && RulesApart(schema)
    requires forall id | id in BlockIds(delta.blocks) :: id !in g.entities && id !in g.universes
    ensures WellFormed(Written(g, schema, delta, levels, roots)) <==>
            && ListsNewChildren(g, delta)
            && (forall e | e in delta.edges && e.kind.DescribedBy? :: e.fromId !in g.blocks)
            && FindsNodes(g.nodes, Records(schema.rows, delta))
  {
    UpsertKeepsForest(g, schema, valid, delta, lookup, levels, roots);
    if ListsNewChildren(g, delta) {
      SentRootsDecide(g, schema, valid, delta);
    }
  }

  lemma SentRootsDecide(g: Graph, schema: Schema, valid: set<Id>, delta: GraphDelta)
    requires RootsOwned(g) && SchemaAccepts(schema, valid, delta) && RulesApart(schema) && ListsNewChildren(g, delta)
    requires forall id | id in BlockIds(delta.blocks) :: id !in g.entities && id !in g.universes
    ensures RootsAreNoBlocks(g, delta) <==> forall e | e in delta.edges && e.kind.DescribedBy? :: e.fromId !in g.blocks
  {
    forall e | e in delta.edges && e.kind.DescribedBy?
      ensures e.fromId !in BlockIds(delta.blocks)
    {
      if e.toId in BlockIds(delta.blocks) {
        ListedRootIsNoBlock(schema, valid, delta, e);
      } else {
        assert LinkOf(e) in g.links;
      }
    }
  }

  /*** Accepted deltas that break the forest ***/

  // With no blocks listed, the rules for nodes are all that is checked.
  lemma NoBlocksAccepted(g: Graph, schema: Schema, valid: set<Id>, delta: GraphDelta, lookup: Lookup)
    requires delta.blocks == [] && SchemaAccepts(schema, valid, delta) && Admitted(g, delta)
    requires ReportsStored(g, lookup) && EndpointsExist(g, delta)
    ensures Accepted(g, schema, valid, delta, lookup, map[], map[])
  {
    var ids := BlockIds(delta.blocks);
    assert ids == {};
    forall p
      ensures p !in ParentScopes(ids, delta.edges)
    {
      ParentScopesKeys(ids, delta.edges, p);
    }
    var contexts := ParentContexts(ids, delta.edges, lookup);
    var pairs := SummaryPairs(ids, contexts, delta.edges);
    forall p, id
      ensures (p, id) !in pairs
    {
      InSummaryPairs(ids, contexts, delta.edges, p, id);
    }
    var none: map<Id, int> := map[];
    assert AreSeeds(DescribedIds(ids, delta.edges), contexts, delta.blocks, lookup, none);
    assert LeastLevels(none, pairs, none);
    var noRoots: map<Id, Id> := map[];
    assert noRoots.Keys == ids;
  }

  // A second parent for a stored block that the delta does not list is accepted, and breaks the forest.
  lemma UnlistedChildIsAccepted(g: Graph, schema: Schema, lookup: Lookup, parent: Id, child: Id, scope: Scope)
    requires WellFormed(g) && ReportsStored(g, lookup) && EdgeTypeOf(Summarizes) in schema.edgeTypes
    requires parent in g.blocks && child in g.blocks && Link(parent, child, Summarizes) !in g.links
    ensures var delta := GraphDelta([], [], [], [Edge(parent, child, Summarizes, scope)]);
            && Accepted(g, schema, {parent, child}, delta, lookup, map[], map[])
            && !WellFormed(Written(g, schema, delta, map[], map[]))
  {
    var edge := Edge(parent, child, Summarizes, scope);
    var delta := GraphDelta([], [], [], [edge]);
    assert SchemaAccepts(schema, {parent, child}, delta);
    assert Admitted(g, delta);
    NoBlocksAccepted(g, schema, {parent, child}, delta, lookup);
    assert !ListsNewChildren(g, delta) by {
      assert edge in delta.edges && LinkOf(edge) == Link(parent, child, Summarizes);
    }
    UnlistedChildBreaksForest(g, schema, delta, map[], map[]);
  }

  // One new block below a stored node that the delta does not list.
  function NewBlockDelta(a: Block, source: Id, scope: Scope): GraphDelta {
    GraphDelta([], [], [a], [Edge(source, a.id, DescribedBy, scope)])
  }

  predicate IsNewBlock(g: Graph, schema: Schema, a: Block, source: Id) {
    && source in g.universes + g.entities + g.blocks && a.id !in g.universes + g.entities + g.blocks
    && a.typeId in schema.nodeTypes && EdgeTypeOf(DescribedBy) in schema.edgeTypes
  }

  lemma NewBlockPassesSchema(g: Graph, schema: Schema, a: Block, source: Id, scope: Scope)
    requires IsNewBlock(g, schema, a, source) && Descends(schema.rows, a.typeId, BLOCK)
    ensures SchemaAccepts(schema, {source, a.id}, NewBlockDelta(a, source, scope))
  {
    var delta, valid := NewBlockDelta(a, source, scope), {source, a.id};
    assert [a][..0] == [] && WithUniverses(delta.universes, valid) == map[];
    assert WithBlocks(map[], [a], valid) == WithBlocks(map[], [], valid)[a.id := a.typeId];
    assert NodeTypes(delta, valid) == map[a.id := a.typeId];
  }

  lemma NewBlockPassesRules(g: Graph, a: Block, source: Id, scope: Scope)
    requires WellFormed(g) && a.id !in g.blocks
    ensures Admitted(g, NewBlockDelta(a, source, scope))
  {
    var delta := NewBlockDelta(a, source, scope);
    assert delta.edges[..0] == [];
    assert Parents(g.links, a.id) == {};
    forall v
      ensures !Violates(g, delta, v)
    {
      assert CountEdges(delta.edges[..0], ParentInto(v.id)) == 0 && CountEdges(delta.edges[..0], Into(v.id)) == 0;
    }
  }

  lemma NewBlockResolves(a: Block, source: Id, scope: Scope, lookup: Lookup)
    ensures var delta := NewBlockDelta(a, source, scope);
            && RootsFound(delta.blocks, delta.edges, lookup)
            && AreBlockLevels(delta.blocks, delta.edges, lookup, map[a.id := 0])
            && AreBlockRoots(delta.blocks, LinksOf(BlockIds(delta.blocks), delta.edges, lookup), lookup,
                             map[a.id := source])
  {
    var delta := NewBlockDelta(a, source, scope);
    var ids, edge := BlockIds(delta.blocks), delta.edges[0];
    assert ids == {a.id} && delta.edges[..0] == [] && delta.edges[1..] == [];
    forall p
      ensures p !in ParentScopes(ids, delta.edges)
    {
      ParentScopesKeys(ids, delta.edges, p);
    }
    var links := LinksOf(ids, delta.edges, lookup);
    assert ParentMap(ids, [edge], DescribedBy) == ParentMap(ids, [], DescribedBy)[a.id := source] by {
      assert [edge][..0] == [];
    }
    assert RootChain(links, lookup, a.scope, a.id, 0, source, 0);
    assert ResolvesTo(links, lookup, a, source);
    var seeds: map<Id, int> := map[a.id := 0];
    assert edge in delta.edges && DescribedIds(ids, delta.edges) == {a.id};
    StoredLevelOfOne(a, lookup);
    assert AreSeeds({a.id}, links.contexts, delta.blocks, lookup, seeds);
    assert SummaryPairs(ids, links.contexts, delta.edges) == [];
    assert Reaches(seeds, [], a.id, 0, 0) && LeastLevels(seeds, [], seeds);
    assert seeds == map id | id in seeds && id in ids :: seeds[id];
  }

  lemma StoredLevelOfOne(a: Block, lookup: Lookup)
    ensures forall id | id != a.id :: StoredLevel([a], lookup, id) == None
  {
    assert [a][..0] == [];
  }

  lemma NewBlockIsAccepted(g: Graph, schema: Schema, lookup: Lookup, a: Block, source: Id, scope: Scope)
    requires WellFormed(g) && ReportsStored(g, lookup)
    requires IsNewBlock(g, schema, a, source) && Descends(schema.rows, a.typeId, BLOCK)
    ensures var delta := NewBlockDelta(a, source, scope);
            && Accepted(g, schema, {source, a.id}, delta, lookup, map[a.id := 0], map[a.id := source])
            && ListsNewChildren(g, delta)
  {
    NewBlockPassesSchema(g, schema, a, source, scope);
    NewBlockPassesRules(g, a, source, scope);
    NewBlockResolves(a, source, scope, lookup);
  }

  // A new block whose DESCRIBED_BY edge starts at a stored block is accepted, lists all it should, and is written
  // with a block for its root.
  lemma BlockAsRootIsAccepted(g: Graph, schema: Schema, lookup: Lookup, a: Block, source: Id, scope: Scope)
    requires WellFormed(g) && ReportsStored(g, lookup) && source in g.blocks
    requires IsNewBlock(g, schema, a, source) && Descends(schema.rows, a.typeId, BLOCK)
    ensures var delta := NewBlockDelta(a, source, scope);
            var levels, roots := map[a.id := 0], map[a.id := source];
            && Accepted(g, schema, {source, a.id}, delta, lookup, levels, roots) && ListsNewChildren(g, delta)
            && Written(g, schema, delta, levels, roots).roots[a.id] in g.blocks
            && !WellFormed(Written(g, schema, delta, levels, roots))
  {
    var delta := NewBlockDelta(a, source, scope);
    NewBlockIsAccepted(g, schema, lookup, a, source, scope);
    assert delta.edges[0] in delta.edges;
    UpsertKeepsForest(g, schema, {source, a.id}, delta, lookup, map[a.id := 0], map[a.id := source]);
  }

  lemma StoredBlockResolves(b: Block, lookup: Lookup)
    requires (b.id, b.scope) in lookup
    ensures var (context, delta) := (lookup[(b.id, b.scope)], GraphDelta([], [], [b], []));
            && RootsFound(delta.blocks, delta.edges, lookup)
            && AreBlockLevels(delta.blocks, delta.edges, lookup, map[b.id := context.level])
            && AreBlockRoots(delta.blocks, LinksOf(BlockIds(delta.blocks), delta.edges, lookup), lookup,
                             map[b.id := context.root])
  {
    var context, delta := lookup[(b.id, b.scope)], GraphDelta([], [], [b], []);
    var ids := BlockIds(delta.blocks);
    assert ids == {b.id} && [b][..0] == [];
    var links := LinksOf(ids, [], lookup);
    assert RootChain(links, lookup, b.scope, b.id, 0, context.root, context.level);
    assert ResolvesTo(links, lookup, b, context.root);
    var seeds: map<Id, int> := map[b.id := context.level];
    assert StoredLevel([b], lookup, b.id) == Some(context.level);
    StoredLevelOfOne(b, lookup);
    assert DescribedIds(ids, []) == {} && SummaryPairs(ids, links.contexts, []) == [];
    assert AreSeeds({}, links.contexts, delta.blocks, lookup, seeds);
    assert Reaches(seeds, [], b.id, 0, context.level) && LeastLevels(seeds, [], seeds);
    assert seeds == map id | id in seeds && id in ids :: seeds[id];
  }

  lemma StoredBlockPasses(g: Graph, schema: Schema, b: Block)
    requires WellFormed(g) && b.id in g.blocks
    requires b.typeId in schema.nodeTypes && Descends(schema.rows, b.typeId, BLOCK)
    ensures SchemaAccepts(schema, {b.id}, GraphDelta([], [], [b], []))
    ensures Admitted(g, GraphDelta([], [], [b], []))
  {
    var delta := GraphDelta([], [], [b], []);
    assert |Parents(g.links, b.id)| == 1;
    forall v
      ensures !Violates(g, delta, v)
    {
      if v == BlockIsolated(b.id) {
        RulesThatNeverFire(g, delta, b.id);
      }
    }
  }

  // A stored block listed again under a type with a label its node lacks is accepted, meets the other conditions,
  // and gets a second node.
  lemma RetypedBlockIsAccepted(g: Graph, schema: Schema, lookup: Lookup, b: Block, n: Node)
    requires WellFormed(g) && ReportsStored(g, lookup) && b.id in g.blocks && (b.id, b.scope) in lookup
    requires b.typeId in schema.nodeTypes && Descends(schema.rows, b.typeId, BLOCK)
    requires n in g.nodes && n.id == b.id && !(LabelSet(schema.rows, b.typeId) <= n.labels)
    ensures var (context, delta) := (lookup[(b.id, b.scope)], GraphDelta([], [], [b], []));
            var (levels, roots) := (map[b.id := context.level], map[b.id := context.root]);
            && Accepted(g, schema, {b.id}, delta, lookup, levels, roots)
            && ListsNewChildren(g, delta) && RootsAreNoBlocks(g, delta)
            && !WellFormed(Written(g, schema, delta, levels, roots))
  {
    var context, delta := lookup[(b.id, b.scope)], GraphDelta([], [], [b], []);
    StoredBlockPasses(g, schema, b);
    StoredBlockResolves(b, lookup);
    var records := Records(schema.rows, delta);
    assert records[0] in records && records[0] == Node(b.id, LabelSet(schema.rows, b.typeId));
    UpsertKeepsForest(g, schema, {b.id}, delta, lookup, map[b.id := context.level], map[b.id := context.root]);
  }

  /*** Endpoint rules follow the hierarchy ***/

  lemma {:induction false} DescendsTransitive(rows: seq<TypeInheritance>, a: TypeId, b: TypeId, c: TypeId, n: nat)
    requires Descends(rows, a, b) && Ancestor(rows, b, c, n)
    ensures Descends(rows, a, c)
    decreases n
  {
    if n > 0 {
      var p :| IsParent(rows, b, p) && Ancestor(rows, p, c, n - 1);
      DescendsStep(rows, a, b, p);
      DescendsTransitive(rows, a, p, c, n - 1);
    }
  }

  // An edge allowed between two types is allowed between any of their subtypes. Universes aside, whose ends are
  // allowed without a rule and by exact type only.
  lemma SubtypesKeepEndpoints(schema: Schema, edgeType: TypeId, a: TypeId, b: TypeId, a': TypeId, b': TypeId)
    requires EndpointsAllowed(schema, edgeType, a, b) && a != UNIVERSE && b != UNIVERSE
    requires Descends(schema.rows, a', a) && Descends(schema.rows, b', b)
    ensures EndpointsAllowed(schema, edgeType, a', b')
  {
    var r :| r in schema.rules && r.edgeType == edgeType
             && Descends(schema.rows, a, r.fromType) && Descends(schema.rows, b, r.toType);
    var n: nat :| Ancestor(schema.rows, a, r.fromType, n);
    DescendsTransitive(schema.rows, a', a, r.fromType, n);
    var m: nat :| Ancestor(schema.rows, b, r.toType, m);
    DescendsTransitive(schema.rows, b', b, r.toType, m);
  }

  // The starter schema's rules for DESCRIBED_BY, on a tree of types with universes, entities and blocks apart.
  ghost predicate StarterRules(schema: Schema, parents: map<TypeId, TypeId>) {
    && Lists(schema.rows, parents) && Acyclic(parents)
    && (forall a, b | a in {UNIVERSE, ENTITY, BLOCK} && b in {UNIVERSE, ENTITY, BLOCK} && a != b ::
          !Descends(schema.rows, a, b))
    && "edge.described_by" in schema.edgeTypes
    && EdgeRule("edge.described_by", "node.entity", "node.block") in schema.rules
    && forall r | r in schema.rules && r.edgeType == "edge.described_by" ::
         r.fromType in {"node.entity", "node.universe"} && r.toType == "node.block"
  }

  lemma NoRuleFromBlock(schema: Schema, parents: map<TypeId, TypeId>, t: TypeId, r: EdgeRule)
    requires StarterRules(schema, parents) && Descends(schema.rows, t, BLOCK)
    requires r in schema.rules && r.edgeType == "edge.described_by"
    ensures !Descends(schema.rows, t, r.fromType)
  {
    if Descends(schema.rows, t, r.fromType) {
      OneBelowOther(schema.rows, parents, t, BLOCK, r.fromType);
    }
  }

  // With these rules a DESCRIBED_BY edge from a listed entity to a listed block passes, and its reverse never does.
  lemma DescribedByIsDirected(schema: Schema, parents: map<TypeId, TypeId>, valid: set<Id>, delta: GraphDelta, e: Edge)
    requires StarterRules(schema, parents)
    requires e in delta.edges && e.kind.DescribedBy?
    requires e.fromId in NodeTypes(delta, valid) && e.toId in NodeTypes(delta, valid)
    ensures var (from, to) := (NodeTypes(delta, valid)[e.fromId], NodeTypes(delta, valid)[e.toId]);
            && (Descends(schema.rows, from, ENTITY) && Descends(schema.rows, to, BLOCK) ==>
                  forall a, b :: !Rejects(schema, valid, delta, EndpointsDisallowed(e, a, b)))
            && (Descends(schema.rows, from, BLOCK) && Descends(schema.rows, to, ENTITY) ==>
                  Rejects(schema, valid, delta, EndpointsDisallowed(e, from, to)))
  {
    var from, to := NodeTypes(delta, valid)[e.fromId], NodeTypes(delta, valid)[e.toId];
    if Descends(schema.rows, from, BLOCK) && Descends(schema.rows, to, ENTITY) {
      forall r | r in schema.rules && r.edgeType == "edge.described_by"
        ensures !Descends(schema.rows, from, r.fromType)
      {
        NoRuleFromBlock(schema, parents, from, r);
      }
      assert EdgeRejected(schema, valid, NodeTypes(delta, valid), e, EndpointsDisallowed(e, from, to));
    }
  }

  /*** A listed universe is linked ***/

  predicate Touches(links: set<Link>, id: Id) {
    exists l :: l in links && (l.fromId == id || l.toId == id)
  }

  // Nothing stored or sent leads to id or from it, and it is listed as an entity too, whose universe is unknown:
  // the link counted for that entity is never written.
  predicate IsLost(g: Graph, delta: GraphDelta, id: Id) {
    && !Touches(g.links, id)
    && (forall e | e in delta.edges :: e.fromId != id && e.toId != id)
    && (forall n | n in delta.entities :: n.TargetUniverse() != id)
    && (exists n :: n in delta.entities && n.id == id)
    && (forall n | n in delta.entities && n.id == id :: n.TargetUniverse() !in g.universes + UniverseIds(delta))
  }

  lemma {:induction false} CountsListed(entities: seq<EntityNode>, id: Id)
    ensures CountNamed(entities, id) == 0 <==> forall n | n in entities :: n.id != id
    ensures CountTargeting(entities, id) == 0 <==> forall n | n in entities :: n.TargetUniverse() != id
  {
    if entities != [] {
      assert entities == entities[..|entities| - 1] + [entities[|entities| - 1]];
      CountsListed(entities[..|entities| - 1], id);
    }
  }

  lemma UntouchedIsUncounted(g: Graph, delta: GraphDelta, id: Id)
    requires !Touches(g.links, id) && forall e | e in delta.edges :: e.fromId != id && e.toId != id
    ensures Isolated(g, delta, id) <==> forall n | n in delta.entities :: n.id != id && n.TargetUniverse() != id
  {
    assert (set l | l in g.links && l.toId == id) == {} && (set l | l in g.links && l.fromId == id) == {};
    CountZero(delta.edges, Into(id));
    CountZero(delta.edges, OutOf(id));
    CountsListed(delta.entities, id);
  }

  predicate SendsTo(delta: GraphDelta, id: Id) {
    exists e :: e in delta.edges && (e.fromId == id || e.toId == id)
  }

  // Some listed entity is, or names as its universe, this id, and the universe it names is known.
  predicate ImpliesLink(g: Graph, delta: GraphDelta, id: Id) {
    exists n :: n in delta.entities && (n.id == id || n.TargetUniverse() == id)
                && n.TargetUniverse() in g.universes + UniverseIds(delta)
  }

  lemma HeldTouches(g: Graph, delta: GraphDelta, g': Graph, id: Id)
    requires Holds(g, delta, g')
    ensures Touches(g'.links, id) <==> Touches(g.links, id) || SendsTo(delta, id) || ImpliesLink(g, delta, id)
  {
    if Touches(g'.links, id) {
      var l :| l in g'.links && (l.fromId == id || l.toId == id);
      assert l in g.links || IsSent(delta, l) || IsImplied(g, delta, l);
    }
    if e :| e in delta.edges && (e.fromId == id || e.toId == id) {
      assert IsSent(delta, LinkOf(e)) && LinkOf(e) in g'.links;
    }
    if n :| n in delta.entities && (n.id == id || n.TargetUniverse() == id)
            && n.TargetUniverse() in g.universes + UniverseIds(delta) {
      var l := Link(n.id, n.TargetUniverse(), IsPartOf);
      assert IsImplied(g, delta, l) && l in g'.links;
    }
    if l :| l in g.links && (l.fromId == id || l.toId == id) {
      assert l in g'.links;
    }
  }

  // A universe that an admitted delta lists has a link afterwards, but for one that is lost in this way.
  lemma ListedUniverseLinked(g: Graph, schema: Schema, delta: GraphDelta, levels: map<Id, int>, roots: map<Id, Id>,
                             id: Id)
    requires Admitted(g, delta) && id in UniverseIds(delta)
    ensures Touches(Written(g, schema, delta, levels, roots).links, id) <==> !IsLost(g, delta, id)
  {
    assert !Violates(g, delta, UniverseIsolated(id));
    WrittenHolds(g, schema, delta, levels, roots);
    HeldTouches(g, delta, Written(g, schema, delta, levels, roots), id);
    if !Touches(g.links, id) && !SendsTo(delta, id) {
      UntouchedIsUncounted(g, delta, id);
    }
  }

  // A universe listed as an entity too, in the "universe" of an entity listed before it.
  function LostDelta(u: Id, n: EntityNode): GraphDelta {
    GraphDelta([Universe(u)], [n, EntityNode(u, n.typeId, Some(n.id))], [], [])
  }

  lemma LostPassesSchema(schema: Schema, u: Id, n: EntityNode)
    requires n.universeId.None? && n.typeId in schema.nodeTypes && Descends(schema.rows, n.typeId, ENTITY)
    ensures SchemaAccepts(schema, {n.id, u}, LostDelta(u, n))
  {
    var delta, valid := LostDelta(u, n), {n.id, u};
    var known := WithUniverses(delta.universes, valid);
    assert delta.entities[..2] == delta.entities && delta.entities[..2][..1] == [n] && [n][..0] == [];
    assert n.id in WithEntities(known, delta.entities[..2], valid);
    assert !NamesUnknownUniverse(delta, valid, 1);
  }

  lemma LostPassesRules(g: Graph, u: Id, n: EntityNode)
    requires !Touches(g.links, u) && n.id !in g.entities
    ensures Admitted(g, LostDelta(u, n))
  {
    var delta := LostDelta(u, n);
    CountsListed(delta.entities, u);
    assert delta.entities[1] in delta.entities;
    forall v
      ensures !Violates(g, delta, v)
    {
      RulesThatNeverFire(g, delta, v.id);
      assert (set l | l in g.links && l.fromId == u && l.kind.DescribedBy? && l.toId in g.blocks) == {};
    }
  }

  lemma LostIsLost(g: Graph, u: Id, n: EntityNode)
    requires !Touches(g.links, u) && u != n.id && u != COMMON_UNIVERSE_ID
    requires n.id !in g.universes && n.universeId.None?
    ensures IsLost(g, LostDelta(u, n), u)
  {
    assert LostDelta(u, n).entities[1] in LostDelta(u, n).entities;
  }

  // Such a universe is accepted, and left without a link.
  lemma LostUniverseIsAccepted(g: Graph, schema: Schema, lookup: Lookup, u: Id, n: EntityNode)
    requires ReportsStored(g, lookup) && !Touches(g.links, u) && u != n.id && u != COMMON_UNIVERSE_ID
    requires n.id !in g.universes + g.entities && n.universeId.None?
    requires n.typeId in schema.nodeTypes && Descends(schema.rows, n.typeId, ENTITY)
    ensures Accepted(g, schema, {n.id, u}, LostDelta(u, n), lookup, map[], map[])
    ensures !Touches(Written(g, schema, LostDelta(u, n), map[], map[]).links, u)
  {
    LostPassesSchema(schema, u, n);
    LostPassesRules(g, u, n);
    NoBlocksAccepted(g, schema, {n.id, u}, LostDelta(u, n), lookup);
    LostIsLost(g, u, n);
    ListedUniverseLinked(g, schema, LostDelta(u, n), map[], map[], u);
  }
}
