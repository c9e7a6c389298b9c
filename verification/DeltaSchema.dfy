/** The checks of a graph delta against the schema: the types of its nodes, the universes of its entities
    and the endpoint rules of its edges. */
module DeltaSchema {
  import opened GraphResolution
  import opened GraphRules
  import opened TypeHierarchy

  const UNIVERSE: TypeId := "node.universe"
  const ENTITY: TypeId := "node.entity"
  const BLOCK: TypeId := "node.block"

  datatype EdgeRule = EdgeRule(edgeType: TypeId, fromType: TypeId, toType: TypeId)

  datatype Schema = Schema(nodeTypes: set<TypeId>, edgeTypes: set<TypeId>, rows: seq<TypeInheritance>,
                           rules: seq<EdgeRule>)

  function EdgeTypeOf(kind: EdgeKind): TypeId {
    match kind
    case DescribedBy => "edge.described_by"
    case Summarizes => "edge.summarizes"
    case IsPartOf => "edge.is_part_of"
    case Other(name) => "edge." + name
  }

  // The kind of an edge whose type reads so in lower case.
  function KindOf(name: string): EdgeKind {
    match name
    case "described_by" => DescribedBy
    case "summarizes" => Summarizes
    case "is_part_of" => IsPartOf
    case _ => Other(name)
  }

  // The schema type of an edge is its lower-case name behind the prefix for edges.
  lemma TypeOfKind(name: string)
    ensures EdgeTypeOf(KindOf(name)) == "edge." + name
  {
    assert "edge." + "described_by" == "edge.described_by";
    assert "edge." + "summarizes" == "edge.summarizes";
    assert "edge." + "is_part_of" == "edge.is_part_of";
  }

  datatype SchemaError =
    | BadId(id: Id)
    | UnknownUniverse(id: Id, universeId: Id)
    | UnknownNodeType(id: Id, typeId: TypeId)
    | NotUnder(id: Id, typeId: TypeId, base: TypeId)
    | UnknownEdgeType(edge: Edge)
    | EndpointsDisallowed(edge: Edge, fromType: TypeId, toType: TypeId)

  /*** The types of the listed nodes ***/

  function WithUniverses(universes: seq<Universe>, valid: set<Id>): map<Id, TypeId> {
    map u | u in universes && u.id in valid :: u.id := UNIVERSE
  }

  // Later records overwrite the type an earlier one gave the same id; records with a malformed id are skipped.
  function WithEntities(types: map<Id, TypeId>, entities: seq<EntityNode>, valid: set<Id>): map<Id, TypeId>
    decreases entities
  {
    if entities == [] then types
    else
      var earlier, n := WithEntities(types, entities[..|entities| - 1], valid), entities[|entities| - 1];
      if n.id in valid then earlier[n.id := n.typeId] else earlier
  }

  function WithBlocks(types: map<Id, TypeId>, blocks: seq<Block>, valid: set<Id>): map<Id, TypeId>
    decreases blocks
  {
    if blocks == [] then types
    else
      var earlier, b := WithBlocks(types, blocks[..|blocks| - 1], valid), blocks[|blocks| - 1];
      if b.id in valid then earlier[b.id := b.typeId] else earlier
  }

  function NodeTypes(delta: GraphDelta, valid: set<Id>): map<Id, TypeId> {
    WithBlocks(WithEntities(WithUniverses(delta.universes, valid), delta.entities, valid), delta.blocks, valid)
  }

  /*** What is rejected ***/

  // The i-th entity names no universe the check knows: not a listed one, not the common one, and not the id of
  // any record read so far, its own included.
  predicate NamesUnknownUniverse(delta: GraphDelta, valid: set<Id>, i: nat)
    requires i < |delta.entities|
  {
    var n := delta.entities[i];
    && n.universeId.Some? && n.universeId.value != COMMON_UNIVERSE_ID
    && n.universeId.value !in UniverseIds(delta)
    && n.universeId.value !in WithEntities(WithUniverses(delta.universes, valid), delta.entities[..i + 1], valid)
  }

  ghost predicate EndpointsAllowed(schema: Schema, edgeType: TypeId, fromType: TypeId, toType: TypeId) {
    || fromType == UNIVERSE || toType == UNIVERSE
    || exists r :: r in schema.rules && r.edgeType == edgeType
                   && Descends(schema.rows, fromType, r.fromType) && Descends(schema.rows, toType, r.toType)
  }

  ghost predicate EntityRejected(schema: Schema, valid: set<Id>, delta: GraphDelta, i: nat, e: SchemaError)
    requires i < |delta.entities|
  {
    var n := delta.entities[i];
    if n.id !in valid then e == BadId(n.id)
    else
      || (NamesUnknownUniverse(delta, valid, i) && e == UnknownUniverse(n.id, n.universeId.value))
      || NodeRejected(schema, n.id, n.typeId, ENTITY, e)
  }

  ghost predicate NodeRejected(schema: Schema, id: Id, typeId: TypeId, base: TypeId, e: SchemaError) {
    if typeId !in schema.nodeTypes then e == UnknownNodeType(id, typeId)
    else !Descends(schema.rows, typeId, base) && e == NotUnder(id, typeId, base)
  }

  ghost predicate BlockRejected(schema: Schema, valid: set<Id>, b: Block, e: SchemaError) {
    if b.id !in valid then e == BadId(b.id) else NodeRejected(schema, b.id, b.typeId, BLOCK, e)
  }

  ghost predicate EdgeRejected(schema: Schema, valid: set<Id>, types: map<Id, TypeId>, edge: Edge, e: SchemaError) {
    var edgeType := EdgeTypeOf(edge.kind);
    || (edge.fromId !in valid && e == BadId(edge.fromId))
    || (edge.toId !in valid && e == BadId(edge.toId))
    || (edgeType !in schema.edgeTypes && e == UnknownEdgeType(edge))
    || (edgeType in schema.edgeTypes && edge.fromId in types && edge.toId in types
        && !EndpointsAllowed(schema, edgeType, types[edge.fromId], types[edge.toId])
        && e == EndpointsDisallowed(edge, types[edge.fromId], types[edge.toId]))
  }

  ghost predicate Rejects(schema: Schema, valid: set<Id>, delta: GraphDelta, e: SchemaError) {
    || (exists u :: u in delta.universes && u.id !in valid && e == BadId(u.id))
    || (exists i: nat :: i < |delta.entities| && EntityRejected(schema, valid, delta, i, e))
    || (exists b :: b in delta.blocks && BlockRejected(schema, valid, b, e))
    || (exists edge :: edge in delta.edges && EdgeRejected(schema, valid, NodeTypes(delta, valid), edge, e))
  }

  ghost predicate SchemaAccepts(schema: Schema, valid: set<Id>, delta: GraphDelta) {
    forall e :: !Rejects(schema, valid, delta, e)
  }

  /*** What passes ***/

  lemma {:induction false} EntityKeys(types: map<Id, TypeId>, entities: seq<EntityNode>, valid: set<Id>, id: Id)
    ensures id in WithEntities(types, entities, valid) <==>
            id in types || exists k: nat :: k < |entities| && entities[k].id == id && id in valid
  {
    if entities != [] {
      EntityKeys(types, entities[..|entities| - 1], valid, id);
    }
  }

  // An entity passes the universe check exactly when it names a listed universe, the common one, or the id of an
  // entity listed no later than itself: the last is no universe, and then no link is written.
  lemma UniverseCheckPasses(delta: GraphDelta, valid: set<Id>, i: nat)
    requires i < |delta.entities|
    ensures !NamesUnknownUniverse(delta, valid, i) <==>
            var u := delta.entities[i].TargetUniverse();
            || u == COMMON_UNIVERSE_ID || u in UniverseIds(delta)
            || exists k: nat :: k <= i && delta.entities[k].id == u && u in valid
  {
    var u := delta.entities[i].TargetUniverse();
    var known := WithUniverses(delta.universes, valid);
    EntityKeys(known, delta.entities[..i + 1], valid, u);
    assert forall k: nat | k <= i :: delta.entities[..i + 1][k] == delta.entities[k];
  }

  // An entity's universe is the common one, a listed one, or the id of an entity listed no later.
  ghost predicate UniverseKnown(delta: GraphDelta, i: nat)
    requires i < |delta.entities|
  {
    match delta.entities[i].universeId
    case None => true
    case Some(u) =>
      || u == COMMON_UNIVERSE_ID
      || (exists v :: v in delta.universes && v.id == u)
      || (exists k :: 0 <= k <= i && delta.entities[k].id == u)
  }

  predicate LastBlockAt(blocks: seq<Block>, k: nat, id: Id, t: TypeId) {
    && k < |blocks| && blocks[k].id == id && blocks[k].typeId == t
    && forall j | k < j < |blocks| :: blocks[j].id != id
  }

  ghost predicate LastBlock(blocks: seq<Block>, id: Id, t: TypeId) {
    exists k: nat :: LastBlockAt(blocks, k, id, t)
  }

  predicate LastEntityAt(entities: seq<EntityNode>, k: nat, id: Id, t: TypeId) {
    && k < |entities| && entities[k].id == id && entities[k].typeId == t
    && forall j | k < j < |entities| :: entities[j].id != id
  }

  ghost predicate LastEntity(entities: seq<EntityNode>, id: Id, t: TypeId) {
    exists k: nat :: LastEntityAt(entities, k, id, t)
  }

  // The last block of this id decides its type, else the last entity, else it is a universe's.
  ghost predicate ListedAs(delta: GraphDelta, id: Id, t: TypeId) {
    if exists b :: b in delta.blocks && b.id == id then LastBlock(delta.blocks, id, t)
    else if exists n :: n in delta.entities && n.id == id then LastEntity(delta.entities, id, t)
    else t == "node.universe" && exists u :: u in delta.universes && u.id == id
  }

  // Some rule for the edge type leads from a type at or above from to one at or above to.
  ghost predicate RuleCovers(schema: Schema, edgeType: TypeId, from: TypeId, to: TypeId) {
    exists r :: r in schema.rules && r.edgeType == edgeType
                && Descends(schema.rows, from, r.fromType) && Descends(schema.rows, to, r.toType)
  }

  ghost predicate EdgePasses(schema: Schema, valid: set<Id>, delta: GraphDelta, e: Edge) {
    && e.fromId in valid && e.toId in valid && EdgeTypeOf(e.kind) in schema.edgeTypes
    && forall a, b | ListedAs(delta, e.fromId, a) && ListedAs(delta, e.toId, b)
                     && a != "node.universe" && b != "node.universe" ::
         RuleCovers(schema, EdgeTypeOf(e.kind), a, b)
  }

  // Ids are well-formed, universes and types are known, and each type is below the base of its list.
  ghost predicate NodesPass(schema: Schema, valid: set<Id>, delta: GraphDelta) {
    && (forall u | u in delta.universes :: u.id in valid)
    && (forall i: nat | i < |delta.entities| ::
          && delta.entities[i].id in valid && UniverseKnown(delta, i)
          && delta.entities[i].typeId in schema.nodeTypes
          && Descends(schema.rows, delta.entities[i].typeId, "node.entity"))
    && (forall b | b in delta.blocks ::
          b.id in valid && b.typeId in schema.nodeTypes && Descends(schema.rows, b.typeId, "node.block"))
  }

  // The ends of each edge, where both are listed and neither is a universe, are covered by a rule as well.
  ghost predicate Passes(schema: Schema, valid: set<Id>, delta: GraphDelta) {
    NodesPass(schema, valid, delta) && forall e | e in delta.edges :: EdgePasses(schema, valid, delta, e)
  }

  lemma LastBlockGrows(init: seq<Block>, last: Block, id: Id, t: TypeId)
    ensures LastBlock(init + [last], id, t) <==> if last.id == id then last.typeId == t else LastBlock(init, id, t)
  {
    var blocks := init + [last];
    assert blocks[|init|] == last && forall k | 0 <= k < |init| :: blocks[k] == init[k];
    if k: nat :| LastBlockAt(blocks, k, id, t) {
      assert k < |init| ==> LastBlockAt(init, k, id, t);
    }
    if k: nat :| LastBlockAt(init, k, id, t) {
      assert last.id != id ==> LastBlockAt(blocks, k, id, t);
    }
    if last.id == id && last.typeId == t {
      assert LastBlockAt(blocks, |init|, id, t);
    }
  }

  lemma LastEntityGrows(init: seq<EntityNode>, last: EntityNode, id: Id, t: TypeId)
    ensures LastEntity(init + [last], id, t) <==> if last.id == id then last.typeId == t else LastEntity(init, id, t)
  {
    var entities := init + [last];
    assert entities[|init|] == last && forall k | 0 <= k < |init| :: entities[k] == init[k];
    if k: nat :| LastEntityAt(entities, k, id, t) {
      assert k < |init| ==> LastEntityAt(init, k, id, t);
    }
    if k: nat :| LastEntityAt(init, k, id, t) {
      assert last.id != id ==> LastEntityAt(entities, k, id, t);
    }
    if last.id == id && last.typeId == t {
      assert LastEntityAt(entities, |init|, id, t);
    }
  }

  lemma {:induction false} BlocksTyped(types: map<Id, TypeId>, blocks: seq<Block>, valid: set<Id>, id: Id, t: TypeId)
    requires forall b | b in blocks :: b.id in valid
    ensures id in WithBlocks(types, blocks, valid) && WithBlocks(types, blocks, valid)[id] == t <==>
              if exists b :: b in blocks && b.id == id then LastBlock(blocks, id, t) else id in types && types[id] == t
  {
    if blocks != [] {
      var init, last := blocks[..|blocks| - 1], blocks[|blocks| - 1];
      assert blocks == init + [last] && last in blocks;
      BlocksTyped(types, init, valid, id, t);
      LastBlockGrows(init, last, id, t);
    }
  }

  lemma {:induction false} EntitiesTyped(types: map<Id, TypeId>, entities: seq<EntityNode>, valid: set<Id>, id: Id,
                                         t: TypeId)
    requires forall n | n in entities :: n.id in valid
    ensures id in WithEntities(types, entities, valid) && WithEntities(types, entities, valid)[id] == t <==>
              if exists n :: n in entities && n.id == id then LastEntity(entities, id, t)
              else id in types && types[id] == t
  {
    if entities != [] {
      var init, last := entities[..|entities| - 1], entities[|entities| - 1];
      assert entities == init + [last] && last in entities;
      EntitiesTyped(types, init, valid, id, t);
      LastEntityGrows(init, last, id, t);
    }
  }

  lemma NodesTyped(schema: Schema, valid: set<Id>, delta: GraphDelta, id: Id, t: TypeId)
    requires NodesPass(schema, valid, delta)
    ensures id in NodeTypes(delta, valid) && NodeTypes(delta, valid)[id] == t <==> ListedAs(delta, id, t)
  {
    var universes := WithUniverses(delta.universes, valid);
    forall n | n in delta.entities
      ensures n.id in valid
    {
      var i: nat :| i < |delta.entities| && delta.entities[i] == n;
    }
    EntitiesTyped(universes, delta.entities, valid, id, t);
    BlocksTyped(WithEntities(universes, delta.entities, valid), delta.blocks, valid, id, t);
  }

  lemma PassingNodes(schema: Schema, valid: set<Id>, delta: GraphDelta)
    requires SchemaAccepts(schema, valid, delta)
    ensures NodesPass(schema, valid, delta)
  {
    forall u | u in delta.universes
      ensures u.id in valid
    {
      assert !Rejects(schema, valid, delta, BadId(u.id));
    }
    forall i: nat | i < |delta.entities|
      ensures delta.entities[i].id in valid && UniverseKnown(delta, i)
      ensures delta.entities[i].typeId in schema.nodeTypes
      ensures Descends(schema.rows, delta.entities[i].typeId, ENTITY)
    {
      PassingEntity(schema, valid, delta, i);
    }
    forall b | b in delta.blocks
      ensures b.id in valid && b.typeId in schema.nodeTypes && Descends(schema.rows, b.typeId, BLOCK)
    {
      assert !Rejects(schema, valid, delta, BadId(b.id));
      assert !Rejects(schema, valid, delta, UnknownNodeType(b.id, b.typeId));
      assert !Rejects(schema, valid, delta, NotUnder(b.id, b.typeId, BLOCK));
    }
  }

  lemma PassingEntity(schema: Schema, valid: set<Id>, delta: GraphDelta, i: nat)
    requires SchemaAccepts(schema, valid, delta) && i < |delta.entities|
    ensures delta.entities[i].id in valid && UniverseKnown(delta, i)
    ensures delta.entities[i].typeId in schema.nodeTypes
    ensures Descends(schema.rows, delta.entities[i].typeId, ENTITY)
  {
    var n := delta.entities[i];
    forall e
      ensures !EntityRejected(schema, valid, delta, i, e)
    {
      assert !Rejects(schema, valid, delta, e);
    }
    assert !EntityRejected(schema, valid, delta, i, BadId(n.id));
    assert !EntityRejected(schema, valid, delta, i, UnknownNodeType(n.id, n.typeId));
    assert !EntityRejected(schema, valid, delta, i, NotUnder(n.id, n.typeId, ENTITY));
    if n.universeId.Some? {
      assert !EntityRejected(schema, valid, delta, i, UnknownUniverse(n.id, n.universeId.value));
      UniverseCheckPasses(delta, valid, i);
    }
  }

  lemma PassingEdge(schema: Schema, valid: set<Id>, delta: GraphDelta, edge: Edge)
    requires NodesPass(schema, valid, delta)
    ensures EdgePasses(schema, valid, delta, edge)
            <==> forall e :: !EdgeRejected(schema, valid, NodeTypes(delta, valid), edge, e)
  {
    var types := NodeTypes(delta, valid);
    forall id, t
      ensures id in types && types[id] == t <==> ListedAs(delta, id, t)
    {
      NodesTyped(schema, valid, delta, id, t);
    }
    if EdgePasses(schema, valid, delta, edge) && edge.fromId in types && edge.toId in types {
      var a, b := types[edge.fromId], types[edge.toId];
      assert ListedAs(delta, edge.fromId, a) && ListedAs(delta, edge.toId, b);
      assert EndpointsAllowed(schema, EdgeTypeOf(edge.kind), a, b);
    }
    if forall e :: !EdgeRejected(schema, valid, types, edge, e) {
      assert !EdgeRejected(schema, valid, types, edge, BadId(edge.fromId));
      assert !EdgeRejected(schema, valid, types, edge, BadId(edge.toId));
      assert !EdgeRejected(schema, valid, types, edge, UnknownEdgeType(edge));
      forall a, b | ListedAs(delta, edge.fromId, a) && ListedAs(delta, edge.toId, b)
                    && a != "node.universe" && b != "node.universe"
        ensures RuleCovers(schema, EdgeTypeOf(edge.kind), a, b)
      {
        assert !EdgeRejected(schema, valid, types, edge, EndpointsDisallowed(edge, a, b));
      }
    }
  }

  lemma NothingElseRejected(schema: Schema, valid: set<Id>, delta: GraphDelta, e: SchemaError)
    requires Passes(schema, valid, delta)
    ensures !Rejects(schema, valid, delta, e)
  {
    forall i: nat | i < |delta.entities|
      ensures !EntityRejected(schema, valid, delta, i, e)
    {
      UniverseCheckPasses(delta, valid, i);
      assert delta.entities[i].id in valid;
    }
    forall edge | edge in delta.edges
      ensures !EdgeRejected(schema, valid, NodeTypes(delta, valid), edge, e)
    {
      PassingEdge(schema, valid, delta, edge);
    }
  }

  // A delta is accepted exactly when its nodes and edges pass.
  lemma AcceptedPasses(schema: Schema, valid: set<Id>, delta: GraphDelta)
    ensures SchemaAccepts(schema, valid, delta) <==> Passes(schema, valid, delta)
  {
    if SchemaAccepts(schema, valid, delta) {
      PassingNodes(schema, valid, delta);
      forall edge | edge in delta.edges
        ensures EdgePasses(schema, valid, delta, edge)
      {
        forall e
          ensures !EdgeRejected(schema, valid, NodeTypes(delta, valid), edge, e)
        {
          assert !Rejects(schema, valid, delta, e);
        }
        PassingEdge(schema, valid, delta, edge);
      }
    }
    if Passes(schema, valid, delta) {
      forall e
        ensures !Rejects(schema, valid, delta, e)
      {
        NothingElseRejected(schema, valid, delta, e);
      }
    }
  }

  /*** The checks ***/

  method CheckNode(schema: Schema, id: Id, typeId: TypeId, base: TypeId) returns (errors: seq<SchemaError>)
    ensures forall e :: e in errors <==> NodeRejected(schema, id, typeId, base, e)
  {
    if typeId !in schema.nodeTypes {
      return [UnknownNodeType(id, typeId)];
    }
    var assignable := IsAssignable(typeId, base, schema.rows);
    return if assignable then [] else [NotUnder(id, typeId, base)];
  }

  method CheckUniverseIds(delta: GraphDelta, valid: set<Id>) returns (errors: seq<SchemaError>, types: map<Id, TypeId>)
    ensures forall e :: e in errors <==> exists u :: u in delta.universes && u.id !in valid && e == BadId(u.id)
    ensures types == WithUniverses(delta.universes, valid)
  {
    errors, types := [], map[];
    for i := 0 to |delta.universes|
      invariant forall e :: e in errors <==>
                            exists k :: 0 <= k < i && delta.universes[k].id !in valid
                                        && e == BadId(delta.universes[k].id)
      invariant types == WithUniverses(delta.universes[..i], valid)
    {
      assert delta.universes[..i + 1] == delta.universes[..i] + [delta.universes[i]];
      if delta.universes[i].id !in valid {
        errors := errors + [BadId(delta.universes[i].id)];
      } else {
        types := types[delta.universes[i].id := UNIVERSE];
      }
    }
    assert delta.universes[..|delta.universes|] == delta.universes;
  }

  method CheckEntityNodes(schema: Schema, delta: GraphDelta, valid: set<Id>, universes: map<Id, TypeId>)
    returns (errors: seq<SchemaError>, types: map<Id, TypeId>)
    requires universes == WithUniverses(delta.universes, valid)
    ensures forall e :: e in errors <==>
                        exists i: nat :: i < |delta.entities| && EntityRejected(schema, valid, delta, i, e)
    ensures types == WithEntities(universes, delta.entities, valid)
  {
    errors, types := [], universes;
    for i := 0 to |delta.entities|
      invariant forall e :: e in errors <==> exists k: nat :: k < i && EntityRejected(schema, valid, delta, k, e)
      invariant types == WithEntities(universes, delta.entities[..i], valid)
    {
      var n := delta.entities[i];
      assert delta.entities[..i + 1][..i] == delta.entities[..i];
      var found: seq<SchemaError> := [];
      if n.id !in valid {
        found := [BadId(n.id)];
      } else {
        types := types[n.id := n.typeId];
        if n.universeId.Some? && n.universeId.value !in types && n.universeId.value !in UniverseIds(delta)
           && n.universeId.value != COMMON_UNIVERSE_ID {
          found := [UnknownUniverse(n.id, n.universeId.value)];
        }
        var wrong := CheckNode(schema, n.id, n.typeId, ENTITY);
        found := found + wrong;
      }
      assert forall e :: e in found <==> EntityRejected(schema, valid, delta, i, e);
      errors := errors + found;
    }
    assert delta.entities[..|delta.entities|] == delta.entities;
  }

  method CheckBlockNodes(schema: Schema, delta: GraphDelta, valid: set<Id>, entities: map<Id, TypeId>)
    returns (errors: seq<SchemaError>, types: map<Id, TypeId>)
    ensures forall e :: e in errors <==> exists b :: b in delta.blocks && BlockRejected(schema, valid, b, e)
    ensures types == WithBlocks(entities, delta.blocks, valid)
  {
    errors, types := [], entities;
    for i := 0 to |delta.blocks|
      invariant forall e :: e in errors <==> exists k: nat :: k < i && BlockRejected(schema, valid, delta.blocks[k], e)
      invariant types == WithBlocks(entities, delta.blocks[..i], valid)
    {
      var b := delta.blocks[i];
      assert delta.blocks[..i + 1][..i] == delta.blocks[..i];
      var found := [BadId(b.id)];
      if b.id in valid {
        types := types[b.id := b.typeId];
        found := CheckNode(schema, b.id, b.typeId, BLOCK);
      }
      assert forall e :: e in found <==> BlockRejected(schema, valid, b, e);
      errors := errors + found;
    }
    assert delta.blocks[..|delta.blocks|] == delta.blocks;
  }

  // Some rule for the edge type covers both ends.
  method AnyRule(schema: Schema, edgeType: TypeId, fromType: TypeId, toType: TypeId) returns (found: bool)
    ensures found <==> exists r :: r in schema.rules && r.edgeType == edgeType
                                   && Descends(schema.rows, fromType, r.fromType)
                                   && Descends(schema.rows, toType, r.toType)
  {
    for i := 0 to |schema.rules|
      invariant forall k | 0 <= k < i ::
                  var r := schema.rules[k];
                  !(r.edgeType == edgeType && Descends(schema.rows, fromType, r.fromType)
                    && Descends(schema.rows, toType, r.toType))
    {
      var rule := schema.rules[i];
      if rule.edgeType == edgeType {
        var starts := IsAssignable(fromType, rule.fromType, schema.rows);
        var ends := IsAssignable(toType, rule.toType, schema.rows);
        if starts && ends {
          return true;
        }
      }
    }
    return false;
  }

  method CheckEdge(schema: Schema, valid: set<Id>, types: map<Id, TypeId>, edge: Edge)
    returns (errors: seq<SchemaError>)
    ensures forall e :: e in errors <==> EdgeRejected(schema, valid, types, edge, e)
  {
    errors := [];
    if edge.fromId !in valid {
      errors := errors + [BadId(edge.fromId)];
    }
    if edge.toId !in valid {
      errors := errors + [BadId(edge.toId)];
    }
    var edgeType := EdgeTypeOf(edge.kind);
    if edgeType !in schema.edgeTypes {
      return errors + [UnknownEdgeType(edge)];
    }
    if edge.fromId in types && edge.toId in types {
      var fromType, toType := types[edge.fromId], types[edge.toId];
      var covered := AnyRule(schema, edgeType, fromType, toType);
      if !(fromType == UNIVERSE || toType == UNIVERSE || covered) {
        errors := errors + [EndpointsDisallowed(edge, fromType, toType)];
      }
    }
  }

  method CheckEdges(schema: Schema, valid: set<Id>, types: map<Id, TypeId>, edges: seq<Edge>)
    returns (errors: seq<SchemaError>)
    ensures forall e :: e in errors <==> exists edge :: edge in edges && EdgeRejected(schema, valid, types, edge, e)
  {
    errors := [];
    for i := 0 to |edges|
      invariant forall e :: e in errors <==> exists k: nat :: k < i && EdgeRejected(schema, valid, types, edges[k], e)
    {
      var found := CheckEdge(schema, valid, types, edges[i]);
      errors := errors + found;
    }
  }

  // Exactly the broken rules are reported. The ids in valid are those that are well-formed.
  method ValidateDeltaAgainstSchema(schema: Schema, valid: set<Id>, delta: GraphDelta)
    returns (errors: seq<SchemaError>)
    ensures forall e :: e in errors <==> Rejects(schema, valid, delta, e)
    ensures errors == [] <==> Passes(schema, valid, delta)
  {
    AcceptedPasses(schema, valid, delta);
    var universeErrors, universes := CheckUniverseIds(delta, valid);
    var entityErrors, entities := CheckEntityNodes(schema, delta, valid, universes);
    var blockErrors, types := CheckBlockNodes(schema, delta, valid, entities);
    var edgeErrors := CheckEdges(schema, valid, types, delta.edges);
    errors := universeErrors + entityErrors + blockErrors + edgeErrors;
    assert forall e :: e in errors <==> e in universeErrors || e in entityErrors || e in blockErrors || e in edgeErrors;
    if errors != [] {
      assert errors[0] in errors;
    }
  }
}
