/** The graph store and the checks a graph delta must pass against it. */
module GraphRules {
  import opened Wrappers
  import opened GraphResolution

  const COMMON_UNIVERSE_ID: Id := "9d7f0fa5-78c1-4805-9efb-3f8f16090d7f"

  datatype Universe = Universe(id: Id)

  datatype EntityNode = EntityNode(id: Id, typeId: string, universeId: Option<Id>) {
    function TargetUniverse(): Id {
      if universeId.Some? then universeId.value else COMMON_UNIVERSE_ID
    }
  }

  datatype GraphDelta = GraphDelta(universes: seq<Universe>, entities: seq<EntityNode>, blocks: seq<Block>,
                                   edges: seq<Edge>)

  // A stored relationship: writing the same one twice stores it once.
  datatype Link = Link(fromId: Id, toId: Id, kind: EdgeKind)

  // A stored node, with the labels it was created under.
  datatype Node = Node(id: Id, labels: set<string>)

  // The graph store, with the level and the root written beside each block's vector.
  datatype Graph = Graph(nodes: set<Node>, universes: set<Id>, entities: set<Id>, blocks: set<Id>, links: set<Link>,
                         levels: map<Id, int>, roots: map<Id, Id>)

  function LinkOf(e: Edge): Link {
    Link(e.fromId, e.toId, e.kind)
  }

  predicate IsParentKind(kind: EdgeKind) {
    kind.DescribedBy? || kind.Summarizes?
  }

  function Parents(links: set<Link>, id: Id): set<Link> {
    set l | l in links && IsParentKind(l.kind) && l.toId == id
  }

  /*** Counting ***/

  datatype EdgeTest = Into(id: Id) | OutOf(id: Id) | PartOfFrom(id: Id) | ParentInto(id: Id) | DescribedFrom(id: Id) {
    predicate Holds(e: Edge) {
      match this
      case Into(id) => e.toId == id
      case OutOf(id) => e.fromId == id
      case PartOfFrom(id) => e.kind.IsPartOf? && e.fromId == id
      case ParentInto(id) => IsParentKind(e.kind) && e.toId == id
      case DescribedFrom(id) => e.kind.DescribedBy? && e.fromId == id
    }
  }

  function CountEdges(edges: seq<Edge>, t: EdgeTest): nat {
    if edges == [] then 0
    else CountEdges(edges[..|edges| - 1], t) + if t.Holds(edges[|edges| - 1]) then 1 else 0
  }

  function CountTargeting(entities: seq<EntityNode>, id: Id): nat {
    if entities == [] then 0
    else CountTargeting(entities[..|entities| - 1], id)
         + if entities[|entities| - 1].TargetUniverse() == id then 1 else 0
  }

  function CountNamed(entities: seq<EntityNode>, id: Id): nat {
    if entities == [] then 0
    else CountNamed(entities[..|entities| - 1], id) + if entities[|entities| - 1].id == id then 1 else 0
  }

  lemma {:induction false} CountZero(edges: seq<Edge>, t: EdgeTest)
    ensures CountEdges(edges, t) == 0 <==> forall e | e in edges :: !t.Holds(e)
  {
    if edges != [] {
      assert edges == edges[..|edges| - 1] + [edges[|edges| - 1]];
      CountZero(edges[..|edges| - 1], t);
    }
  }

  lemma {:induction false} CountOne(edges: seq<Edge>, t: EdgeTest) returns (e: Edge)
    requires CountEdges(edges, t) == 1
    ensures e in edges && t.Holds(e) && forall other | other in edges && t.Holds(other) :: other == e
  {
    var init, last := edges[..|edges| - 1], edges[|edges| - 1];
    assert edges == init + [last];
    if t.Holds(last) {
      CountZero(init, t);
      e := last;
    } else {
      e := CountOne(init, t);
    }
  }

  function Get(m: map<Id, nat>, id: Id): nat {
    if id in m then m[id] else 0
  }

  function Bump(m: map<Id, nat>, id: Id): map<Id, nat> {
    m[id := Get(m, id) + 1]
  }

  /*** What the store already holds for a node ***/

  function StoredTotal(g: Graph, id: Id): nat {
    |set l | l in g.links && l.toId == id| + |set l | l in g.links && l.fromId == id|
  }

  function StoredPartOf(g: Graph, id: Id): nat {
    |set l | l in g.links && l.fromId == id && l.kind.IsPartOf? && l.toId in g.universes|
  }

  function StoredParents(g: Graph, id: Id): nat {
    |Parents(g.links, id)|
  }

  function StoredDescribed(g: Graph, sources: set<Id>, id: Id): nat {
    if id in sources
    then |set l | l in g.links && l.fromId == id && l.kind.DescribedBy? && l.toId in g.blocks|
    else 0
  }

  /*** What the delta adds for a node ***/

  function UniverseIds(delta: GraphDelta): set<Id> {
    set u | u in delta.universes :: u.id
  }

  function EntityIds(delta: GraphDelta): set<Id> {
    set n | n in delta.entities :: n.id
  }

  function AddedIncoming(delta: GraphDelta, id: Id): nat {
    CountEdges(delta.edges, Into(id)) + CountTargeting(delta.entities, id)
  }

  function AddedOutgoing(delta: GraphDelta, id: Id): nat {
    CountEdges(delta.edges, OutOf(id)) + CountNamed(delta.entities, id)
  }

  function AddedPartOf(delta: GraphDelta, id: Id): nat {
    CountEdges(delta.edges, PartOfFrom(id)) + CountNamed(delta.entities, id)
  }

  function AddedParents(delta: GraphDelta, id: Id): nat {
    CountEdges(delta.edges, ParentInto(id))
  }

  // DESCRIBED_BY edges are counted for a universe when the delta lists their source as one.
  function AddedDescribed(delta: GraphDelta, fromUniverse: bool, id: Id): nat {
    if (id in UniverseIds(delta)) == fromUniverse then CountEdges(delta.edges, DescribedFrom(id)) else 0
  }

  /*** Admission ***/

  datatype Violation =
    | UniverseIsolated(id: Id)
    | UniverseDescribedTwice(id: Id)
    | EntityIsolated(id: Id)
    | EntityWithoutUniverse(id: Id)
    | EntityDescribedTwice(id: Id)
    | BlockIsolated(id: Id)
    | BlockParentCount(id: Id)

  predicate Isolated(g: Graph, delta: GraphDelta, id: Id) {
    StoredTotal(g, id) + (AddedIncoming(delta, id) + AddedOutgoing(delta, id)) == 0
  }

  predicate Violates(g: Graph, delta: GraphDelta, v: Violation) {
    match v
    case UniverseIsolated(id) => id in UniverseIds(delta) && Isolated(g, delta, id)
    case UniverseDescribedTwice(id) =>
      id in UniverseIds(delta) && StoredDescribed(g, g.universes, id) + AddedDescribed(delta, true, id) > 1
    case EntityIsolated(id) => id in EntityIds(delta) && Isolated(g, delta, id)
    case EntityWithoutUniverse(id) => id in EntityIds(delta) && StoredPartOf(g, id) + AddedPartOf(delta, id) == 0
    case EntityDescribedTwice(id) =>
      id in EntityIds(delta) && StoredDescribed(g, g.entities, id) + AddedDescribed(delta, false, id) > 1
    case BlockIsolated(id) => id in BlockIds(delta.blocks) && Isolated(g, delta, id)
    case BlockParentCount(id) => id in BlockIds(delta.blocks) && StoredParents(g, id) + AddedParents(delta, id) != 1
  }

  datatype Counters = Counters(incoming: map<Id, nat>, outgoing: map<Id, nat>, partOf: map<Id, nat>,
                               parents: map<Id, nat>, entityDescribed: map<Id, nat>, universeDescribed: map<Id, nat>)

  ghost predicate CountedFor(delta: GraphDelta, c: Counters, id: Id) {
    && Get(c.incoming, id) == AddedIncoming(delta, id)
    && Get(c.outgoing, id) == AddedOutgoing(delta, id)
    && Get(c.partOf, id) == AddedPartOf(delta, id)
    && Get(c.parents, id) == AddedParents(delta, id)
    && Get(c.entityDescribed, id) == AddedDescribed(delta, false, id)
    && Get(c.universeDescribed, id) == AddedDescribed(delta, true, id)
  }

  function CountEdge(universes: set<Id>, c: Counters, e: Edge): Counters {
    Counters(Bump(c.incoming, e.toId), Bump(c.outgoing, e.fromId),
             if e.kind.IsPartOf? then Bump(c.partOf, e.fromId) else c.partOf,
             if IsParentKind(e.kind) then Bump(c.parents, e.toId) else c.parents,
             if e.kind.DescribedBy? && e.fromId !in universes then Bump(c.entityDescribed, e.fromId)
             else c.entityDescribed,
             if e.kind.DescribedBy? && e.fromId in universes then Bump(c.universeDescribed, e.fromId)
             else c.universeDescribed)
  }

  lemma CountedEdge(delta: GraphDelta, c: Counters, e: Edge, id: Id)
    requires CountedFor(delta, c, id)
    ensures CountedFor(delta.(edges := delta.edges + [e]), CountEdge(UniverseIds(delta), c, e), id)
  {
    assert (delta.edges + [e])[..|delta.edges|] == delta.edges;
  }

  lemma CountedEntity(delta: GraphDelta, c: Counters, n: EntityNode, id: Id)
    requires CountedFor(delta, c, id)
    ensures CountedFor(delta.(entities := delta.entities + [n]),
                       c.(outgoing := Bump(c.outgoing, n.id), incoming := Bump(c.incoming, n.TargetUniverse()),
                          partOf := Bump(c.partOf, n.id)), id)
  {
    assert (delta.entities + [n])[..|delta.entities|] == delta.entities;
  }

  method CountDelta(delta: GraphDelta) returns (c: Counters)
    ensures forall id :: CountedFor(delta, c, id)
  {
    c := Counters(map[], map[], map[], map[], map[], map[]);
    for i := 0 to |delta.edges|
      invariant forall id :: CountedFor(delta.(edges := delta.edges[..i], entities := []), c, id)
    {
      assert delta.edges[..i + 1] == delta.edges[..i] + [delta.edges[i]];
      ghost var seen, before := delta.(edges := delta.edges[..i + 1], entities := []), c;
      c := CountEdge(UniverseIds(delta), c, delta.edges[i]);
      forall id
        ensures CountedFor(seen, c, id)
      {
        CountedEdge(delta.(edges := delta.edges[..i], entities := []), before, delta.edges[i], id);
      }
    }
    assert delta.edges[..|delta.edges|] == delta.edges;
    for i := 0 to |delta.entities|
      invariant forall id :: CountedFor(delta.(entities := delta.entities[..i]), c, id)
    {
      var n := delta.entities[i];
      assert delta.entities[..i + 1] == delta.entities[..i] + [n];
      ghost var seen, before := delta.(entities := delta.entities[..i + 1]), c;
      c := c.(outgoing := Bump(c.outgoing, n.id), incoming := Bump(c.incoming, n.TargetUniverse()),
              partOf := Bump(c.partOf, n.id));
      forall id
        ensures CountedFor(seen, c, id)
      {
        CountedEntity(delta.(entities := delta.entities[..i]), before, n, id);
      }
    }
    assert delta.entities[..|delta.entities|] == delta.entities;
  }

  function UniverseErrors(g: Graph, c: Counters, id: Id): seq<Violation> {
    (if StoredTotal(g, id) + (Get(c.incoming, id) + Get(c.outgoing, id)) == 0 then [UniverseIsolated(id)] else [])
    + (if StoredDescribed(g, g.universes, id) + Get(c.universeDescribed, id) > 1 then [UniverseDescribedTwice(id)]
       else [])
  }

  function EntityErrors(g: Graph, c: Counters, id: Id): seq<Violation> {
    (if StoredTotal(g, id) + (Get(c.incoming, id) + Get(c.outgoing, id)) == 0 then [EntityIsolated(id)] else [])
    + (if StoredPartOf(g, id) + Get(c.partOf, id) == 0 then [EntityWithoutUniverse(id)] else [])
    + (if StoredDescribed(g, g.entities, id) + Get(c.entityDescribed, id) > 1 then [EntityDescribedTwice(id)] else [])
  }

  function BlockErrors(g: Graph, c: Counters, id: Id): seq<Violation> {
    (if StoredTotal(g, id) + (Get(c.incoming, id) + Get(c.outgoing, id)) == 0 then [BlockIsolated(id)] else [])
    + (if StoredParents(g, id) + Get(c.parents, id) != 1 then [BlockParentCount(id)] else [])
  }

  method CheckUniverses(g: Graph, c: Counters, universes: seq<Universe>) returns (errors: seq<Violation>)
    ensures forall v :: v in errors <==> exists k :: 0 <= k < |universes| && v in UniverseErrors(g, c, universes[k].id)
  {
    errors := [];
    for i := 0 to |universes|
      invariant forall v :: v in errors <==> exists k :: 0 <= k < i && v in UniverseErrors(g, c, universes[k].id)
    {
      errors := errors + UniverseErrors(g, c, universes[i].id);
    }
  }

  method CheckEntities(g: Graph, c: Counters, entities: seq<EntityNode>) returns (errors: seq<Violation>)
    ensures forall v :: v in errors <==> exists k :: 0 <= k < |entities| && v in EntityErrors(g, c, entities[k].id)
  {
    errors := [];
    for i := 0 to |entities|
      invariant forall v :: v in errors <==> exists k :: 0 <= k < i && v in EntityErrors(g, c, entities[k].id)
    {
      errors := errors + EntityErrors(g, c, entities[i].id);
    }
  }

  method CheckBlocks(g: Graph, c: Counters, blocks: seq<Block>) returns (errors: seq<Violation>)
    ensures forall v :: v in errors <==> exists k :: 0 <= k < |blocks| && v in BlockErrors(g, c, blocks[k].id)
  {
    errors := [];
    for i := 0 to |blocks|
      invariant forall v :: v in errors <==> exists k :: 0 <= k < i && v in BlockErrors(g, c, blocks[k].id)
    {
      errors := errors + BlockErrors(g, c, blocks[i].id);
    }
  }

  lemma ReportedIsViolated(g: Graph, delta: GraphDelta, c: Counters, v: Violation)
    requires CountedFor(delta, c, v.id)
    ensures Violates(g, delta, v) <==>
            || (v in UniverseErrors(g, c, v.id) && v.id in UniverseIds(delta))
            || (v in EntityErrors(g, c, v.id) && v.id in EntityIds(delta))
            || (v in BlockErrors(g, c, v.id) && v.id in BlockIds(delta.blocks))
  {
  }

  lemma UniversesReported(g: Graph, delta: GraphDelta, c: Counters, v: Violation)
    ensures (exists k :: 0 <= k < |delta.universes| && v in UniverseErrors(g, c, delta.universes[k].id))
            <==> v in UniverseErrors(g, c, v.id) && v.id in UniverseIds(delta)
  {
    if v in UniverseErrors(g, c, v.id) && v.id in UniverseIds(delta) {
      var k :| 0 <= k < |delta.universes| && delta.universes[k].id == v.id;
      assert v in UniverseErrors(g, c, delta.universes[k].id);
    }
  }

  lemma EntitiesReported(g: Graph, delta: GraphDelta, c: Counters, v: Violation)
    ensures (exists k :: 0 <= k < |delta.entities| && v in EntityErrors(g, c, delta.entities[k].id))
            <==> v in EntityErrors(g, c, v.id) && v.id in EntityIds(delta)
  {
    if v in EntityErrors(g, c, v.id) && v.id in EntityIds(delta) {
      var k :| 0 <= k < |delta.entities| && delta.entities[k].id == v.id;
      assert v in EntityErrors(g, c, delta.entities[k].id);
    }
  }

  lemma BlocksReported(g: Graph, delta: GraphDelta, c: Counters, v: Violation)
    ensures (exists k :: 0 <= k < |delta.blocks| && v in BlockErrors(g, c, delta.blocks[k].id))
            <==> v in BlockErrors(g, c, v.id) && v.id in BlockIds(delta.blocks)
  {
    if v in BlockErrors(g, c, v.id) && v.id in BlockIds(delta.blocks) {
      var k :| 0 <= k < |delta.blocks| && delta.blocks[k].id == v.id;
      assert v in BlockErrors(g, c, delta.blocks[k].id);
    }
  }

  // The checks of the source: exactly the violated rules are reported.
  method EnforceGraphStateRules(g: Graph, delta: GraphDelta) returns (errors: seq<Violation>)
    ensures forall v :: v in errors <==> Violates(g, delta, v)
  {
    var c := CountDelta(delta);
    var universeErrors := CheckUniverses(g, c, delta.universes);
    var entityErrors := CheckEntities(g, c, delta.entities);
    var blockErrors := CheckBlocks(g, c, delta.blocks);
    errors := universeErrors + entityErrors + blockErrors;
    forall v
      ensures v in errors <==> Violates(g, delta, v)
    {
      ReportedIsViolated(g, delta, c, v);
      UniversesReported(g, delta, c, v);
      EntitiesReported(g, delta, c, v);
      BlocksReported(g, delta, c, v);
      assert v in errors <==> v in universeErrors || v in entityErrors || v in blockErrors;
    }
  }

  ghost predicate Admitted(g: Graph, delta: GraphDelta) {
    forall v :: !Violates(g, delta, v)
  }
}
