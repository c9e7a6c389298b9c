/** One universe for each entity and one description for each owner: what accepted deltas keep of these promises,
    and deltas that are accepted and break them. */
module OwnerLinks {
  import opened Wrappers
  import opened GraphResolution
  import opened GraphRules
  import opened BlockForest
  import opened DeltaSchema
  import opened NodeIdentity
  import opened TypeHierarchy
  import opened AcceptedDeltas

  lemma OneMember<T>(s: set<T>, u: T, v: T)
    requires |s| <= 1 && u in s && v in s
    ensures u == v
  {
    if u != v {
      SubsetSize({u, v}, s);
    }
  }

  lemma AtMostOne<T>(s: set<T>)
    requires forall u, v | u in s && v in s :: u == v
    ensures |s| <= 1
  {
    if u :| u in s {
      assert s == {u};
    }
  }

  /*** One universe for each entity ***/

  function Homes(g: Graph, id: Id): set<Id> {
    set l | l in g.links && l.kind.IsPartOf? && l.fromId == id && l.toId in g.universes :: l.toId
  }

  ghost predicate InOneUniverse(g: Graph) {
    forall id | id in g.entities :: |Homes(g, id)| == 1
  }

  predicate PartOfTyped(links: set<Link>, entities: set<Id>, universes: set<Id>) {
    forall l | l in links && l.kind.IsPartOf? :: l.fromId in entities && l.toId in universes
  }

  // The links to known universes that a delta asks for: the implicit ones of its entities and its own edges.
  ghost function SentHomes(g: Graph, delta: GraphDelta): set<Link> {
    PartOfLinks(g, delta)
    + set e | e in delta.edges && e.kind.IsPartOf? && e.toId in g.universes + UniverseIds(delta) :: LinkOf(e)
  }

  // What is sent for one entity agrees, a stored entity is sent with its stored universe only, and a new entity
  // is sent with some known universe.
  ghost predicate NoEntityMoves(g: Graph, delta: GraphDelta) {
    && (forall l, m | l in SentHomes(g, delta) && m in SentHomes(g, delta) && l.fromId == m.fromId
                      && l.fromId in g.entities + EntityIds(delta) :: l == m)
    && (forall l | l in SentHomes(g, delta) && l.fromId in g.entities :: l in g.links)
    && (forall id | id in EntityIds(delta) - g.entities :: exists l :: l in SentHomes(g, delta) && l.fromId == id)
  }

  lemma WrittenHomes(g: Graph, delta: GraphDelta, w: Graph, id: Id, u: Id)
    requires PartOfTyped(g.links, g.entities, g.universes)
    requires w.universes == g.universes + UniverseIds(delta)
    requires w.links == g.links + (set e | e in delta.edges :: LinkOf(e)) + PartOfLinks(g, delta)
    ensures u in Homes(w, id) <==> u in Homes(g, id) || Link(id, u, IsPartOf) in SentHomes(g, delta)
  {
    var l := Link(id, u, IsPartOf);
    assert u in Homes(w, id) <==> l in w.links && u in w.universes;
    assert u in Homes(g, id) <==> l in g.links && u in g.universes;
    if e :| e in delta.edges && LinkOf(e) == l {
      assert u in w.universes ==> l in SentHomes(g, delta);
    }
  }

  // Each entity is in exactly one universe afterwards, exactly when no entity moves and none is left out.
  lemma OneUniverseKept(g: Graph, schema: Schema, delta: GraphDelta, levels: map<Id, int>, roots: map<Id, Id>)
    requires InOneUniverse(g) && PartOfTyped(g.links, g.entities, g.universes)
    ensures InOneUniverse(Written(g, schema, delta, levels, roots)) <==> NoEntityMoves(g, delta)
  {
    var w := Written(g, schema, delta, levels, roots);
    forall id, u
      ensures u in Homes(w, id) <==> u in Homes(g, id) || Link(id, u, IsPartOf) in SentHomes(g, delta)
    {
      WrittenHomes(g, delta, w, id, u);
    }
    if NoEntityMoves(g, delta) {
      forall id | id in w.entities
        ensures |Homes(w, id)| == 1
      {
        OneHome(g, delta, w, id);
      }
    }
    if InOneUniverse(w) {
      HomesAgree(g, delta, w);
    }
  }

  // The homes in w are the stored and the sent ones.
  ghost predicate HomesJoined(g: Graph, delta: GraphDelta, w: Graph) {
    forall id, u :: u in Homes(w, id) <==> u in Homes(g, id) || Link(id, u, IsPartOf) in SentHomes(g, delta)
  }

  lemma OneHome(g: Graph, delta: GraphDelta, w: Graph, id: Id)
    requires InOneUniverse(g) && PartOfTyped(g.links, g.entities, g.universes) && NoEntityMoves(g, delta)
    requires HomesJoined(g, delta, w) && id in g.entities + EntityIds(delta)
    ensures |Homes(w, id)| == 1
  {
    if id in g.entities {
      forall u
        ensures u in Homes(w, id) <==> u in Homes(g, id)
      {
      }
      assert Homes(w, id) == Homes(g, id);
    } else {
      assert id in EntityIds(delta) - g.entities;
      var l :| l in SentHomes(g, delta) && l.fromId == id;
      assert Homes(w, id) == {l.toId};
    }
  }

  lemma HomesAgree(g: Graph, delta: GraphDelta, w: Graph)
    requires InOneUniverse(g) && PartOfTyped(g.links, g.entities, g.universes) && HomesJoined(g, delta, w)
    requires InOneUniverse(w) && w.entities == g.entities + EntityIds(delta)
    ensures NoEntityMoves(g, delta)
  {
    forall l | l in SentHomes(g, delta)
      ensures l == Link(l.fromId, l.toId, IsPartOf) && l.toId in Homes(w, l.fromId)
    {
    }
    forall l, m | l in SentHomes(g, delta) && m in SentHomes(g, delta) && l.fromId == m.fromId && l.fromId in w.entities
      ensures l == m
    {
      OneMember(Homes(w, l.fromId), l.toId, m.toId);
    }
    forall l | l in SentHomes(g, delta) && l.fromId in g.entities
      ensures l in g.links
    {
      var u :| u in Homes(g, l.fromId);
      OneMember(Homes(w, l.fromId), l.toId, u);
    }
    forall id | id in EntityIds(delta) - g.entities
      ensures exists l :: l in SentHomes(g, delta) && l.fromId == id
    {
      var u :| u in Homes(w, id);
      assert u !in Homes(g, id);
      assert Link(id, u, IsPartOf) in SentHomes(g, delta);
    }
  }

  // A stored entity sent together with another stored universe is accepted, and ends up in both.
  lemma MovedEntityIsAccepted(g: Graph, schema: Schema, lookup: Lookup, n: EntityNode, u: Id)
    requires InOneUniverse(g) && PartOfTyped(g.links, g.entities, g.universes) && ReportsStored(g, lookup)
    requires n.id in g.entities && n.universeId == Some(u) && u in g.universes && u !in Homes(g, n.id)
    requires StoredDescribed(g, g.entities, n.id) <= 1 && StoredDescribed(g, g.universes, u) <= 1
    requires n.typeId in schema.nodeTypes && Descends(schema.rows, n.typeId, ENTITY)
    ensures var delta := GraphDelta([Universe(u)], [n], [], []);
            && Accepted(g, schema, {n.id, u}, delta, lookup, map[], map[])
            && !InOneUniverse(Written(g, schema, delta, map[], map[]))
  {
    var delta := GraphDelta([Universe(u)], [n], [], []);
    assert Universe(u) in delta.universes && n in delta.entities && delta.entities[..0] == [];
    UniverseCheckPasses(delta, {n.id, u}, 0);
    assert SchemaAccepts(schema, {n.id, u}, delta);
    assert CountTargeting(delta.entities, u) == CountTargeting(delta.entities[..0], u) + 1;
    forall v
      ensures !Violates(g, delta, v)
    {
      RulesThatNeverFire(g, delta, v.id);
      assert AddedDescribed(delta, false, v.id) == 0 && AddedDescribed(delta, true, v.id) == 0;
    }
    NoBlocksAccepted(g, schema, {n.id, u}, delta, lookup);
    assert Link(n.id, u, IsPartOf) in SentHomes(g, delta) && Link(n.id, u, IsPartOf) !in g.links;
    OneUniverseKept(g, schema, delta, map[], map[]);
  }

  // A new entity that names itself as its universe is accepted and is left without any.
  lemma OwnUniverseIsNone(g: Graph, schema: Schema, lookup: Lookup, n: EntityNode)
    requires PartOfTyped(g.links, g.entities, g.universes) && ReportsStored(g, lookup)
    requires n.id !in g.entities + g.universes && n.universeId == Some(n.id)
    requires n.typeId in schema.nodeTypes && Descends(schema.rows, n.typeId, ENTITY)
    ensures var delta := GraphDelta([], [n], [], []);
            && Accepted(g, schema, {n.id}, delta, lookup, map[], map[])
            && Homes(Written(g, schema, delta, map[], map[]), n.id) == {}
  {
    var delta := GraphDelta([], [n], [], []);
    assert SchemaAccepts(schema, {n.id}, delta) by {
      UniverseCheckPasses(delta, {n.id}, 0);
    }
    assert Admitted(g, delta) by {
      forall v
        ensures !Violates(g, delta, v)
      {
        RulesThatNeverFire(g, delta, v.id);
        assert AddedDescribed(delta, false, v.id) == 0;
      }
    }
    NoBlocksAccepted(g, schema, {n.id}, delta, lookup);
  }

  /*** One description for each owner ***/

  function Described(links: set<Link>, id: Id): set<Link> {
    set l | l in links && l.kind.DescribedBy? && l.fromId == id
  }

  ghost predicate OneDescribed(g: Graph) {
    forall id | id in g.entities + g.universes :: |Described(g.links, id)| <= 1
  }

  // The rules count the stored links of an owner only where the delta lists it as what it is stored as.
  predicate Counted(g: Graph, delta: GraphDelta, id: Id) {
    if id in UniverseIds(delta) then id in g.universes else id in EntityIds(delta) && id in g.entities
  }

  // For every other owner, each sent link is the only one, stored or sent.
  predicate UncountedKeepOne(g: Graph, delta: GraphDelta) {
    forall e | e in delta.edges && e.kind.DescribedBy? && !Counted(g, delta, e.fromId)
               && e.fromId in g.entities + EntityIds(delta) + g.universes + UniverseIds(delta) ::
      && (forall l | l in Described(g.links, e.fromId) :: l == LinkOf(e))
      && (forall f | f in delta.edges && f.kind.DescribedBy? && f.fromId == e.fromId :: LinkOf(f) == LinkOf(e))
  }

  lemma CountedTotal(g: Graph, delta: GraphDelta, id: Id)
    requires WellFormed(g) && Admitted(g, delta) && Counted(g, delta, id)
    ensures |Described(g.links, id)| + CountEdges(delta.edges, DescribedFrom(id)) <= 1
  {
    assert !Violates(g, delta, UniverseDescribedTwice(id)) && !Violates(g, delta, EntityDescribedTwice(id));
    assert Described(g.links, id)
           == set l | l in g.links && l.fromId == id && l.kind.DescribedBy? && l.toId in g.blocks;
  }

  lemma DescribedFromSent(g: Graph, delta: GraphDelta, w: Graph, id: Id)
    requires w.links == g.links + (set e | e in delta.edges :: LinkOf(e)) + PartOfLinks(g, delta)
    ensures forall l | l in Described(w.links, id) && l !in Described(g.links, id) ::
              exists e :: e in delta.edges && DescribedFrom(id).Holds(e) && LinkOf(e) == l
    ensures Described(g.links, id) <= Described(w.links, id)
  {
  }

  lemma CountedKeepsOne(g: Graph, delta: GraphDelta, w: Graph, id: Id)
    requires WellFormed(g) && Admitted(g, delta) && OneDescribed(g) && Counted(g, delta, id)
    requires w.links == g.links + (set e | e in delta.edges :: LinkOf(e)) + PartOfLinks(g, delta)
    ensures |Described(w.links, id)| <= 1
  {
    CountedTotal(g, delta, id);
    DescribedFromSent(g, delta, w, id);
    CountZero(delta.edges, DescribedFrom(id));
    if CountEdges(delta.edges, DescribedFrom(id)) == 0 {
      assert Described(w.links, id) == Described(g.links, id);
    } else {
      var e := CountOne(delta.edges, DescribedFrom(id));
      assert Described(g.links, id) == {};
      forall l | l in Described(w.links, id)
        ensures l == LinkOf(e)
      {
      }
      AtMostOne(Described(w.links, id));
    }
  }

  lemma UncountedKeepsOne(g: Graph, delta: GraphDelta, w: Graph, id: Id)
    requires WellFormed(g) && OneDescribed(g) && UncountedKeepOne(g, delta) && !Counted(g, delta, id)
    requires w.links == g.links + (set e | e in delta.edges :: LinkOf(e)) + PartOfLinks(g, delta)
    requires id in g.entities + EntityIds(delta) + g.universes + UniverseIds(delta)
    ensures |Described(w.links, id)| <= 1
  {
    if e :| e in delta.edges && e.kind.DescribedBy? && e.fromId == id {
      forall l | l in Described(w.links, id)
        ensures l == LinkOf(e)
      {
        assert l in g.links ==> l in Described(g.links, id);
      }
      AtMostOne(Described(w.links, id));
    } else {
      assert Described(w.links, id) == Described(g.links, id);
      assert id !in g.entities + g.universes ==> Described(g.links, id) == {};
    }
  }

  // No owner has two descriptions afterwards, exactly when the owners that the rules do not count keep one.
  lemma OneDescribedKept(g: Graph, schema: Schema, delta: GraphDelta, levels: map<Id, int>, roots: map<Id, Id>)
    requires WellFormed(g) && OneDescribed(g) && Admitted(g, delta)
    ensures OneDescribed(Written(g, schema, delta, levels, roots)) <==> UncountedKeepOne(g, delta)
  {
    var w := Written(g, schema, delta, levels, roots);
    if UncountedKeepOne(g, delta) {
      forall id | id in w.entities + w.universes
        ensures |Described(w.links, id)| <= 1
      {
        if Counted(g, delta, id) {
          CountedKeepsOne(g, delta, w, id);
        } else {
          UncountedKeepsOne(g, delta, w, id);
        }
      }
    }
    if OneDescribed(w) {
      forall e, l | e in delta.edges && e.kind.DescribedBy? && e.fromId in w.entities + w.universes
                    && l in Described(w.links, e.fromId)
        ensures l == LinkOf(e)
      {
        assert LinkOf(e) in Described(w.links, e.fromId);
        OneMember(Described(w.links, e.fromId), l, LinkOf(e));
      }
      forall e, l | e in delta.edges && l in Described(g.links, e.fromId)
        ensures l in Described(w.links, e.fromId)
      {
      }
      forall e, f | e in delta.edges && f in delta.edges && f.kind.DescribedBy? && f.fromId == e.fromId
        ensures LinkOf(f) in Described(w.links, e.fromId)
      {
        assert LinkOf(f) in w.links;
      }
    }
  }

  // A new block below a stored owner that has a description and is not listed is accepted: the owner then has two.
  lemma SecondDescriptionIsAccepted(g: Graph, schema: Schema, lookup: Lookup, a: Block, source: Id, scope: Scope)
    requires WellFormed(g) && OneDescribed(g) && ReportsStored(g, lookup)
    requires source in g.entities + g.universes && Described(g.links, source) != {}
    requires IsNewBlock(g, schema, a, source) && Descends(schema.rows, a.typeId, BLOCK)
    ensures var delta := NewBlockDelta(a, source, scope);
            var levels, roots := map[a.id := 0], map[a.id := source];
            && Accepted(g, schema, {source, a.id}, delta, lookup, levels, roots) && ListsNewChildren(g, delta)
            && !OneDescribed(Written(g, schema, delta, levels, roots))
  {
    var delta := NewBlockDelta(a, source, scope);
    NewBlockIsAccepted(g, schema, lookup, a, source, scope);
    OneDescribedKept(g, schema, delta, map[a.id := 0], map[a.id := source]);
  }

  /*** Runs ***/

  ghost predicate PromisesKept(g: Graph) {
    && WellFormed(g) && OneDescribed(g) && InOneUniverse(g)
    && PartOfTyped(g.links, g.entities, g.universes)
  }

  // The conditions on a delta: those of the three promises, and its IS_PART_OF edges lead from entities to
  // universes.
  ghost predicate Keeps(g: Graph, schema: Schema, delta: GraphDelta) {
    && KeepsForest(g, schema, delta) && UncountedKeepOne(g, delta) && NoEntityMoves(g, delta)
    && PartOfTyped(set e | e in delta.edges :: LinkOf(e), g.entities + EntityIds(delta),
                   g.universes + UniverseIds(delta))
  }

  // An accepted delta keeps all promises together exactly when it meets all conditions.
  lemma UpsertKeepsPromises(g: Graph, schema: Schema, valid: set<Id>, delta: GraphDelta, lookup: Lookup,
                            levels: map<Id, int>, roots: map<Id, Id>)
    requires PromisesKept(g) && Accepted(g, schema, valid, delta, lookup, levels, roots)
    ensures PromisesKept(Written(g, schema, delta, levels, roots)) <==> Keeps(g, schema, delta)
  {
    UpsertKeepsForest(g, schema, valid, delta, lookup, levels, roots);
    OneDescribedKept(g, schema, delta, levels, roots);
    OneUniverseKept(g, schema, delta, levels, roots);
    WrittenPartOf(g, schema, delta, levels, roots);
  }

  lemma WrittenPartOf(g: Graph, schema: Schema, delta: GraphDelta, levels: map<Id, int>, roots: map<Id, Id>)
    requires PartOfTyped(g.links, g.entities, g.universes)
    ensures var w := Written(g, schema, delta, levels, roots);
            PartOfTyped(w.links, w.entities, w.universes)
            <==> PartOfTyped(set e | e in delta.edges :: LinkOf(e), w.entities, w.universes)
  {
    var w, sent := Written(g, schema, delta, levels, roots), set e | e in delta.edges :: LinkOf(e);
    assert sent <= w.links;
    forall l | l in w.links && l !in sent && l.kind.IsPartOf?
      ensures l.fromId in w.entities && l.toId in w.universes
    {
    }
  }

  ghost predicate Step(g: Graph, g': Graph) {
    g' == g || exists schema, valid, delta, lookup, levels, roots ::
      && Accepted(g, schema, valid, delta, lookup, levels, roots) && Keeps(g, schema, delta)
      && g' == Written(g, schema, delta, levels, roots)
  }

  lemma StepKeepsPromises(g: Graph, g': Graph)
    requires PromisesKept(g) && Step(g, g')
    ensures PromisesKept(g')
  {
    if g' != g {
      var schema, valid, delta, lookup, levels, roots :|
        && Accepted(g, schema, valid, delta, lookup, levels, roots) && Keeps(g, schema, delta)
        && g' == Written(g, schema, delta, levels, roots);
      UpsertKeepsPromises(g, schema, valid, delta, lookup, levels, roots);
    }
  }

  // Over every run of such deltas the forest, one universe for each entity and one description for each owner hold.
  lemma {:induction false} RunsKeepPromises(run: seq<Graph>, i: nat)
    requires i < |run| && PromisesKept(run[0])
    requires forall k | 0 <= k < |run| - 1 :: Step(run[k], run[k + 1])
    ensures PromisesKept(run[i])
  {
    if i > 0 {
      RunsKeepPromises(run, i - 1);
      assert Step(run[i - 1], run[i - 1 + 1]);
      StepKeepsPromises(run[i - 1], run[i]);
    }
  }
}
