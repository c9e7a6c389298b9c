/** The two resolvers that run before a graph delta is written: block levels by relaxation,
    and root entities by following parent links with a seen-set. */
module GraphResolution {
  import opened Wrappers

  type Id = string

  datatype Visibility = Private | Shared

  datatype Scope = Scope(userId: string, visibility: Visibility)

  // Edge types compare without case; name is the lower-case name of any other type.
  datatype EdgeKind = DescribedBy | Summarizes | IsPartOf | Other(name: string)

  datatype Edge = Edge(fromId: Id, toId: Id, kind: EdgeKind, scope: Scope)

  datatype Block = Block(id: Id, typeId: string, scope: Scope)

  datatype Context = Context(root: Id, level: int)

  // The answers of the repository's context query: no entry means "not found in that scope".
  type Lookup = map<(Id, Scope), Context>

  datatype ResolveError = UnknownParent(id: Id) | CycleAt(id: Id) | NoRoot(id: Id)

  function BlockIds(blocks: seq<Block>): set<Id> {
    set b | b in blocks :: b.id
  }

  /*** Contexts of parents that the delta does not list ***/

  predicate OutsideParent(ids: set<Id>, e: Edge) {
    e.kind.Summarizes? && e.toId in ids && e.fromId !in ids
  }

  // Later edges overwrite the scope an earlier edge recorded for the same parent.
  function ParentScopes(ids: set<Id>, edges: seq<Edge>): map<Id, Scope> {
    if edges == [] then map[]
    else
      var e, rest := edges[|edges| - 1], ParentScopes(ids, edges[..|edges| - 1]);
      if OutsideParent(ids, e) then rest[e.fromId := e.scope] else rest
  }

  predicate ContextsFound(ids: set<Id>, edges: seq<Edge>, lookup: Lookup) {
    var scopes := ParentScopes(ids, edges);
    forall p | p in scopes :: (p, scopes[p]) in lookup
  }

  function ParentContexts(ids: set<Id>, edges: seq<Edge>, lookup: Lookup): map<Id, Context>
    requires ContextsFound(ids, edges, lookup)
  {
    var scopes := ParentScopes(ids, edges);
    map p | p in scopes :: lookup[(p, scopes[p])]
  }

  lemma {:induction false} ParentScopesKeys(ids: set<Id>, edges: seq<Edge>, p: Id)
    ensures p in ParentScopes(ids, edges) <==> exists e :: e in edges && OutsideParent(ids, e) && e.fromId == p
  {
    if edges != [] {
      var init, last := edges[..|edges| - 1], edges[|edges| - 1];
      assert edges == init + [last];
      ParentScopesKeys(ids, init, p);
    }
  }

  // The k-th edge leads from an unlisted block to a listed one, and no later edge names that parent.
  predicate NamesParentLast(ids: set<Id>, edges: seq<Edge>, k: nat)
    requires k < |edges|
  {
    && edges[k].kind.Summarizes? && edges[k].toId in ids && edges[k].fromId !in ids
    && forall j | k < j < |edges| ::
         !(edges[j].kind.Summarizes? && edges[j].toId in ids && edges[j].fromId == edges[k].fromId)
  }

  // Each unlisted parent is looked up in the scope of the last edge that names it.
  predicate ParentsFound(ids: set<Id>, edges: seq<Edge>, lookup: Lookup) {
    forall k | 0 <= k < |edges| && NamesParentLast(ids, edges, k) :: (edges[k].fromId, edges[k].scope) in lookup
  }

  // The contexts are those of the unlisted parents, each from that scope.
  ghost predicate AreParentContexts(ids: set<Id>, edges: seq<Edge>, lookup: Lookup, contexts: map<Id, Context>) {
    && (forall k | 0 <= k < |edges| && NamesParentLast(ids, edges, k) ::
          && edges[k].fromId in contexts && (edges[k].fromId, edges[k].scope) in lookup
          && contexts[edges[k].fromId] == lookup[(edges[k].fromId, edges[k].scope)])
    && (forall p | p in contexts ::
          exists k :: 0 <= k < |edges| && NamesParentLast(ids, edges, k) && edges[k].fromId == p)
  }

  lemma {:induction false} LastScopeCounts(ids: set<Id>, edges: seq<Edge>, k: nat)
    requires k < |edges| && NamesParentLast(ids, edges, k)
    ensures edges[k].fromId in ParentScopes(ids, edges)
    ensures ParentScopes(ids, edges)[edges[k].fromId] == edges[k].scope
  {
    var init, last := edges[..|edges| - 1], edges[|edges| - 1];
    if k < |init| {
      assert NamesParentLast(ids, init, k);
      LastScopeCounts(ids, init, k);
    }
  }

  lemma {:induction false} ParentIsNamedLast(ids: set<Id>, edges: seq<Edge>, p: Id) returns (k: nat)
    requires p in ParentScopes(ids, edges)
    ensures k < |edges| && NamesParentLast(ids, edges, k) && edges[k].fromId == p
  {
    var init, last := edges[..|edges| - 1], edges[|edges| - 1];
    if OutsideParent(ids, last) && last.fromId == p {
      k := |init|;
    } else {
      k := ParentIsNamedLast(ids, init, p);
    }
  }

  lemma ContextsAreParents(ids: set<Id>, edges: seq<Edge>, lookup: Lookup)
    ensures ContextsFound(ids, edges, lookup) <==> ParentsFound(ids, edges, lookup)
    ensures ContextsFound(ids, edges, lookup) ==>
              AreParentContexts(ids, edges, lookup, ParentContexts(ids, edges, lookup))
  {
    var scopes := ParentScopes(ids, edges);
    forall k | 0 <= k < |edges| && NamesParentLast(ids, edges, k)
      ensures edges[k].fromId in scopes && scopes[edges[k].fromId] == edges[k].scope
    {
      LastScopeCounts(ids, edges, k);
    }
    forall p | p in scopes
      ensures exists k :: 0 <= k < |edges| && NamesParentLast(ids, edges, k) && edges[k].fromId == p
    {
      var k := ParentIsNamedLast(ids, edges, p);
    }
  }

  method FindParentContexts(blocks: seq<Block>, edges: seq<Edge>, lookup: Lookup)
    returns (r: Result<map<Id, Context>, ResolveError>)
    ensures r.Ok? <==> ContextsFound(BlockIds(blocks), edges, lookup)
    ensures r.Ok? ==> r.value == ParentContexts(BlockIds(blocks), edges, lookup)
    ensures r.Ok? <==> ParentsFound(BlockIds(blocks), edges, lookup)
    ensures r.Ok? ==> AreParentContexts(BlockIds(blocks), edges, lookup, r.value)
  {
    ContextsAreParents(BlockIds(blocks), edges, lookup);
    var scopes := ParentScopes(BlockIds(blocks), edges);
    var contexts: map<Id, Context> := map[];
    var rest := scopes.Keys;
    while rest != {}
      invariant rest <= scopes.Keys
      invariant contexts.Keys == scopes.Keys - rest
      invariant forall p | p in contexts :: (p, scopes[p]) in lookup && contexts[p] == lookup[(p, scopes[p])]
      decreases rest
    {
      var p :| p in rest;
      if (p, scopes[p]) !in lookup {
        return Err(UnknownParent(p));
      }
      contexts := contexts[p := lookup[(p, scopes[p])]];
      rest := rest - {p};
    }
    return Ok(contexts);
  }

  /*** Levels by relaxation ***/

  // id gets level along a path of n pairs that starts at a seed.
  ghost predicate Reaches(seeds: map<Id, int>, pairs: seq<(Id, Id)>, id: Id, n: nat, level: int)
    decreases n
  {
    if n == 0 then id in seeds && level == seeds[id]
    else exists p :: (p, id) in pairs && Reaches(seeds, pairs, p, n - 1, level - 1)
  }

  ghost predicate Attained(seeds: map<Id, int>, pairs: seq<(Id, Id)>, id: Id, level: int) {
    exists n: nat :: Reaches(seeds, pairs, id, n, level)
  }

  // levels holds exactly the reachable ids, each with the least level any path gives it.
  ghost predicate LeastLevels(seeds: map<Id, int>, pairs: seq<(Id, Id)>, levels: map<Id, int>) {
    && (forall id | id in levels :: Attained(seeds, pairs, id, levels[id]))
    && (forall id, n: nat, l | Reaches(seeds, pairs, id, n, l) :: id in levels && levels[id] <= l)
  }

  ghost predicate Relaxed(levels: map<Id, int>, pair: (Id, Id)) {
    pair.0 in levels ==> pair.1 in levels && levels[pair.1] <= levels[pair.0] + 1
  }

  ghost function Unassigned(levels: map<Id, int>, pairs: seq<(Id, Id)>): nat {
    if pairs == [] then 0
    else (if pairs[0].1 in levels then 0 else 1) + Unassigned(levels, pairs[1..])
  }

  ghost function Height(levels: map<Id, int>, pairs: seq<(Id, Id)>, low: int): nat {
    if pairs == [] then 0
    else (if pairs[0].1 in levels && levels[pairs[0].1] > low then levels[pairs[0].1] - low else 0)
         + Height(levels, pairs[1..], low)
  }

  // Assigning a target for the first time lowers the first component of the measure;
  // lowering an assigned level keeps it and lowers the second one.
  lemma {:induction false} MeasureDrops(levels: map<Id, int>, pairs: seq<(Id, Id)>, low: int, id: Id, level: int)
    requires low < level
    ensures id !in levels ==> Unassigned(levels[id := level], pairs) <= Unassigned(levels, pairs)
    ensures id !in levels && (exists p :: (p, id) in pairs)
            ==> Unassigned(levels[id := level], pairs) < Unassigned(levels, pairs)
    ensures id in levels ==> Unassigned(levels[id := level], pairs) == Unassigned(levels, pairs)
    ensures id in levels && level < levels[id]
            ==> Height(levels[id := level], pairs, low) <= Height(levels, pairs, low)
    ensures id in levels && level < levels[id] && (exists p :: (p, id) in pairs)
            ==> Height(levels[id := level], pairs, low) < Height(levels, pairs, low)
  {
    if pairs != [] {
      MeasureDrops(levels, pairs[1..], low, id, level);
    }
  }

  lemma LowerBound(seeds: map<Id, int>) returns (low: int)
    ensures forall id | id in seeds :: low <= seeds[id]
  {
    if seeds == map[] {
      low := 0;
    } else {
      var id :| id in seeds;
      var rest := seeds - {id};
      assert rest.Keys < seeds.Keys;
      low := LowerBound(rest);
      assert forall x | x in seeds && x != id :: x in rest && rest[x] == seeds[x];
      low := if seeds[id] < low then seeds[id] else low;
    }
  }

  lemma {:induction false} FixpointIsLeast(seeds: map<Id, int>, pairs: seq<(Id, Id)>, levels: map<Id, int>,
                                           id: Id, n: nat, level: int)
    requires forall s | s in seeds :: s in levels && levels[s] <= seeds[s]
    requires forall pair | pair in pairs :: Relaxed(levels, pair)
    requires Reaches(seeds, pairs, id, n, level)
    ensures id in levels && levels[id] <= level
    decreases n
  {
    if n > 0 {
      var p :| (p, id) in pairs && Reaches(seeds, pairs, p, n - 1, level - 1);
      FixpointIsLeast(seeds, pairs, levels, p, n - 1, level - 1);
      assert Relaxed(levels, (p, id));
    }
  }

  // The relaxation loop. It ends on every pair list, with cycles and self-loops included.
  method RelaxLevels(seeds: map<Id, int>, pairs: seq<(Id, Id)>) returns (levels: map<Id, int>)
    ensures LeastLevels(seeds, pairs, levels)
  {
    levels := seeds;
    ghost var low := LowerBound(seeds);
    var changed := true;
    assert forall id | id in seeds :: Reaches(seeds, pairs, id, 0, seeds[id]);
    while changed
      invariant forall s | s in seeds :: s in levels && levels[s] <= seeds[s]
      invariant forall id | id in levels :: low <= levels[id]
      invariant forall id | id in levels :: Attained(seeds, pairs, id, levels[id])
      invariant !changed ==> forall pair | pair in pairs :: Relaxed(levels, pair)
      decreases Unassigned(levels, pairs), Height(levels, pairs, low), if changed then 1 else 0
    {
      changed := false;
      ghost var before := levels;
      for i := 0 to |pairs|
        invariant forall s | s in seeds :: s in levels && levels[s] <= seeds[s]
        invariant forall id | id in levels :: low <= levels[id]
        invariant forall id | id in levels :: Attained(seeds, pairs, id, levels[id])
        invariant !changed ==> levels == before && forall k | 0 <= k < i :: Relaxed(levels, pairs[k])
        invariant changed ==>
                    || Unassigned(levels, pairs) < Unassigned(before, pairs)
                    || (Unassigned(levels, pairs) == Unassigned(before, pairs)
                        && Height(levels, pairs, low) < Height(before, pairs, low))
      {
        var (from, to) := pairs[i];
        if from in levels {
          var candidate := levels[from] + 1;
          if to !in levels || candidate < levels[to] {
            assert (from, to) in pairs;
            MeasureDrops(levels, pairs, low, to, candidate);
            ExtendAttained(seeds, pairs, from, to, levels[from]);
            levels := levels[to := candidate];
            changed := true;
          }
        }
      }
    }
    forall id, n: nat, l | Reaches(seeds, pairs, id, n, l)
      ensures id in levels && levels[id] <= l
    {
      FixpointIsLeast(seeds, pairs, levels, id, n, l);
    }
  }

  lemma ExtendAttained(seeds: map<Id, int>, pairs: seq<(Id, Id)>, from: Id, to: Id, level: int)
    requires (from, to) in pairs && Attained(seeds, pairs, from, level)
    ensures Attained(seeds, pairs, to, level + 1)
  {
    var n: nat :| Reaches(seeds, pairs, from, n, level);
    assert Reaches(seeds, pairs, from, n + 1 - 1, level + 1 - 1);
    assert Reaches(seeds, pairs, to, n + 1, level + 1);
  }

  /*** The level resolver ***/

  function DescribedIds(ids: set<Id>, edges: seq<Edge>): set<Id> {
    set e | e in edges && e.kind.DescribedBy? && e.toId in ids :: e.toId
  }

  // The level the repository reports for the first listed block of this id that it finds.
  function StoredLevel(blocks: seq<Block>, lookup: Lookup, id: Id): Option<int> {
    if blocks == [] then None
    else
      var earlier := StoredLevel(blocks[..|blocks| - 1], lookup, id);
      var b := blocks[|blocks| - 1];
      if earlier.Some? then earlier
      else if b.id == id && (id, b.scope) in lookup then Some(lookup[(id, b.scope)].level)
      else None
  }

  // Of the listed blocks of one id, the first that is found decides.
  lemma {:induction false} FirstReportCounts(blocks: seq<Block>, lookup: Lookup, k: nat)
    requires k < |blocks| && (blocks[k].id, blocks[k].scope) in lookup
    requires forall j | 0 <= j < k && blocks[j].id == blocks[k].id :: (blocks[j].id, blocks[j].scope) !in lookup
    ensures StoredLevel(blocks, lookup, blocks[k].id) == Some(lookup[(blocks[k].id, blocks[k].scope)].level)
  {
    var init := blocks[..|blocks| - 1];
    if k < |init| {
      FirstReportCounts(init, lookup, k);
    } else {
      NothingReported(init, lookup, blocks[k].id);
    }
  }

  lemma {:induction false} NothingReported(blocks: seq<Block>, lookup: Lookup, id: Id)
    requires forall j | 0 <= j < |blocks| && blocks[j].id == id :: (id, blocks[j].scope) !in lookup
    ensures StoredLevel(blocks, lookup, id).None?
  {
    if blocks != [] {
      NothingReported(blocks[..|blocks| - 1], lookup, id);
    }
  }

  // Levels known before any relaxation, in the order of precedence of the source.
  ghost predicate AreSeeds(described: set<Id>, contexts: map<Id, Context>, blocks: seq<Block>, lookup: Lookup,
                           seeds: map<Id, int>)
  {
    forall id ::
      if id in described then id in seeds && seeds[id] == 0
      else if id in contexts then id in seeds && seeds[id] == contexts[id].level
      else match StoredLevel(blocks, lookup, id)
           case Some(l) => id in seeds && seeds[id] == l
           case None => id !in seeds
  }

  method SeedLevels(blocks: seq<Block>, edges: seq<Edge>, lookup: Lookup, contexts: map<Id, Context>)
    returns (levels: map<Id, int>)
    ensures AreSeeds(DescribedIds(BlockIds(blocks), edges), contexts, blocks, lookup, levels)
  {
    var ids := BlockIds(blocks);
    levels := map[];
    for i := 0 to |edges|
      invariant levels.Keys == DescribedIds(ids, edges[..i])
      invariant forall id | id in levels :: levels[id] == 0
    {
      assert edges[..i + 1] == edges[..i] + [edges[i]];
      if edges[i].kind.DescribedBy? && edges[i].toId in ids && edges[i].toId !in levels {
        levels := levels[edges[i].toId := 0];
      }
    }
    assert edges[..|edges|] == edges;
    var described := DescribedIds(ids, edges);
    var rest := contexts.Keys;
    while rest != {}
      invariant rest <= contexts.Keys
      invariant levels.Keys == described + (contexts.Keys - rest)
      invariant forall id | id in levels :: levels[id] == if id in described then 0 else contexts[id].level
      decreases rest
    {
      var id :| id in rest;
      if id !in levels {
        levels := levels[id := contexts[id].level];
      }
      rest := rest - {id};
    }
    for i := 0 to |blocks|
      invariant AreSeeds(described, contexts, blocks[..i], lookup, levels)
    {
      assert blocks[..i + 1][..i] == blocks[..i];
      var b := blocks[i];
      if b.id !in levels && (b.id, b.scope) in lookup {
        levels := levels[b.id := lookup[(b.id, b.scope)].level];
      }
    }
    assert blocks[..|blocks|] == blocks;
  }

  // The SUMMARIZES edges the relaxation runs over.
  function SummaryPairs(ids: set<Id>, contexts: map<Id, Context>, edges: seq<Edge>): seq<(Id, Id)> {
    if edges == [] then []
    else
      var e, rest := edges[0], SummaryPairs(ids, contexts, edges[1..]);
      if e.kind.Summarizes? && (e.fromId in ids || e.fromId in contexts) && e.toId in ids
      then [(e.fromId, e.toId)] + rest
      else rest
  }

  lemma {:induction false} InSummaryPairs(ids: set<Id>, contexts: map<Id, Context>, edges: seq<Edge>, from: Id, to: Id)
    ensures (from, to) in SummaryPairs(ids, contexts, edges)
            <==> (from in ids || from in contexts) && to in ids
                 && exists e :: e in edges && e.kind.Summarizes? && e.fromId == from && e.toId == to
  {
    if edges != [] {
      assert edges == [edges[0]] + edges[1..];
      InSummaryPairs(ids, contexts, edges[1..], from, to);
    }
  }

  // What the level resolver returns: the least levels, cut down to the listed blocks.
  ghost predicate AreBlockLevels(blocks: seq<Block>, edges: seq<Edge>, lookup: Lookup, levels: map<Id, int>)
    requires ContextsFound(BlockIds(blocks), edges, lookup)
  {
    var ids := BlockIds(blocks);
    var contexts := ParentContexts(ids, edges, lookup);
    exists seeds, all: map<Id, int> ::
      && AreSeeds(DescribedIds(ids, edges), contexts, blocks, lookup, seeds)
      && LeastLevels(seeds, SummaryPairs(ids, contexts, edges), all)
      && levels == map id | id in all && id in ids :: all[id]
  }

  method BlockLevelsForBlocks(blocks: seq<Block>, edges: seq<Edge>, lookup: Lookup)
    returns (r: Result<map<Id, int>, ResolveError>)
    ensures r.Ok? <==> ContextsFound(BlockIds(blocks), edges, lookup)
    ensures r.Ok? <==> ParentsFound(BlockIds(blocks), edges, lookup)
    ensures r.Ok? ==> AreBlockLevels(blocks, edges, lookup, r.value)
  {
    var found := FindParentContexts(blocks, edges, lookup);
    if found.Err? {
      return Err(found.error);
    }
    var seeds := SeedLevels(blocks, edges, lookup, found.value);
    var ids := BlockIds(blocks);
    var levels := RelaxLevels(seeds, SummaryPairs(ids, found.value, edges));
    return Ok(map id | id in levels && id in ids :: levels[id]);
  }

  /*** The root resolver ***/

  // Child to parent, for the edges of one kind into listed blocks; a later edge overwrites an earlier one.
  function ParentMap(ids: set<Id>, edges: seq<Edge>, kind: EdgeKind): map<Id, Id> {
    if edges == [] then map[]
    else
      var e, rest := edges[|edges| - 1], ParentMap(ids, edges[..|edges| - 1], kind);
      if e.kind == kind && e.toId in ids then rest[e.toId := e.fromId] else rest
  }

  lemma {:induction false} ParentMapEntry(ids: set<Id>, edges: seq<Edge>, kind: EdgeKind, id: Id)
    ensures id in ParentMap(ids, edges, kind) <==> id in ids && exists e :: e in edges && e.kind == kind && e.toId == id
    ensures id in ParentMap(ids, edges, kind)
            ==> exists e :: e in edges && e.kind == kind && e.toId == id && e.fromId == ParentMap(ids, edges, kind)[id]
  {
    if edges != [] {
      var init, last := edges[..|edges| - 1], edges[|edges| - 1];
      assert edges == init + [last];
      ParentMapEntry(ids, init, kind, id);
      if last.kind == kind && last.toId in ids && last.toId == id {
        assert last in edges;
      }
    }
  }

  datatype ParentLinks = ParentLinks(described: map<Id, Id>, summarized: map<Id, Id>, contexts: map<Id, Context>)

  function LinksOf(ids: set<Id>, edges: seq<Edge>, lookup: Lookup): ParentLinks
    requires ContextsFound(ids, edges, lookup)
  {
    ParentLinks(ParentMap(ids, edges, DescribedBy), ParentMap(ids, edges, Summarizes),
                ParentContexts(ids, edges, lookup))
  }

  // The k-th edge is the last of its kind into a listed block.
  predicate LeadsLast(ids: set<Id>, edges: seq<Edge>, kind: EdgeKind, k: nat)
    requires k < |edges|
  {
    && edges[k].kind == kind && edges[k].toId in ids
    && forall j | k < j < |edges| :: !(edges[j].kind == kind && edges[j].toId == edges[k].toId)
  }

  // Each listed block with edges of this kind into it has the start of the last one as its parent.
  ghost predicate AreLastParents(ids: set<Id>, edges: seq<Edge>, kind: EdgeKind, parents: map<Id, Id>) {
    && (forall k | 0 <= k < |edges| && LeadsLast(ids, edges, kind, k) ::
          edges[k].toId in parents && parents[edges[k].toId] == edges[k].fromId)
    && (forall c | c in parents :: exists k :: 0 <= k < |edges| && LeadsLast(ids, edges, kind, k) && edges[k].toId == c)
  }

  ghost predicate AreLinks(ids: set<Id>, edges: seq<Edge>, lookup: Lookup, links: ParentLinks) {
    && AreLastParents(ids, edges, DescribedBy, links.described)
    && AreLastParents(ids, edges, Summarizes, links.summarized)
    && AreParentContexts(ids, edges, lookup, links.contexts)
  }

  lemma {:induction false} LastParentCounts(ids: set<Id>, edges: seq<Edge>, kind: EdgeKind, k: nat)
    requires k < |edges| && LeadsLast(ids, edges, kind, k)
    ensures edges[k].toId in ParentMap(ids, edges, kind)
    ensures ParentMap(ids, edges, kind)[edges[k].toId] == edges[k].fromId
  {
    var init, last := edges[..|edges| - 1], edges[|edges| - 1];
    if k < |init| {
      assert LeadsLast(ids, init, kind, k);
      LastParentCounts(ids, init, kind, k);
    }
  }

  lemma {:induction false} ChildIsLedLast(ids: set<Id>, edges: seq<Edge>, kind: EdgeKind, c: Id) returns (k: nat)
    requires c in ParentMap(ids, edges, kind)
    ensures k < |edges| && LeadsLast(ids, edges, kind, k) && edges[k].toId == c
  {
    var init, last := edges[..|edges| - 1], edges[|edges| - 1];
    if last.kind == kind && last.toId in ids && last.toId == c {
      k := |init|;
    } else {
      k := ChildIsLedLast(ids, init, kind, c);
    }
  }

  lemma ParentMapIsLast(ids: set<Id>, edges: seq<Edge>, kind: EdgeKind)
    ensures AreLastParents(ids, edges, kind, ParentMap(ids, edges, kind))
  {
    forall k | 0 <= k < |edges| && LeadsLast(ids, edges, kind, k)
      ensures edges[k].toId in ParentMap(ids, edges, kind)
      ensures ParentMap(ids, edges, kind)[edges[k].toId] == edges[k].fromId
    {
      LastParentCounts(ids, edges, kind, k);
    }
    forall c | c in ParentMap(ids, edges, kind)
      ensures exists k :: 0 <= k < |edges| && LeadsLast(ids, edges, kind, k) && edges[k].toId == c
    {
      var k := ChildIsLedLast(ids, edges, kind, c);
    }
  }

  // What the root resolver follows: for each listed block the last edge of each kind into it, and for each
  // unlisted parent its stored context.
  lemma LinksAreEdges(ids: set<Id>, edges: seq<Edge>, lookup: Lookup)
    requires ContextsFound(ids, edges, lookup)
    ensures AreLinks(ids, edges, lookup, LinksOf(ids, edges, lookup))
  {
    ParentMapIsLast(ids, edges, DescribedBy);
    ParentMapIsLast(ids, edges, Summarizes);
    ContextsAreParents(ids, edges, lookup);
  }

  // Following parents from current takes exactly hops SUMMARIZES links, ends at root, and
  // base is the level known at that end.
  ghost predicate RootChain(links: ParentLinks, lookup: Lookup, scope: Scope, current: Id, hops: nat, root: Id,
                            base: int)
    decreases hops
  {
    if current in links.described then
      hops == 0 && root == links.described[current] && base == 0
    else if current in links.summarized then
      var parent := links.summarized[current];
      && hops > 0
      && if parent in links.contexts
         then hops == 1 && root == links.contexts[parent].root && base == links.contexts[parent].level
         else RootChain(links, lookup, scope, parent, hops - 1, root, base)
    else if current in links.contexts then
      hops == 0 && root == links.contexts[current].root && base == links.contexts[current].level
    else
      && hops == 0 && (current, scope) in lookup
      && root == lookup[(current, scope)].root && base == lookup[(current, scope)].level
  }

  ghost predicate ResolvesTo(links: ParentLinks, lookup: Lookup, block: Block, root: Id) {
    exists hops: nat, base :: RootChain(links, lookup, block.scope, block.id, hops, root, base)
  }

  ghost predicate Resolves(links: ParentLinks, lookup: Lookup, block: Block) {
    exists root :: ResolvesTo(links, lookup, block, root)
  }

  lemma {:induction false} RootChainUnique(links: ParentLinks, lookup: Lookup, scope: Scope, current: Id,
                                           h: nat, r: Id, b: int, h': nat, r': Id, b': int)
    requires RootChain(links, lookup, scope, current, h, r, b)
    requires RootChain(links, lookup, scope, current, h', r', b')
    ensures h == h' && r == r' && b == b'
    decreases h
  {
    if current !in links.described && current in links.summarized && links.summarized[current] !in links.contexts {
      RootChainUnique(links, lookup, scope, links.summarized[current], h - 1, r, b, h' - 1, r', b');
    }
  }

  // The walk continues from id to its parent.
  predicate Hops(links: ParentLinks, id: Id) {
    id !in links.described && id in links.summarized && links.summarized[id] !in links.contexts
  }

  // k hops lead from id to current.
  ghost predicate HopPath(links: ParentLinks, id: Id, current: Id, k: nat)
    decreases k
  {
    if k == 0 then id == current
    else Hops(links, id) && HopPath(links, links.summarized[id], current, k - 1)
  }

  lemma {:induction false} ExtendHopPath(links: ParentLinks, id: Id, current: Id, k: nat)
    requires HopPath(links, id, current, k) && Hops(links, current)
    ensures HopPath(links, id, links.summarized[current], k + 1)
    decreases k
  {
    if k > 0 {
      ExtendHopPath(links, links.summarized[id], current, k - 1);
    }
  }

  lemma {:induction false} ChainAfterHops(links: ParentLinks, lookup: Lookup, scope: Scope, id: Id, current: Id, k: nat,
                                          h: nat, r: Id, b: int)
    requires HopPath(links, id, current, k)
    ensures RootChain(links, lookup, scope, id, h, r, b)
            <==> h >= k && RootChain(links, lookup, scope, current, h - k, r, b)
    decreases k
  {
    if k > 0 && h > 0 {
      ChainAfterHops(links, lookup, scope, links.summarized[id], current, k - 1, h - 1, r, b);
    }
  }

  lemma NoChainOnCycle(links: ParentLinks, lookup: Lookup, block: Block, id: Id, j: nat, k: nat)
    requires j < k
    requires HopPath(links, block.id, id, j) && HopPath(links, block.id, id, k)
    ensures !Resolves(links, lookup, block)
  {
    if Resolves(links, lookup, block) {
      var r :| ResolvesTo(links, lookup, block, r);
      var h: nat, b :| RootChain(links, lookup, block.scope, block.id, h, r, b);
      ChainAfterHops(links, lookup, block.scope, block.id, id, j, h, r, b);
      ChainAfterHops(links, lookup, block.scope, block.id, id, k, h, r, b);
      RootChainUnique(links, lookup, block.scope, id, h - j, r, b, h - k, r, b);
    }
  }

  lemma ChainEndsHere(links: ParentLinks, lookup: Lookup, block: Block, id: Id, k: nat, h: nat, root: Id, base: int)
    requires HopPath(links, block.id, id, k)
    requires RootChain(links, lookup, block.scope, id, h, root, base)
    ensures ResolvesTo(links, lookup, block, root)
  {
    ChainAfterHops(links, lookup, block.scope, block.id, id, k, k + h, root, base);
  }

  lemma ChainBreaksHere(links: ParentLinks, lookup: Lookup, block: Block, id: Id, k: nat)
    requires HopPath(links, block.id, id, k)
    requires id !in links.described && id !in links.summarized && id !in links.contexts
    requires (id, block.scope) !in lookup
    ensures !Resolves(links, lookup, block)
  {
    forall h: nat, r, b
      ensures !RootChain(links, lookup, block.scope, block.id, h, r, b)
    {
      ChainAfterHops(links, lookup, block.scope, block.id, id, k, h, r, b);
    }
  }

  ghost predicate WalksIntoCycle(links: ParentLinks, id: Id) {
    exists x, j: nat, k: nat :: j < k && HopPath(links, id, x, j) && HopPath(links, id, x, k)
  }

  ghost predicate WalksIntoDeadEnd(links: ParentLinks, lookup: Lookup, block: Block) {
    exists x, k: nat :: HopPath(links, block.id, x, k) && x !in links.described && x !in links.summarized
                        && x !in links.contexts && (x, block.scope) !in lookup
  }

  // One walk: a root is returned exactly when following parents reaches one, and the two errors
  // tell a cycle from a chain that ends nowhere.
  method ResolveRoot(links: ParentLinks, lookup: Lookup, block: Block) returns (r: Result<Id, ResolveError>)
    ensures r.Ok? ==> ResolvesTo(links, lookup, block, r.value)
    ensures r.Err? ==> !Resolves(links, lookup, block)
    ensures r.Err? ==> || (r.error == CycleAt(block.id) && WalksIntoCycle(links, block.id))
                       || (r.error == NoRoot(block.id) && WalksIntoDeadEnd(links, lookup, block))
  {
    var current := block.id;
    var seen: set<Id> := {};
    ghost var trail: seq<Id> := [];
    ghost var all := {block.id} + links.summarized.Values;
    while true
      invariant current in all && seen <= all
      invariant forall x | x in seen :: x in trail
      invariant HopPath(links, block.id, current, |trail|)
      invariant forall k | 0 <= k < |trail| :: HopPath(links, block.id, trail[k], k)
      decreases all - seen
    {
      if current in seen {
        ghost var j :| 0 <= j < |trail| && trail[j] == current;
        NoChainOnCycle(links, lookup, block, current, j, |trail|);
        return Err(CycleAt(block.id));
      }
      seen := seen + {current};
      if current in links.described {
        ChainEndsHere(links, lookup, block, current, |trail|, 0, links.described[current], 0);
        return Ok(links.described[current]);
      }
      if current in links.summarized {
        var parent := links.summarized[current];
        if parent in links.contexts {
          var context := links.contexts[parent];
          ChainEndsHere(links, lookup, block, current, |trail|, 1, context.root, context.level);
          return Ok(context.root);
        }
        ExtendHopPath(links, block.id, current, |trail|);
        trail := trail + [current];
        current := parent;
        continue;
      }
      if current in links.contexts {
        var context := links.contexts[current];
        ChainEndsHere(links, lookup, block, current, |trail|, 0, context.root, context.level);
        return Ok(context.root);
      }
      if (current, block.scope) in lookup {
        var existing := lookup[(current, block.scope)];
        ChainEndsHere(links, lookup, block, current, |trail|, 0, existing.root, existing.level);
        return Ok(existing.root);
      }
      ChainBreaksHere(links, lookup, block, current, |trail|);
      return Err(NoRoot(block.id));
    }
  }

  // The roots the resolver reports: every listed block resolves, and each entry is the root of a listed block.
  ghost predicate AreBlockRoots(blocks: seq<Block>, links: ParentLinks, lookup: Lookup, roots: map<Id, Id>) {
    && roots.Keys == BlockIds(blocks)
    && (forall b | b in blocks :: Resolves(links, lookup, b))
    && (forall id | id in roots :: exists b :: b in blocks && b.id == id && ResolvesTo(links, lookup, b, roots[id]))
  }

  ghost predicate RootsFound(blocks: seq<Block>, edges: seq<Edge>, lookup: Lookup) {
    var ids := BlockIds(blocks);
    && ContextsFound(ids, edges, lookup)
    && forall b | b in blocks :: Resolves(LinksOf(ids, edges, lookup), lookup, b)
  }

  method RootEntityIdsForBlocks(blocks: seq<Block>, edges: seq<Edge>, lookup: Lookup)
    returns (r: Result<map<Id, Id>, ResolveError>)
    ensures r.Ok? <==> RootsFound(blocks, edges, lookup)
    ensures r.Ok? ==> && AreLinks(BlockIds(blocks), edges, lookup, LinksOf(BlockIds(blocks), edges, lookup))
                      && AreBlockRoots(blocks, LinksOf(BlockIds(blocks), edges, lookup), lookup, r.value)
    ensures !ParentsFound(BlockIds(blocks), edges, lookup) ==> r.Err?
  {
    ContextsAreParents(BlockIds(blocks), edges, lookup);
    var found := FindParentContexts(blocks, edges, lookup);
    if found.Err? {
      return Err(found.error);
    }
    var links := LinksOf(BlockIds(blocks), edges, lookup);
    LinksAreEdges(BlockIds(blocks), edges, lookup);
    var out: map<Id, Id> := map[];
    for i := 0 to |blocks|
      invariant AreBlockRoots(blocks[..i], links, lookup, out)
    {
      assert blocks[..i + 1] == blocks[..i] + [blocks[i]];
      var root := ResolveRoot(links, lookup, blocks[i]);
      if root.Err? {
        return Err(root.error);
      }
      out := out[blocks[i].id := root.value];
      assert Resolves(links, lookup, blocks[i]);
      assert blocks[i] in blocks[..i + 1];
      forall id | id in out
        ensures exists b :: b in blocks[..i + 1] && b.id == id && ResolvesTo(links, lookup, b, out[id])
      {
        if id != blocks[i].id {
          var b :| b in blocks[..i] && b.id == id && ResolvesTo(links, lookup, b, out[id]);
          assert b in blocks[..i + 1];
        }
      }
    }
    assert blocks[..|blocks|] == blocks;
    return Ok(out);
  }
}
