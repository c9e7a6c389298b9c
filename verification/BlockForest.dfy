/** What every accepted graph delta keeps: the stored blocks form a forest below entities and universes, and
    each stored level and root describes that forest. */
module BlockForest {
  import opened Wrappers
  import opened GraphResolution
  import opened GraphRules
  import opened DeltaSchema
  import opened NodeIdentity
  import opened TypeHierarchy

  /*** The forest ***/

  // n SUMMARIZES links lead from a block that root is DESCRIBED_BY down to b.
  ghost predicate Chain(blocks: set<Id>, links: set<Link>, b: Id, root: Id, n: nat)
    decreases n
  {
    && b in blocks
    && if n == 0 then Link(root, b, DescribedBy) in links
       else exists p :: Link(p, b, Summarizes) in links && Chain(blocks, links, p, root, n - 1)
  }

  ghost predicate Rooted(blocks: set<Id>, links: set<Link>, b: Id) {
    exists root, n: nat :: Chain(blocks, links, b, root, n)
  }

  // Parent links lead to blocks only, and every block has one parent and hangs below a root.
  ghost predicate Anchored(blocks: set<Id>, links: set<Link>) {
    && (forall l | l in links && IsParentKind(l.kind) :: l.toId in blocks)
    && (forall b | b in blocks :: |Parents(links, b)| == 1 && Rooted(blocks, links, b))
  }

  predicate RootsApart(blocks: set<Id>, links: set<Link>) {
    forall l | l in links && l.kind.DescribedBy? :: l.fromId !in blocks
  }

  // No block is the root of another, so the parent relation has no cycle.
  ghost predicate Forest(blocks: set<Id>, links: set<Link>) {
    Anchored(blocks, links) && RootsApart(blocks, links)
  }

  predicate RootsOwned(g: Graph) {
    forall l | l in g.links && l.kind.DescribedBy? :: l.fromId in g.entities + g.universes
  }

  // The stored level and root of every block are its depth and its root in the forest.
  ghost predicate Labelled(g: Graph) {
    && g.levels.Keys == g.roots.Keys == g.blocks
    && forall b | b in g.blocks :: g.levels[b] >= 0 && Chain(g.blocks, g.links, b, g.roots[b], g.levels[b])
  }

  // Every stored id names one stored node.
  predicate Identified(g: Graph) {
    OneNode(g.nodes) && Ids(g.nodes) == g.universes + g.entities + g.blocks
  }

  ghost predicate WellFormed(g: Graph) {
    Identified(g) && Forest(g.blocks, g.links) && RootsOwned(g) && Labelled(g)
  }

  lemma OneParent(blocks: set<Id>, links: set<Link>, l: Link, l': Link)
    requires Anchored(blocks, links)
    requires l in links && l' in links && IsParentKind(l.kind) && IsParentKind(l'.kind) && l.toId == l'.toId
    ensures l == l'
  {
    var parents := Parents(links, l.toId);
    assert l in parents && l' in parents;
    if l != l' {
      assert {l, l'} <= parents;
      SubsetSize({l, l'}, parents);
    }
  }

  lemma {:induction false} SubsetSize<T>(a: set<T>, b: set<T>)
    requires a <= b
    ensures |a| <= |b|
  {
    if a != {} {
      var x :| x in a;
      SubsetSize(a - {x}, b - {x});
    }
  }

  // A block reaches exactly one root, at exactly one depth.
  lemma {:induction false} ChainUnique(blocks: set<Id>, links: set<Link>, b: Id, r: Id, n: nat, r': Id, n': nat)
    requires Anchored(blocks, links)
    requires Chain(blocks, links, b, r, n) && Chain(blocks, links, b, r', n')
    ensures r == r' && n == n'
    decreases n
  {
    if n == 0 && n' == 0 {
      OneParent(blocks, links, Link(r, b, DescribedBy), Link(r', b, DescribedBy));
    } else if n == 0 {
      var p :| Link(p, b, Summarizes) in links;
      OneParent(blocks, links, Link(r, b, DescribedBy), Link(p, b, Summarizes));
    } else {
      var p :| Link(p, b, Summarizes) in links && Chain(blocks, links, p, r, n - 1);
      if n' == 0 {
        OneParent(blocks, links, Link(r', b, DescribedBy), Link(p, b, Summarizes));
      } else {
        var p' :| Link(p', b, Summarizes) in links && Chain(blocks, links, p', r', n' - 1);
        OneParent(blocks, links, Link(p, b, Summarizes), Link(p', b, Summarizes));
        ChainUnique(blocks, links, p, r, n - 1, r', n' - 1);
      }
    }
  }

  ghost predicate SummaryPath(links: set<Link>, top: Id, b: Id, k: nat)
    decreases k
  {
    if k == 0 then top == b
    else exists p :: Link(p, b, Summarizes) in links && SummaryPath(links, top, p, k - 1)
  }

  // Walking down k SUMMARIZES links adds k to the stored level, so no walk returns to its start.
  lemma {:induction false} LevelsCountLinks(g: Graph, top: Id, b: Id, k: nat)
    requires WellFormed(g) && b in g.blocks
    requires SummaryPath(g.links, top, b, k)
    ensures top in g.blocks && g.levels[b] == g.levels[top] + k && g.roots[b] == g.roots[top]
    ensures k > 0 ==> top != b
    decreases k
  {
    if k > 0 {
      var p :| Link(p, b, Summarizes) in g.links && SummaryPath(g.links, top, p, k - 1);
      var n := g.levels[b];
      if n == 0 {
        OneParent(g.blocks, g.links, Link(g.roots[b], b, DescribedBy), Link(p, b, Summarizes));
      }
      var q :| Link(q, b, Summarizes) in g.links && Chain(g.blocks, g.links, q, g.roots[b], n - 1);
      OneParent(g.blocks, g.links, Link(q, b, Summarizes), Link(p, b, Summarizes));
      ChainUnique(g.blocks, g.links, p, g.roots[b], n - 1, g.roots[p], g.levels[p]);
      LevelsCountLinks(g, top, p, k - 1);
    }
  }

  // k parent links, of either kind, lead from top down to b.
  ghost predicate ParentPath(links: set<Link>, top: Id, b: Id, k: nat)
    decreases k
  {
    if k == 0 then top == b
    else exists l :: l in links && IsParentKind(l.kind) && l.toId == b && ParentPath(links, top, l.fromId, k - 1)
  }

  lemma {:induction false} PathBelowBlock(g: Graph, top: Id, b: Id, k: nat)
    requires WellFormed(g) && top in g.blocks && ParentPath(g.links, top, b, k)
    ensures SummaryPath(g.links, top, b, k)
    decreases k
  {
    if k > 0 {
      var l :| l in g.links && IsParentKind(l.kind) && l.toId == b && ParentPath(g.links, top, l.fromId, k - 1);
      PathBelowBlock(g, top, l.fromId, k - 1);
      assert l.fromId in g.blocks by {
        if k > 1 {
          var m :| m in g.links && IsParentKind(m.kind) && m.toId == l.fromId;
        }
      }
      assert l == Link(l.fromId, b, Summarizes);
    }
  }

  // No walk over parent links of either kind returns to its start.
  lemma NoParentCycle(g: Graph, x: Id, k: nat)
    requires WellFormed(g) && k > 0
    ensures !ParentPath(g.links, x, x, k)
  {
    if ParentPath(g.links, x, x, k) {
      var l :| l in g.links && IsParentKind(l.kind) && l.toId == x;
      PathBelowBlock(g, x, x, k);
      LevelsCountLinks(g, x, x, k);
    }
  }

  lemma {:induction false} ChainGrows(blocks: set<Id>, links: set<Link>, blocks': set<Id>, links': set<Link>,
                                      b: Id, root: Id, n: nat)
    requires blocks <= blocks'
    requires forall l | l in links && IsParentKind(l.kind) :: l in links'
    requires Chain(blocks, links, b, root, n)
    ensures Chain(blocks', links', b, root, n)
    decreases n
  {
    if n > 0 {
      var p :| Link(p, b, Summarizes) in links && Chain(blocks, links, p, root, n - 1);
      ChainGrows(blocks, links, blocks', links', p, root, n - 1);
    }
  }

  /*** The repository answers the resolvers rely on ***/

  // A context the repository reports is a path in the stored graph; which scopes can see it is left open.
  ghost predicate ReportsStored(g: Graph, lookup: Lookup) {
    forall k | k in lookup ::
      lookup[k].level >= 0 && Chain(g.blocks, g.links, k.0, lookup[k].root, lookup[k].level)
  }

  /*** Attaching the blocks of an admitted delta ***/

  // Every listed block has one parent, counting the stored and the added ones.
  ghost predicate OneParentEach(g: Graph, delta: GraphDelta) {
    forall id | id in BlockIds(delta.blocks) :: StoredParents(g, id) + AddedParents(delta, id) == 1
  }

  ghost predicate Ready(g: Graph, delta: GraphDelta, lookup: Lookup) {
    && Anchored(g.blocks, g.links)
    && ReportsStored(g, lookup)
    && OneParentEach(g, delta)
    && RootsFound(delta.blocks, delta.edges, lookup)
  }

  ghost function NewBlocks(g: Graph, delta: GraphDelta): set<Id> {
    g.blocks + BlockIds(delta.blocks)
  }

  // The stored links with the parent links into listed blocks.
  ghost function NewLinks(g: Graph, delta: GraphDelta): set<Link> {
    g.links + set e | e in delta.edges && IsParentKind(e.kind) && e.toId in BlockIds(delta.blocks) :: LinkOf(e)
  }

  // No DESCRIBED_BY link, stored or sent, starts at a block, stored or listed.
  predicate RootsAreNoBlocks(g: Graph, delta: GraphDelta) {
    && (forall e | e in delta.edges && e.kind.DescribedBy? :: e.fromId !in g.blocks + BlockIds(delta.blocks))
    && (forall l | l in g.links && l.kind.DescribedBy? :: l.fromId !in BlockIds(delta.blocks))
  }

  // Everything the root resolver may follow is a link or a chain of the given graph.
  ghost predicate FollowsGraph(pl: ParentLinks, lookup: Lookup, blocks: set<Id>, links: set<Link>) {
    && (forall id | id in pl.described :: id in blocks && Link(pl.described[id], id, DescribedBy) in links)
    && (forall id | id in pl.summarized :: id in blocks && Link(pl.summarized[id], id, Summarizes) in links)
    && (forall id | id in pl.contexts ::
          pl.contexts[id].level >= 0 && Chain(blocks, links, id, pl.contexts[id].root, pl.contexts[id].level))
    && (forall k | k in lookup :: lookup[k].level >= 0 && Chain(blocks, links, k.0, lookup[k].root, lookup[k].level))
  }

  lemma {:induction false} RootChainIsChain(pl: ParentLinks, lookup: Lookup, blocks: set<Id>, links: set<Link>,
                                            scope: Scope, id: Id, hops: nat, root: Id, base: int)
    requires FollowsGraph(pl, lookup, blocks, links)
    requires RootChain(pl, lookup, scope, id, hops, root, base)
    ensures base >= 0 && Chain(blocks, links, id, root, hops + base)
    decreases hops
  {
    if id !in pl.described && id in pl.summarized {
      var parent := pl.summarized[id];
      if parent !in pl.contexts {
        RootChainIsChain(pl, lookup, blocks, links, scope, parent, hops - 1, root, base);
      }
      assert Chain(blocks, links, parent, root, hops + base - 1);
    }
  }

  lemma ResolverFollowsGraph(g: Graph, delta: GraphDelta, lookup: Lookup)
    requires ReportsStored(g, lookup) && ContextsFound(BlockIds(delta.blocks), delta.edges, lookup)
    ensures FollowsGraph(LinksOf(BlockIds(delta.blocks), delta.edges, lookup), lookup,
                         NewBlocks(g, delta), NewLinks(g, delta))
  {
    var ids := BlockIds(delta.blocks);
    var pl := LinksOf(ids, delta.edges, lookup);
    forall id | id in pl.described
      ensures id in NewBlocks(g, delta) && Link(pl.described[id], id, DescribedBy) in NewLinks(g, delta)
    {
      ParentMapEntry(ids, delta.edges, DescribedBy, id);
    }
    forall id | id in pl.summarized
      ensures id in NewBlocks(g, delta) && Link(pl.summarized[id], id, Summarizes) in NewLinks(g, delta)
    {
      ParentMapEntry(ids, delta.edges, Summarizes, id);
    }
    forall k | k in lookup
      ensures lookup[k].level >= 0
      ensures Chain(NewBlocks(g, delta), NewLinks(g, delta), k.0, lookup[k].root, lookup[k].level)
    {
      ChainGrows(g.blocks, g.links, NewBlocks(g, delta), NewLinks(g, delta), k.0, lookup[k].root, lookup[k].level);
    }
    var scopes := ParentScopes(ids, delta.edges);
    assert forall id | id in pl.contexts :: (id, scopes[id]) in lookup && pl.contexts[id] == lookup[(id, scopes[id])];
  }

  lemma ParentsOfUnlisted(g: Graph, delta: GraphDelta, b: Id)
    requires b !in BlockIds(delta.blocks)
    ensures Parents(NewLinks(g, delta), b) == Parents(g.links, b)
  {
  }

  lemma ParentsOfListed(g: Graph, delta: GraphDelta, b: Id)
    requires OneParentEach(g, delta) && b in BlockIds(delta.blocks)
    ensures |Parents(NewLinks(g, delta), b)| == 1
  {
    CountZero(delta.edges, ParentInto(b));
    if AddedParents(delta, b) == 0 {
      assert forall e | e in delta.edges :: !ParentInto(b).Holds(e);
      assert Parents(NewLinks(g, delta), b) == Parents(g.links, b);
    } else {
      var e := CountOne(delta.edges, ParentInto(b));
      assert Parents(g.links, b) == {};
      assert forall other | other in delta.edges && IsParentKind(other.kind) && other.toId == b ::
          ParentInto(b).Holds(other);
      assert Parents(NewLinks(g, delta), b) == {LinkOf(e)};
    }
  }

  lemma ListedBlockRooted(g: Graph, delta: GraphDelta, lookup: Lookup, block: Block, root: Id)
    requires ReportsStored(g, lookup) && ContextsFound(BlockIds(delta.blocks), delta.edges, lookup)
    requires ResolvesTo(LinksOf(BlockIds(delta.blocks), delta.edges, lookup), lookup, block, root)
    ensures exists n: nat :: Chain(NewBlocks(g, delta), NewLinks(g, delta), block.id, root, n)
  {
    var pl := LinksOf(BlockIds(delta.blocks), delta.edges, lookup);
    var hops: nat, base :| RootChain(pl, lookup, block.scope, block.id, hops, root, base);
    ResolverFollowsGraph(g, delta, lookup);
    RootChainIsChain(pl, lookup, NewBlocks(g, delta), NewLinks(g, delta), block.scope, block.id, hops, root, base);
  }

  lemma AttachedForest(g: Graph, delta: GraphDelta, lookup: Lookup)
    requires Ready(g, delta, lookup)
    ensures Anchored(NewBlocks(g, delta), NewLinks(g, delta))
    ensures Forest(g.blocks, g.links) && RootsAreNoBlocks(g, delta) ==> Forest(NewBlocks(g, delta), NewLinks(g, delta))
  {
    var blocks, links := NewBlocks(g, delta), NewLinks(g, delta);
    forall b | b in blocks
      ensures |Parents(links, b)| == 1 && Rooted(blocks, links, b)
    {
      if b in BlockIds(delta.blocks) {
        ParentsOfListed(g, delta, b);
        var block :| block in delta.blocks && block.id == b;
        var root :| ResolvesTo(LinksOf(BlockIds(delta.blocks), delta.edges, lookup), lookup, block, root);
        ListedBlockRooted(g, delta, lookup, block, root);
      } else {
        ParentsOfUnlisted(g, delta, b);
        var root, n: nat :| Chain(g.blocks, g.links, b, root, n);
        ChainGrows(g.blocks, g.links, blocks, links, b, root, n);
      }
    }
  }

  /*** The level resolver computes depths ***/

  lemma {:induction false} StoredLevelReported(blocks: seq<Block>, lookup: Lookup, id: Id)
    ensures StoredLevel(blocks, lookup, id).Some?
            <==> exists b :: b in blocks && b.id == id && (id, b.scope) in lookup
    ensures StoredLevel(blocks, lookup, id).Some?
            ==> exists b :: b in blocks && (id, b.scope) in lookup
                            && StoredLevel(blocks, lookup, id).value == lookup[(id, b.scope)].level
  {
    if blocks != [] {
      assert blocks == blocks[..|blocks| - 1] + [blocks[|blocks| - 1]];
      StoredLevelReported(blocks[..|blocks| - 1], lookup, id);
    }
  }

  // A level some chain from a root gives id.
  ghost predicate IsDepth(blocks: set<Id>, links: set<Link>, id: Id, level: int) {
    level >= 0 && exists root :: Chain(blocks, links, id, root, level)
  }

  // Every level the relaxation can give an id is a depth of that id.
  lemma {:induction false} ReachedIsDepth(blocks: set<Id>, links: set<Link>, seeds: map<Id, int>, pairs: seq<(Id, Id)>,
                                          id: Id, n: nat, level: int)
    requires forall s | s in seeds :: IsDepth(blocks, links, s, seeds[s])
    requires forall pair | pair in pairs :: pair.1 in blocks && Link(pair.0, pair.1, Summarizes) in links
    requires Reaches(seeds, pairs, id, n, level)
    ensures IsDepth(blocks, links, id, level)
    decreases n
  {
    if n > 0 {
      var p :| (p, id) in pairs && Reaches(seeds, pairs, p, n - 1, level - 1);
      ReachedIsDepth(blocks, links, seeds, pairs, p, n - 1, level - 1);
      var root :| Chain(blocks, links, p, root, level - 1);
      assert Chain(blocks, links, id, root, level);
    }
  }

  // Enough seeds and pairs for the relaxation to reach every listed block on a chain to a root.
  ghost predicate Covers(ids: set<Id>, pl: ParentLinks, seeds: map<Id, int>, pairs: seq<(Id, Id)>) {
    && (forall id | id in pl.described || id in pl.contexts :: id in seeds)
    && (forall id | id in ids && id !in pl.described && id !in pl.summarized :: id in seeds)
    && (forall id | id in pl.summarized ::
          (pl.summarized[id], id) in pairs && (pl.summarized[id] in ids || pl.summarized[id] in pl.contexts))
  }

  lemma {:induction false} ChainIsReached(ids: set<Id>, pl: ParentLinks, lookup: Lookup, seeds: map<Id, int>,
                                          pairs: seq<(Id, Id)>, scope: Scope, id: Id, hops: nat, root: Id, base: int)
    returns (n: nat, level: int)
    requires Covers(ids, pl, seeds, pairs) && id in ids
    requires RootChain(pl, lookup, scope, id, hops, root, base)
    ensures Reaches(seeds, pairs, id, n, level)
    decreases hops
  {
    if id in seeds {
      return 0, seeds[id];
    }
    var parent := pl.summarized[id];
    if parent in pl.contexts {
      n, level := 0, seeds[parent];
    } else {
      n, level := ChainIsReached(ids, pl, lookup, seeds, pairs, scope, parent, hops - 1, root, base);
    }
    assert Reaches(seeds, pairs, parent, n + 1 - 1, level + 1 - 1);
    n, level := n + 1, level + 1;
  }

  lemma SeedsAreDepths(g: Graph, delta: GraphDelta, lookup: Lookup, seeds: map<Id, int>, id: Id)
    requires ReportsStored(g, lookup) && ContextsFound(BlockIds(delta.blocks), delta.edges, lookup)
    requires AreSeeds(DescribedIds(BlockIds(delta.blocks), delta.edges),
                      ParentContexts(BlockIds(delta.blocks), delta.edges, lookup), delta.blocks, lookup, seeds)
    requires id in seeds
    ensures IsDepth(NewBlocks(g, delta), NewLinks(g, delta), id, seeds[id])
  {
    var ids := BlockIds(delta.blocks);
    if id in DescribedIds(ids, delta.edges) {
      var e :| e in delta.edges && e.kind.DescribedBy? && e.toId == id;
      assert LinkOf(e) in NewLinks(g, delta);
      assert Chain(NewBlocks(g, delta), NewLinks(g, delta), id, e.fromId, 0);
    } else if id in ParentContexts(ids, delta.edges, lookup) {
      var c := lookup[(id, ParentScopes(ids, delta.edges)[id])];
      ChainGrows(g.blocks, g.links, NewBlocks(g, delta), NewLinks(g, delta), id, c.root, c.level);
    } else {
      StoredLevelReported(delta.blocks, lookup, id);
      var b :| b in delta.blocks && (id, b.scope) in lookup && seeds[id] == lookup[(id, b.scope)].level;
      var c := lookup[(id, b.scope)];
      ChainGrows(g.blocks, g.links, NewBlocks(g, delta), NewLinks(g, delta), id, c.root, c.level);
    }
  }

  // A listed block without an added parent resolves only if the repository reports it in its own scope.
  lemma ResolverCovers(delta: GraphDelta, lookup: Lookup, seeds: map<Id, int>)
    requires RootsFound(delta.blocks, delta.edges, lookup)
    requires AreSeeds(DescribedIds(BlockIds(delta.blocks), delta.edges),
                      ParentContexts(BlockIds(delta.blocks), delta.edges, lookup), delta.blocks, lookup, seeds)
    ensures Covers(BlockIds(delta.blocks), LinksOf(BlockIds(delta.blocks), delta.edges, lookup), seeds,
                   SummaryPairs(BlockIds(delta.blocks),
                                ParentContexts(BlockIds(delta.blocks), delta.edges, lookup), delta.edges))
  {
    var ids := BlockIds(delta.blocks);
    var pl := LinksOf(ids, delta.edges, lookup);
    forall id | id in pl.described
      ensures id in seeds
    {
      ParentMapEntry(ids, delta.edges, DescribedBy, id);
    }
    forall id | id in ids && id !in pl.described && id !in pl.summarized
      ensures id in seeds
    {
      var block :| block in delta.blocks && block.id == id;
      var root :| ResolvesTo(pl, lookup, block, root);
      var hops: nat, base :| RootChain(pl, lookup, block.scope, id, hops, root, base);
      StoredLevelReported(delta.blocks, lookup, id);
    }
    forall id | id in pl.summarized
      ensures (pl.summarized[id], id) in SummaryPairs(ids, pl.contexts, delta.edges)
      ensures pl.summarized[id] in ids || pl.summarized[id] in pl.contexts
    {
      ParentMapEntry(ids, delta.edges, Summarizes, id);
      ParentScopesKeys(ids, delta.edges, pl.summarized[id]);
      InSummaryPairs(ids, pl.contexts, delta.edges, pl.summarized[id], id);
    }
  }

  lemma LevelReached(ids: set<Id>, pl: ParentLinks, lookup: Lookup, seeds: map<Id, int>, pairs: seq<(Id, Id)>,
                     all: map<Id, int>, blocks: seq<Block>, roots: map<Id, Id>, id: Id)
    requires Covers(ids, pl, seeds, pairs) && LeastLevels(seeds, pairs, all)
    requires AreBlockRoots(blocks, pl, lookup, roots) && id in ids && id in roots
    ensures id in all
  {
    var block :| block in blocks && block.id == id && ResolvesTo(pl, lookup, block, roots[id]);
    var hops: nat, base :| RootChain(pl, lookup, block.scope, id, hops, roots[id], base);
    var n, level := ChainIsReached(ids, pl, lookup, seeds, pairs, block.scope, id, hops, roots[id], base);
  }

  // The defaults for a missing level or root are never used.
  lemma DefaultsUnused(delta: GraphDelta, lookup: Lookup, levels: map<Id, int>, roots: map<Id, Id>)
    requires RootsFound(delta.blocks, delta.edges, lookup)
    requires AreBlockLevels(delta.blocks, delta.edges, lookup, levels)
    requires AreBlockRoots(delta.blocks, LinksOf(BlockIds(delta.blocks), delta.edges, lookup), lookup, roots)
    ensures levels.Keys == roots.Keys == BlockIds(delta.blocks)
  {
    var ids := BlockIds(delta.blocks);
    var pl := LinksOf(ids, delta.edges, lookup);
    var pairs := SummaryPairs(ids, pl.contexts, delta.edges);
    var seeds, all: map<Id, int> :|
      && AreSeeds(DescribedIds(ids, delta.edges), pl.contexts, delta.blocks, lookup, seeds)
      && LeastLevels(seeds, pairs, all)
      && levels == map id | id in all && id in ids :: all[id];
    EveryLevelReached(delta, lookup, seeds, all, roots);
  }

  lemma EveryLevelReached(delta: GraphDelta, lookup: Lookup, seeds: map<Id, int>, all: map<Id, int>, roots: map<Id, Id>)
    requires RootsFound(delta.blocks, delta.edges, lookup)
    requires AreSeeds(DescribedIds(BlockIds(delta.blocks), delta.edges),
                      ParentContexts(BlockIds(delta.blocks), delta.edges, lookup), delta.blocks, lookup, seeds)
    requires LeastLevels(seeds,
                         SummaryPairs(BlockIds(delta.blocks),
                                      ParentContexts(BlockIds(delta.blocks), delta.edges, lookup), delta.edges),
                         all)
    requires AreBlockRoots(delta.blocks, LinksOf(BlockIds(delta.blocks), delta.edges, lookup), lookup, roots)
    ensures BlockIds(delta.blocks) <= all.Keys
  {
    var ids := BlockIds(delta.blocks);
    var pl := LinksOf(ids, delta.edges, lookup);
    ResolverCovers(delta, lookup, seeds);
    AllReached(ids, pl, lookup, seeds, SummaryPairs(ids, pl.contexts, delta.edges), all, delta.blocks, roots);
  }

  lemma AllReached(ids: set<Id>, pl: ParentLinks, lookup: Lookup, seeds: map<Id, int>, pairs: seq<(Id, Id)>,
                   all: map<Id, int>, blocks: seq<Block>, roots: map<Id, Id>)
    requires Covers(ids, pl, seeds, pairs) && LeastLevels(seeds, pairs, all)
    requires AreBlockRoots(blocks, pl, lookup, roots) && ids <= roots.Keys
    ensures ids <= all.Keys
  {
    forall id | id in ids
      ensures id in all
    {
      LevelReached(ids, pl, lookup, seeds, pairs, all, blocks, roots, id);
    }
  }

  // Both resolvers agree with the new forest on every listed block.
  lemma ResolvedBlocksMatch(g: Graph, delta: GraphDelta, lookup: Lookup, levels: map<Id, int>, roots: map<Id, Id>)
    requires Ready(g, delta, lookup)
    requires AreBlockLevels(delta.blocks, delta.edges, lookup, levels)
    requires AreBlockRoots(delta.blocks, LinksOf(BlockIds(delta.blocks), delta.edges, lookup), lookup, roots)
    ensures levels.Keys == roots.Keys == BlockIds(delta.blocks)
    ensures forall id | id in BlockIds(delta.blocks) ::
              levels[id] >= 0 && Chain(NewBlocks(g, delta), NewLinks(g, delta), id, roots[id], levels[id])
  {
    var ids, blocks, links := BlockIds(delta.blocks), NewBlocks(g, delta), NewLinks(g, delta);
    var pl := LinksOf(ids, delta.edges, lookup);
    var pairs := SummaryPairs(ids, pl.contexts, delta.edges);
    var seeds, all: map<Id, int> :|
      && AreSeeds(DescribedIds(ids, delta.edges), pl.contexts, delta.blocks, lookup, seeds)
      && LeastLevels(seeds, pairs, all)
      && levels == map id | id in all && id in ids :: all[id];
    DefaultsUnused(delta, lookup, levels, roots);
    forall id | id in ids
      ensures levels[id] >= 0 && Chain(blocks, links, id, roots[id], levels[id])
    {
      LevelIsDepth(g, delta, lookup, seeds, pairs, all, id);
      var block :| block in delta.blocks && block.id == id && ResolvesTo(pl, lookup, block, roots[id]);
      RootAtDepth(g, delta, lookup, block, roots[id], all[id]);
    }
  }

  lemma RootAtDepth(g: Graph, delta: GraphDelta, lookup: Lookup, block: Block, root: Id, level: int)
    requires Ready(g, delta, lookup)
    requires ResolvesTo(LinksOf(BlockIds(delta.blocks), delta.edges, lookup), lookup, block, root)
    requires IsDepth(NewBlocks(g, delta), NewLinks(g, delta), block.id, level)
    ensures Chain(NewBlocks(g, delta), NewLinks(g, delta), block.id, root, level)
  {
    AttachedForest(g, delta, lookup);
    ListedBlockRooted(g, delta, lookup, block, root);
    var n: nat :| Chain(NewBlocks(g, delta), NewLinks(g, delta), block.id, root, n);
    var root' :| Chain(NewBlocks(g, delta), NewLinks(g, delta), block.id, root', level);
    ChainUnique(NewBlocks(g, delta), NewLinks(g, delta), block.id, root, n, root', level);
  }

  lemma RootChainMatches(g: Graph, delta: GraphDelta, lookup: Lookup, block: Block, hops: nat, root: Id, base: int,
                         root': Id, level: nat)
    requires Ready(g, delta, lookup)
    requires RootChain(LinksOf(BlockIds(delta.blocks), delta.edges, lookup), lookup, block.scope, block.id,
                       hops, root, base)
    requires Chain(NewBlocks(g, delta), NewLinks(g, delta), block.id, root', level)
    ensures root' == root && level == hops + base
  {
    AttachedForest(g, delta, lookup);
    ResolverFollowsGraph(g, delta, lookup);
    FollowedChainIsOnly(LinksOf(BlockIds(delta.blocks), delta.edges, lookup), lookup, NewBlocks(g, delta),
                        NewLinks(g, delta), block.scope, block.id, hops, root, base, root', level);
  }

  lemma FollowedChainIsOnly(pl: ParentLinks, lookup: Lookup, blocks: set<Id>, links: set<Link>, scope: Scope, id: Id,
                            hops: nat, root: Id, base: int, root': Id, level: nat)
    requires Anchored(blocks, links) && FollowsGraph(pl, lookup, blocks, links)
    requires RootChain(pl, lookup, scope, id, hops, root, base) && Chain(blocks, links, id, root', level)
    ensures root' == root && level == hops + base
  {
    RootChainIsChain(pl, lookup, blocks, links, scope, id, hops, root, base);
    ChainUnique(blocks, links, id, root', level, root, hops + base);
  }

  lemma LevelIsDepth(g: Graph, delta: GraphDelta, lookup: Lookup, seeds: map<Id, int>, pairs: seq<(Id, Id)>,
                     all: map<Id, int>, id: Id)
    requires ReportsStored(g, lookup) && ContextsFound(BlockIds(delta.blocks), delta.edges, lookup)
    requires AreSeeds(DescribedIds(BlockIds(delta.blocks), delta.edges),
                      ParentContexts(BlockIds(delta.blocks), delta.edges, lookup), delta.blocks, lookup, seeds)
    requires pairs == SummaryPairs(BlockIds(delta.blocks),
                                   ParentContexts(BlockIds(delta.blocks), delta.edges, lookup), delta.edges)
    requires LeastLevels(seeds, pairs, all) && id in all
    ensures IsDepth(NewBlocks(g, delta), NewLinks(g, delta), id, all[id])
  {
    var ids := BlockIds(delta.blocks);
    forall s | s in seeds
      ensures IsDepth(NewBlocks(g, delta), NewLinks(g, delta), s, seeds[s])
    {
      SeedsAreDepths(g, delta, lookup, seeds, s);
    }
    forall pair | pair in pairs
      ensures pair.1 in NewBlocks(g, delta) && Link(pair.0, pair.1, Summarizes) in NewLinks(g, delta)
    {
      InSummaryPairs(ids, ParentContexts(ids, delta.edges, lookup), delta.edges, pair.0, pair.1);
    }
    var n: nat :| Reaches(seeds, pairs, id, n, all[id]);
    ReachedIsDepth(NewBlocks(g, delta), NewLinks(g, delta), seeds, pairs, id, n, all[id]);
  }

  // Along the chain its root was resolved on, a block's level counts the SUMMARIZES hops and adds
  // the level known at the end of the chain.
  lemma LevelCountsHops(g: Graph, delta: GraphDelta, lookup: Lookup, levels: map<Id, int>, roots: map<Id, Id>,
                        block: Block, hops: nat, root: Id, base: int)
    requires Ready(g, delta, lookup)
    requires AreBlockLevels(delta.blocks, delta.edges, lookup, levels)
    requires AreBlockRoots(delta.blocks, LinksOf(BlockIds(delta.blocks), delta.edges, lookup), lookup, roots)
    requires block in delta.blocks
    requires RootChain(LinksOf(BlockIds(delta.blocks), delta.edges, lookup), lookup, block.scope, block.id,
                       hops, root, base)
    ensures block.id in levels && levels[block.id] == hops + base
    ensures block.id in roots && roots[block.id] == root
  {
    assert block.id in BlockIds(delta.blocks);
    ResolvedBlocksMatch(g, delta, lookup, levels, roots);
    RootChainMatches(g, delta, lookup, block, hops, root, base, roots[block.id], levels[block.id]);
  }

  /*** Writing the delta ***/

  ghost function PartOfLinks(g: Graph, delta: GraphDelta): set<Link> {
    set n | n in delta.entities && n.TargetUniverse() in g.universes + UniverseIds(delta) ::
      Link(n.id, n.TargetUniverse(), IsPartOf)
  }

  ghost function Written(g: Graph, schema: Schema, delta: GraphDelta, levels: map<Id, int>, roots: map<Id, Id>): Graph {
    Graph(MergeAll(g.nodes, Records(schema.rows, delta)),
          g.universes + UniverseIds(delta), g.entities + EntityIds(delta), g.blocks + BlockIds(delta.blocks),
          g.links + (set e | e in delta.edges :: LinkOf(e)) + PartOfLinks(g, delta),
          g.levels + levels, g.roots + roots)
  }

  predicate IsUniverse(g: Graph, delta: GraphDelta, id: Id) {
    id in g.universes || exists u :: u in delta.universes && u.id == id
  }

  predicate IsSent(delta: GraphDelta, l: Link) {
    exists e :: e in delta.edges && e.fromId == l.fromId && e.toId == l.toId && e.kind == l.kind
  }

  // A listed entity is linked to the universe it names, or to the common one if it names none.
  predicate IsImplied(g: Graph, delta: GraphDelta, l: Link) {
    && l.kind.IsPartOf? && IsUniverse(g, delta, l.toId)
    && exists n :: n in delta.entities && n.id == l.fromId
                   && l.toId == (if n.universeId.Some? then n.universeId.value else COMMON_UNIVERSE_ID)
  }

  // g' holds what g held and all that delta sends, and nothing else.
  ghost predicate Holds(g: Graph, delta: GraphDelta, g': Graph) {
    && (forall id :: id in g'.universes <==> IsUniverse(g, delta, id))
    && (forall id :: id in g'.entities <==> id in g.entities || exists n :: n in delta.entities && n.id == id)
    && (forall id :: id in g'.blocks <==> id in g.blocks || exists b :: b in delta.blocks && b.id == id)
    && (forall l :: l in g'.links <==> l in g.links || IsSent(delta, l) || IsImplied(g, delta, l))
  }

  predicate IsListed(delta: GraphDelta, id: Id) {
    exists b :: b in delta.blocks && b.id == id
  }

  // Listed blocks get these levels and roots, and all others keep theirs.
  ghost predicate Relabels(g: Graph, delta: GraphDelta, levels: map<Id, int>, roots: map<Id, Id>, g': Graph) {
    forall id ::
      if IsListed(delta, id) then
        && id in levels && id in g'.levels && g'.levels[id] == levels[id]
        && id in roots && id in g'.roots && g'.roots[id] == roots[id]
      else
        && (id in g'.levels <==> id in g.levels) && (id in g.levels ==> g'.levels[id] == g.levels[id])
        && (id in g'.roots <==> id in g.roots) && (id in g.roots ==> g'.roots[id] == g.roots[id])
  }

  // Stored nodes stay as they are, each listed record has a node with its id and all labels of its type, and
  // any new node is a listed record.
  ghost predicate KeepsNodes(g: Graph, schema: Schema, delta: GraphDelta, g': Graph) {
    && g.nodes <= g'.nodes
    && (forall u | u in delta.universes :: HasNode(g'.nodes, u.id, {"Universe"}))
    && (forall n | n in delta.entities :: HasNode(g'.nodes, n.id, LabelSet(schema.rows, n.typeId)))
    && (forall b | b in delta.blocks :: HasNode(g'.nodes, b.id, LabelSet(schema.rows, b.typeId)))
    && (forall n | n in g'.nodes && n !in g.nodes :: IsRecord(schema, delta, n))
  }

  ghost predicate IsRecord(schema: Schema, delta: GraphDelta, n: Node) {
    || (exists u :: u in delta.universes && n == Node(u.id, {"Universe"}))
    || (exists e :: e in delta.entities && n == Node(e.id, LabelSet(schema.rows, e.typeId)))
    || (exists b :: b in delta.blocks && n == Node(b.id, LabelSet(schema.rows, b.typeId)))
  }

  predicate HasNode(nodes: set<Node>, id: Id, labels: set<string>) {
    exists n :: n in nodes && n.id == id && labels <= n.labels
  }

  lemma WrittenHolds(g: Graph, schema: Schema, delta: GraphDelta, levels: map<Id, int>, roots: map<Id, Id>)
    ensures Holds(g, delta, Written(g, schema, delta, levels, roots))
  {
    var w := Written(g, schema, delta, levels, roots);
    forall l
      ensures l in w.links <==> l in g.links || IsSent(delta, l) || IsImplied(g, delta, l)
    {
      if IsSent(delta, l) {
        var e :| e in delta.edges && e.fromId == l.fromId && e.toId == l.toId && e.kind == l.kind;
        assert LinkOf(e) == l;
      }
      if IsImplied(g, delta, l) {
        assert l == Link(l.fromId, l.toId, IsPartOf) && l in PartOfLinks(g, delta);
      }
    }
  }

  lemma WrittenRelabels(g: Graph, schema: Schema, delta: GraphDelta, levels: map<Id, int>, roots: map<Id, Id>)
    requires levels.Keys == roots.Keys == BlockIds(delta.blocks)
    ensures Relabels(g, delta, levels, roots, Written(g, schema, delta, levels, roots))
  {
  }

  lemma WrittenKeepsNodes(g: Graph, schema: Schema, delta: GraphDelta, levels: map<Id, int>, roots: map<Id, Id>)
    ensures KeepsNodes(g, schema, delta, Written(g, schema, delta, levels, roots))
  {
    var us, es := UniverseRecords(delta.universes), EntityRecords(schema.rows, delta.entities);
    var bs := BlockRecords(schema.rows, delta.blocks);
    var records := Records(schema.rows, delta);
    forall n
      ensures n in g.nodes ==> n in MergeAll(g.nodes, records)
      ensures n in us || n in es || n in bs ==> HasNode(MergeAll(g.nodes, records), n.id, n.labels)
      ensures n in MergeAll(g.nodes, records) && n !in g.nodes ==> n in us || n in es || n in bs
    {
      MergedNodes(g.nodes, records, n);
    }
    forall u | u in delta.universes
      ensures Node(u.id, {"Universe"}) in us
    {
      var i :| 0 <= i < |delta.universes| && delta.universes[i] == u;
      assert us[i] == Node(u.id, {"Universe"});
    }
    forall n | n in delta.entities
      ensures Node(n.id, LabelSet(schema.rows, n.typeId)) in es
    {
      var i :| 0 <= i < |delta.entities| && delta.entities[i] == n;
      assert es[i] == Node(n.id, LabelSet(schema.rows, n.typeId));
    }
    forall b | b in delta.blocks
      ensures Node(b.id, LabelSet(schema.rows, b.typeId)) in bs
    {
      var i :| 0 <= i < |delta.blocks| && delta.blocks[i] == b;
      assert bs[i] == Node(b.id, LabelSet(schema.rows, b.typeId));
    }
  }

  predicate EndpointsExist(g: Graph, delta: GraphDelta) {
    var nodes := g.universes + UniverseIds(delta) + g.entities + EntityIds(delta) + g.blocks + BlockIds(delta.blocks);
    forall e | e in delta.edges :: e.fromId in nodes && e.toId in nodes
  }

  // Every parent link the delta adds leads to a block the delta lists, unless it is stored already.
  predicate ListsNewChildren(g: Graph, delta: GraphDelta) {
    forall e | e in delta.edges && IsParentKind(e.kind) :: e.toId in BlockIds(delta.blocks) || LinkOf(e) in g.links
  }

  // delta passes every check against the schema and against g, both resolvers succeed with these results, and
  // every edge finds its ends.
  ghost predicate Accepted(g: Graph, schema: Schema, valid: set<Id>, delta: GraphDelta, lookup: Lookup,
                           levels: map<Id, int>, roots: map<Id, Id>)
  {
    && SchemaAccepts(schema, valid, delta)
    && Admitted(g, delta)
    && ReportsStored(g, lookup)
    && RootsFound(delta.blocks, delta.edges, lookup)
    && AreBlockLevels(delta.blocks, delta.edges, lookup, levels)
    && AreBlockRoots(delta.blocks, LinksOf(BlockIds(delta.blocks), delta.edges, lookup), lookup, roots)
    && EndpointsExist(g, delta)
  }

  // What the forest needs of an accepted delta besides the checks it passed.
  ghost predicate Resolved(g: Graph, delta: GraphDelta, lookup: Lookup, levels: map<Id, int>, roots: map<Id, Id>) {
    && Ready(g, delta, lookup)
    && AreBlockLevels(delta.blocks, delta.edges, lookup, levels)
    && AreBlockRoots(delta.blocks, LinksOf(BlockIds(delta.blocks), delta.edges, lookup), lookup, roots)
    && EndpointsExist(g, delta)
  }

  lemma AdmittedParents(g: Graph, delta: GraphDelta)
    requires Admitted(g, delta)
    ensures OneParentEach(g, delta)
  {
    forall id | id in BlockIds(delta.blocks)
      ensures StoredParents(g, id) + AddedParents(delta, id) == 1
    {
      assert !Violates(g, delta, BlockParentCount(id));
    }
  }

  lemma AcceptedIsResolved(g: Graph, schema: Schema, valid: set<Id>, delta: GraphDelta, lookup: Lookup,
                           levels: map<Id, int>, roots: map<Id, Id>)
    requires Anchored(g.blocks, g.links) && Accepted(g, schema, valid, delta, lookup, levels, roots)
    ensures Resolved(g, delta, lookup, levels, roots)
  {
    AdmittedParents(g, delta);
  }

  lemma WrittenParents(g: Graph, schema: Schema, delta: GraphDelta, levels: map<Id, int>, roots: map<Id, Id>)
    requires ListsNewChildren(g, delta)
    ensures forall b :: Parents(Written(g, schema, delta, levels, roots).links, b) == Parents(NewLinks(g, delta), b)
    ensures forall l: Link | IsParentKind(l.kind) ::
              l in Written(g, schema, delta, levels, roots).links <==> l in NewLinks(g, delta)
  {
  }

  lemma WrittenStaysAnchored(g: Graph, schema: Schema, delta: GraphDelta, lookup: Lookup, levels: map<Id, int>,
                             roots: map<Id, Id>)
    requires WellFormed(g) && Resolved(g, delta, lookup, levels, roots) && ListsNewChildren(g, delta)
    ensures var w := Written(g, schema, delta, levels, roots); Anchored(w.blocks, w.links) && Labelled(w)
  {
    var w, blocks, links := Written(g, schema, delta, levels, roots), NewBlocks(g, delta), NewLinks(g, delta);
    AttachedForest(g, delta, lookup);
    ResolvedBlocksMatch(g, delta, lookup, levels, roots);
    WrittenParents(g, schema, delta, levels, roots);
    forall b | b in w.blocks
      ensures w.levels[b] >= 0 && Chain(w.blocks, w.links, b, w.roots[b], w.levels[b])
    {
      if b in BlockIds(delta.blocks) {
        ChainGrows(blocks, links, w.blocks, w.links, b, roots[b], levels[b]);
      } else {
        ChainGrows(g.blocks, g.links, w.blocks, w.links, b, g.roots[b], g.levels[b]);
      }
    }
    assert forall b | b in w.blocks :: |Parents(w.links, b)| == 1 && Rooted(w.blocks, w.links, b);
  }

  // The roots of the written graph are no blocks exactly when the condition on the delta says so.
  lemma WrittenRoots(g: Graph, schema: Schema, delta: GraphDelta, levels: map<Id, int>, roots: map<Id, Id>)
    requires RootsApart(g.blocks, g.links) && RootsOwned(g) && EndpointsExist(g, delta)
    ensures var w := Written(g, schema, delta, levels, roots);
            && (RootsApart(w.blocks, w.links) <==> RootsAreNoBlocks(g, delta))
            && (RootsApart(w.blocks, w.links) ==> RootsOwned(w))
  {
    var w := Written(g, schema, delta, levels, roots);
    forall e | e in delta.edges
      ensures LinkOf(e) in w.links
    {
    }
  }

  lemma UnlistedChildBreaksForest(g: Graph, schema: Schema, delta: GraphDelta, levels: map<Id, int>, roots: map<Id, Id>)
    requires WellFormed(g) && !ListsNewChildren(g, delta)
    ensures !WellFormed(Written(g, schema, delta, levels, roots))
  {
    var w := Written(g, schema, delta, levels, roots);
    var e :| e in delta.edges && IsParentKind(e.kind) && e.toId !in BlockIds(delta.blocks) && LinkOf(e) !in g.links;
    assert LinkOf(e) in w.links;
    if WellFormed(w) {
      assert |Parents(g.links, e.toId)| == 1;
      var l :| l in Parents(g.links, e.toId);
      OneParent(w.blocks, w.links, l, LinkOf(e));
    }
  }

  lemma WrittenIdentified(g: Graph, schema: Schema, delta: GraphDelta, levels: map<Id, int>, roots: map<Id, Id>)
    requires Identified(g)
    ensures Identified(Written(g, schema, delta, levels, roots)) <==> FindsNodes(g.nodes, Records(schema.rows, delta))
  {
    var records := Records(schema.rows, delta);
    OneNodeKept(g.nodes, records);
    MergedIds(g.nodes, records);
    RecordIds(schema.rows, delta);
    UnionsRegrouped(g.universes, g.entities, g.blocks, UniverseIds(delta), EntityIds(delta), BlockIds(delta.blocks));
  }

  lemma UnionsRegrouped(a: set<Id>, b: set<Id>, c: set<Id>, a': set<Id>, b': set<Id>, c': set<Id>)
    ensures (a + b + c) + (a' + b' + c') == (a + a') + (b + b') + (c + c')
  {
  }

  // What an accepted delta must meet: it lists every block it gives a parent, no root is a block, and no record
  // creates a second node under an id.
  ghost predicate KeepsForest(g: Graph, schema: Schema, delta: GraphDelta) {
    ListsNewChildren(g, delta) && RootsAreNoBlocks(g, delta) && FindsNodes(g.nodes, Records(schema.rows, delta))
  }

  // The main safety step: an accepted delta keeps the forest and its labels exactly under this condition.
  lemma UpsertKeepsForest(g: Graph, schema: Schema, valid: set<Id>, delta: GraphDelta, lookup: Lookup,
                          levels: map<Id, int>, roots: map<Id, Id>)
    requires WellFormed(g) && Accepted(g, schema, valid, delta, lookup, levels, roots)
    ensures WellFormed(Written(g, schema, delta, levels, roots)) <==> KeepsForest(g, schema, delta)
  {
    AcceptedIsResolved(g, schema, valid, delta, lookup, levels, roots);
    WrittenRoots(g, schema, delta, levels, roots);
    WrittenIdentified(g, schema, delta, levels, roots);
    if ListsNewChildren(g, delta) {
      WrittenStaysAnchored(g, schema, delta, lookup, levels, roots);
    } else {
      UnlistedChildBreaksForest(g, schema, delta, levels, roots);
    }
  }

  /*** Runs ***/

  ghost predicate Step(g: Graph, g': Graph) {
    g' == g || exists schema, valid, delta, lookup, levels, roots ::
      StepBy(g, g', schema, valid, delta, lookup, levels, roots)
  }

  ghost predicate StepBy(g: Graph, g': Graph, schema: Schema, valid: set<Id>, delta: GraphDelta, lookup: Lookup,
                         levels: map<Id, int>, roots: map<Id, Id>)
  {
    && Accepted(g, schema, valid, delta, lookup, levels, roots)
    && KeepsForest(g, schema, delta)
    && g' == Written(g, schema, delta, levels, roots)
  }

  lemma StepKeepsForest(g: Graph, g': Graph)
    requires WellFormed(g) && Step(g, g')
    ensures WellFormed(g')
  {
    if g' != g {
      var schema, valid, delta, lookup, levels, roots :| StepBy(g, g', schema, valid, delta, lookup, levels, roots);
      UpsertKeepsForest(g, schema, valid, delta, lookup, levels, roots);
    }
  }

  lemma {:induction false} RunsKeepForest(run: seq<Graph>, i: nat)
    requires i < |run| && WellFormed(run[0])
    requires forall k | 0 <= k < |run| - 1 :: Step(run[k], run[k + 1])
    ensures WellFormed(run[i])
    ensures forall x, k: nat | k > 0 :: !ParentPath(run[i].links, x, x, k)
  {
    if i > 0 {
      RunsKeepForest(run, i - 1);
      assert Step(run[i - 1], run[i - 1 + 1]);
      StepKeepsForest(run[i - 1], run[i]);
    }
    forall x, k: nat | k > 0
      ensures !ParentPath(run[i].links, x, x, k)
    {
      NoParentCycle(run[i], x, k);
    }
  }

  /*** The operation ***/

  datatype UpsertError =
    | Rejected(schemaErrors: seq<SchemaError>, violations: seq<Violation>)
    | Unresolved(cause: ResolveError)
    | WriteFailed

  class GraphStore {
    var graph: Graph

    // Writes the nodes, the links, and for each block its level and root, with defaults where one is missing.
    method ApplyDelta(schema: Schema, delta: GraphDelta, foundLevels: map<Id, int>, foundRoots: map<Id, Id>)
      requires Acyclic(FirstParents(schema.rows))
      modifies this
      ensures foundLevels.Keys == foundRoots.Keys == BlockIds(delta.blocks) ==>
                graph == Written(old(graph), schema, delta, foundLevels, foundRoots)
    {
      var ids := BlockIds(delta.blocks);
      var levels := map id | id in ids :: if id in foundLevels then foundLevels[id] else 0;
      var roots := map id | id in ids :: if id in foundRoots then foundRoots[id] else "";
      assert foundLevels.Keys == ids ==> levels == foundLevels;
      assert foundRoots.Keys == ids ==> roots == foundRoots;
      var universes := graph.universes + UniverseIds(delta);
      var partOf := set n | n in delta.entities && n.TargetUniverse() in universes ::
        Link(n.id, n.TargetUniverse(), IsPartOf);
      assert partOf == PartOfLinks(graph, delta);
      var nodes := WriteNodes(graph.nodes, schema.rows, delta);
      graph := Graph(nodes, universes, graph.entities + EntityIds(delta), graph.blocks + ids,
                     graph.links + (set e | e in delta.edges :: LinkOf(e)) + partOf,
                     graph.levels + levels, graph.roots + roots);
    }

    // The ids in valid are those that are well-formed, propertiesValid stands for the property checks of the
    // payload, commits for the outcome of the write transaction.
    method UpsertGraphDelta(schema: Schema, valid: set<Id>, propertiesValid: bool, delta: GraphDelta, lookup: Lookup,
                            commits: bool)
      returns (r: Result<(), UpsertError>)
      requires ReportsStored(graph, lookup) && Acyclic(FirstParents(schema.rows))
      modifies this
      ensures r.Err? ==> graph == old(graph)
      ensures r.Ok? <==> && SchemaAccepts(schema, valid, delta) && propertiesValid && Admitted(old(graph), delta)
                         && RootsFound(delta.blocks, delta.edges, lookup)
                         && EndpointsExist(old(graph), delta) && commits
      ensures r.Err? && r.error.Rejected? ==>
                && (forall e :: e in r.error.schemaErrors <==> Rejects(schema, valid, delta, e))
                && (forall v :: v in r.error.violations <==> Violates(old(graph), delta, v))
      ensures r.Ok? ==> exists levels, roots ::
                          && Accepted(old(graph), schema, valid, delta, lookup, levels, roots)
                          && graph == Written(old(graph), schema, delta, levels, roots)
                          && Relabels(old(graph), delta, levels, roots, graph)
      ensures r.Ok? ==> Holds(old(graph), delta, graph) && KeepsNodes(old(graph), schema, delta, graph)
      ensures r.Ok? && WellFormed(old(graph)) ==>
                (WellFormed(graph) <==> KeepsForest(old(graph), schema, delta))
    {
      var schemaErrors := ValidateDeltaAgainstSchema(schema, valid, delta);
      var violations := EnforceGraphStateRules(graph, delta);
      if schemaErrors != [] || violations != [] || !propertiesValid {
        if schemaErrors != [] {
          assert schemaErrors[0] in schemaErrors;
        } else if violations != [] {
          assert violations[0] in violations;
        }
        return Err(Rejected(schemaErrors, violations));
      }
      assert SchemaAccepts(schema, valid, delta) by {
        forall e
          ensures !Rejects(schema, valid, delta, e)
        {
          assert e !in schemaErrors;
        }
      }
      assert Admitted(graph, delta) by {
        forall v
          ensures !Violates(graph, delta, v)
        {
          assert v !in violations;
        }
      }
      var foundLevels := BlockLevelsForBlocks(delta.blocks, delta.edges, lookup);
      if foundLevels.Err? {
        return Err(Unresolved(foundLevels.error));
      }
      var foundRoots := RootEntityIdsForBlocks(delta.blocks, delta.edges, lookup);
      if foundRoots.Err? {
        return Err(Unresolved(foundRoots.error));
      }
      if !EndpointsExist(graph, delta) || !commits {
        return Err(WriteFailed);
      }
      ghost var before := graph;
      DefaultsUnused(delta, lookup, foundLevels.value, foundRoots.value);
      ApplyDelta(schema, delta, foundLevels.value, foundRoots.value);
      assert Accepted(before, schema, valid, delta, lookup, foundLevels.value, foundRoots.value);
      WrittenHolds(before, schema, delta, foundLevels.value, foundRoots.value);
      WrittenRelabels(before, schema, delta, foundLevels.value, foundRoots.value);
      WrittenKeepsNodes(before, schema, delta, foundLevels.value, foundRoots.value);
      if WellFormed(before) {
        UpsertKeepsForest(before, schema, valid, delta, lookup, foundLevels.value, foundRoots.value);
      }
      return Ok(());
    }
  }
}
