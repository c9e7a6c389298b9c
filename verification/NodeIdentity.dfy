/** Which nodes a delta writes: a node is found again by its id and all labels of its type, else a second one is
    created under the same id. */
module NodeIdentity {
  import opened Wrappers
  import opened GraphResolution
  import opened GraphRules
  import opened TypeHierarchy

  const UNIVERSE_LABELS: set<string> := {"Universe"}

  /*** The labels of a type ***/

  function FirstParents(rows: seq<TypeInheritance>): (parents: map<TypeId, TypeId>)
    ensures AreFirstParents(rows, parents)
  {
    if rows == [] then map[] else FirstParents(rows[1..])[rows[0].child := rows[0].parent]
  }

  ghost predicate OnChain(parents: map<TypeId, TypeId>, t: TypeId, x: TypeId) {
    exists walk :: Walk(parents, t, walk) && walk[|walk| - 1] == x
  }

  ghost function LabelSet(rows: seq<TypeInheritance>, t: TypeId): set<string> {
    var parents := FirstParents(rows);
    set x | x in {t} + parents.Values && OnChain(parents, t, x) :: Label(x)
  }

  lemma ChainMembers(parents: map<TypeId, TypeId>, t: TypeId, chain: seq<TypeId>, x: TypeId)
    requires Climbs(parents, t, chain)
    ensures OnChain(parents, t, x) <==> x in chain
    ensures x in chain ==> x in {t} + parents.Values
  {
    if walk :| Walk(parents, t, walk) && walk[|walk| - 1] == x {
      WalkIsPrefix(parents, t, walk, chain);
      assert x == chain[|walk| - 1];
    }
    if i :| 0 <= i < |chain| && chain[i] == x {
      assert Walk(parents, t, chain[..i + 1]) && chain[..i + 1][|chain[..i + 1]| - 1] == x;
      assert i > 0 ==> chain[i - 1] in parents && parents[chain[i - 1]] == x;
    }
  }

  lemma LabelSetOfChain(rows: seq<TypeInheritance>, t: TypeId, chain: seq<TypeId>)
    requires Climbs(FirstParents(rows), t, chain)
    ensures LabelSet(rows, t) == set x | x in chain :: Label(x)
  {
    forall x
      ensures x in {t} + FirstParents(rows).Values && OnChain(FirstParents(rows), t, x) <==> x in chain
    {
      ChainMembers(FirstParents(rows), t, chain, x);
    }
  }

  // On a tree a type has all the labels of the types above it, and no others unless two types share a label.
  lemma LabelsFollowTypes(rows: seq<TypeInheritance>, parents: map<TypeId, TypeId>, below: TypeId, above: TypeId)
    requires Lists(rows, parents) && Acyclic(parents)
    ensures Descends(rows, below, above) ==> LabelSet(rows, above) <= LabelSet(rows, below)
    ensures LabelSet(rows, above) <= LabelSet(rows, below) && !Descends(rows, below, above) ==>
              exists x :: Descends(rows, below, x) && x != above && Label(x) == Label(above)
  {
    ListedMaps(rows, parents, parents, true);
    SameFirstParents(rows, parents, FirstParents(rows));
    assert Ends(parents, below) && Ends(parents, above);
    var low, high :| Climbs(parents, below, low) && Climbs(parents, above, high);
    WalkersAgree(rows, parents, below, low);
    LabelSetOfChain(rows, below, low);
    LabelSetOfChain(rows, above, high);
    if Descends(rows, below, above) {
      var i :| 0 <= i < |low| && low[i] == above;
      TailClimbs(parents, below, low, i);
      WalkIsPrefix(parents, above, high, low[i..]);
      assert forall x | x in high :: x in low;
    } else if LabelSet(rows, above) <= LabelSet(rows, below) {
      assert above in high && Label(above) in LabelSet(rows, above);
    }
  }

  lemma SameFirstParents(rows: seq<TypeInheritance>, parents: map<TypeId, TypeId>, others: map<TypeId, TypeId>)
    requires AreFirstParents(rows, parents) && AreFirstParents(rows, others)
    ensures parents == others
  {
    forall c
      ensures c in parents <==> c in others
      ensures c in parents ==> parents[c] == others[c]
    {
      assert FirstParent(rows, c) == if c in parents then Some(parents[c]) else None;
      assert FirstParent(rows, c) == if c in others then Some(others[c]) else None;
    }
  }

  /*** Merging records into the stored nodes ***/

  function Merge(nodes: set<Node>, r: Node): set<Node> {
    if exists n :: n in nodes && n.id == r.id && r.labels <= n.labels then nodes else nodes + {r}
  }

  function MergeAll(nodes: set<Node>, records: seq<Node>): set<Node>
    decreases records
  {
    if records == [] then nodes
    else Merge(MergeAll(nodes, records[..|records| - 1]), records[|records| - 1])
  }

  predicate OneNode(nodes: set<Node>) {
    forall n, m | n in nodes && m in nodes && n.id == m.id :: n == m
  }

  predicate Unstored(nodes: set<Node>, id: Id) {
    forall n | n in nodes :: n.id != id
  }

  predicate IsFirst(records: seq<Node>, i: nat)
    requires i < |records|
  {
    forall k | 0 <= k < i :: records[k].id != records[i].id
  }

  // Each record finds the stored node of its id, or the one that the first record of its id created.
  predicate FindsNodes(nodes: set<Node>, records: seq<Node>) {
    && (forall n, r | n in nodes && r in records && r.id == n.id :: r.labels <= n.labels)
    && (forall i, j | 0 <= i < j < |records| && records[i].id == records[j].id
                      && Unstored(nodes, records[i].id) && IsFirst(records, i) ::
          records[j].labels <= records[i].labels)
  }

  lemma {:induction false} MergedNodes(nodes: set<Node>, records: seq<Node>, n: Node)
    ensures n in nodes ==> n in MergeAll(nodes, records)
    ensures n in MergeAll(nodes, records) ==> n in nodes || n in records
    ensures n in records ==> exists m :: m in MergeAll(nodes, records) && m.id == n.id && n.labels <= m.labels
  {
    if records != [] {
      var init, r := records[..|records| - 1], records[|records| - 1];
      assert records == init + [r];
      MergedNodes(nodes, init, n);
      if n == r && n !in MergeAll(nodes, records) {
        assert exists m :: m in MergeAll(nodes, init) && m.id == r.id && r.labels <= m.labels;
      }
    }
  }

  lemma {:induction false} FirstIsCreated(nodes: set<Node>, records: seq<Node>, i: nat)
    requires i < |records| && IsFirst(records, i) && Unstored(nodes, records[i].id)
    ensures records[i] in MergeAll(nodes, records)
  {
    var init, r := records[..|records| - 1], records[|records| - 1];
    if i < |init| {
      FirstIsCreated(nodes, init, i);
    } else {
      forall n | n in MergeAll(nodes, init)
        ensures n.id != r.id
      {
        MergedNodes(nodes, init, n);
      }
    }
  }

  // n is the first record of an id that no stored node has.
  predicate IsNew(nodes: set<Node>, records: seq<Node>, n: Node) {
    Unstored(nodes, n.id) && exists i :: 0 <= i < |records| && records[i] == n && IsFirst(records, i)
  }

  lemma FindsEarlier(nodes: set<Node>, init: seq<Node>, r: Node)
    requires FindsNodes(nodes, init + [r])
    ensures FindsNodes(nodes, init)
  {
    var records := init + [r];
    forall m | m in init
      ensures m in records
    {
    }
    forall i, j | 0 <= i < j < |init| && init[i].id == init[j].id && Unstored(nodes, init[i].id) && IsFirst(init, i)
      ensures init[j].labels <= init[i].labels
    {
      assert records[i] == init[i] && records[j] == init[j] && IsFirst(records, i);
    }
  }

  lemma StaysNew(nodes: set<Node>, init: seq<Node>, r: Node, n: Node)
    requires IsNew(nodes, init, n)
    ensures IsNew(nodes, init + [r], n)
  {
    var i :| 0 <= i < |init| && init[i] == n && IsFirst(init, i);
    assert (init + [r])[i] == n && IsFirst(init + [r], i);
  }

  lemma {:induction false} OthersAreFound(nodes: set<Node>, records: seq<Node>, n: Node)
    requires FindsNodes(nodes, records) && n in MergeAll(nodes, records) && n !in nodes
    ensures IsNew(nodes, records, n)
    decreases records
  {
    var init, r := records[..|records| - 1], records[|records| - 1];
    assert records == init + [r];
    if n in MergeAll(nodes, init) {
      FindsEarlier(nodes, init, r);
      OthersAreFound(nodes, init, n);
      StaysNew(nodes, init, r, n);
    } else {
      AddedIsFirst(nodes, init, r);
    }
  }

  lemma {:induction false} FirstOf(records: seq<Node>, k: nat) returns (i: nat)
    requires k < |records|
    ensures i <= k && records[i].id == records[k].id && IsFirst(records, i)
  {
    if j :| 0 <= j < k && records[j].id == records[k].id {
      i := FirstOf(records, j);
    } else {
      i := k;
    }
  }

  lemma AddedIsFirst(nodes: set<Node>, init: seq<Node>, r: Node)
    requires FindsNodes(nodes, init + [r]) && r !in MergeAll(nodes, init) && r in Merge(MergeAll(nodes, init), r)
    ensures IsNew(nodes, init + [r], r)
  {
    forall m | m in nodes
      ensures m.id != r.id
    {
      MergedNodes(nodes, init, m);
      assert r in init + [r];
    }
    if k :| 0 <= k < |init| && init[k].id == r.id {
      var i := FirstOf(init, k);
      var records := init + [r];
      assert IsFirst(records, i) && records[i] == init[i] && records[|init|] == r;
      FirstIsCreated(nodes, init, i);
    }
    assert (init + [r])[|init|] == r && IsFirst(init + [r], |init|);
  }

  // No id gets a second node exactly when every record finds the node of its id.
  lemma OneNodeKept(nodes: set<Node>, records: seq<Node>)
    requires OneNode(nodes)
    ensures OneNode(MergeAll(nodes, records)) <==> FindsNodes(nodes, records)
  {
    var merged := MergeAll(nodes, records);
    if FindsNodes(nodes, records) {
      forall n, m | n in merged && m in merged && n.id == m.id
        ensures n == m
      {
        if n !in nodes {
          OthersAreFound(nodes, records, n);
        }
        if m !in nodes {
          OthersAreFound(nodes, records, m);
        }
      }
    }
    if OneNode(merged) {
      forall n, r | n in nodes && r in records && r.id == n.id
        ensures r.labels <= n.labels
      {
        MergedNodes(nodes, records, n);
        MergedNodes(nodes, records, r);
      }
      forall i, j | 0 <= i < j < |records| && records[i].id == records[j].id
                    && Unstored(nodes, records[i].id) && IsFirst(records, i)
        ensures records[j].labels <= records[i].labels
      {
        FirstIsCreated(nodes, records, i);
        MergedNodes(nodes, records, records[j]);
      }
    }
  }

  function Ids(nodes: set<Node>): set<Id> {
    set n | n in nodes :: n.id
  }

  function ListedIds(records: seq<Node>): set<Id> {
    set r | r in records :: r.id
  }

  lemma MergedIds(nodes: set<Node>, records: seq<Node>)
    ensures Ids(MergeAll(nodes, records)) == Ids(nodes) + ListedIds(records)
  {
    var merged := MergeAll(nodes, records);
    forall n: Node
      ensures n in merged ==> n in nodes || n in records
      ensures n in nodes ==> n in merged
      ensures n in records ==> exists m :: m in merged && m.id == n.id
    {
      MergedNodes(nodes, records, n);
    }
  }

  /*** The records of a delta ***/

  ghost function UniverseRecords(universes: seq<Universe>): (records: seq<Node>)
    ensures |records| == |universes|
    ensures forall i | 0 <= i < |universes| :: records[i] == Node(universes[i].id, UNIVERSE_LABELS)
  {
    seq(|universes|, i requires 0 <= i < |universes| => Node(universes[i].id, UNIVERSE_LABELS))
  }

  ghost function EntityRecords(rows: seq<TypeInheritance>, entities: seq<EntityNode>): (records: seq<Node>)
    ensures |records| == |entities|
    ensures forall i | 0 <= i < |entities| :: records[i] == Node(entities[i].id, LabelSet(rows, entities[i].typeId))
  {
    seq(|entities|, i requires 0 <= i < |entities| => Node(entities[i].id, LabelSet(rows, entities[i].typeId)))
  }

  ghost function BlockRecords(rows: seq<TypeInheritance>, blocks: seq<Block>): (records: seq<Node>)
    ensures |records| == |blocks|
    ensures forall i | 0 <= i < |blocks| :: records[i] == Node(blocks[i].id, LabelSet(rows, blocks[i].typeId))
  {
    seq(|blocks|, i requires 0 <= i < |blocks| => Node(blocks[i].id, LabelSet(rows, blocks[i].typeId)))
  }

  // All records in the order in which they are written.
  ghost function Records(rows: seq<TypeInheritance>, delta: GraphDelta): seq<Node> {
    UniverseRecords(delta.universes) + EntityRecords(rows, delta.entities) + BlockRecords(rows, delta.blocks)
  }

  lemma RecordIds(rows: seq<TypeInheritance>, delta: GraphDelta)
    ensures ListedIds(Records(rows, delta)) == UniverseIds(delta) + EntityIds(delta) + BlockIds(delta.blocks)
  {
    var us, es := UniverseRecords(delta.universes), EntityRecords(rows, delta.entities);
    var bs := BlockRecords(rows, delta.blocks);
    assert UniverseIds(delta) == set r | r in us :: r.id by {
      assert forall i | 0 <= i < |us| :: us[i] in us && us[i].id == delta.universes[i].id;
    }
    assert EntityIds(delta) == set r | r in es :: r.id by {
      assert forall i | 0 <= i < |es| :: es[i] in es && es[i].id == delta.entities[i].id;
    }
    assert BlockIds(delta.blocks) == set r | r in bs :: r.id by {
      assert forall i | 0 <= i < |bs| :: bs[i] in bs && bs[i].id == delta.blocks[i].id;
    }
    assert forall r :: r in us + es + bs <==> r in us || r in es || r in bs;
  }

  /*** Writing the nodes ***/

  method LabelsFor(rows: seq<TypeInheritance>, t: TypeId) returns (labels: set<string>)
    requires Acyclic(FirstParents(rows))
    ensures labels == LabelSet(rows, t)
  {
    assert Ends(FirstParents(rows), t);
    ghost var chain :| Climbs(FirstParents(rows), t, chain);
    var resolved := ResolveLabelsForType(t, rows, FirstParents(rows), chain);
    LabelSetOfChain(rows, t, chain);
    labels := set l | l in resolved;
    forall l
      ensures l in labels <==> exists x :: x in chain && Label(x) == l
    {
      if i :| 0 <= i < |chain| && Label(chain[i]) == l {
        assert resolved[|chain| - 1 - i] == l;
      }
    }
  }

  lemma {:induction false} MergeAppend(nodes: set<Node>, a: seq<Node>, b: seq<Node>)
    ensures MergeAll(nodes, a + b) == MergeAll(MergeAll(nodes, a), b)
  {
    if b == [] {
      assert a + b == a;
    } else {
      assert (a + b)[..|a + b| - 1] == a + b[..|b| - 1];
      MergeAppend(nodes, a, b[..|b| - 1]);
    }
  }

  method MergeUniverses(nodes: set<Node>, universes: seq<Universe>) returns (written: set<Node>)
    ensures written == MergeAll(nodes, UniverseRecords(universes))
  {
    ghost var records := UniverseRecords(universes);
    written := nodes;
    for i := 0 to |universes|
      invariant written == MergeAll(nodes, records[..i])
    {
      assert records[..i + 1][..i] == records[..i];
      written := Merge(written, Node(universes[i].id, UNIVERSE_LABELS));
    }
    assert records[..|records|] == records;
  }

  method MergeEntities(nodes: set<Node>, rows: seq<TypeInheritance>, entities: seq<EntityNode>)
    returns (written: set<Node>)
    requires Acyclic(FirstParents(rows))
    ensures written == MergeAll(nodes, EntityRecords(rows, entities))
  {
    ghost var records := EntityRecords(rows, entities);
    written := nodes;
    for i := 0 to |entities|
      invariant written == MergeAll(nodes, records[..i])
    {
      assert records[..i + 1][..i] == records[..i];
      var labels := LabelsFor(rows, entities[i].typeId);
      written := Merge(written, Node(entities[i].id, labels));
    }
    assert records[..|records|] == records;
  }

  method MergeBlocks(nodes: set<Node>, rows: seq<TypeInheritance>, blocks: seq<Block>) returns (written: set<Node>)
    requires Acyclic(FirstParents(rows))
    ensures written == MergeAll(nodes, BlockRecords(rows, blocks))
  {
    ghost var records := BlockRecords(rows, blocks);
    written := nodes;
    for i := 0 to |blocks|
      invariant written == MergeAll(nodes, records[..i])
    {
      assert records[..i + 1][..i] == records[..i];
      var labels := LabelsFor(rows, blocks[i].typeId);
      written := Merge(written, Node(blocks[i].id, labels));
    }
    assert records[..|records|] == records;
  }

  // Each record in turn is merged under its id and the labels of its type.
  method WriteNodes(nodes: set<Node>, rows: seq<TypeInheritance>, delta: GraphDelta) returns (written: set<Node>)
    requires Acyclic(FirstParents(rows))
    ensures written == MergeAll(nodes, Records(rows, delta))
  {
    ghost var us, es := UniverseRecords(delta.universes), EntityRecords(rows, delta.entities);
    MergeAppend(nodes, us, es);
    MergeAppend(nodes, us + es, BlockRecords(rows, delta.blocks));
    written := MergeUniverses(nodes, delta.universes);
    written := MergeEntities(written, rows, delta.entities);
    written := MergeBlocks(written, rows, delta.blocks);
  }
}
