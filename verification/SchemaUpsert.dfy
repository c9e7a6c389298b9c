/** Schema type upserts as steps over the stored types and inheritance links. */
module SchemaUpsert {
  import opened Wrappers
  import opened TypeHierarchy

  const ENTITY: TypeId := "node.entity"

  // The kind column; any other text is no kind at all.
  datatype SchemaKind = Node | Edge | Unknown(text: string)

  datatype SchemaType = SchemaType(id: TypeId, kind: SchemaKind, name: string, description: string, active: bool)

  datatype Command = Command(schemaType: SchemaType, parent: Option<TypeId>)

  datatype SchemaError =
    | InvalidKind
    | EdgeInheritance
    | EntityWithParent
    | ParentRequired
    | ParentMissing
    | ParentNotNode
    | ParentOutsideEntity
    | MultipleParents
    | VectorSyncFailed
    | LinkWriteFailed

  // Stored types, and for each stored (child, parent) link whether it is active.
  datatype Schema = Schema(types: map<TypeId, SchemaType>, links: map<(TypeId, TypeId), bool>)

  predicate ActiveLink(s: Schema, child: TypeId, parent: TypeId) {
    (child, parent) in s.links && s.links[(child, parent)]
  }

  // parents is the active parent relation: a partial function, without cycles, and node.entity has no parent.
  ghost predicate IsTree(s: Schema, parents: map<TypeId, TypeId>) {
    && (forall c, p :: ActiveLink(s, c, p) <==> c in parents && parents[c] == p)
    && Acyclic(parents)
    && ENTITY !in parents
  }

  ghost predicate Tree(s: Schema) {
    exists parents :: IsTree(s, parents)
  }

  // What the tree gives: no chain of parent links comes back to where it started.
  lemma NoCycle(rows: seq<TypeInheritance>, parents: map<TypeId, TypeId>, t: TypeId, n: nat)
    requires Acyclic(parents) && Lists(rows, parents) && n > 0
    ensures !Ancestor(rows, t, t, n)
  {
    if Ancestor(rows, t, t, n) {
      assert Ends(parents, t);
      var chain :| Climbs(parents, t, chain);
      var p :| IsParent(rows, t, p) && Ancestor(rows, p, t, n - 1);
      TailClimbs(parents, t, chain, 1);
      AncestorIsOnChain(rows, parents, p, t, n - 1, chain[1..]);
      var i :| 0 <= i < |chain[1..]| && chain[1..][i] == t;
      ChainDistinct(parents, t, chain, 0, i + 1);
    }
  }

  // Linking a parentless type below a chain that avoids it keeps every chain ending.
  lemma AddLink(parents: map<TypeId, TypeId>, c: TypeId, p: TypeId, up: seq<TypeId>)
    requires Acyclic(parents) && c !in parents
    requires Climbs(parents, p, up) && c !in up
    ensures Acyclic(parents[c := p])
  {
    var parents' := parents[c := p];
    forall t
      ensures Ends(parents', t)
    {
      assert Ends(parents, t);
      var chain :| Climbs(parents, t, chain);
      var last := chain[|chain| - 1];
      assert forall i | 0 <= i < |chain| - 1 :: chain[i] in parents;
      if last == c {
        assert Climbs(parents', t, chain + up);
      } else {
        assert Climbs(parents', t, chain);
      }
    }
  }

  ghost predicate BelowEntity(parents: map<TypeId, TypeId>, t: TypeId) {
    exists chain :: Climbs(parents, t, chain) && ENTITY in chain
  }

  // The checks the source makes before it writes, in its order.
  ghost function CheckFailure(s: Schema, parents: map<TypeId, TypeId>, cmd: Command): Option<SchemaError> {
    var t := cmd.schemaType;
    if t.kind.Unknown? then Some(InvalidKind)
    else if t.kind.Edge? then
      if cmd.parent.Some? then Some(EdgeInheritance) else None
    else if t.id == ENTITY then
      if cmd.parent.Some? then Some(EntityWithParent) else None
    else if cmd.parent.None? then Some(ParentRequired)
    else if cmd.parent.value !in s.types then Some(ParentMissing)
    else if !s.types[cmd.parent.value].kind.Node? then Some(ParentNotNode)
    else if !BelowEntity(parents, cmd.parent.value) then Some(ParentOutsideEntity)
    else if t.id in parents && parents[t.id] != cmd.parent.value then Some(MultipleParents)
    else None
  }

  predicate GetsLink(t: SchemaType) {
    t.kind.Node? && t.id != ENTITY
  }

  // The state after an upsert that passed the checks: the type is stored, and a node type below
  // node.entity is linked to its parent, unless writing the link failed.
  function Upserted(s: Schema, cmd: Command, linkWritten: bool): Schema {
    var t := cmd.schemaType;
    Schema(s.types[t.id := t],
           if GetsLink(t) && cmd.parent.Some? && linkWritten then s.links[(t.id, cmd.parent.value) := true]
           else s.links)
  }

  // The row sent is stored as it is, and all others stay.
  predicate StoresOnly(s: Schema, s': Schema, t: SchemaType) {
    && t.id in s'.types && s'.types[t.id] == t
    && forall id | id in s.types.Keys + s'.types.Keys && id != t.id ::
         id in s.types && id in s'.types && s'.types[id] == s.types[id]
  }

  // A node type below node.entity is linked to the parent sent with it, if the link is written; all others stay.
  predicate LinksOnly(s: Schema, s': Schema, cmd: Command, linkWritten: bool) {
    var t := cmd.schemaType;
    && (t.kind.Node? && t.id != ENTITY && linkWritten ==> cmd.parent.Some? && ActiveLink(s', t.id, cmd.parent.value))
    && forall k | k in s.links.Keys + s'.links.Keys :: k in s'.links &&
         if linkWritten && t.kind.Node? && t.id != ENTITY && cmd.parent == Some(k.1) && k.0 == t.id then s'.links[k]
         else k in s.links && s'.links[k] == s.links[k]
  }

  lemma UpsertKeepsTree(s: Schema, parents: map<TypeId, TypeId>, cmd: Command, linkWritten: bool)
    returns (parents': map<TypeId, TypeId>)
    requires IsTree(s, parents) && CheckFailure(s, parents, cmd).None?
    ensures IsTree(Upserted(s, cmd, linkWritten), parents')
    ensures forall c | c in parents :: c in parents' && parents'[c] == parents[c]
    ensures linkWritten && GetsLink(cmd.schemaType) ==> BelowEntity(parents', cmd.schemaType.id)
  {
    var c := cmd.schemaType.id;
    parents' := parents;
    if GetsLink(cmd.schemaType) && linkWritten {
      var p := cmd.parent.value;
      var up :| Climbs(parents, p, up) && ENTITY in up;
      if c !in parents {
        AddLink(parents, c, p, up);
        parents' := parents[c := p];
        assert Climbs(parents', c, [c] + up);
      } else {
        assert Ends(parents, c);
        var chain :| Climbs(parents, c, chain);
        TailClimbs(parents, c, chain, 1);
        WalkIsPrefix(parents, p, chain[1..], up);
      }
    }
    var s' := Upserted(s, cmd, linkWritten);
    forall x, y
      ensures ActiveLink(s', x, y) <==> x in parents' && parents'[x] == y
    {
      assert ActiveLink(s, x, y) <==> x in parents && parents[x] == y;
    }
  }

  /*** What the checks let through ***/

  // An edge type or node.entity without a parent, or a node type below a stored node type under node.entity that is
  // its only parent.
  ghost predicate Admissible(s: Schema, parents: map<TypeId, TypeId>, cmd: Command) {
    var t := cmd.schemaType;
    match cmd.parent
    case None => t.kind.Edge? || (t.kind.Node? && t.id == "node.entity")
    case Some(p) =>
      && t.kind.Node? && t.id != "node.entity"
      && p in s.types && s.types[p].kind.Node?
      && (exists chain :: Climbs(parents, p, chain) && "node.entity" in chain)
      && forall q | ActiveLink(s, t.id, q) :: q == p
  }

  lemma ChecksAdmit(s: Schema, parents: map<TypeId, TypeId>, cmd: Command)
    requires IsTree(s, parents)
    ensures CheckFailure(s, parents, cmd).None? <==> Admissible(s, parents, cmd)
  {
    var t := cmd.schemaType;
    if t.id in parents {
      assert ActiveLink(s, t.id, parents[t.id]);
    }
  }

  // Links lead from stored node types to stored node types.
  predicate LinksTyped(s: Schema) {
    forall k | k in s.links ::
      k.0 in s.types && s.types[k.0].kind.Node? && k.1 in s.types && s.types[k.1].kind.Node?
  }

  predicate IsLinked(s: Schema, t: TypeId) {
    exists k :: k in s.links && (k.0 == t || k.1 == t)
  }

  // An upsert keeps links between node types exactly when it turns no linked type into an edge type.
  lemma UpsertKeepsTyped(s: Schema, parents: map<TypeId, TypeId>, cmd: Command, linkWritten: bool)
    requires IsTree(s, parents) && LinksTyped(s) && CheckFailure(s, parents, cmd).None?
    ensures LinksTyped(Upserted(s, cmd, linkWritten)) <==> cmd.schemaType.kind.Node? || !IsLinked(s, cmd.schemaType.id)
  {
    var t, s' := cmd.schemaType, Upserted(s, cmd, linkWritten);
    if t.kind.Edge? {
      if k :| k in s.links && (k.0 == t.id || k.1 == t.id) {
        assert k in s'.links;
      }
    } else {
      assert forall k | k in s'.links :: k in s.links || k == (t.id, cmd.parent.value);
    }
  }

  // The checks let any stored type be sent again as an edge type, a linked one too.
  lemma LinkedTypeTurnsEdge(s: Schema, parents: map<TypeId, TypeId>, t: SchemaType, linkWritten: bool)
    requires IsTree(s, parents) && LinksTyped(s) && IsLinked(s, t.id) && t.kind.Edge?
    ensures CheckFailure(s, parents, Command(t, None)).None?
    ensures !LinksTyped(Upserted(s, Command(t, None), linkWritten))
  {
    UpsertKeepsTyped(s, parents, Command(t, None), linkWritten);
  }

  class SchemaRepository {
    var schema: Schema

    // A chain of active links from t reaches node.entity.
    method IsDescendantOfEntity(t: TypeId, ghost parents: map<TypeId, TypeId>) returns (below: bool)
      requires IsTree(schema, parents)
      ensures below <==> BelowEntity(parents, t)
    {
      assert Ends(parents, t);
      ghost var chain :| Climbs(parents, t, chain);
      ghost var walk := [t];
      var current := t;
      while current != ENTITY
        invariant Walk(parents, t, walk) && current == walk[|walk| - 1]
        invariant ENTITY !in walk[..|walk| - 1]
        decreases |chain| - |walk|
      {
        var parent := GetParentForChild(current, parents);
        WalkIsPrefix(parents, t, walk, chain);
        if parent.None? {
          forall other | Climbs(parents, t, other)
            ensures ENTITY !in other
          {
            WalkIsPrefix(parents, t, walk, other);
            assert walk == walk[..|walk| - 1] + [current];
          }
          return false;
        }
        walk := walk + [parent.value];
        current := parent.value;
        WalkIsPrefix(parents, t, walk, chain);
      }
      WalkIsPrefix(parents, t, walk, chain);
      assert ENTITY == chain[|walk| - 1];
      return true;
    }

    // Some active link of the child, if it has one.
    method GetParentForChild(child: TypeId, ghost parents: map<TypeId, TypeId>) returns (parent: Option<TypeId>)
      requires IsTree(schema, parents)
      ensures parent == if child in parents then Some(parents[child]) else None
    {
      ghost var expected := if child in parents then parents[child] else child;
      var rest := schema.links.Keys;
      while rest != {}
        invariant rest <= schema.links.Keys
        invariant forall p | ActiveLink(schema, child, p) :: (child, p) in rest
        decreases rest
      {
        var k :| k in rest;
        if k.0 == child && schema.links[k] {
          assert ActiveLink(schema, child, k.1);
          return Some(k.1);
        }
        rest := rest - {k};
      }
      assert !ActiveLink(schema, child, expected);
      return None;
    }

    // vectorSynced and linkWritten stand for the outcomes of the vector store and of the link write.
    method UpsertSchemaType(cmd: Command, vectorSynced: bool, linkWritten: bool, ghost parents: map<TypeId, TypeId>)
      returns (r: Result<SchemaType, SchemaError>)
      requires IsTree(schema, parents)
      modifies this
      ensures Tree(schema)
      ensures r.Ok? ==> Admissible(old(schema), parents, cmd)
      ensures CheckFailure(old(schema), parents, cmd).Some? ==>
                r == Err(CheckFailure(old(schema), parents, cmd).value) && schema == old(schema)
      ensures CheckFailure(old(schema), parents, cmd).None? && !vectorSynced ==>
                r == Err(VectorSyncFailed) && schema == old(schema)
      ensures CheckFailure(old(schema), parents, cmd).None? && vectorSynced ==>
                && schema == Upserted(old(schema), cmd, linkWritten)
                && r == (if linkWritten || !GetsLink(cmd.schemaType) then Ok(cmd.schemaType) else Err(LinkWriteFailed))
      ensures CheckFailure(old(schema), parents, cmd).None? && vectorSynced ==>
                && StoresOnly(old(schema), schema, cmd.schemaType)
                && LinksOnly(old(schema), schema, cmd, linkWritten)
    {
      ChecksAdmit(schema, parents, cmd);
      var t := cmd.schemaType;
      if t.kind.Unknown? {
        return Err(InvalidKind);
      }
      if t.kind.Edge? && cmd.parent.Some? {
        return Err(EdgeInheritance);
      }
      if t.kind.Node? {
        if t.id == ENTITY {
          if cmd.parent.Some? {
            return Err(EntityWithParent);
          }
        } else {
          if cmd.parent.None? {
            return Err(ParentRequired);
          }
          var parent := cmd.parent.value;
          if parent !in schema.types {
            return Err(ParentMissing);
          }
          if !schema.types[parent].kind.Node? {
            return Err(ParentNotNode);
          }
          var below := IsDescendantOfEntity(parent, parents);
          if !below {
            return Err(ParentOutsideEntity);
          }
          var existing := GetParentForChild(t.id, parents);
          if existing.Some? && existing.value != parent {
            return Err(MultipleParents);
          }
        }
      }
      ghost var _ := UpsertKeepsTree(schema, parents, cmd, linkWritten);
      var previous := if t.id in schema.types then Some(schema.types[t.id]) else None;
      schema := schema.(types := schema.types[t.id := t]);
      if !vectorSynced {
        RollBack(t.id, previous);
        assert schema.types == old(schema).types;
        return Err(VectorSyncFailed);
      }
      if GetsLink(t) {
        if !linkWritten {
          return Err(LinkWriteFailed);
        }
        schema := schema.(links := schema.links[(t.id, cmd.parent.value) := true]);
      }
      return Ok(t);
    }

    // Puts the previous row back, or deletes the row when there was none.
    method RollBack(id: TypeId, previous: Option<SchemaType>)
      modifies this
      ensures schema == old(schema).(types := match previous
                                              case Some(p) => old(schema).types[id := p]
                                              case None => old(schema).types - {id})
    {
      match previous {
        case Some(p) => schema := schema.(types := schema.types[id := p]);
        case None => schema := schema.(types := schema.types - {id});
      }
    }
  }

  /*** Runs ***/

  // One upsert: rejected or rolled back without a trace, or written with or without its link.
  ghost predicate Step(s: Schema, s': Schema) {
    s' == s || exists parents, cmd, linkWritten ::
      IsTree(s, parents) && CheckFailure(s, parents, cmd).None? && s' == Upserted(s, cmd, linkWritten)
  }

  lemma {:induction false} RunsKeepTree(run: seq<Schema>, i: nat)
    requires i < |run| && Tree(run[0])
    requires forall k | 0 <= k < |run| - 1 :: Step(run[k], run[k + 1])
    ensures Tree(run[i])
  {
    if i > 0 {
      RunsKeepTree(run, i - 1);
      assert Step(run[i - 1], run[i - 1 + 1]);
      if run[i] != run[i - 1] {
        var parents, cmd, linkWritten :|
          IsTree(run[i - 1], parents) && CheckFailure(run[i - 1], parents, cmd).None?
          && run[i] == Upserted(run[i - 1], cmd, linkWritten);
        var _ := UpsertKeepsTree(run[i - 1], parents, cmd, linkWritten);
      }
    }
  }

  // On every schema a run reaches, all the walkers end and agree with the closure on every type.
  lemma WalkersAgreeAfterRun(run: seq<Schema>, i: nat, rows: seq<TypeInheritance>, t: TypeId)
    requires i < |run| && Tree(run[0])
    requires forall k | 0 <= k < |run| - 1 :: Step(run[k], run[k + 1])
    requires forall r | r in rows :: r.active
    requires forall c, p :: IsParent(rows, c, p) <==> ActiveLink(run[i], c, p)
    ensures exists parents, chain ::
              && AreFirstParents(rows, parents)
              && (forall inactive, least :: AreLeastParents(rows, inactive, least) ==> least == parents)
              && Climbs(parents, t, chain) && Distinct(chain)
              && forall b :: Descends(rows, t, b) <==> b in chain
  {
    RunsKeepTree(run, i);
    var parents :| IsTree(run[i], parents);
    forall r | r in rows
      ensures r.child in parents && r.parent == parents[r.child]
    {
      assert IsParent(rows, r.child, r.parent);
    }
    forall c | c in parents
      ensures IsParent(rows, c, parents[c])
    {
      assert ActiveLink(run[i], c, parents[c]);
    }
    forall inactive, least | AreLeastParents(rows, inactive, least)
      ensures least == parents
    {
      ListedMaps(rows, parents, least, inactive);
    }
    ListedMaps(rows, parents, parents, true);
    assert Ends(parents, t);
    var chain :| Climbs(parents, t, chain);
    WalkersAgree(rows, parents, t, chain);
  }
}
