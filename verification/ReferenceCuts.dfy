/** Where the builder of annotations cuts a reference to any value: exactly where a walk that remembers nothing
    meets the reference again inside its own expansion. */
module ReferenceCuts {
  import opened Wrappers
  import opened JsonValues
  import opened JsonPointers
  import opened SchemaAnnotations

  /*** Where the builder goes ***/

  predicate VisitsProperty(schema: Json, n: string) {
    && schema.Obj? && !HasValues(schema.fields) && "object" in TypeNames(schema.fields)
    && HasProperties(schema.fields) && IsProperty(schema.fields["properties"].fields, n)
  }

  function PropertyOf(schema: Json, n: string): (property: Json)
    requires VisitsProperty(schema, n)
    ensures property < schema && Refs(property) <= Refs(schema)
  {
    var properties := schema.fields["properties"];
    assert Refs(properties.fields[n]) <= Refs(properties) <= Refs(schema);
    properties.fields[n]
  }

  predicate VisitsItems(schema: Json) {
    schema.Obj? && !HasValues(schema.fields) && "array" in TypeNames(schema.fields) && HasItems(schema.fields)
  }

  function ItemsOf(schema: Json): (items: Json)
    requires VisitsItems(schema)
    ensures items < schema && Refs(items) <= Refs(schema)
  {
    schema.fields["items"]
  }

  predicate Resolves(root: Json, schema: Json) {
    HasRef(schema) && ResolveRef(root, schema.fields[REF].s).Some?
  }

  // The schema that takes the place of one whose reference resolves.
  function Expanded(root: Json, schema: Json): Json
    requires Resolves(root, schema)
  {
    Merged(ResolveRef(root, schema.fields[REF].s).value, schema)
  }

  /*** The cut, with the references seen ***/

  ghost predicate Cut(root: Json, schema: Json, seen: set<string>)
    decreases Unseen(root, schema, seen), schema
  {
    if HasRef(schema) && schema.fields[REF].s in seen then true
    else if Resolves(root, schema) then
      FollowingShrinks(root, schema, seen);
      Cut(root, Expanded(root, schema), seen + {schema.fields[REF].s})
    else
      || (exists n :: VisitsProperty(schema, n) && Cut(root, PropertyOf(schema, n), seen))
      || (VisitsItems(schema) && Cut(root, ItemsOf(schema), seen))
  }

  /*** The walk that remembers nothing ***/

  datatype Move = Follow(ref: string) | IntoProperty(name: string) | IntoItems

  function After(root: Json, schema: Json, m: Move): Option<Json> {
    if Resolves(root, schema) then
      if m == Follow(schema.fields[REF].s) then Some(Expanded(root, schema)) else None
    else
      match m
      case Follow(_) => None
      case IntoProperty(n) => if VisitsProperty(schema, n) then Some(PropertyOf(schema, n)) else None
      case IntoItems => if VisitsItems(schema) then Some(ItemsOf(schema)) else None
  }

  function End(root: Json, schema: Json, path: seq<Move>): Option<Json>
    decreases path
  {
    if path == [] then Some(schema)
    else
      var next := After(root, schema, path[0]);
      if next.Some? then End(root, next.value, path[1..]) else None
  }

  // The path ends at a reference that is in seen or was followed on the path.
  predicate Meets(root: Json, schema: Json, seen: set<string>, path: seq<Move>) {
    var end := End(root, schema, path);
    end.Some? && HasRef(end.value) && (end.value.fields[REF].s in seen || Follow(end.value.fields[REF].s) in path)
  }

  // One move before a path that meets again; a reference that it follows may be among the ones remembered.
  lemma MoveFirst(root: Json, schema: Json, seen: set<string>, m: Move, rest: seq<Move>)
    requires After(root, schema, m).Some?
    requires Meets(root, After(root, schema, m).value, if m.Follow? then seen + {m.ref} else seen, rest)
    ensures Meets(root, schema, seen, [m] + rest)
  {
    assert ([m] + rest)[1..] == rest;
  }

  lemma {:induction false} CutIsMet(root: Json, schema: Json, seen: set<string>) returns (path: seq<Move>)
    requires Cut(root, schema, seen)
    ensures Meets(root, schema, seen, path)
    decreases Unseen(root, schema, seen), schema, 1
  {
    if HasRef(schema) && schema.fields[REF].s in seen {
      path := [];
    } else if Resolves(root, schema) {
      var ref := schema.fields[REF].s;
      FollowingShrinks(root, schema, seen);
      path := CutIsMet(root, Expanded(root, schema), seen + {ref});
      MoveFirst(root, schema, seen, Follow(ref), path);
      path := [Follow(ref)] + path;
    } else {
      path := CutBelowIsMet(root, schema, seen);
    }
  }

  lemma {:induction false} CutBelowIsMet(root: Json, schema: Json, seen: set<string>) returns (path: seq<Move>)
    requires Cut(root, schema, seen) && !Resolves(root, schema)
    requires !(HasRef(schema) && schema.fields[REF].s in seen)
    ensures Meets(root, schema, seen, path)
    decreases Unseen(root, schema, seen), schema, 0
  {
    if n :| VisitsProperty(schema, n) && Cut(root, PropertyOf(schema, n), seen) {
      path := CutIsMet(root, PropertyOf(schema, n), seen);
      MoveFirst(root, schema, seen, IntoProperty(n), path);
      path := [IntoProperty(n)] + path;
    } else {
      path := CutIsMet(root, ItemsOf(schema), seen);
      MoveFirst(root, schema, seen, IntoItems, path);
      path := [IntoItems] + path;
    }
  }

  lemma {:induction false} MetIsCut(root: Json, schema: Json, seen: set<string>, path: seq<Move>)
    requires Meets(root, schema, seen, path)
    ensures Cut(root, schema, seen)
    decreases path
  {
    if !(HasRef(schema) && schema.fields[REF].s in seen) {
      var next := After(root, schema, path[0]).value;
      assert path == [path[0]] + path[1..];
      if Resolves(root, schema) {
        MetIsCut(root, next, seen + {schema.fields[REF].s}, path[1..]);
      } else {
        MetIsCut(root, next, seen, path[1..]);
      }
    }
  }

  // A reference is cut exactly when some path meets a reference that it followed before: inside the target, in
  // the keys laid over it, or further on.
  lemma CutIffMetAgain(root: Json, schema: Json)
    ensures Cut(root, schema, {}) <==> exists path :: Meets(root, schema, {}, path)
  {
    if Cut(root, schema, {}) {
      var path := CutIsMet(root, schema, {});
    }
    if path :| Meets(root, schema, {}, path) {
      MetIsCut(root, schema, {}, path);
    }
  }

  /*** Without a cut the memory makes no difference ***/

  lemma SameOwnVisited(root: Json, schema: Json, seen: set<string>, less: set<string>)
    requires schema.Obj?
    requires !HasValues(schema.fields) ==> forall name | name in TypeNames(schema.fields) ::
               ForType(root, schema, seen, name) == ForType(root, schema, less, name)
    ensures Own(root, schema, seen) == Own(root, schema, less)
  {
    var names := TypeNames(schema.fields);
    if !HasValues(schema.fields) {
      var left, right := Alternatives(root, schema, seen, names), Alternatives(root, schema, less, names);
      assert left == right;
    }
  }

  // A schema with no cut has the annotation it would have with any of the seen references forgotten.
  lemma {:induction false} UncutForgets(root: Json, schema: Json, seen: set<string>, less: set<string>)
    requires !Cut(root, schema, seen) && less <= seen
    ensures ToAnnotation(root, schema, less) == ToAnnotation(root, schema, seen)
    decreases Unseen(root, schema, seen), schema, 1
  {
    if schema.Obj? {
      if Resolves(root, schema) {
        var ref := schema.fields[REF].s;
        FollowingShrinks(root, schema, seen);
        UncutForgets(root, Expanded(root, schema), seen + {ref}, less + {ref});
      } else {
        if !HasValues(schema.fields) {
          forall name | name in TypeNames(schema.fields)
            ensures ForType(root, schema, seen, name) == ForType(root, schema, less, name)
          {
            UncutForType(root, schema, seen, less, name);
          }
        }
        SameOwnVisited(root, schema, seen, less);
      }
    }
  }

  lemma {:induction false} UncutForType(root: Json, schema: Json, seen: set<string>, less: set<string>, name: string)
    requires !Cut(root, schema, seen) && less <= seen && schema.Obj? && !Resolves(root, schema)
    requires !HasValues(schema.fields) && name in TypeNames(schema.fields)
    ensures ForType(root, schema, seen, name) == ForType(root, schema, less, name)
    decreases Unseen(root, schema, seen), schema, 0
  {
    if name == "object" && HasProperties(schema.fields) {
      forall n
        ensures SameProperty(root, schema, seen, root, schema, less, n)
      {
        if VisitsProperty(schema, n) {
          UncutForgets(root, PropertyOf(schema, n), seen, less);
        }
      }
      SameModel(root, schema, seen, root, schema, less);
    } else if name == "array" && HasItems(schema.fields) {
      UncutForgets(root, ItemsOf(schema), seen, less);
    }
  }

  // Then every reference stands for its target's own annotation, with the keys beside it laid over the target.
  lemma UncutIsTransparent(root: Json, schema: Json)
    requires !Cut(root, schema, {}) && Resolves(root, schema)
    ensures ToAnnotation(root, schema, {}) == ToAnnotation(root, Expanded(root, schema), {})
    ensures !Cut(root, Expanded(root, schema), {})
  {
    var ref := schema.fields[REF].s;
    UncutForgets(root, Expanded(root, schema), {} + {ref}, {});
    if Cut(root, Expanded(root, schema), {}) {
      var path := CutIsMet(root, Expanded(root, schema), {});
      MetIsCut(root, Expanded(root, schema), {} + {ref}, path);
    }
  }

  /*** A condition that needs no walk ***/

  // No schema with a reference has another one beside it.
  predicate Alone(j: Json) {
    j.Obj? ==>
      && (forall k | k in j.fields :: Alone(j.fields[k]))
      && (HasRef(j) ==> forall k | k in j.fields :: Refs(j.fields[k]) == {})
  }

  // Every reference leads to references of lower rank only, so none leads back to itself.
  ghost predicate Acyclic(root: Json, rank: string -> nat) {
    forall ref, r :: ResolveRef(root, ref).Some? && r in Refs(ResolveRef(root, ref).value) ==> rank(r) < rank(ref)
  }

  lemma {:induction false} AloneAt(root: Json, path: seq<string>)
    requires Alone(root)
    ensures At(root, path).Some? ==> Alone(At(root, path).value)
    decreases path
  {
    if path != [] && root.Obj? && path[0] in root.fields {
      AloneAt(root.fields[path[0]], path[1..]);
    }
  }

  lemma {:induction false} AcyclicIsUncut(root: Json, schema: Json, seen: set<string>, rank: string -> nat, bound: nat)
    requires Acyclic(root, rank) && Alone(root) && Alone(schema)
    requires forall r | r in Refs(schema) :: rank(r) < bound
    requires forall r | r in seen :: rank(r) >= bound
    ensures !Cut(root, schema, seen)
    decreases bound, schema
  {
    assert HasRef(schema) ==> schema.fields[REF].s in Refs(schema);
    if Resolves(root, schema) {
      var ref := schema.fields[REF].s;
      var target := ResolveRef(root, ref).value;
      AloneAt(root, Keys(ref[2..]));
      AcyclicIsUncut(root, Expanded(root, schema), seen + {ref}, rank, rank(ref));
    } else {
      forall n | VisitsProperty(schema, n)
        ensures !Cut(root, PropertyOf(schema, n), seen)
      {
        assert Alone(schema.fields["properties"]);
        AcyclicIsUncut(root, PropertyOf(schema, n), seen, rank, bound);
      }
      if VisitsItems(schema) {
        AcyclicIsUncut(root, ItemsOf(schema), seen, rank, bound);
      }
    }
  }

  // Without cycles and with references alone nothing is cut, and what was seen before makes no difference.
  lemma CutOnlyOnCycles(root: Json, schema: Json, seen: set<string>, other: set<string>, rank: string -> nat,
                        bound: nat)
    requires Acyclic(root, rank) && Alone(root) && Alone(schema)
    requires forall r | r in Refs(schema) :: rank(r) < bound
    requires forall r | r in seen + other :: rank(r) >= bound
    ensures !Cut(root, schema, seen)
    ensures ToAnnotation(root, schema, seen) == ToAnnotation(root, schema, other)
  {
    AcyclicIsUncut(root, schema, seen, rank, bound);
    AcyclicIsUncut(root, schema, other, rank, bound);
    UncutForgets(root, schema, seen, {});
    UncutForgets(root, schema, other, {});
  }

  lemma NoRefsBelow(root: Json)
    requires Refs(root) == {}
    ensures Acyclic(root, _ => 0)
    ensures forall ref :: ResolveRef(root, ref).Some? ==> Refs(ResolveRef(root, ref).value) == {}
  {
    forall ref | ResolveRef(root, ref).Some?
      ensures Refs(ResolveRef(root, ref).value) == {}
    {
      RefsAt(root, Keys(ref[2..]));
    }
  }

  // In a root without any references, a reference repeated by a property beside it is met again and cut, although
  // the property alone has the annotation of the target.
  lemma RepeatedBesideIsCut(root: Json, schema: Json, n: string)
    requires Refs(root) == {} && Resolves(root, schema) && VisitsProperty(Expanded(root, schema), n)
    requires var property := PropertyOf(Expanded(root, schema), n);
             HasRef(property) && property.fields[REF] == schema.fields[REF]
    ensures Acyclic(root, _ => 0) && Cut(root, schema, {})
    ensures var ref, merged := schema.fields[REF].s, Expanded(root, schema);
            && ToAnnotation(root, schema, {}) == Own(root, merged, {ref})
            && ModelFields(root, merged, {ref})[n].annotation == AnyValue
    ensures var property := PropertyOf(Expanded(root, schema), n);
            ToAnnotation(root, property, {}) == Own(root, Expanded(root, property), {schema.fields[REF].s})
  {
    var ref, merged := schema.fields[REF].s, Expanded(root, schema);
    var property := PropertyOf(merged, n);
    NoRefsBelow(root);
    assert !HasRef(merged) && !HasRef(Expanded(root, property)) && {} + {ref} == {ref};
    assert ToAnnotation(root, property, {ref}) == AnyValue && Cut(root, property, {ref});
    assert Cut(root, merged, {ref});
  }
}
