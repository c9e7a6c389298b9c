/** Argument types of a tool, built from its JSON schema with the references followed on the way. */
module SchemaAnnotations {
  import opened Wrappers
  import opened JsonValues
  import opened JsonPointers

  const REF := "$ref"

  // A field whose default is missing is required.
  datatype Field = Field(annotation: Annotation, default: Option<Json>)

  datatype Annotation =
    | AnyValue
    | Scalar(name: string)
    | OneOfValues(values: seq<Json>)
    | AnyDict
    | Model(fields: map<string, Field>)
    | ListOf(item: Annotation)
    | Union(alternatives: seq<Annotation>)
    | Nullable(annotation: Annotation)

  /*** References of a schema ***/

  predicate HasRef(j: Json) {
    j.Obj? && REF in j.fields && j.fields[REF].Str?
  }

  // Every text below a reference key of a schema.
  function Refs(j: Json): set<string> {
    if j.Obj? then
      (if HasRef(j) then {j.fields[REF].s} else {}) + (set k, r | k in j.fields && r in Refs(j.fields[k]) :: r)
    else {}
  }

  lemma {:induction false} RefsAt(root: Json, path: seq<string>)
    ensures At(root, path).Some? ==> Refs(At(root, path).value) <= Refs(root)
    decreases path
  {
    if path != [] && root.Obj? && path[0] in root.fields {
      RefsAt(root.fields[path[0]], path[1..]);
    }
  }

  // The target of a reference, with every key beside the reference laid over it.
  function Merged(target: Json, schema: Json): (m: Json)
    requires target.Obj? && HasRef(schema)
    ensures m.Obj?
    ensures forall k | k in schema.fields && k != REF :: k in m.fields && m.fields[k] == schema.fields[k]
    ensures forall k | k !in schema.fields || k == REF ::
              (k in m.fields <==> k in target.fields) && (k in m.fields ==> m.fields[k] == target.fields[k])
  {
    Obj(target.fields + (schema.fields - {REF}))
  }

  lemma RefsMerged(root: Json, schema: Json)
    requires HasRef(schema) && ResolveRef(root, schema.fields[REF].s).Some?
    ensures Refs(Merged(ResolveRef(root, schema.fields[REF].s).value, schema)) <= Refs(root) + Refs(schema)
  {
    var ref := schema.fields[REF].s;
    var target := ResolveRef(root, ref).value;
    RefsAt(root, Keys(ref[2..]));
    var merged := Merged(target, schema);
    forall k, r | k in merged.fields && r in Refs(merged.fields[k])
      ensures r in Refs(root) + Refs(schema)
    {
    }
    if HasRef(merged) {
      assert HasRef(target);
    }
  }

  // The references that can still be followed: those of the root and the schema that were not seen.
  function Unseen(root: Json, schema: Json, seen: set<string>): set<string> {
    (Refs(root) + Refs(schema)) - seen
  }

  // Following a reference uses it up, also when the target leads back to itself.
  lemma FollowingShrinks(root: Json, schema: Json, seen: set<string>)
    requires HasRef(schema) && schema.fields[REF].s !in seen
    requires ResolveRef(root, schema.fields[REF].s).Some?
    ensures var ref := schema.fields[REF].s;
            Unseen(root, Merged(ResolveRef(root, ref).value, schema), seen + {ref}) < Unseen(root, schema, seen)
  {
    var ref := schema.fields[REF].s;
    RefsMerged(root, schema);
    assert ref in Unseen(root, schema, seen);
    assert ref !in Unseen(root, Merged(ResolveRef(root, ref).value, schema), seen + {ref});
  }

  /*** The annotation of a schema ***/

  function Strings(items: seq<Json>): seq<string> {
    if items == [] then []
    else (if items[0].Str? then [items[0].s] else []) + Strings(items[1..])
  }

  function WithoutNull(names: seq<string>): seq<string> {
    if names == [] then []
    else (if names[0] != "null" then [names[0]] else []) + WithoutNull(names[1..])
  }

  function DeclaredTypes(fields: map<string, Json>): seq<string> {
    if "type" !in fields then []
    else if fields["type"].Str? then [fields["type"].s]
    else if fields["type"].Arr? then Strings(fields["type"].items)
    else []
  }

  // A schema without a type is an object if it has properties, else an array if it has items.
  function TypeNames(fields: map<string, Json>): seq<string> {
    var names := WithoutNull(DeclaredTypes(fields));
    if names != [] then names
    else if "properties" in fields then ["object"]
    else if "items" in fields then ["array"]
    else []
  }

  function ScalarAnnotation(name: string): Annotation {
    if name == "string" then Scalar("str")
    else if name == "integer" then Scalar("int")
    else if name == "number" then Scalar("float")
    else if name == "boolean" then Scalar("bool")
    else AnyValue
  }

  function Joined(alternatives: seq<Annotation>): Annotation {
    if alternatives == [] then AnyValue
    else if |alternatives| == 1 then alternatives[0]
    else Union(alternatives)
  }

  predicate Requires(fields: map<string, Json>, name: string) {
    "required" in fields && fields["required"].Arr? && Str(name) in fields["required"].items
  }

  // The default written beside the property, none for a required one, null where there is none.
  function DefaultOf(fields: map<string, Json>, name: string, property: Json): Option<Json>
    requires property.Obj?
  {
    if Requires(fields, name) then None
    else if "default" in property.fields then Some(property.fields["default"])
    else Some(Null)
  }

  predicate HasValues(fields: map<string, Json>) {
    "enum" in fields && fields["enum"].Arr? && fields["enum"].items != []
  }

  predicate HasProperties(fields: map<string, Json>) {
    "properties" in fields && fields["properties"].Obj?
  }

  predicate HasItems(fields: map<string, Json>) {
    "items" in fields && fields["items"].Obj?
  }

  predicate IsProperty(properties: map<string, Json>, name: string) {
    name in properties && properties[name].Obj?
  }

  function ToAnnotation(root: Json, schema: Json, seen: set<string>): Annotation
    decreases Unseen(root, schema, seen), schema, 4
  {
    if !schema.Obj? then AnyValue
    else if HasRef(schema) && schema.fields[REF].s in seen then AnyValue
    else if HasRef(schema) && ResolveRef(root, schema.fields[REF].s).Some? then
      var ref := schema.fields[REF].s;
      FollowingShrinks(root, schema, seen);
      ToAnnotation(root, Merged(ResolveRef(root, ref).value, schema), seen + {ref})
    else Own(root, schema, seen)
  }

  function Own(root: Json, schema: Json, seen: set<string>): Annotation
    requires schema.Obj?
    decreases Unseen(root, schema, seen), schema, 3
  {
    if HasValues(schema.fields) then OneOfValues(schema.fields["enum"].items)
    else
      var joined := Joined(Alternatives(root, schema, seen, TypeNames(schema.fields)));
      if "null" in DeclaredTypes(schema.fields) then Nullable(joined) else joined
  }

  function Alternatives(root: Json, schema: Json, seen: set<string>,
                        names: seq<string>): (alternatives: seq<Annotation>)
    requires schema.Obj?
    ensures |alternatives| == |names|
    ensures forall i | 0 <= i < |names| :: alternatives[i] == ForType(root, schema, seen, names[i])
    decreases Unseen(root, schema, seen), schema, 2
  {
    seq(|names|, i requires 0 <= i < |names| => ForType(root, schema, seen, names[i]))
  }

  function ForType(root: Json, schema: Json, seen: set<string>, name: string): Annotation
    requires schema.Obj?
    decreases Unseen(root, schema, seen), schema, 1
  {
    if name == "object" then
      if HasProperties(schema.fields) then Model(ModelFields(root, schema, seen)) else AnyDict
    else if name == "array" then
      ListOf(if HasItems(schema.fields) then ToAnnotation(root, schema.fields["items"], seen) else AnyValue)
    else ScalarAnnotation(name)
  }

  function ModelFields(root: Json, schema: Json, seen: set<string>): (filled: map<string, Field>)
    requires schema.Obj? && HasProperties(schema.fields)
    ensures var properties := schema.fields["properties"].fields;
            && Refs(schema.fields["properties"]) <= Refs(schema)
            && (forall n :: n in filled <==> IsProperty(properties, n))
            && (forall n | n in filled ::
                  filled[n] == Field(ToAnnotation(root, properties[n], seen),
                                     DefaultOf(schema.fields, n, properties[n])))
    decreases Unseen(root, schema, seen), schema, 0
  {
    var properties := schema.fields["properties"].fields;
    assert Refs(schema.fields["properties"]) <= Refs(schema);
    map n | n in properties && IsProperty(properties, n) ::
      Field(ToAnnotation(root, properties[n], seen), DefaultOf(schema.fields, n, properties[n]))
  }

  // The same built by a recursive method that fills its lists and fields in loops.
  method JsonSchemaToAnnotation(root: Json, schema: Json, seen: set<string>) returns (annotation: Annotation)
    ensures annotation == ToAnnotation(root, schema, seen)
    decreases Unseen(root, schema, seen), schema, 4
  {
    if !schema.Obj? {
      return AnyValue;
    }
    var fields := schema.fields;
    if HasRef(schema) {
      var ref := fields[REF].s;
      if ref in seen {
        return AnyValue;
      }
      var target := ResolveJsonSchemaRef(root, ref);
      if target.Some? {
        FollowingShrinks(root, schema, seen);
        annotation := JsonSchemaToAnnotation(root, Merged(target.value, schema), seen + {ref});
        return;
      }
    }
    if HasValues(fields) {
      return OneOfValues(fields["enum"].items);
    }
    var names := TypeNames(fields);
    var alternatives: seq<Annotation> := [];
    for i := 0 to |names|
      invariant |alternatives| == i
      invariant forall j | 0 <= j < i :: alternatives[j] == ForType(root, schema, seen, names[j])
    {
      var alternative := AnnotationForType(root, schema, seen, names[i]);
      alternatives := alternatives + [alternative];
    }
    assert alternatives == Alternatives(root, schema, seen, names);
    annotation := Joined(alternatives);
    if "null" in DeclaredTypes(fields) {
      annotation := Nullable(annotation);
    }
  }

  method AnnotationForType(root: Json, schema: Json, seen: set<string>, name: string) returns (annotation: Annotation)
    requires schema.Obj?
    ensures annotation == ForType(root, schema, seen, name)
    decreases Unseen(root, schema, seen), schema, 0
  {
    var fields := schema.fields;
    if name == "object" {
      if !HasProperties(fields) {
        return AnyDict;
      }
      var properties := fields["properties"].fields;
      assert Refs(fields["properties"]) <= Refs(schema);
      var filled: map<string, Field> := map[];
      var rest := properties.Keys;
      while rest != {}
        invariant rest <= properties.Keys
        invariant forall k :: k in filled <==> k !in rest && IsProperty(properties, k)
        invariant forall k | k in filled ::
                    filled[k] == Field(ToAnnotation(root, properties[k], seen), DefaultOf(fields, k, properties[k]))
        decreases rest
      {
        var k :| k in rest;
        if IsProperty(properties, k) {
          var property := JsonSchemaToAnnotation(root, properties[k], seen);
          filled := filled[k := Field(property, DefaultOf(fields, k, properties[k]))];
        }
        rest := rest - {k};
      }
      assert filled == ModelFields(root, schema, seen);
      annotation := Model(filled);
    } else if name == "array" {
      var item := AnyValue;
      if HasItems(fields) {
        item := JsonSchemaToAnnotation(root, fields["items"], seen);
      }
      annotation := ListOf(item);
    } else {
      annotation := ScalarAnnotation(name);
    }
  }

  /*** Following references on the way is dereferencing first ***/

  // The schema with every reference on the walk replaced by its target, and one met again inside its own
  // expansion by the empty schema.
  function Deref(root: Json, schema: Json, seen: set<string>): (plain: Json)
    ensures plain.Obj?
    decreases Unseen(root, schema, seen), schema, 2
  {
    if !schema.Obj? then Obj(map[])
    else if HasRef(schema) && schema.fields[REF].s in seen then Obj(map[])
    else if HasRef(schema) && ResolveRef(root, schema.fields[REF].s).Some? then
      var ref := schema.fields[REF].s;
      FollowingShrinks(root, schema, seen);
      Deref(root, Merged(ResolveRef(root, ref).value, schema), seen + {ref})
    else Obj(DerefFields(root, schema, seen))
  }

  function DerefFields(root: Json, schema: Json, seen: set<string>): (fields: map<string, Json>)
    requires schema.Obj?
    ensures fields.Keys == schema.fields.Keys - {REF}
    ensures forall k | k in fields && k != "properties" && k != "items" :: fields[k] == schema.fields[k]
    ensures "properties" in fields ==>
              fields["properties"] == if HasProperties(schema.fields) then Obj(DerefProperties(root, schema, seen))
                                      else schema.fields["properties"]
    ensures "items" in fields ==>
              fields["items"] == if HasItems(schema.fields) then Deref(root, schema.fields["items"], seen)
                                 else schema.fields["items"]
    decreases Unseen(root, schema, seen), schema, 1
  {
    var fields := schema.fields;
    map k | k in fields && k != REF ::
      if k == "properties" && HasProperties(fields) then Obj(DerefProperties(root, schema, seen))
      else if k == "items" && HasItems(fields) then Deref(root, fields["items"], seen)
      else fields[k]
  }

  function DerefProperties(root: Json, schema: Json, seen: set<string>): (plains: map<string, Json>)
    requires schema.Obj? && HasProperties(schema.fields)
    ensures var properties := schema.fields["properties"].fields;
            && Refs(schema.fields["properties"]) <= Refs(schema)
            && (forall n :: n in plains <==> IsProperty(properties, n))
            && (forall n | n in plains :: plains[n] == WithDefault(properties[n], Deref(root, properties[n], seen)))
    decreases Unseen(root, schema, seen), schema, 0
  {
    var properties := schema.fields["properties"].fields;
    assert Refs(schema.fields["properties"]) <= Refs(schema);
    map n | n in properties && IsProperty(properties, n) :: WithDefault(properties[n], Deref(root, properties[n], seen))
  }

  // A default behind a reference does not count, only one beside it.
  function WithDefault(property: Json, plain: Json): (p: Json)
    requires property.Obj? && plain.Obj?
    ensures p.Obj?
  {
    if "default" in property.fields then Obj(plain.fields["default" := property.fields["default"]])
    else Obj(plain.fields - {"default"})
  }

  // No reference is left where the walk goes.
  predicate Plain(schema: Json) {
    schema.Obj? ==>
      && REF !in schema.fields
      && (HasProperties(schema.fields) ==>
            forall n | n in schema.fields["properties"].fields :: Plain(schema.fields["properties"].fields[n]))
      && (HasItems(schema.fields) ==> Plain(schema.fields["items"]))
  }

  // The schema itself is annotated, with no reference followed or cut.
  predicate Stays(root: Json, schema: Json, seen: set<string>) {
    schema.Obj? && (HasRef(schema) ==> schema.fields[REF].s !in seen && ResolveRef(root, schema.fields[REF].s).None?)
  }

  predicate SameKey(fields: map<string, Json>, others: map<string, Json>, k: string) {
    (k in fields <==> k in others) && (k in fields ==> fields[k] == others[k])
  }

  // Two schemas name the same types and list the same values.
  predicate SameShape(fields: map<string, Json>, others: map<string, Json>) {
    && SameKey(fields, others, "enum") && SameKey(fields, others, "type")
    && ("properties" in fields <==> "properties" in others)
    && ("items" in fields <==> "items" in others)
  }

  lemma SameOwn(root: Json, schema: Json, seen: set<string>, other: Json, plain: Json, otherSeen: set<string>)
    requires schema.Obj? && plain.Obj? && SameShape(schema.fields, plain.fields)
    requires forall name :: ForType(root, schema, seen, name) == ForType(other, plain, otherSeen, name)
    ensures Own(root, schema, seen) == Own(other, plain, otherSeen)
  {
    var names := TypeNames(schema.fields);
    var left, right := Alternatives(root, schema, seen, names), Alternatives(other, plain, otherSeen, names);
    assert left == right;
  }

  lemma SameAnnotation(root: Json, schema: Json, seen: set<string>, other: Json, plain: Json, otherSeen: set<string>)
    requires Stays(root, schema, seen) && Stays(other, plain, otherSeen) && SameShape(schema.fields, plain.fields)
    requires forall name :: ForType(root, schema, seen, name) == ForType(other, plain, otherSeen, name)
    ensures ToAnnotation(root, schema, seen) == ToAnnotation(other, plain, otherSeen)
  {
    SameOwn(root, schema, seen, other, plain, otherSeen);
  }

  // Property n gets the same field from both schemas.
  predicate SameProperty(root: Json, schema: Json, seen: set<string>, other: Json, plain: Json,
                         otherSeen: set<string>, n: string)
    requires schema.Obj? && plain.Obj? && HasProperties(schema.fields) && HasProperties(plain.fields)
  {
    var ps, qs := schema.fields["properties"].fields, plain.fields["properties"].fields;
    if IsProperty(ps, n) then
      && IsProperty(qs, n)
      && ToAnnotation(root, ps[n], seen) == ToAnnotation(other, qs[n], otherSeen)
      && DefaultOf(schema.fields, n, ps[n]) == DefaultOf(plain.fields, n, qs[n])
    else !IsProperty(qs, n)
  }

  lemma SameModel(root: Json, schema: Json, seen: set<string>, other: Json, plain: Json, otherSeen: set<string>)
    requires schema.Obj? && plain.Obj? && HasProperties(schema.fields) && HasProperties(plain.fields)
    requires forall n :: SameProperty(root, schema, seen, other, plain, otherSeen, n)
    ensures ForType(root, schema, seen, "object") == ForType(other, plain, otherSeen, "object")
  {
    var filled, others := ModelFields(root, schema, seen), ModelFields(other, plain, otherSeen);
    forall n
      ensures n in filled <==> n in others
      ensures n in filled ==> filled[n] == others[n]
    {
      assert SameProperty(root, schema, seen, other, plain, otherSeen, n);
    }
    assert filled == others;
  }

  // The default of a schema is read by the object it is a property of, never by its own annotation.
  lemma OwnDefaultIgnored(root: Json, property: Json, plain: Json, seen: set<string>)
    requires property.Obj? && plain.Obj? && REF !in plain.fields
    ensures ToAnnotation(root, WithDefault(property, plain), seen) == ToAnnotation(root, plain, seen)
    ensures Plain(plain) ==> Plain(WithDefault(property, plain))
  {
    var changed := WithDefault(property, plain);
    forall name
      ensures ForType(root, changed, seen, name) == ForType(root, plain, seen, name)
    {
      if name == "object" && HasProperties(plain.fields) {
        SameModel(root, changed, seen, root, plain, seen);
      }
    }
    SameAnnotation(root, changed, seen, root, plain, seen);
  }

  lemma {:induction false} DerefIsPlain(root: Json, schema: Json, seen: set<string>)
    ensures Plain(Deref(root, schema, seen))
    decreases Unseen(root, schema, seen), schema
  {
    if !schema.Obj? || (HasRef(schema) && schema.fields[REF].s in seen) {
    } else if HasRef(schema) && ResolveRef(root, schema.fields[REF].s).Some? {
      var ref := schema.fields[REF].s;
      FollowingShrinks(root, schema, seen);
      DerefIsPlain(root, Merged(ResolveRef(root, ref).value, schema), seen + {ref});
    } else {
      var fields := schema.fields;
      if HasProperties(fields) {
        var properties := fields["properties"].fields;
        assert Refs(fields["properties"]) <= Refs(schema);
        forall n | n in properties && IsProperty(properties, n)
          ensures Plain(WithDefault(properties[n], Deref(root, properties[n], seen)))
        {
          DerefIsPlain(root, properties[n], seen);
          OwnDefaultIgnored(root, properties[n], Deref(root, properties[n], seen), seen);
        }
      }
      if HasItems(fields) {
        DerefIsPlain(root, fields["items"], seen);
      }
    }
  }

  // Building from the dereferenced schema, with any root and any references seen, gives the same annotation.
  lemma {:induction false} DerefKeepsAnnotation(root: Json, schema: Json, seen: set<string>, other: Json,
                                                otherSeen: set<string>)
    ensures ToAnnotation(other, Deref(root, schema, seen), otherSeen) == ToAnnotation(root, schema, seen)
    decreases Unseen(root, schema, seen), schema, 2
  {
    if !schema.Obj? || (HasRef(schema) && schema.fields[REF].s in seen) {
    } else if HasRef(schema) && ResolveRef(root, schema.fields[REF].s).Some? {
      var ref := schema.fields[REF].s;
      FollowingShrinks(root, schema, seen);
      DerefKeepsAnnotation(root, Merged(ResolveRef(root, ref).value, schema), seen + {ref}, other, otherSeen);
    } else {
      var plain := Obj(DerefFields(root, schema, seen));
      forall name
        ensures ForType(root, schema, seen, name) == ForType(other, plain, otherSeen, name)
      {
        DerefKeepsForType(root, schema, seen, other, otherSeen, name);
      }
      SameAnnotation(root, schema, seen, other, plain, otherSeen);
    }
  }

  lemma {:induction false} DerefKeepsForType(root: Json, schema: Json, seen: set<string>, other: Json,
                                             otherSeen: set<string>, name: string)
    requires schema.Obj?
    ensures ForType(root, schema, seen, name) == ForType(other, Obj(DerefFields(root, schema, seen)), otherSeen, name)
    decreases Unseen(root, schema, seen), schema, 1
  {
    var plain := DerefFields(root, schema, seen);
    if HasProperties(schema.fields) {
      DerefKeepsProperties(root, schema, seen, other, otherSeen);
      SameProperties(root, schema, seen, other, Obj(plain), otherSeen);
    }
    if HasItems(schema.fields) {
      DerefKeepsAnnotation(root, schema.fields["items"], seen, other, otherSeen);
    }
    SameForType(root, schema, seen, other, Obj(plain), otherSeen, name);
  }

  lemma SameForType(root: Json, schema: Json, seen: set<string>, other: Json, plain: Json, otherSeen: set<string>,
                    name: string)
    requires schema.Obj? && plain.Obj?
    requires HasProperties(schema.fields) <==> HasProperties(plain.fields)
    requires HasProperties(schema.fields) ==>
               ForType(root, schema, seen, "object") == ForType(other, plain, otherSeen, "object")
    requires HasItems(schema.fields) <==> HasItems(plain.fields)
    requires HasItems(schema.fields) ==>
               ToAnnotation(root, schema.fields["items"], seen) == ToAnnotation(other, plain.fields["items"], otherSeen)
    ensures ForType(root, schema, seen, name) == ForType(other, plain, otherSeen, name)
  {
  }

  lemma {:induction false} DerefKeepsProperties(root: Json, schema: Json, seen: set<string>, other: Json,
                                                otherSeen: set<string>)
    requires schema.Obj? && HasProperties(schema.fields)
    ensures PropertiesKept(root, schema.fields["properties"].fields, seen, other, otherSeen)
    decreases Unseen(root, schema, seen), schema, 0
  {
    var properties := schema.fields["properties"];
    assert Refs(properties) <= Refs(schema);
    forall n | IsProperty(properties.fields, n)
      ensures ToAnnotation(root, properties.fields[n], seen)
              == ToAnnotation(other, Deref(root, properties.fields[n], seen), otherSeen)
      ensures REF !in Deref(root, properties.fields[n], seen).fields
    {
      assert Refs(properties.fields[n]) <= Refs(properties);
      DerefKeepsAnnotation(root, properties.fields[n], seen, other, otherSeen);
      DerefIsPlain(root, properties.fields[n], seen);
    }
  }

  predicate PropertiesKept(root: Json, properties: map<string, Json>, seen: set<string>, other: Json,
                           otherSeen: set<string>) {
    forall n | n in properties && IsProperty(properties, n) ::
      && ToAnnotation(root, properties[n], seen) == ToAnnotation(other, Deref(root, properties[n], seen), otherSeen)
      && REF !in Deref(root, properties[n], seen).fields
  }

  lemma SameProperties(root: Json, schema: Json, seen: set<string>, other: Json, plain: Json, otherSeen: set<string>)
    requires schema.Obj? && plain.Obj? && HasProperties(schema.fields)
    requires SameKey(schema.fields, plain.fields, "required")
    requires "properties" in plain.fields && plain.fields["properties"] == Obj(DerefProperties(root, schema, seen))
    requires PropertiesKept(root, schema.fields["properties"].fields, seen, other, otherSeen)
    ensures ForType(root, schema, seen, "object") == ForType(other, plain, otherSeen, "object")
  {
    var properties := schema.fields["properties"].fields;
    forall n
      ensures SameProperty(root, schema, seen, other, plain, otherSeen, n)
    {
      if IsProperty(properties, n) {
        OwnDefaultIgnored(other, properties[n], Deref(root, properties[n], seen), otherSeen);
      }
    }
    SameModel(root, schema, seen, other, plain, otherSeen);
  }
}
