/** Which arguments a tool accepts: the JSON values that belong to an argument type, and that these are the values
    the tool's schema allows. */
module ToolArguments {
  import opened Wrappers
  import opened JsonValues
  import opened JsonPointers
  import opened SchemaAnnotations

  /*** The values of a type ***/

  predicate IsWhole(x: real) {
    x == x.Floor as real
  }

  predicate InScalar(name: string, v: Json) {
    match name
    case "str" => v.Str?
    case "int" => v.Number? && IsWhole(v.value)
    case "float" => v.Number?
    case "bool" => v.Bool?
    case _ => false
  }

  // A model reads the fields it names: a missing one needs a default, and other fields do not matter.
  predicate Admits(a: Annotation, v: Json)
    decreases a
  {
    match a
    case AnyValue => true
    case Scalar(name) => InScalar(name, v)
    case OneOfValues(values) => v in values
    case AnyDict => v.Obj?
    case Model(fields) =>
      v.Obj? && forall n | n in fields ::
        if n in v.fields then Admits(fields[n].annotation, v.fields[n]) else fields[n].default.Some?
    case ListOf(item) => v.Arr? && forall x | x in v.items :: Admits(item, x)
    case Union(alternatives) => exists i | 0 <= i < |alternatives| :: Admits(alternatives[i], v)
    case Nullable(inner) => v.Null? || Admits(inner, v)
  }

  /*** The values a plain schema allows ***/

  // The list under a key, if there is one.
  function Listed(fields: map<string, Json>, key: string): seq<Json> {
    if key in fields && fields[key].Arr? then fields[key].items else []
  }

  predicate Names(fields: map<string, Json>, t: string) {
    ("type" in fields && fields["type"] == Str(t)) || Str(t) in Listed(fields, "type")
  }

  ghost predicate Typed(fields: map<string, Json>) {
    exists t :: t != "null" && Names(fields, t)
  }

  // Without a type, properties ask for an object, and items for an array.
  ghost predicate WantsObject(fields: map<string, Json>) {
    if Typed(fields) then Names(fields, "object") else "properties" in fields
  }

  ghost predicate WantsArray(fields: map<string, Json>) {
    if Typed(fields) then Names(fields, "array") else "items" in fields && "properties" !in fields
  }

  const JSON_TYPES: set<string> := {"null", "boolean", "integer", "number", "string", "array", "object"}

  // Nothing is asked, or some type that is no JSON type is named.
  ghost predicate TakesAnything(fields: map<string, Json>) {
    if Typed(fields) then exists t :: t !in JSON_TYPES && Names(fields, t)
    else "properties" !in fields && "items" !in fields
  }

  ghost predicate Allows(schema: Json, v: Json)
    decreases schema
  {
    if !schema.Obj? then true
    else
      var fields := schema.fields;
      if Listed(fields, "enum") != [] then v in Listed(fields, "enum")
      else
        || TakesAnything(fields)
        || match v
           case Null => Names(fields, "null")
           case Bool(_) => Names(fields, "boolean")
           case Number(x) => Names(fields, "number") || (Names(fields, "integer") && IsWhole(x))
           case Str(_) => Names(fields, "string")
           case Arr(items) =>
             WantsArray(fields) && ("items" in fields ==> forall x | x in items :: Allows(fields["items"], x))
           case Obj(values) =>
             WantsObject(fields)
             && ("properties" in fields && fields["properties"].Obj? ==>
                   var properties := fields["properties"].fields;
                   forall n | n in properties && properties[n].Obj? ::
                     if n in values then Allows(properties[n], values[n]) else Str(n) !in Listed(fields, "required"))
  }

  /*** The two agree ***/

  lemma {:induction false} InStrings(items: seq<Json>, name: string)
    ensures name in Strings(items) <==> Str(name) in items
  {
    if items != [] {
      InStrings(items[1..], name);
      assert items == [items[0]] + items[1..];
    }
  }

  lemma {:induction false} InWithoutNull(names: seq<string>, name: string)
    ensures name in WithoutNull(names) <==> name in names && name != "null"
  {
    if names != [] {
      InWithoutNull(names[1..], name);
      assert names == [names[0]] + names[1..];
    }
  }

  lemma DeclaredIsNamed(fields: map<string, Json>, name: string)
    ensures name in DeclaredTypes(fields) <==> Names(fields, name)
  {
    InStrings(Listed(fields, "type"), name);
  }

  lemma TypeNamed(fields: map<string, Json>, name: string)
    ensures name in TypeNames(fields) <==>
              if Typed(fields) then name != "null" && Names(fields, name)
              else if "properties" in fields then name == "object"
              else "items" in fields && name == "array"
  {
    var names := WithoutNull(DeclaredTypes(fields));
    forall t
      ensures t in names <==> t != "null" && Names(fields, t)
    {
      InWithoutNull(DeclaredTypes(fields), t);
      DeclaredIsNamed(fields, t);
    }
    if names != [] {
      assert names[0] in names;
    }
  }

  // What the schema asks of a value as one of the type name.
  ghost predicate AllowsAs(schema: Json, name: string, v: Json)
    requires schema.Obj?
  {
    match name
    case "object" =>
      v.Obj? && (HasProperties(schema.fields) ==>
                   var properties := schema.fields["properties"].fields;
                   forall n | n in properties && properties[n].Obj? ::
                     if n in v.fields then Allows(properties[n], v.fields[n])
                     else Str(n) !in Listed(schema.fields, "required"))
    case "array" =>
      v.Arr? && ("items" in schema.fields ==> forall x | x in v.items :: Allows(schema.fields["items"], x))
    case "string" => v.Str?
    case "integer" => v.Number? && IsWhole(v.value)
    case "number" => v.Number?
    case "boolean" => v.Bool?
    case _ => true
  }

  // One of the types that the schema names allows v.
  ghost predicate AllowsAsNamed(schema: Json, v: Json)
    requires schema.Obj?
  {
    exists name :: name in TypeNames(schema.fields) && AllowsAs(schema, name, v)
  }

  lemma AllowedIsNamed(schema: Json, v: Json)
    requires schema.Obj? && !HasValues(schema.fields) && Allows(schema, v)
    ensures (v.Null? && Names(schema.fields, "null")) || TypeNames(schema.fields) == [] || AllowsAsNamed(schema, v)
  {
    var fields := schema.fields;
    var names := TypeNames(fields);
    if TakesAnything(fields) {
      if Typed(fields) {
        var t :| t !in JSON_TYPES && Names(fields, t);
        TypeNamed(fields, t);
        assert t in names && AllowsAs(schema, t, v);
      } else if names != [] {
        TypeNamed(fields, names[0]);
      }
    } else if !v.Null? {
      var name := match v
        case Bool(_) => "boolean"
        case Number(_) => if Names(fields, "number") then "number" else "integer"
        case Str(_) => "string"
        case Arr(_) => "array"
        case _ => "object";
      TypeNamed(fields, name);
      assert name in names && AllowsAs(schema, name, v);
    }
  }

  lemma NamedIsAllowed(schema: Json, name: string, v: Json)
    requires schema.Obj? && !HasValues(schema.fields)
    requires name in TypeNames(schema.fields) && AllowsAs(schema, name, v)
    ensures Allows(schema, v)
  {
    TypeNamed(schema.fields, name);
    if name !in JSON_TYPES {
      assert Names(schema.fields, name);
    }
  }

  lemma AllowsByType(schema: Json, v: Json)
    requires schema.Obj? && !HasValues(schema.fields)
    ensures Allows(schema, v) <==>
              (v.Null? && Names(schema.fields, "null")) || TypeNames(schema.fields) == [] || AllowsAsNamed(schema, v)
  {
    var names := TypeNames(schema.fields);
    if Allows(schema, v) {
      AllowedIsNamed(schema, v);
    } else if name :| name in names && AllowsAs(schema, name, v) {
      NamedIsAllowed(schema, name, v);
    } else if names == [] {
      UnnamedTakesAnything(schema.fields);
    }
  }

  lemma UnnamedTakesAnything(fields: map<string, Json>)
    requires TypeNames(fields) == []
    ensures TakesAnything(fields)
  {
    if t :| t != "null" && Names(fields, t) {
      TypeNamed(fields, t);
    }
    TypeNamed(fields, "object");
    TypeNamed(fields, "array");
  }

  lemma JoinedAdmits(alternatives: seq<Annotation>, v: Json)
    ensures Admits(Joined(alternatives), v) <==>
              alternatives == [] || exists i :: 0 <= i < |alternatives| && Admits(alternatives[i], v)
  {
  }

  ghost predicate AdmitsAsNamed(root: Json, schema: Json, seen: set<string>, names: seq<string>, v: Json)
    requires schema.Obj?
  {
    exists name :: name in names && Admits(ForType(root, schema, seen, name), v)
  }

  lemma AlternativesAdmit(root: Json, schema: Json, seen: set<string>, names: seq<string>, v: Json)
    requires schema.Obj?
    ensures Admits(Joined(Alternatives(root, schema, seen, names)), v) <==>
              names == [] || AdmitsAsNamed(root, schema, seen, names, v)
  {
    var alternatives := Alternatives(root, schema, seen, names);
    JoinedAdmits(alternatives, v);
    SomeNamed(root, schema, seen, names, alternatives, v);
  }

  lemma SomeNamed(root: Json, schema: Json, seen: set<string>, names: seq<string>, alternatives: seq<Annotation>,
                  v: Json)
    requires schema.Obj? && |alternatives| == |names|
    requires forall i | 0 <= i < |names| :: alternatives[i] == ForType(root, schema, seen, names[i])
    ensures AdmitsAsNamed(root, schema, seen, names, v) <==>
              exists i :: 0 <= i < |alternatives| && Admits(alternatives[i], v)
  {
    if i :| 0 <= i < |names| && Admits(alternatives[i], v) {
      assert names[i] in names && Admits(ForType(root, schema, seen, names[i]), v);
    }
    if name :| name in names && Admits(ForType(root, schema, seen, name), v) {
      var i :| 0 <= i < |names| && names[i] == name;
      assert Admits(alternatives[i], v);
    }
  }

  lemma OwnAdmits(root: Json, schema: Json, seen: set<string>, v: Json)
    requires schema.Obj? && !HasValues(schema.fields)
    ensures Admits(Own(root, schema, seen), v) <==>
              || (v.Null? && Names(schema.fields, "null"))
              || TypeNames(schema.fields) == []
              || AdmitsAsNamed(root, schema, seen, TypeNames(schema.fields), v)
  {
    DeclaredIsNamed(schema.fields, "null");
    AlternativesAdmit(root, schema, seen, TypeNames(schema.fields), v);
  }

  // The annotation of a schema without references admits exactly the values that the schema allows.
  lemma {:induction false} AdmitsAllowed(root: Json, schema: Json, seen: set<string>, v: Json)
    requires Plain(schema)
    ensures Admits(ToAnnotation(root, schema, seen), v) <==> Allows(schema, v)
    decreases schema, 1
  {
    if schema.Obj? && !HasValues(schema.fields) {
      forall name
        ensures Admits(ForType(root, schema, seen, name), v) <==> AllowsAs(schema, name, v)
      {
        AdmitsAsType(root, schema, seen, name, v);
      }
      OwnAdmits(root, schema, seen, v);
      AllowsByType(schema, v);
    }
  }

  lemma {:induction false} AdmitsAsType(root: Json, schema: Json, seen: set<string>, name: string, v: Json)
    requires schema.Obj? && Plain(schema)
    ensures Admits(ForType(root, schema, seen, name), v) <==> AllowsAs(schema, name, v)
    decreases schema, 0
  {
    if name == "object" {
      if HasProperties(schema.fields) && v.Obj? {
        var properties := schema.fields["properties"].fields;
        forall n | IsProperty(properties, n) && n in v.fields
          ensures Admits(ToAnnotation(root, properties[n], seen), v.fields[n]) <==> Allows(properties[n], v.fields[n])
        {
          AdmitsAllowed(root, properties[n], seen, v.fields[n]);
        }
        AdmitsModel(root, schema, seen, v);
      }
    } else if name == "array" {
      if HasItems(schema.fields) && v.Arr? {
        forall x | x in v.items
          ensures Admits(ToAnnotation(root, schema.fields["items"], seen), x) <==> Allows(schema.fields["items"], x)
        {
          AdmitsAllowed(root, schema.fields["items"], seen, x);
        }
      }
      AdmitsList(root, schema, seen, v);
    } else {
      AdmitsScalar(root, schema, seen, name, v);
    }
  }

  lemma AdmitsModel(root: Json, schema: Json, seen: set<string>, v: Json)
    requires schema.Obj? && HasProperties(schema.fields) && v.Obj?
    requires var properties := schema.fields["properties"].fields;
             forall n | IsProperty(properties, n) && n in v.fields ::
               Admits(ToAnnotation(root, properties[n], seen), v.fields[n]) <==> Allows(properties[n], v.fields[n])
    ensures Admits(ForType(root, schema, seen, "object"), v) <==> AllowsAs(schema, "object", v)
  {
    var fields := ModelFields(root, schema, seen);
    assert Admits(Model(fields), v) <==>
           forall n | n in fields ::
             if n in v.fields then Admits(fields[n].annotation, v.fields[n]) else fields[n].default.Some?;
  }

  lemma AdmitsList(root: Json, schema: Json, seen: set<string>, v: Json)
    requires schema.Obj?
    requires HasItems(schema.fields) && v.Arr? ==>
               forall x | x in v.items ::
                 Admits(ToAnnotation(root, schema.fields["items"], seen), x) <==> Allows(schema.fields["items"], x)
    ensures Admits(ForType(root, schema, seen, "array"), v) <==> AllowsAs(schema, "array", v)
  {
    var item := if HasItems(schema.fields) then ToAnnotation(root, schema.fields["items"], seen) else AnyValue;
    assert Admits(ListOf(item), v) <==> v.Arr? && forall x | x in v.items :: Admits(item, x);
  }

  lemma AdmitsScalar(root: Json, schema: Json, seen: set<string>, name: string, v: Json)
    requires schema.Obj? && name != "object" && name != "array"
    ensures Admits(ForType(root, schema, seen, name), v) <==> AllowsAs(schema, name, v)
  {
  }

  // With references, the values are those that the dereferenced schema allows.
  lemma ReferencesAdmitAllowed(root: Json, schema: Json, seen: set<string>, v: Json)
    ensures Admits(ToAnnotation(root, schema, seen), v) <==> Allows(Deref(root, schema, seen), v)
  {
    DerefIsPlain(root, schema, seen);
    DerefKeepsAnnotation(root, schema, seen, root, seen);
    AdmitsAllowed(root, Deref(root, schema, seen), seen, v);
  }

  // A reference met again admits anything, one that leads nowhere is as if it were not there, and any other one is
  // its target with the keys beside it laid over.
  lemma ReferenceMeaning(root: Json, schema: Json, seen: set<string>, v: Json)
    requires HasRef(schema)
    ensures var ref := schema.fields[REF].s;
            Admits(ToAnnotation(root, schema, seen), v) <==>
              if ref in seen then true
              else if ResolveRef(root, ref).None? then
                Admits(ToAnnotation(root, Obj(schema.fields - {REF}), seen), v)
              else
                Admits(ToAnnotation(root, Merged(ResolveRef(root, ref).value, schema), seen + {ref}), v)
  {
    var ref, bare := schema.fields[REF].s, Obj(schema.fields - {REF});
    if ref !in seen && ResolveRef(root, ref).None? {
      forall name
        ensures ForType(root, schema, seen, name) == ForType(root, bare, seen, name)
      {
        if name == "object" && HasProperties(schema.fields) {
          SameModel(root, schema, seen, root, bare, seen);
        }
      }
      SameAnnotation(root, schema, seen, root, bare, seen);
    }
  }

  /*** The arguments of a tool ***/

  // A tool's arguments: those given are allowed, and none that is required is missing.
  ghost predicate AcceptsArguments(input: Json, v: Json) {
    && v.Obj?
    && (input.Obj? && "properties" in input.fields && input.fields["properties"].Obj? ==>
          var properties := input.fields["properties"].fields;
          forall n | n in properties && properties[n].Obj? ::
            if n in v.fields then Allows(Deref(input, properties[n], {}), v.fields[n])
            else Str(n) !in Listed(input.fields, "required"))
  }

  // What a missing argument becomes: nothing for a required one, else the default beside it, else null.
  predicate FilledWith(input: map<string, Json>, property: map<string, Json>, name: string, default: Option<Json>) {
    if Str(name) in Listed(input, "required") then default.None?
    else default == Some(if "default" in property then property["default"] else Null)
  }

  function ArgumentFields(input: Json): map<string, Field> {
    if input.Obj? && HasProperties(input.fields) then ModelFields(input, input, {}) else map[]
  }

  lemma ArgumentsAdmitted(input: Json, v: Json)
    ensures Admits(Model(ArgumentFields(input)), v) <==> AcceptsArguments(input, v)
  {
    if input.Obj? && HasProperties(input.fields) && v.Obj? {
      var properties := input.fields["properties"].fields;
      forall n | IsProperty(properties, n) && n in v.fields
        ensures Admits(ToAnnotation(input, properties[n], {}), v.fields[n])
                <==> Allows(Deref(input, properties[n], {}), v.fields[n])
      {
        ReferencesAdmitAllowed(input, properties[n], {}, v.fields[n]);
      }
    }
  }

  // The argument type built for a tool admits exactly the arguments that its schema accepts.
  method BuildArgsSchema(input: Json) returns (args: Annotation)
    ensures args.Model?
    ensures forall v :: Admits(args, v) <==> AcceptsArguments(input, v)
    ensures forall n | n in args.fields ::
              && input.Obj? && HasProperties(input.fields) && IsProperty(input.fields["properties"].fields, n)
              && FilledWith(input.fields, input.fields["properties"].fields[n].fields, n, args.fields[n].default)
  {
    var filled: map<string, Field> := map[];
    if input.Obj? && HasProperties(input.fields) {
      var fields, properties := input.fields, input.fields["properties"].fields;
      var rest := properties.Keys;
      while rest != {}
        invariant rest <= properties.Keys
        invariant forall k :: k in filled <==> k !in rest && IsProperty(properties, k)
        invariant forall k | k in filled ::
                    filled[k] == Field(ToAnnotation(input, properties[k], {}), DefaultOf(fields, k, properties[k]))
        decreases rest
      {
        var k :| k in rest;
        if IsProperty(properties, k) {
          var argument := JsonSchemaToAnnotation(input, properties[k], {});
          filled := filled[k := Field(argument, DefaultOf(fields, k, properties[k]))];
        }
        rest := rest - {k};
      }
    }
    assert filled == ArgumentFields(input);
    forall v
      ensures Admits(Model(filled), v) <==> AcceptsArguments(input, v)
    {
      ArgumentsAdmitted(input, v);
    }
    return Model(filled);
  }
}
