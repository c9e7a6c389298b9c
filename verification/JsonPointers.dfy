/** References into a JSON schema: the pointer text of a path of object keys, and the lookup that follows
    it. The escapes are those of sections 3 and 4 of RFC 6901. */
module JsonPointers {
  import opened Wrappers
  import opened JsonValues

  /*** Escapes ***/

  function Escape(key: string): (t: string)
    ensures '/' !in t
  {
    if key == "" then ""
    else (if key[0] == '~' then "~0" else if key[0] == '/' then "~1" else [key[0]]) + Escape(key[1..])
  }

  // Every occurrence of the pair a, b becomes c, from left to right.
  function Replace(t: string, a: char, b: char, c: char): string {
    if t == "" then ""
    else if |t| >= 2 && t[0] == a && t[1] == b then [c] + Replace(t[2..], a, b, c)
    else [t[0]] + Replace(t[1..], a, b, c)
  }

  function Unescape(t: string): string {
    Replace(Replace(t, '~', '1', '/'), '~', '0', '~')
  }

  // A key with only its tildes escaped: what is left between the two replacements.
  function HalfEscape(key: string): string {
    if key == "" then "" else (if key[0] == '~' then "~0" else [key[0]]) + HalfEscape(key[1..])
  }

  // A character that does not start the pair is kept.
  lemma ReplaceOther(first: char, rest: string, a: char, b: char, c: char)
    requires first != a || rest == "" || rest[0] != b
    ensures Replace([first] + rest, a, b, c) == [first] + Replace(rest, a, b, c)
  {
    assert ([first] + rest)[1..] == rest;
  }

  // Two characters that neither start nor complete the pair are kept.
  lemma ReplaceOthers(first: char, second: char, rest: string, a: char, b: char, c: char)
    requires second != b && second != a
    ensures Replace([first, second] + rest, a, b, c) == [first, second] + Replace(rest, a, b, c)
  {
    ReplaceOther(first, [second] + rest, a, b, c);
    ReplaceOther(second, rest, a, b, c);
    assert [first, second] + rest == [first] + ([second] + rest);
  }

  lemma {:induction false} SlashesFirst(key: string)
    ensures Replace(Escape(key), '~', '1', '/') == HalfEscape(key)
  {
    if key != "" {
      var rest := Escape(key[1..]);
      SlashesFirst(key[1..]);
      if key[0] == '~' {
        ReplaceOthers('~', '0', rest, '~', '1', '/');
      } else if key[0] != '/' {
        ReplaceOther(key[0], rest, '~', '1', '/');
      }
    }
  }

  lemma {:induction false} TildesLast(key: string)
    ensures Replace(HalfEscape(key), '~', '0', '~') == key
  {
    if key != "" {
      var rest := HalfEscape(key[1..]);
      TildesLast(key[1..]);
      if key[0] != '~' {
        ReplaceOther(key[0], rest, '~', '0', '~');
      }
    }
  }

  lemma UnescapeEscape(key: string)
    ensures Unescape(Escape(key)) == key
  {
    SlashesFirst(key);
    TildesLast(key);
  }

  /*** Splitting and joining ***/

  function Split(t: string): (parts: seq<string>)
    ensures parts != []
  {
    if t == "" then [""]
    else
      var parts := Split(t[1..]);
      if t[0] == '/' then [""] + parts else [[t[0]] + parts[0]] + parts[1..]
  }

  function Join(parts: seq<string>): string
    requires parts != []
  {
    if |parts| == 1 then parts[0] else parts[0] + "/" + Join(parts[1..])
  }

  lemma {:induction false} SplitPart(part: string, rest: string)
    requires '/' !in part
    ensures Split(part) == [part]
    ensures Split(part + "/" + rest) == [part] + Split(rest)
  {
    var t := part + "/" + rest;
    if part == "" {
      assert t[1..] == rest;
    } else {
      SplitPart(part[1..], rest);
      assert t[1..] == part[1..] + "/" + rest;
      assert [part[0]] + part[1..] == part;
    }
  }

  lemma {:induction false} SplitJoin(parts: seq<string>)
    requires parts != [] && forall p | p in parts :: '/' !in p
    ensures Split(Join(parts)) == parts
  {
    if |parts| == 1 {
      SplitPart(parts[0], "");
    } else {
      SplitPart(parts[0], Join(parts[1..]));
      SplitJoin(parts[1..]);
    }
  }

  /*** Lookup ***/

  function At(j: Json, path: seq<string>): Option<Json>
    decreases path
  {
    if path == [] then Some(j)
    else if j.Obj? && path[0] in j.fields then At(j.fields[path[0]], path[1..])
    else None
  }

  function Keys(t: string): (keys: seq<string>)
    ensures keys != []
  {
    var parts := Split(t);
    seq(|parts|, i requires 0 <= i < |parts| => Unescape(parts[i]))
  }

  predicate IsLocal(ref: string) {
    |ref| >= 2 && ref[..2] == "#/"
  }

  // Only an object is a schema that a reference can stand for.
  function ResolveRef(root: Json, ref: string): (target: Option<Json>)
    ensures target.Some? ==> target.value.Obj?
  {
    if !IsLocal(ref) then None
    else
      var target := At(root, Keys(ref[2..]));
      if target.Some? && target.value.Obj? then target else None
  }

  method ResolveJsonSchemaRef(root: Json, ref: string) returns (target: Option<Json>)
    ensures target == ResolveRef(root, ref)
  {
    if !IsLocal(ref) {
      return None;
    }
    var current := root;
    var parts := Split(ref[2..]);
    ghost var keys := Keys(ref[2..]);
    for i := 0 to |parts|
      invariant At(root, keys) == At(current, keys[i..])
    {
      var key := Unescape(parts[i]);
      assert keys[i..][0] == key && keys[i..][1..] == keys[i + 1..];
      if !current.Obj? || key !in current.fields {
        return None;
      }
      current := current.fields[key];
    }
    return if current.Obj? then Some(current) else None;
  }

  // The printed pointer of a path that is not empty.
  function Pointer(path: seq<string>): string
    requires path != []
  {
    "#/" + Join(Escaped(path))
  }

  function Escaped(path: seq<string>): (parts: seq<string>)
    ensures |parts| == |path| && forall i | 0 <= i < |path| :: parts[i] == Escape(path[i])
  {
    seq(|path|, i requires 0 <= i < |path| => Escape(path[i]))
  }

  lemma KeysOfPointer(path: seq<string>)
    requires path != []
    ensures IsLocal(Pointer(path)) && Keys(Pointer(path)[2..]) == path
  {
    var parts := Escaped(path);
    assert Pointer(path)[2..] == Join(parts);
    forall p | p in parts
      ensures '/' !in p
    {
      var i :| 0 <= i < |parts| && parts[i] == p;
      assert p == Escape(path[i]);
    }
    SplitJoin(parts);
    forall i | 0 <= i < |path|
      ensures Keys(Join(parts))[i] == path[i]
    {
      UnescapeEscape(path[i]);
    }
  }

  // Looking up the printed pointer of any path gives the object at that path, and nothing where there is
  // no value or one that is not an object.
  lemma ResolveInvertsPointer(root: Json, path: seq<string>)
    requires path != []
    ensures forall o: Json :: ResolveRef(root, Pointer(path)) == Some(o) <==> o.Obj? && At(root, path) == Some(o)
  {
    KeysOfPointer(path);
  }

  // Two paths never print as the same pointer.
  lemma PointerInjective(path: seq<string>, other: seq<string>)
    requires path != [] && other != [] && Pointer(path) == Pointer(other)
    ensures path == other
  {
    KeysOfPointer(path);
    KeysOfPointer(other);
  }

  // A reference with escapes of its own resolves as the canonical pointer of its keys does; one that does not
  // start with #/ resolves to nothing, the pointer # of the root (section 6 of RFC 6901) among them.
  lemma ResolvesAsCanonical(root: Json, ref: string)
    ensures IsLocal(ref) ==> ResolveRef(root, ref) == ResolveRef(root, Pointer(Keys(ref[2..])))
    ensures !IsLocal(ref) ==> ResolveRef(root, ref) == None
  {
    if IsLocal(ref) {
      KeysOfPointer(Keys(ref[2..]));
    }
  }
}
