/** Type inheritance: the assignability search over a list of parent links, and the walkers that
    climb one parent at a time. */
module TypeHierarchy {
  import opened Wrappers
  import Names

  type TypeId = string

  datatype TypeInheritance = TypeInheritance(child: TypeId, parent: TypeId, active: bool)

  ghost predicate IsParent(rows: seq<TypeInheritance>, child: TypeId, parent: TypeId) {
    exists r :: r in rows && r.child == child && r.parent == parent
  }

  // n parent links lead from a to b.
  ghost predicate Ancestor(rows: seq<TypeInheritance>, a: TypeId, b: TypeId, n: nat)
    decreases n
  {
    if n == 0 then a == b
    else exists p :: IsParent(rows, a, p) && Ancestor(rows, p, b, n - 1)
  }

  ghost predicate Descends(rows: seq<TypeInheritance>, a: TypeId, b: TypeId) {
    exists n: nat :: Ancestor(rows, a, b, n)
  }

  lemma {:induction false} AncestorStep(rows: seq<TypeInheritance>, a: TypeId, b: TypeId, c: TypeId, n: nat)
    requires Ancestor(rows, a, b, n) && IsParent(rows, b, c)
    ensures Ancestor(rows, a, c, n + 1)
    decreases n
  {
    if n == 0 {
      assert Ancestor(rows, c, c, 0);
      assert Ancestor(rows, a, c, 1);
    } else {
      var p :| IsParent(rows, a, p) && Ancestor(rows, p, b, n - 1);
      AncestorStep(rows, p, b, c, n - 1);
    }
  }

  lemma DescendsStep(rows: seq<TypeInheritance>, a: TypeId, b: TypeId, c: TypeId)
    requires Descends(rows, a, b) && IsParent(rows, b, c)
    ensures Descends(rows, a, c)
  {
    var n: nat :| Ancestor(rows, a, b, n);
    AncestorStep(rows, a, b, c, n);
  }

  lemma {:induction false} ClosedSetKeepsAncestors(rows: seq<TypeInheritance>, closed: set<TypeId>,
                                                   a: TypeId, b: TypeId, n: nat)
    requires a in closed && Ancestor(rows, a, b, n)
    requires forall x, y | x in closed && IsParent(rows, x, y) :: y in closed
    ensures b in closed
    decreases n
  {
    if n > 0 {
      var p :| IsParent(rows, a, p) && Ancestor(rows, p, b, n - 1);
      ClosedSetKeepsAncestors(rows, closed, p, b, n - 1);
    }
  }

  // Pushes the parents of current, unless one of them is the type looked for.
  method PushParents(current: TypeId, expected: TypeId, rows: seq<TypeInheritance>, stack: seq<TypeId>)
    returns (found: bool, pushed: seq<TypeId>)
    ensures found <==> IsParent(rows, current, expected)
    ensures !found ==> forall x :: x in pushed <==> x in stack || IsParent(rows, current, x)
  {
    pushed := stack;
    for i := 0 to |rows|
      invariant forall k | 0 <= k < i && rows[k].child == current :: rows[k].parent != expected
      invariant forall x :: x in pushed <==>
                            x in stack || exists k :: 0 <= k < i && rows[k].child == current && rows[k].parent == x
    {
      if rows[i].child == current {
        if rows[i].parent == expected {
          return true, pushed;
        }
        pushed := pushed + [rows[i].parent];
      }
    }
    return false, pushed;
  }

  // Decides the reflexive-transitive closure of any link list, with cycles and several parents.
  method IsAssignable(actual: TypeId, expected: TypeId, rows: seq<TypeInheritance>) returns (assignable: bool)
    ensures assignable <==> Descends(rows, actual, expected)
  {
    assert Ancestor(rows, actual, actual, 0);
    if actual == expected {
      return true;
    }
    var stack := [actual];
    var seen: set<TypeId> := {};
    ghost var all := {actual} + set r | r in rows :: r.parent;
    while stack != []
      invariant seen <= all && forall x | x in stack :: x in all
      invariant actual in seen || actual in stack
      invariant expected !in seen && expected !in stack
      invariant forall x | x in stack :: Descends(rows, actual, x)
      invariant forall x, y | x in seen && IsParent(rows, x, y) :: y in seen || y in stack
      decreases all - seen, |stack|
    {
      var current, rest := stack[|stack| - 1], stack[..|stack| - 1];
      assert stack == rest + [current];
      if current in seen {
        stack := rest;
        continue;
      }
      var found, pushed := PushParents(current, expected, rows, rest);
      if found {
        DescendsStep(rows, actual, current, expected);
        return true;
      }
      forall x | x in pushed
        ensures Descends(rows, actual, x) && x in all
      {
        if x !in rest {
          DescendsStep(rows, actual, current, x);
        }
      }
      seen := seen + {current};
      stack := pushed;
    }
    if Descends(rows, actual, expected) {
      var n: nat :| Ancestor(rows, actual, expected, n);
      ClosedSetKeepsAncestors(rows, seen, actual, expected, n);
    }
    return false;
  }

  /*** Climbing one parent at a time ***/

  // chain starts at t, goes from each type to its parent, and stops at a type without one.
  ghost predicate Climbs(parents: map<TypeId, TypeId>, t: TypeId, chain: seq<TypeId>) {
    && chain != [] && chain[0] == t
    && (forall i | 0 <= i < |chain| - 1 :: chain[i] in parents && parents[chain[i]] == chain[i + 1])
    && chain[|chain| - 1] !in parents
  }

  ghost predicate Ends(parents: map<TypeId, TypeId>, t: TypeId) {
    exists chain :: Climbs(parents, t, chain)
  }

  ghost predicate Acyclic(parents: map<TypeId, TypeId>) {
    forall t :: Ends(parents, t)
  }

  ghost predicate Walk(parents: map<TypeId, TypeId>, t: TypeId, walk: seq<TypeId>) {
    && walk != [] && walk[0] == t
    && forall i | 0 <= i < |walk| - 1 :: walk[i] in parents && parents[walk[i]] == walk[i + 1]
  }

  // Every walk from t is a prefix of the chain from t.
  lemma WalkIsPrefix(parents: map<TypeId, TypeId>, t: TypeId, walk: seq<TypeId>, chain: seq<TypeId>)
    requires Walk(parents, t, walk) && Climbs(parents, t, chain)
    ensures walk <= chain
    ensures walk[|walk| - 1] !in parents ==> walk == chain
  {
    for i := 0 to |walk|
      invariant i <= |chain| && forall k | 0 <= k < i :: walk[k] == chain[k]
    {
      if i > 0 {
        assert walk[i - 1] in parents;
        assert i - 1 < |chain| - 1;
      }
    }
  }

  lemma TailClimbs(parents: map<TypeId, TypeId>, t: TypeId, chain: seq<TypeId>, i: nat)
    requires Climbs(parents, t, chain) && i < |chain|
    ensures Climbs(parents, chain[i], chain[i..])
  {
  }

  // A chain never visits a type twice.
  lemma ChainDistinct(parents: map<TypeId, TypeId>, t: TypeId, chain: seq<TypeId>, i: nat, j: nat)
    requires Climbs(parents, t, chain) && i < j < |chain|
    ensures chain[i] != chain[j]
  {
    if chain[i] == chain[j] {
      TailClimbs(parents, t, chain, i);
      TailClimbs(parents, t, chain, j);
      WalkIsPrefix(parents, chain[i], chain[i..], chain[j..]);
    }
  }

  // The first link of each child, as a search from the front of the list finds it.
  function FirstParent(rows: seq<TypeInheritance>, child: TypeId): Option<TypeId> {
    if rows == [] then None
    else if rows[0].child == child then Some(rows[0].parent)
    else FirstParent(rows[1..], child)
  }

  lemma {:induction false} FirstParentIsParent(rows: seq<TypeInheritance>, child: TypeId)
    ensures FirstParent(rows, child).Some? ==> IsParent(rows, child, FirstParent(rows, child).value)
    ensures FirstParent(rows, child).None? ==> forall p :: !IsParent(rows, child, p)
  {
    if rows != [] {
      FirstParentIsParent(rows[1..], child);
      assert rows == [rows[0]] + rows[1..];
      assert forall p :: IsParent(rows, child, p)
                         <==> (rows[0].child == child && rows[0].parent == p) || IsParent(rows[1..], child, p);
    }
  }

  // parents holds exactly the first link of each child.
  ghost predicate AreFirstParents(rows: seq<TypeInheritance>, parents: map<TypeId, TypeId>) {
    forall c :: FirstParent(rows, c) == if c in parents then Some(parents[c]) else None
  }

  function TrimNodePrefix(id: string): string {
    if |id| >= 5 && id[..5] == "node." then TrimNodePrefix(id[5..]) else id
  }

  function CapitalizeAscii(c: char): char {
    if 'a' <= c <= 'z' then c - 'a' + 'A' else c
  }

  function Label(id: TypeId): string {
    var name := TrimNodePrefix(id);
    if name == [] then name else [CapitalizeAscii(name[0])] + name[1..]
  }

  predicate HasNodePrefix(name: string) {
    |name| >= 5 && name[..5] == "node."
  }

  function NodePrefixes(k: nat): string {
    if k == 0 then "" else "node." + NodePrefixes(k - 1)
  }

  // id is name behind k prefixes, and name has none of its own.
  predicate Strips(id: TypeId, k: nat, name: string) {
    id == NodePrefixes(k) + name && !HasNodePrefix(name)
  }

  lemma {:induction false} TrimStrips(id: TypeId) returns (k: nat)
    ensures Strips(id, k, TrimNodePrefix(id))
  {
    if HasNodePrefix(id) {
      k := TrimStrips(id[5..]);
      assert id == "node." + id[5..];
      assert id == ("node." + NodePrefixes(k)) + TrimNodePrefix(id);
      k := k + 1;
    } else {
      k := 0;
    }
  }

  lemma {:induction false} StripsOnce(id: TypeId, k: nat, name: string, k': nat, name': string)
    requires Strips(id, k, name) && Strips(id, k', name')
    ensures k == k' && name == name'
  {
    assert "" + name == name && "" + name' == name';
    assert k > 0 ==> id[..5] == "node." && id[5..] == NodePrefixes(k - 1) + name;
    assert k' > 0 ==> id[..5] == "node." && id[5..] == NodePrefixes(k' - 1) + name';
    if k > 0 && k' > 0 {
      StripsOnce(id[5..], k - 1, name, k' - 1, name');
    }
  }

  predicate SameLetter(c: char, d: char) {
    c == d || ('a' <= c <= 'z' && d == c - 'a' + 'A') || ('a' <= d <= 'z' && c == d - 'a' + 'A')
  }

  // A label is a name without any prefix, its first letter a capital: two types share one exactly when their names
  // differ at most in the case of the first letter.
  lemma LabelsShared(a: TypeId, i: nat, x: string, b: TypeId, j: nat, y: string)
    requires Strips(a, i, x) && Strips(b, j, y)
    ensures Label(a) == Label(b) <==>
              |x| == |y| && (x != "" ==> SameLetter(x[0], y[0]) && x[1..] == y[1..])
    ensures |Label(a)| == |x| && (x != "" ==> Label(a)[1..] == x[1..] && !('a' <= Label(a)[0] <= 'z'))
    ensures !HasNodePrefix(Label(a))
  {
    var k := TrimStrips(a);
    var l := TrimStrips(b);
    StripsOnce(a, i, x, k, TrimNodePrefix(a));
    StripsOnce(b, j, y, l, TrimNodePrefix(b));
    if x != "" && y != "" {
      assert Label(a)[0] == CapitalizeAscii(x[0]) && Label(b)[0] == CapitalizeAscii(y[0]);
      assert Label(a)[1..] == x[1..] && Label(b)[1..] == y[1..];
    }
  }

  // The labels of a type: its chain from the root down, each turned into a label.
  method ResolveLabelsForType(t: TypeId, rows: seq<TypeInheritance>, ghost parents: map<TypeId, TypeId>,
                              ghost climb: seq<TypeId>)
    returns (labels: seq<string>)
    requires AreFirstParents(rows, parents) && Climbs(parents, t, climb)
    ensures |labels| == |climb| && forall i | 0 <= i < |climb| :: labels[i] == Label(climb[|climb| - 1 - i])
  {
    var chain := [t];
    var current := t;
    while true
      invariant Walk(parents, t, chain) && current == chain[|chain| - 1]
      decreases |climb| - |chain|
    {
      WalkIsPrefix(parents, t, chain, climb);
      var parent := FirstParent(rows, current);
      match parent {
        case Some(next) =>
          chain := chain + [next];
          current := next;
          WalkIsPrefix(parents, t, chain, climb);
        case None =>
          break;
      }
    }
    WalkIsPrefix(parents, t, chain, climb);
    labels := seq(|chain|, i requires 0 <= i < |chain| => Label(chain[|chain| - 1 - i]));
  }

  // The extraction chain, from the root down; it stops only where a parent is missing.
  method ExtractionChain(t: TypeId, parents: map<TypeId, TypeId>, ghost climb: seq<TypeId>) returns (chain: seq<TypeId>)
    requires Climbs(parents, t, climb)
    ensures chain == Reversed(climb)
  {
    chain := [t];
    var current := t;
    while current in parents
      invariant Walk(parents, t, chain) && current == chain[|chain| - 1]
      decreases |climb| - |chain|
    {
      chain := chain + [parents[current]];
      current := parents[current];
      WalkIsPrefix(parents, t, chain, climb);
    }
    WalkIsPrefix(parents, t, chain, climb);
    chain := Reversed(chain);
  }

  function Reversed(s: seq<TypeId>): (r: seq<TypeId>)
    ensures |r| == |s| && forall i | 0 <= i < |s| :: r[i] == s[|s| - 1 - i]
  {
    seq(|s|, i requires 0 <= i < |s| => s[|s| - 1 - i])
  }

  ghost predicate Distinct(s: seq<TypeId>) {
    forall i, j | 0 <= i < j < |s| :: s[i] != s[j]
  }

  lemma LastStep(parents: map<TypeId, TypeId>, t: TypeId, walk: seq<TypeId>, next: TypeId)
    requires walk != [] && Walk(parents, t, walk + [next])
    ensures Walk(parents, t, walk) && walk[|walk| - 1] in parents && parents[walk[|walk| - 1]] == next
  {
    var longer := walk + [next];
    assert longer[|walk| - 1 + 1] == next;
    assert forall i | 0 <= i < |walk| ::
        longer[i] == walk[i] && longer[i] in parents && parents[longer[i]] == longer[i + 1];
  }

  // The chain with a seen-set ends on every map: at a type without a parent, or before the first repeat.
  method SeenGuardedChain(t: TypeId, parents: map<TypeId, TypeId>) returns (chain: seq<TypeId>)
    ensures exists walk :: Walk(parents, t, walk) && Distinct(walk) && chain == Reversed(walk)
                           && (walk[|walk| - 1] in parents ==> parents[walk[|walk| - 1]] in walk)
  {
    chain := [];
    var current := t;
    var seen: set<TypeId> := {};
    ghost var all := {t} + parents.Values;
    while true
      invariant current in all && seen <= all
      invariant forall x :: x in seen <==> x in chain
      invariant Distinct(chain)
      invariant chain == [] ==> current == t
      invariant chain != [] ==> Walk(parents, t, chain + [current])
      decreases all - seen
    {
      if current in seen {
        LastStep(parents, t, chain, current);
        break;
      }
      seen := seen + {current};
      chain := chain + [current];
      if current !in parents {
        break;
      }
      current := parents[current];
    }
    chain := Reversed(chain);
  }

  method ExtractionTypeIsAssignable(node: TypeId, target: TypeId, parents: map<TypeId, TypeId>,
                                    ghost climb: seq<TypeId>)
    returns (assignable: bool)
    requires Climbs(parents, node, climb)
    ensures assignable <==> target in climb
  {
    if node == target {
      return true;
    }
    var current := node;
    ghost var walk := [node];
    while current in parents
      invariant Walk(parents, node, walk) && current == walk[|walk| - 1]
      invariant target !in walk
      decreases |climb| - |walk|
    {
      walk := walk + [parents[current]];
      WalkIsPrefix(parents, node, walk, climb);
      if parents[current] == target {
        return true;
      }
      current := parents[current];
    }
    WalkIsPrefix(parents, node, walk, climb);
    return false;
  }

  /*** The least-parent fold ***/

  predicate Included(row: TypeInheritance, includeInactive: bool) {
    includeInactive || row.active
  }

  // Each child with an included link gets the least of its parents in string order.
  ghost predicate AreLeastParents(rows: seq<TypeInheritance>, includeInactive: bool, parents: map<TypeId, TypeId>) {
    && (forall r | r in rows && Included(r, includeInactive) ::
          r.child in parents && (parents[r.child] == r.parent || Names.Less(parents[r.child], r.parent)))
    && (forall c | c in parents ::
          exists r :: r in rows && Included(r, includeInactive) && r.child == c && r.parent == parents[c])
  }

  method LeastParents(rows: seq<TypeInheritance>, includeInactive: bool) returns (parents: map<TypeId, TypeId>)
    ensures AreLeastParents(rows, includeInactive, parents)
  {
    parents := map[];
    for i := 0 to |rows|
      invariant AreLeastParents(rows[..i], includeInactive, parents)
    {
      var row := rows[i];
      assert rows[..i + 1] == rows[..i] + [row];
      if Included(row, includeInactive) {
        ghost var before := parents;
        if row.child !in parents || Names.Less(row.parent, parents[row.child]) {
          parents := parents[row.child := row.parent];
        } else {
          Names.LessTotal(row.parent, parents[row.child]);
        }
        forall r | r in rows[..i + 1] && Included(r, includeInactive)
          ensures r.child in parents && (parents[r.child] == r.parent || Names.Less(parents[r.child], r.parent))
        {
          if r != row && r.child == row.child && parents[row.child] == row.parent && before[row.child] != r.parent {
            if Names.Less(row.parent, before[row.child]) {
              Names.LessTransitive(row.parent, before[row.child], r.parent);
            }
          }
        }
        assert row in rows[..i + 1];
        forall c | c in parents
          ensures exists r :: r in rows[..i + 1] && Included(r, includeInactive) && r.child == c
                              && r.parent == parents[c]
        {
          if c != row.child || parents[c] != row.parent {
            var r :| r in rows[..i] && Included(r, includeInactive) && r.child == c && r.parent == parents[c];
            assert r in rows[..i + 1];
          }
        }
      }
    }
    assert rows[..|rows|] == rows;
  }

  // The fold depends only on which links are in the list, not on their order or multiplicity.
  lemma LeastParentsOrderFree(rows: seq<TypeInheritance>, rows': seq<TypeInheritance>, includeInactive: bool,
                              parents: map<TypeId, TypeId>, parents': map<TypeId, TypeId>)
    requires forall r :: r in rows <==> r in rows'
    requires AreLeastParents(rows, includeInactive, parents) && AreLeastParents(rows', includeInactive, parents')
    ensures parents == parents'
  {
    forall c | c in parents
      ensures c in parents' && parents[c] == parents'[c]
    {
      var r :| r in rows && Included(r, includeInactive) && r.child == c && r.parent == parents[c];
      assert r in rows';
      var r' :| r' in rows' && Included(r', includeInactive) && r'.child == c && r'.parent == parents'[c];
      assert r' in rows;
      if parents[c] != parents'[c] {
        Names.LessAsymmetric(parents[c], parents'[c]);
      }
    }
    forall c | c in parents'
      ensures c in parents
    {
      var r' :| r' in rows' && Included(r', includeInactive) && r'.child == c && r'.parent == parents'[c];
      assert r' in rows;
    }
  }

  /*** Agreement on a hierarchy where each child has one parent ***/

  // rows lists exactly the links of parents, all active.
  ghost predicate Lists(rows: seq<TypeInheritance>, parents: map<TypeId, TypeId>) {
    && (forall r | r in rows :: r.active && r.child in parents && r.parent == parents[r.child])
    && (forall c | c in parents :: IsParent(rows, c, parents[c]))
  }

  lemma ListedMaps(rows: seq<TypeInheritance>, parents: map<TypeId, TypeId>, least: map<TypeId, TypeId>, inactive: bool)
    requires Lists(rows, parents)
    ensures AreFirstParents(rows, parents)
    ensures AreLeastParents(rows, inactive, least) ==> least == parents
  {
    forall c
      ensures FirstParent(rows, c) == if c in parents then Some(parents[c]) else None
    {
      FirstParentIsParent(rows, c);
    }
  }

  lemma {:induction false} AncestorIsOnChain(rows: seq<TypeInheritance>, parents: map<TypeId, TypeId>,
                                             a: TypeId, b: TypeId, n: nat, chain: seq<TypeId>)
    requires Lists(rows, parents) && Climbs(parents, a, chain) && Ancestor(rows, a, b, n)
    ensures b in chain
    decreases n
  {
    if n > 0 {
      var p :| IsParent(rows, a, p) && Ancestor(rows, p, b, n - 1);
      assert chain[0] in parents;
      TailClimbs(parents, a, chain, 1);
      AncestorIsOnChain(rows, parents, p, b, n - 1, chain[1..]);
    }
  }

  lemma {:induction false} OnChainIsAncestor(rows: seq<TypeInheritance>, parents: map<TypeId, TypeId>,
                                             a: TypeId, chain: seq<TypeId>, i: nat)
    requires Lists(rows, parents) && Climbs(parents, a, chain) && i < |chain|
    ensures Ancestor(rows, a, chain[i], i)
    decreases i
  {
    if i > 0 {
      TailClimbs(parents, a, chain, 1);
      OnChainIsAncestor(rows, parents, chain[1], chain[1..], i - 1);
      assert IsParent(rows, a, chain[1]);
    }
  }

  // On such a hierarchy the closure, the plain chains and the guarded chain all say the same.
  lemma WalkersAgree(rows: seq<TypeInheritance>, parents: map<TypeId, TypeId>, t: TypeId, chain: seq<TypeId>)
    requires Lists(rows, parents) && Climbs(parents, t, chain)
    ensures forall b :: Descends(rows, t, b) <==> b in chain
    ensures Distinct(chain)
    ensures forall walk | Walk(parents, t, walk) && Distinct(walk)
                          && (walk[|walk| - 1] in parents ==> parents[walk[|walk| - 1]] in walk) :: walk == chain
  {
    forall b
      ensures Descends(rows, t, b) <==> b in chain
    {
      if Descends(rows, t, b) {
        var n: nat :| Ancestor(rows, t, b, n);
        AncestorIsOnChain(rows, parents, t, b, n, chain);
      }
      if b in chain {
        var i :| 0 <= i < |chain| && chain[i] == b;
        OnChainIsAncestor(rows, parents, t, chain, i);
      }
    }
    forall i, j | 0 <= i < j < |chain|
      ensures chain[i] != chain[j]
    {
      ChainDistinct(parents, t, chain, i, j);
    }
    forall walk | Walk(parents, t, walk) && Distinct(walk)
                  && (walk[|walk| - 1] in parents ==> parents[walk[|walk| - 1]] in walk)
      ensures walk == chain
    {
      WalkIsPrefix(parents, t, walk, chain);
      if walk[|walk| - 1] in parents {
        var next := parents[walk[|walk| - 1]];
        WalkIsPrefix(parents, t, walk + [next], chain);
      }
    }
  }
}
