// The order the sources compare strings by: code point by code point.
module Names {

  predicate Less(a: string, b: string) {
    if b == [] then false
    else if a == [] then true
    else a[0] < b[0] || (a[0] == b[0] && Less(a[1..], b[1..]))
  }

  lemma {:induction false} LessTotal(a: string, b: string)
    ensures Less(a, b) || Less(b, a) || a == b
  {
    if a != [] && b != [] && a[0] == b[0] {
      LessTotal(a[1..], b[1..]);
      assert a == [a[0]] + a[1..] && b == [b[0]] + b[1..];
    }
  }

  lemma {:induction false} LessAsymmetric(a: string, b: string)
    requires Less(a, b)
    ensures !Less(b, a) && a != b
  {
    if a != [] && a[0] == b[0] {
      LessAsymmetric(a[1..], b[1..]);
    }
  }

  lemma {:induction false} LessTransitive(a: string, b: string, c: string)
    requires Less(a, b) && Less(b, c)
    ensures Less(a, c)
  {
    if a != [] && a[0] == b[0] && b[0] == c[0] {
      LessTransitive(a[1..], b[1..], c[1..]);
    }
  }

  // The first position where they differ decides; a text comes after each of its proper prefixes.
  ghost predicate DiffersUpwards(a: string, b: string, i: nat) {
    && i <= |a| && i < |b| && a[..i] == b[..i]
    && (i < |a| ==> a[i] < b[i])
  }

  lemma {:induction false} LessByFirstDifference(a: string, b: string)
    ensures Less(a, b) <==> exists i: nat :: DiffersUpwards(a, b, i)
  {
    if a == [] || b == [] || a[0] != b[0] {
      if Less(a, b) {
        assert DiffersUpwards(a, b, 0);
      }
      if i: nat :| DiffersUpwards(a, b, i) {
        assert i > 0 ==> a[..i][0] == b[..i][0];
      }
    } else {
      LessByFirstDifference(a[1..], b[1..]);
      if i: nat :| DiffersUpwards(a[1..], b[1..], i) {
        assert a[..i + 1] == [a[0]] + a[1..][..i] && b[..i + 1] == [b[0]] + b[1..][..i];
        assert DiffersUpwards(a, b, i + 1);
      }
      if i: nat :| DiffersUpwards(a, b, i) {
        assert a[1..][..i - 1] == a[..i][1..] && b[1..][..i - 1] == b[..i][1..];
        assert DiffersUpwards(a[1..], b[1..], i - 1);
      }
    }
  }
}
