/** The texts of the journal cache keys: no two keys of well-formed arguments share one. */
module CacheKeys {
  import opened Wrappers

  datatype CacheKey =
    | ListKey(user: string, limit: nat, before: Option<string>)
    | EntryKey(user: string, reference: string)
    | MessagesKey(user: string, reference: string, limit: nat, beforeSequence: Option<int>)
    | ReferenceIndex(user: string, reference: string)
    | ListsIndex(user: string)

  /*** Numbers ***/

  function Digit(d: nat): char
    requires d < 10
  {
    '0' + d as char
  }

  function Digits(n: nat): string {
    if n < 10 then [Digit(n)] else Digits(n / 10) + [Digit(n % 10)]
  }

  function IntText(n: int): string {
    if n < 0 then "-" + Digits(-n) else Digits(n)
  }

  lemma {:induction false} DigitsAreDigits(n: nat)
    ensures Digits(n) != [] && forall c | c in Digits(n) :: '0' <= c <= '9'
  {
    if n >= 10 {
      DigitsAreDigits(n / 10);
    }
  }

  lemma {:induction false} DigitsInjective(m: nat, n: nat)
    requires Digits(m) == Digits(n)
    ensures m == n
  {
    var a, b := Digits(m), Digits(n);
    assert a[|a| - 1] == Digit(m % 10) && b[|b| - 1] == Digit(n % 10);
    if m >= 10 {
      assert a[..|a| - 1] == Digits(m / 10) && b[..|b| - 1] == Digits(n / 10);
      DigitsInjective(m / 10, n / 10);
    }
  }

  lemma IntTextInjective(m: int, n: int)
    requires IntText(m) == IntText(n)
    ensures m == n
  {
    DigitsAreDigits(if m < 0 then -m else m);
    DigitsAreDigits(if n < 0 then -n else n);
    var a, b := Digits(if m < 0 then -m else m), Digits(if n < 0 then -n else n);
    assert a[0] in a && b[0] in b && IntText(m)[0] == IntText(n)[0];
    if m < 0 && n < 0 {
      assert IntText(m)[1..] == Digits(-m) && IntText(n)[1..] == Digits(-n);
      DigitsInjective(-m, -n);
    } else if m >= 0 && n >= 0 {
      DigitsInjective(m, n);
    }
  }

  lemma IntTextPlain(n: int)
    ensures ':' !in IntText(n) && IntText(n) != "_"
  {
    DigitsAreDigits(if n < 0 then -n else n);
  }

  /*** Taking texts apart ***/

  lemma StripPrefix(p: string, x: string, y: string)
    requires p + x == p + y
    ensures x == y
  {
    assert x == (p + x)[|p|..] && y == (p + y)[|p|..];
  }

  lemma StripSuffix(s: string, x: string, y: string)
    requires x + s == y + s
    ensures x == y
  {
    assert |x| == |y|;
    assert x == (x + s)[..|x|] && y == (y + s)[..|x|];
  }

  lemma SplitAtFirstColon(a: string, x: string, b: string, y: string)
    requires ':' !in a && ':' !in b
    requires a + (":" + x) == b + (":" + y)
    ensures a == b && x == y
  {
    var s, t := a + (":" + x), b + (":" + y);
    assert s[|a|] == ':' && t[|b|] == ':';
    assert |a| == |b|;
    assert a == s[..|a|] && b == t[..|a|];
    StripPrefix(a, ":" + x, ":" + y);
    StripPrefix(":", x, y);
  }

  lemma SplitAtLastColon(x: string, a: string, y: string, b: string)
    requires ':' !in a && ':' !in b
    requires x + (":" + a) == y + (":" + b)
    ensures a == b && x == y
  {
    var s, t := x + (":" + a), y + (":" + b);
    assert |s| == |t| && s[|x|] == ':' && t[|y|] == ':';
    assert |x| == |y|;
    assert x == s[..|x|] && y == t[..|x|];
    StripPrefix(x, ":" + a, ":" + b);
    StripPrefix(":", a, b);
  }

  /*** The keys ***/

  function ReferenceCursor(before: Option<string>): string {
    if before.None? then "_" else before.value
  }

  function SequenceCursor(before: Option<int>): string {
    if before.None? then "_" else IntText(before.value)
  }

  function Rest(k: CacheKey): string {
    match k
    case ListKey(_, limit, before) => "list:limit:" + (IntText(limit) + (":" + ("cursor:" + ReferenceCursor(before))))
    case EntryKey(_, reference) => "entry:reference:" + reference
    case MessagesKey(_, reference, limit, before) =>
      "messages:reference:"
      + ((((reference + ":limit") + (":" + IntText(limit))) + ":cursor") + (":" + SequenceCursor(before)))
    case ReferenceIndex(_, reference) => "index:reference:" + reference
    case ListsIndex(_) => "index:lists"
  }

  function Text(k: CacheKey): string {
    "user:" + (k.user + (":" + ("journal:" + Rest(k))))
  }

  // User ids carry no colon, and no list cursor is the placeholder that stands for no cursor.
  predicate Clean(k: CacheKey) {
    ':' !in k.user && (k.ListKey? ==> k.before != Some("_"))
  }

  lemma RestsOfOneKind(a: CacheKey, b: CacheKey)
    requires Rest(a) == Rest(b)
    ensures (a.ListKey? <==> b.ListKey?) && (a.EntryKey? <==> b.EntryKey?) && (a.MessagesKey? <==> b.MessagesKey?)
    ensures (a.ReferenceIndex? <==> b.ReferenceIndex?) && (a.ListsIndex? <==> b.ListsIndex?)
  {
    assert Rest(a)[0] == if a.ListKey? then 'l' else if a.EntryKey? then 'e' else if a.MessagesKey? then 'm' else 'i';
    assert Rest(b)[0] == if b.ListKey? then 'l' else if b.EntryKey? then 'e' else if b.MessagesKey? then 'm' else 'i';
    assert a.ReferenceIndex? ==> Rest(a)[6] == 'r';
    assert b.ReferenceIndex? ==> Rest(b)[6] == 'r';
    assert a.ListsIndex? ==> Rest(a)[6] == 'l';
    assert b.ListsIndex? ==> Rest(b)[6] == 'l';
  }

  lemma SequenceCursorInjective(a: Option<int>, b: Option<int>)
    ensures ':' !in SequenceCursor(a)
    ensures SequenceCursor(a) == SequenceCursor(b) ==> a == b
  {
    if a.Some? {
      IntTextPlain(a.value);
    }
    if b.Some? {
      IntTextPlain(b.value);
    }
    if a.Some? && b.Some? && SequenceCursor(a) == SequenceCursor(b) {
      IntTextInjective(a.value, b.value);
    }
  }

  lemma ListRests(a: CacheKey, b: CacheKey)
    requires a.ListKey? && b.ListKey? && Rest(a) == Rest(b)
    ensures a.limit == b.limit && ReferenceCursor(a.before) == ReferenceCursor(b.before)
  {
    IntTextPlain(a.limit);
    IntTextPlain(b.limit);
    StripPrefix("list:limit:", IntText(a.limit) + (":" + ("cursor:" + ReferenceCursor(a.before))),
                IntText(b.limit) + (":" + ("cursor:" + ReferenceCursor(b.before))));
    SplitAtFirstColon(IntText(a.limit), "cursor:" + ReferenceCursor(a.before),
                      IntText(b.limit), "cursor:" + ReferenceCursor(b.before));
    IntTextInjective(a.limit, b.limit);
    StripPrefix("cursor:", ReferenceCursor(a.before), ReferenceCursor(b.before));
  }

  lemma MessagesRests(a: CacheKey, b: CacheKey)
    requires a.MessagesKey? && b.MessagesKey? && Rest(a) == Rest(b)
    ensures a.reference == b.reference && a.limit == b.limit && a.beforeSequence == b.beforeSequence
  {
    SequenceCursorInjective(a.beforeSequence, b.beforeSequence);
    SequenceCursorInjective(b.beforeSequence, a.beforeSequence);
    IntTextPlain(a.limit);
    IntTextPlain(b.limit);
    var x := (a.reference + ":limit") + (":" + IntText(a.limit));
    var y := (b.reference + ":limit") + (":" + IntText(b.limit));
    StripPrefix("messages:reference:", (x + ":cursor") + (":" + SequenceCursor(a.beforeSequence)),
                (y + ":cursor") + (":" + SequenceCursor(b.beforeSequence)));
    SplitAtLastColon(x + ":cursor", SequenceCursor(a.beforeSequence), y + ":cursor", SequenceCursor(b.beforeSequence));
    StripSuffix(":cursor", x, y);
    SplitAtLastColon(a.reference + ":limit", IntText(a.limit), b.reference + ":limit", IntText(b.limit));
    StripSuffix(":limit", a.reference, b.reference);
    IntTextInjective(a.limit, b.limit);
  }

  // Two clean keys with the same text are the same key, whatever colons their references contain.
  lemma TextInjective(a: CacheKey, b: CacheKey)
    requires Clean(a) && Clean(b) && Text(a) == Text(b)
    ensures a == b
  {
    StripPrefix("user:", a.user + (":" + ("journal:" + Rest(a))), b.user + (":" + ("journal:" + Rest(b))));
    SplitAtFirstColon(a.user, "journal:" + Rest(a), b.user, "journal:" + Rest(b));
    StripPrefix("journal:", Rest(a), Rest(b));
    RestsOfOneKind(a, b);
    match a {
      case ListKey(_, _, _) => ListRests(a, b);
      case EntryKey(_, reference) => StripPrefix("entry:reference:", reference, b.reference);
      case MessagesKey(_, _, _, _) => MessagesRests(a, b);
      case ReferenceIndex(_, reference) => StripPrefix("index:reference:", reference, b.reference);
      case ListsIndex(_) =>
    }
  }

  // The placeholder is the one cursor that collides: it is read and written as no cursor at all.
  lemma ListKeysCollide(user: string, limit: nat, a: Option<string>, b: Option<string>)
    requires ':' !in user && a != b
    ensures Text(ListKey(user, limit, a)) == Text(ListKey(user, limit, b))
            <==> (a == None && b == Some("_")) || (a == Some("_") && b == None)
  {
    var k, k' := ListKey(user, limit, a), ListKey(user, limit, b);
    if Text(k) == Text(k') {
      StripPrefix("user:", user + (":" + ("journal:" + Rest(k))), user + (":" + ("journal:" + Rest(k'))));
      SplitAtFirstColon(user, "journal:" + Rest(k), user, "journal:" + Rest(k'));
      StripPrefix("journal:", Rest(k), Rest(k'));
      ListRests(k, k');
    }
  }
}
