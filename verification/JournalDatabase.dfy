/** The conversations behind the journal: what each read returns and which reads a write can change. */
module JournalDatabase {
  import opened Wrappers
  import Names

  datatype Message = Message(id: string, clientId: string, role: string, content: string, sequence: int, createdAt: int,
                             toolCalls: seq<string>)

  // Messages are in ascending order of their sequence numbers.
  datatype Conversation = Conversation(id: string, createdAt: int, updatedAt: int, messages: seq<Message>)

  datatype Entry = Entry(id: string, reference: string, createdAt: int, updatedAt: int, lastMessageAt: Option<int>,
                         messageCount: nat)

  // One conversation for each user and reference.
  type Database = map<(string, string), Conversation>

  /*** Reads ***/

  function LastMessageAt(messages: seq<Message>): Option<int> {
    if messages == [] then None
    else
      var earlier, last := LastMessageAt(messages[..|messages| - 1]), messages[|messages| - 1].createdAt;
      if earlier.Some? && earlier.value > last then earlier else Some(last)
  }

  function EntryOf(reference: string, c: Conversation): Entry {
    Entry(c.id, reference, c.createdAt, c.updatedAt, LastMessageAt(c.messages), |c.messages|)
  }

  predicate IsLatest(messages: seq<Message>, time: int) {
    && (exists i :: 0 <= i < |messages| && messages[i].createdAt == time)
    && (forall i | 0 <= i < |messages| :: messages[i].createdAt <= time)
  }

  // e tells of c as it is: its ids and times, how many messages it holds and when the latest was made.
  ghost predicate Describes(e: Entry, reference: string, c: Conversation) {
    && e.id == c.id && e.reference == reference && e.createdAt == c.createdAt && e.updatedAt == c.updatedAt
    && e.messageCount == |c.messages|
    && (e.lastMessageAt.None? <==> c.messages == [])
    && (e.lastMessageAt.Some? ==> IsLatest(c.messages, e.lastMessageAt.value))
  }

  lemma {:induction false} LastIsLatest(messages: seq<Message>)
    ensures LastMessageAt(messages).None? <==> messages == []
    ensures LastMessageAt(messages).Some? ==> IsLatest(messages, LastMessageAt(messages).value)
  {
    if messages != [] {
      var earlier, last := messages[..|messages| - 1], messages[|messages| - 1];
      assert messages[|messages| - 1].createdAt == last.createdAt;
      LastIsLatest(earlier);
      if earlier != [] {
        var i :| 0 <= i < |earlier| && earlier[i].createdAt == LastMessageAt(earlier).value;
        assert messages[i] == earlier[i];
      }
    }
  }

  lemma EntryDescribes(reference: string, c: Conversation)
    ensures Describes(EntryOf(reference, c), reference, c)
  {
    LastIsLatest(c.messages);
  }

  function FetchEntry(db: Database, user: string, reference: string): Option<Entry> {
    if (user, reference) in db then Some(EntryOf(reference, db[(user, reference)])) else None
  }

  // Newest first, below the cursor, at most limit of them.
  function Page(messages: seq<Message>, limit: nat, before: Option<int>): seq<Message> {
    if messages == [] || limit == 0 then []
    else
      var last, earlier := messages[|messages| - 1], messages[..|messages| - 1];
      if before.None? || last.sequence < before.value then [last] + Page(earlier, limit - 1, before)
      else Page(earlier, limit, before)
  }

  ghost predicate Ascending(messages: seq<Message>) {
    forall i, j | 0 <= i < j < |messages| :: messages[i].sequence < messages[j].sequence
  }

  predicate BelowCursor(m: Message, before: Option<int>) {
    before.None? || m.sequence < before.value
  }

  ghost predicate NewestFirst(page: seq<Message>) {
    forall i, j | 0 <= i < j < |page| :: page[j].sequence < page[i].sequence
  }

  ghost predicate OlderThanAll(m: Message, page: seq<Message>) {
    forall i | 0 <= i < |page| :: m.sequence < page[i].sequence
  }

  // Messages below the cursor, strictly descending, at most limit of them; one is left out only when the page is
  // full, and is then older than all on it.
  ghost predicate IsPage(messages: seq<Message>, limit: nat, before: Option<int>, page: seq<Message>) {
    && |page| <= limit && NewestFirst(page)
    && (forall m | m in page :: m in messages && BelowCursor(m, before))
    && (forall m | m in messages && BelowCursor(m, before) && m !in page :: |page| == limit && OlderThanAll(m, page))
  }

  lemma {:induction false} PageIsPage(messages: seq<Message>, limit: nat, before: Option<int>)
    requires Ascending(messages)
    ensures IsPage(messages, limit, before, Page(messages, limit, before))
  {
    if messages != [] && limit > 0 {
      var last, earlier := messages[|messages| - 1], messages[..|messages| - 1];
      assert messages == earlier + [last];
      if BelowCursor(last, before) {
        PageIsPage(earlier, limit - 1, before);
        PageGrows(earlier, last, limit - 1, before, Page(earlier, limit - 1, before));
      } else {
        PageIsPage(earlier, limit, before);
      }
    }
  }

  lemma PageGrows(earlier: seq<Message>, last: Message, limit: nat, before: Option<int>, page: seq<Message>)
    requires IsPage(earlier, limit, before, page) && BelowCursor(last, before)
    requires forall m | m in earlier :: m.sequence < last.sequence
    ensures IsPage(earlier + [last], limit + 1, before, [last] + page)
  {
    assert forall m :: m in earlier + [last] <==> m in earlier || m == last;
    assert forall m :: m in [last] + page <==> m == last || m in page;
    LongerPage(last, page);
    forall m | m in earlier && BelowCursor(m, before) && m !in page
      ensures OlderThanAll(m, [last] + page)
    {
      assert OlderThanAll(m, page);
    }
  }

  lemma LongerPage(last: Message, page: seq<Message>)
    requires NewestFirst(page) && forall m | m in page :: m.sequence < last.sequence
    ensures NewestFirst([last] + page)
  {
    forall i, j | 0 <= i < j < |page| + 1
      ensures ([last] + page)[j].sequence < ([last] + page)[i].sequence
    {
      assert ([last] + page)[j] == page[j - 1] && page[j - 1] in page;
    }
  }

  /*** Following the cursor ***/

  // The first n messages are those below the cursor.
  ghost predicate AreBelow(messages: seq<Message>, before: Option<int>, n: nat) {
    n <= |messages| && forall i | 0 <= i < |messages| :: BelowCursor(messages[i], before) <==> i < n
  }

  // How many of the first k messages there are up to the last one below the cursor.
  function CountBelow(messages: seq<Message>, k: nat, before: Option<int>): (n: nat)
    requires k <= |messages|
    ensures n <= k
    decreases k
  {
    if k == 0 || BelowCursor(messages[k - 1], before) then k else CountBelow(messages, k - 1, before)
  }

  lemma {:induction false} CountedBelow(messages: seq<Message>, k: nat, before: Option<int>)
    requires Ascending(messages) && k <= |messages|
    requires forall i | k <= i < |messages| :: !BelowCursor(messages[i], before)
    ensures AreBelow(messages, before, CountBelow(messages, k, before))
    decreases k
  {
    if k > 0 && !BelowCursor(messages[k - 1], before) {
      CountedBelow(messages, k - 1, before);
    }
  }

  // page reads these messages backwards from the n-th on.
  ghost predicate ReadsBack(messages: seq<Message>, n: nat, page: seq<Message>)
    requires n <= |messages|
  {
    |page| <= n && forall i | 0 <= i < |page| :: page[i] == messages[n - 1 - i]
  }

  lemma LastReadsBack(messages: seq<Message>, page: seq<Message>)
    requires messages != [] && ReadsBack(messages[..|messages| - 1], |messages| - 1, page)
    ensures ReadsBack(messages, |messages|, [messages[|messages| - 1]] + page)
  {
  }

  lemma {:induction false} PageReadsBack(messages: seq<Message>, limit: nat, before: Option<int>, n: nat)
    requires AreBelow(messages, before, n)
    ensures var page := Page(messages, limit, before);
            ReadsBack(messages, n, page) && |page| == if limit < n then limit else n
  {
    if messages != [] && limit > 0 {
      var earlier, last := messages[..|messages| - 1], messages[|messages| - 1];
      assert BelowCursor(last, before) <==> n == |messages|;
      if n == |messages| {
        PageReadsBack(earlier, limit - 1, before, n - 1);
        LastReadsBack(messages, Page(earlier, limit - 1, before));
      } else {
        PageReadsBack(earlier, limit, before, n);
      }
    }
  }

  lemma CursorCounts(messages: seq<Message>, k: nat)
    requires Ascending(messages) && k < |messages|
    ensures CountBelow(messages, |messages|, Some(messages[k].sequence)) == k
  {
    var before := Some(messages[k].sequence);
    CountedBelow(messages, |messages|, before);
    var n := CountBelow(messages, |messages|, before);
    assert !BelowCursor(messages[k], before);
    assert n < |messages| ==> (BelowCursor(messages[n], before) <==> n < k);
  }

  // A page reads the newest messages below the cursor, and its last one is the next cursor: it leaves the others.
  lemma NextIsOlder(messages: seq<Message>, limit: nat, before: Option<int>)
    requires limit > 0 && Ascending(messages)
    ensures var page, n := Page(messages, limit, before), CountBelow(messages, |messages|, before);
            && ReadsBack(messages, n, page) && (page == [] ==> n == 0)
            && (page != [] ==>
                  CountBelow(messages, |messages|, Some(page[|page| - 1].sequence)) == n - |page|)
  {
    var n := CountBelow(messages, |messages|, before);
    CountedBelow(messages, |messages|, before);
    PageReadsBack(messages, limit, before, n);
    if n > 0 {
      CursorCounts(messages, n - if limit < n then limit else n);
    }
  }

  // One page after another, each below the last message of the one before, until a page is empty.
  ghost function Pages(messages: seq<Message>, limit: nat, before: Option<int>): seq<Message>
    requires limit > 0 && Ascending(messages)
    decreases CountBelow(messages, |messages|, before)
  {
    var page := Page(messages, limit, before);
    NextIsOlder(messages, limit, before);
    if page == [] then [] else page + Pages(messages, limit, Some(page[|page| - 1].sequence))
  }

  lemma ReadsFurther(messages: seq<Message>, n: nat, page: seq<Message>, rest: seq<Message>)
    requires n <= |messages| && ReadsBack(messages, n, page) && ReadsBack(messages, n - |page|, rest)
    ensures ReadsBack(messages, n, page + rest)
  {
  }

  lemma {:induction false} PagesReadBack(messages: seq<Message>, limit: nat, before: Option<int>, n: nat)
    requires limit > 0 && Ascending(messages) && n == CountBelow(messages, |messages|, before)
    ensures ReadsBack(messages, n, Pages(messages, limit, before)) && |Pages(messages, limit, before)| == n
    decreases n
  {
    var page := Page(messages, limit, before);
    NextIsOlder(messages, limit, before);
    if page != [] {
      var cursor := Some(page[|page| - 1].sequence);
      PagesReadBack(messages, limit, cursor, n - |page|);
      ReadsFurther(messages, n, page, Pages(messages, limit, cursor));
    }
  }

  // Following the cursor from the first page shows every message exactly once, newest first.
  lemma PagesShowAll(messages: seq<Message>, limit: nat)
    requires limit > 0 && Ascending(messages)
    ensures var all := Pages(messages, limit, None);
            |all| == |messages| && forall i | 0 <= i < |all| :: all[i] == messages[|messages| - 1 - i]
  {
    PagesReadBack(messages, limit, None, |messages|);
  }

  function FetchMessages(db: Database, user: string, reference: string, limit: nat, before: Option<int>): seq<Message> {
    if (user, reference) in db then Page(db[(user, reference)].messages, limit, before) else []
  }

  function References(db: Database, user: string, before: Option<string>): set<string> {
    set k | k in db && k.0 == user && (before.None? || Names.Less(k.1, before.value)) :: k.1
  }

  ghost predicate IsGreatest(references: set<string>, r: string) {
    r in references && forall x | x in references && x != r :: Names.Less(x, r)
  }

  lemma {:induction false} GreatestExists(references: set<string>)
    requires references != {}
    ensures exists r :: IsGreatest(references, r)
  {
    var x :| x in references;
    if references == {x} {
      assert IsGreatest(references, x);
    } else {
      GreatestExists(references - {x});
      var r :| IsGreatest(references - {x}, r);
      Names.LessTotal(x, r);
      if Names.Less(r, x) {
        forall y | y in references && y != x
          ensures Names.Less(y, x)
        {
          if y != r {
            Names.LessTransitive(y, r, x);
          }
        }
      }
      assert IsGreatest(references, if Names.Less(r, x) then x else r);
    }
  }

  lemma GreatestUnique(references: set<string>, a: string, b: string)
    requires IsGreatest(references, a) && IsGreatest(references, b)
    ensures a == b
  {
    if a != b {
      Names.LessAsymmetric(a, b);
    }
  }

  ghost function Greatest(references: set<string>): (r: string)
    requires references != {}
    ensures IsGreatest(references, r)
  {
    GreatestExists(references);
    var r :| IsGreatest(references, r);
    r
  }

  // Descending by reference, below the cursor, at most limit of them.
  ghost function FetchList(db: Database, user: string, limit: nat, before: Option<string>): seq<Entry>
    decreases limit
  {
    var references := References(db, user, before);
    if limit == 0 || references == {} then []
    else
      var r := Greatest(references);
      [EntryOf(r, db[(user, r)])] + FetchList(db, user, limit - 1, Some(r))
  }

  lemma BelowGreatest(db: Database, user: string, before: Option<string>, r: string)
    requires IsGreatest(References(db, user, before), r)
    ensures References(db, user, Some(r)) == References(db, user, before) - {r}
  {
    forall x
      ensures x in References(db, user, Some(r)) <==> x in References(db, user, before) && x != r
    {
      if Names.Less(x, r) {
        Names.LessAsymmetric(x, r);
        if before.Some? {
          Names.LessTransitive(x, r, before.value);
        }
      }
    }
  }

  ghost predicate Descending(list: seq<Entry>) {
    forall i, j | 0 <= i < j < |list| :: Names.Less(list[j].reference, list[i].reference)
  }

  ghost predicate Listed(list: seq<Entry>, r: string) {
    exists i :: 0 <= i < |list| && list[i].reference == r
  }

  ghost predicate BelowAll(list: seq<Entry>, r: string) {
    forall i | 0 <= i < |list| :: Names.Less(r, list[i].reference)
  }

  // The entries of these references, strictly descending, at most limit of them; a reference is left out only when
  // the list is full, and is then smaller than all listed ones.
  ghost predicate IsTop(db: Database, user: string, references: set<string>, limit: nat, list: seq<Entry>)
    requires forall r | r in references :: (user, r) in db
  {
    && |list| <= limit && Descending(list)
    && (forall i | 0 <= i < |list| ::
          list[i].reference in references && list[i] == EntryOf(list[i].reference, db[(user, list[i].reference)]))
    && (forall r | r in references && !Listed(list, r) :: |list| == limit && BelowAll(list, r))
  }

  lemma ListedLater(e: Entry, rest: seq<Entry>, r: string)
    ensures Listed(rest, r) ==> Listed([e] + rest, r)
  {
    if i :| 0 <= i < |rest| && rest[i].reference == r {
      assert ([e] + rest)[i + 1].reference == r;
    }
  }

  lemma TopGrows(db: Database, user: string, references: set<string>, limit: nat, r: string, rest: seq<Entry>)
    requires forall x | x in references :: (user, x) in db
    requires IsGreatest(references, r) && IsTop(db, user, references - {r}, limit, rest)
    ensures IsTop(db, user, references, limit + 1, [EntryOf(r, db[(user, r)])] + rest)
  {
    var list := [EntryOf(r, db[(user, r)])] + rest;
    assert list[0].reference == r && forall i | 0 < i < |list| :: list[i] == rest[i - 1];
    forall x | x in references && !Listed(list, x)
      ensures |rest| == limit && BelowAll(list, x)
    {
      ListedLater(list[0], rest, x);
      assert x != r;
    }
  }

  // What a list is: the greatest references below the cursor, as far as the limit allows.
  lemma {:induction false} FetchListIsTop(db: Database, user: string, limit: nat, before: Option<string>)
    ensures IsTop(db, user, References(db, user, before), limit, FetchList(db, user, limit, before))
    decreases limit
  {
    var references := References(db, user, before);
    if limit > 0 && references != {} {
      var r := Greatest(references);
      BelowGreatest(db, user, before, r);
      FetchListIsTop(db, user, limit - 1, Some(r));
      TopGrows(db, user, references, limit - 1, r, FetchList(db, user, limit - 1, Some(r)));
    }
  }

  method PickGreatest(references: set<string>) returns (r: string)
    requires references != {}
    ensures r == Greatest(references)
  {
    r :| r in references;
    var rest := references - {r};
    while rest != {}
      invariant rest <= references && r in references && r !in rest
      invariant forall x | x in references && x != r && x !in rest :: Names.Less(x, r)
      decreases rest
    {
      var x :| x in rest;
      if Names.Less(r, x) {
        forall y | y in references && y != x && y !in rest
          ensures Names.Less(y, x)
        {
          if y != r {
            Names.LessTransitive(y, r, x);
          }
        }
        r := x;
      } else {
        Names.LessTotal(r, x);
      }
      rest := rest - {x};
    }
    GreatestUnique(references, r, Greatest(references));
  }

  method ListConversations(db: Database, user: string, limit: nat, before: Option<string>) returns (entries: seq<Entry>)
    ensures entries == FetchList(db, user, limit, before)
  {
    entries := [];
    var cursor := before;
    var left := limit;
    while left > 0 && References(db, user, cursor) != {}
      invariant entries + FetchList(db, user, left, cursor) == FetchList(db, user, limit, before)
      decreases left
    {
      var r := PickGreatest(References(db, user, cursor));
      assert entries + FetchList(db, user, left, cursor)
             == (entries + [EntryOf(r, db[(user, r)])]) + FetchList(db, user, left - 1, Some(r));
      entries := entries + [EntryOf(r, db[(user, r)])];
      cursor := Some(r);
      left := left - 1;
    }
  }

  /*** Writes ***/

  function EnsureConversation(db: Database, user: string, reference: string, newId: string, now: int): Database {
    if (user, reference) in db then db[(user, reference) := db[(user, reference)].(updatedAt := now)]
    else db[(user, reference) := Conversation(newId, now, now, [])]
  }

  function MaxSequence(messages: seq<Message>): int {
    if messages == [] then 0
    else
      var earlier, last := MaxSequence(messages[..|messages| - 1]), messages[|messages| - 1].sequence;
      if |messages| > 1 && earlier > last then earlier else last
  }

  // A message with a known client id only gets new content; any other message goes to the end.
  function UpsertMessage(messages: seq<Message>, m: Message): seq<Message> {
    if exists i :: 0 <= i < |messages| && messages[i].clientId == m.clientId
    then seq(|messages|, i requires 0 <= i < |messages| =>
      if messages[i].clientId == m.clientId then messages[i].(content := m.content) else messages[i])
    else messages + [m.(sequence := MaxSequence(messages) + 1)]
  }

  function InsertMessage(db: Database, user: string, reference: string, m: Message, now: int): Database
    requires (user, reference) in db
  {
    var c := db[(user, reference)];
    db[(user, reference) := c.(messages := UpsertMessage(c.messages, m), updatedAt := now)]
  }

  function InsertToolCall(db: Database, user: string, reference: string, messageId: string, toolCall: string): Database
    requires (user, reference) in db
  {
    var c := db[(user, reference)];
    db[(user, reference) := c.(messages := seq(|c.messages|, i requires 0 <= i < |c.messages| =>
      if c.messages[i].id == messageId then c.messages[i].(toolCalls := c.messages[i].toolCalls + [toolCall])
      else c.messages[i]))]
  }

  /*** What the writes do ***/

  predicate Known(messages: seq<Message>, clientId: string) {
    exists m :: m in messages && m.clientId == clientId
  }

  // A message with a known client id only gets new content; any other one follows all stored ones.
  ghost predicate Posts(messages: seq<Message>, m: Message, messages': seq<Message>) {
    if Known(messages, m.clientId) then
      && |messages'| == |messages|
      && (forall i | 0 <= i < |messages| && messages[i].clientId != m.clientId :: messages'[i] == messages[i])
      && (forall i | 0 <= i < |messages| && messages[i].clientId == m.clientId ::
            messages'[i] == messages[i].(content := m.content))
    else
      && |messages'| == |messages| + 1 && messages < messages'
      && messages'[|messages|] == m.(sequence := messages'[|messages|].sequence)
      && (forall i | 0 <= i < |messages| :: messages[i].sequence < messages'[|messages|].sequence)
  }

  lemma {:induction false} MaxIsGreatest(messages: seq<Message>)
    ensures forall i | 0 <= i < |messages| :: messages[i].sequence <= MaxSequence(messages)
  {
    if messages != [] {
      MaxIsGreatest(messages[..|messages| - 1]);
    }
  }

  lemma UpsertPosts(messages: seq<Message>, m: Message)
    ensures Posts(messages, m, UpsertMessage(messages, m))
  {
    MaxIsGreatest(messages);
    if i :| 0 <= i < |messages| && messages[i].clientId == m.clientId {
      assert messages[i] in messages;
    }
  }

  // Posting keeps the sequence numbers ascending, and a new message leads the next first page.
  lemma PostedLeads(messages: seq<Message>, m: Message, messages': seq<Message>, limit: nat)
    requires Posts(messages, m, messages') && Ascending(messages)
    ensures Ascending(messages')
    ensures !Known(messages, m.clientId) && limit > 0 ==>
              Page(messages', limit, None) == [messages'[|messages|]] + Page(messages, limit - 1, None)
  {
    if Known(messages, m.clientId) {
      assert forall i | 0 <= i < |messages| :: messages'[i].sequence == messages[i].sequence;
    } else {
      assert messages'[..|messages|] == messages;
    }
  }

  ghost predicate AllAscending(db: Database) {
    forall k | k in db :: Ascending(db[k].messages)
  }

  // The conversation's messages are posted to, and it keeps its id and the time it was made.
  ghost predicate PostsTo(db: Database, db': Database, user: string, reference: string, m: Message, now: int) {
    && ChangesOnly(db, db', user, reference)
    && (user, reference) in db && (user, reference) in db'
    && Posts(db[(user, reference)].messages, m, db'[(user, reference)].messages)
    && db'[(user, reference)] == db[(user, reference)].(messages := db'[(user, reference)].messages, updatedAt := now)
  }

  lemma InsertPosts(db: Database, user: string, reference: string, m: Message, now: int)
    requires (user, reference) in db
    ensures PostsTo(db, InsertMessage(db, user, reference, m, now), user, reference, m, now)
    ensures AllAscending(db) ==> AllAscending(InsertMessage(db, user, reference, m, now))
  {
    var messages := db[(user, reference)].messages;
    UpsertPosts(messages, m);
    if AllAscending(db) {
      PostedLeads(messages, m, UpsertMessage(messages, m), 0);
    }
  }

  // A stored conversation is touched and keeps all it holds; a missing one is created empty.
  ghost predicate EnsuresConversation(db: Database, db': Database, user: string, reference: string, newId: string,
                                      now: int)
  {
    && ChangesOnly(db, db', user, reference)
    && (user, reference) in db'
    && if (user, reference) in db then db'[(user, reference)] == db[(user, reference)].(updatedAt := now)
       else db'[(user, reference)] == Conversation(newId, now, now, [])
  }

  // Only the named message changes, and only by the call added to it.
  ghost predicate AddsCall(messages: seq<Message>, messageId: string, toolCall: string, messages': seq<Message>) {
    && |messages'| == |messages|
    && forall i | 0 <= i < |messages| ::
         if messages[i].id == messageId
         then messages'[i] == messages[i].(toolCalls := messages[i].toolCalls + [toolCall])
         else messages'[i] == messages[i]
  }

  ghost predicate AddsCallTo(db: Database, db': Database, user: string, reference: string, messageId: string,
                             toolCall: string)
  {
    && ChangesOnly(db, db', user, reference)
    && (user, reference) in db && (user, reference) in db'
    && AddsCall(db[(user, reference)].messages, messageId, toolCall, db'[(user, reference)].messages)
    && db'[(user, reference)] == db[(user, reference)].(messages := db'[(user, reference)].messages)
  }

  lemma WritesKeepAscending(db: Database, db': Database, user: string, reference: string)
    requires ChangesOnly(db, db', user, reference) && AllAscending(db)
    requires (user, reference) in db' ==>
               if (user, reference) !in db then db'[(user, reference)].messages == []
               else && |db'[(user, reference)].messages| == |db[(user, reference)].messages|
                    && forall i | 0 <= i < |db[(user, reference)].messages| ::
                         db'[(user, reference)].messages[i].sequence == db[(user, reference)].messages[i].sequence
    ensures AllAscending(db')
  {
    forall k | k in db'
      ensures Ascending(db'[k].messages)
    {
      assert k != (user, reference) ==> k in db && db'[k] == db[k];
    }
  }

  // Only the conversation of this user and reference differs.
  ghost predicate ChangesOnly(db: Database, db': Database, user: string, reference: string) {
    forall k | k != (user, reference) :: (k in db <==> k in db') && (k in db ==> db[k] == db'[k])
  }

  lemma {:induction false} OtherListsUnchanged(db: Database, db': Database, user: string, reference: string,
                                               other: string, limit: nat, before: Option<string>)
    requires ChangesOnly(db, db', user, reference) && other != user
    ensures FetchList(db', other, limit, before) == FetchList(db, other, limit, before)
    decreases limit
  {
    assert References(db', other, before) == References(db, other, before) by {
      forall r
        ensures r in References(db', other, before) <==> r in References(db, other, before)
      {
        assert (other, r) in db <==> (other, r) in db';
      }
    }
    if limit > 0 && References(db, other, before) != {} {
      OtherListsUnchanged(db, db', user, reference, other, limit - 1, Some(Greatest(References(db, other, before))));
    }
  }
}
