/** The journal read cache over its key store: cached values always equal what the database
    would return, the not-found marker included. */
module JournalCache {
  import opened Wrappers
  import opened CacheKeys
  import opened JournalDatabase

  datatype Json =
    | NotFoundMarker
    | EntryObject(entry: Entry)
    | EntryList(entries: seq<Entry>)
    | MessageList(messages: seq<Message>)

  // One key store holds the cached values and the index sets of entry keys.
  datatype Stored = Value(json: Json) | Members(keys: set<string>)

  type Store = map<string, Stored>

  predicate IsIndex(k: CacheKey) {
    k.ReferenceIndex? || k.ListsIndex?
  }

  // The index set a key is registered in; single entries are deleted by their own key instead.
  function IndexFor(k: CacheKey): CacheKey {
    if k.ListKey? then ListsIndex(k.user) else if k.ListsIndex? then k else ReferenceIndex(k.user, k.reference)
  }

  ghost predicate Registered(store: Store, k: CacheKey) {
    var i := Text(IndexFor(k));
    i in store && store[i].Members? && Text(k) in store[i].keys
  }

  // What a read of the database would put under a key.
  ghost function Expected(db: Database, k: CacheKey): Json
    requires !IsIndex(k)
  {
    match k
    case ListKey(user, limit, before) => EntryList(FetchList(db, user, limit, before))
    case EntryKey(user, reference) =>
      (match FetchEntry(db, user, reference)
       case None => NotFoundMarker
       case Some(e) => EntryObject(e))
    case MessagesKey(user, reference, limit, before) => MessageList(FetchMessages(db, user, reference, limit, before))
  }

  ghost predicate IsEntryText(text: string) {
    exists k :: Clean(k) && !IsIndex(k) && Text(k) == text
  }

  ghost predicate Fresh(store: Store, db: Database, k: CacheKey) {
    Text(k) in store ==>
      if IsIndex(k) then store[Text(k)].Members? && forall m | m in store[Text(k)].keys :: IsEntryText(m)
      else store[Text(k)] == Value(Expected(db, k)) && (!k.EntryKey? ==> Registered(store, k))
  }

  // Every cached value is what the database would return, and every list and page is in its index set.
  ghost predicate Coherent(store: Store, db: Database) {
    forall k | Clean(k) :: Fresh(store, db, k)
  }

  /*** The store's operations ***/

  function SetJson(store: Store, k: CacheKey, json: Json): Store {
    store[Text(k) := Value(json)]
  }

  function IndexKey(store: Store, k: CacheKey): Store {
    var i := Text(IndexFor(k));
    var members := if i in store && store[i].Members? then store[i].keys else {};
    store[i := Members(members + {Text(k)})]
  }

  function DeleteIndexed(store: Store, i: CacheKey): Store {
    var members := if Text(i) in store && store[Text(i)].Members? then store[Text(i)].keys else {};
    store - members - {Text(i)}
  }

  function Invalidated(store: Store, user: string, reference: string): Store {
    var withoutEntry := store - {Text(EntryKey(user, reference))};
    DeleteIndexed(DeleteIndexed(withoutEntry, ReferenceIndex(user, reference)), ListsIndex(user))
  }

  /*** Keeping coherence ***/

  // Filling a missed key with a fresh read and registering it.
  lemma FillKeepsCoherent(store: Store, db: Database, k: CacheKey)
    requires Coherent(store, db) && Clean(k) && !IsIndex(k)
    ensures var filled := SetJson(store, k, Expected(db, k));
            Coherent(if k.EntryKey? then filled else IndexKey(filled, k), db)
            && Coherent(IndexKey(filled, k), db)
  {
    var filled := SetJson(store, k, Expected(db, k));
    forall other | Clean(other)
      ensures Fresh(IndexKey(filled, k), db, other)
      ensures k.EntryKey? ==> Fresh(filled, db, other)
    {
      FillKeepsFresh(store, db, k, other);
    }
  }

  lemma FillKeepsFresh(store: Store, db: Database, k: CacheKey, other: CacheKey)
    requires Coherent(store, db) && Clean(k) && !IsIndex(k) && Clean(other)
    ensures Fresh(IndexKey(SetJson(store, k, Expected(db, k)), k), db, other)
    ensures k.EntryKey? ==> Fresh(SetJson(store, k, Expected(db, k)), db, other)
  {
    if IsIndex(other) {
      FillKeepsIndex(store, db, k, other);
    } else {
      FillKeepsValue(store, db, k, other);
    }
  }

  lemma FillKeepsIndex(store: Store, db: Database, k: CacheKey, other: CacheKey)
    requires Coherent(store, db) && Clean(k) && !IsIndex(k) && Clean(other) && IsIndex(other)
    ensures Fresh(IndexKey(SetJson(store, k, Expected(db, k)), k), db, other)
    ensures Fresh(SetJson(store, k, Expected(db, k)), db, other)
  {
    assert IsEntryText(Text(k));
    assert Fresh(store, db, other) && Fresh(store, db, IndexFor(k));
    SameTextSameKey(k, other);
    SameTextSameKey(k, IndexFor(k));
    SameTextSameKey(IndexFor(k), other);
  }

  lemma FillKeepsValue(store: Store, db: Database, k: CacheKey, other: CacheKey)
    requires Coherent(store, db) && Clean(k) && !IsIndex(k) && Clean(other) && !IsIndex(other)
    ensures Fresh(IndexKey(SetJson(store, k, Expected(db, k)), k), db, other)
    ensures k.EntryKey? ==> Fresh(SetJson(store, k, Expected(db, k)), db, other)
  {
    var i := IndexFor(k);
    assert Fresh(store, db, other) && Fresh(store, db, i);
    SameTextSameKey(k, other);
    SameTextSameKey(i, other);
    SameTextSameKey(k, IndexFor(other));
    SameTextSameKey(i, IndexFor(other));
    SameTextSameKey(k, i);
  }

  lemma SameTextSameKey(a: CacheKey, b: CacheKey)
    requires Clean(a) && Clean(b)
    ensures Text(a) == Text(b) <==> a == b
  {
    if Text(a) == Text(b) {
      TextInjective(a, b);
    }
  }

  // A value may expire at any time; index sets do not.
  lemma ExpiryKeepsCoherent(store: Store, db: Database, text: string)
    requires Coherent(store, db) && text in store && store[text].Value?
    ensures Coherent(store - {text}, db)
  {
    forall k | Clean(k)
      ensures Fresh(store - {text}, db, k)
    {
      assert Fresh(store, db, k) && Fresh(store, db, IndexFor(k));
    }
  }

  // Whatever a write to one conversation changes, invalidation has removed.
  lemma InvalidationRestores(store: Store, db: Database, db': Database, user: string, reference: string)
    requires Coherent(store, db) && ':' !in user && ChangesOnly(db, db', user, reference)
    ensures Coherent(Invalidated(store, user, reference), db')
  {
    forall k | Clean(k)
      ensures Fresh(Invalidated(store, user, reference), db', k)
    {
      InvalidatedIsRemoval(store, db, user, reference);
      InvalidatedIsFresh(store, db, db', user, reference, k);
    }
  }

  // Which keys an invalidation takes away.
  ghost predicate Affected(k: CacheKey, user: string, reference: string) {
    k.user == user && (k.ListKey? || k.ListsIndex? || k.reference == reference)
  }

  lemma UnaffectedReads(db: Database, db': Database, user: string, reference: string, k: CacheKey)
    requires ChangesOnly(db, db', user, reference) && !IsIndex(k) && !Affected(k, user, reference)
    ensures Expected(db', k) == Expected(db, k)
  {
    match k {
      case ListKey(other, limit, before) => OtherListsUnchanged(db, db', user, reference, other, limit, before);
      case EntryKey(u, r) => assert (u, r) != (user, reference);
      case MessagesKey(u, r, _, _) => assert (u, r) != (user, reference);
    }
  }

  function MembersOf(store: Store, i: CacheKey): set<string> {
    if Text(i) in store && store[Text(i)].Members? then store[Text(i)].keys else {}
  }

  // The texts an invalidation deletes.
  function Removed(store: Store, user: string, reference: string): set<string> {
    {Text(EntryKey(user, reference)), Text(ReferenceIndex(user, reference)), Text(ListsIndex(user))}
    + MembersOf(store, ReferenceIndex(user, reference)) + MembersOf(store, ListsIndex(user))
  }

  lemma InvalidatedIsRemoval(store: Store, db: Database, user: string, reference: string)
    requires Coherent(store, db) && ':' !in user
    ensures Invalidated(store, user, reference) == store - Removed(store, user, reference)
  {
    var byReference, lists, entry := ReferenceIndex(user, reference), ListsIndex(user), EntryKey(user, reference);
    SameTextSameKey(byReference, entry);
    SameTextSameKey(lists, entry);
    SameTextSameKey(lists, byReference);
    IndexTextIsNoMember(store, db, byReference, lists);
    var one := store - {Text(entry)};
    assert MembersOf(one, byReference) == MembersOf(store, byReference);
    var two := DeleteIndexed(one, byReference);
    assert MembersOf(two, lists) == MembersOf(store, lists);
  }

  lemma IndexStays(store: Store, db: Database, user: string, reference: string, i: CacheKey)
    requires Coherent(store, db) && ':' !in user && Clean(i) && IsIndex(i)
    requires i != ReferenceIndex(user, reference) && i != ListsIndex(user)
    ensures Text(i) !in Removed(store, user, reference)
  {
    SameTextSameKey(i, EntryKey(user, reference));
    SameTextSameKey(i, ReferenceIndex(user, reference));
    SameTextSameKey(i, ListsIndex(user));
    IndexTextIsNoMember(store, db, ReferenceIndex(user, reference), i);
    IndexTextIsNoMember(store, db, ListsIndex(user), i);
  }

  lemma InvalidatedIsFresh(store: Store, db: Database, db': Database, user: string, reference: string, k: CacheKey)
    requires Coherent(store, db) && ':' !in user && ChangesOnly(db, db', user, reference) && Clean(k)
    ensures Fresh(store - Removed(store, user, reference), db', k)
  {
    assert Fresh(store, db, k);
    if !IsIndex(k) && !Affected(k, user, reference) {
      UnaffectedReads(db, db', user, reference, k);
      IndexStays(store, db, user, reference, IndexFor(k));
    }
  }

  lemma IndexTextIsNoMember(store: Store, db: Database, i: CacheKey, j: CacheKey)
    requires Coherent(store, db) && Clean(i) && Clean(j) && IsIndex(i) && IsIndex(j)
    ensures Text(i) in store ==> Text(j) !in store[Text(i)].keys
  {
    assert Fresh(store, db, i);
    if Text(i) in store && Text(j) in store[Text(i)].keys {
      var k :| Clean(k) && !IsIndex(k) && Text(k) == Text(j);
      TextInjective(k, j);
    }
  }

  /*** The service ***/

  class JournalService {
    var db: Database
    var store: Store

    constructor (stored: Database)
      ensures db == stored && store == map[] && Coherent(store, db)
    {
      db, store := stored, map[];
    }

    // A value the store holds for the key, if it holds one.
    method GetJson(k: CacheKey) returns (json: Option<Json>)
      ensures json == if Text(k) in store && store[Text(k)].Value? then Some(store[Text(k)].json) else None
    {
      if Text(k) in store {
        match store[Text(k)] {
          case Value(j) => return Some(j);
          case Members(_) => return None;
        }
      }
      return None;
    }

    method ListJournals(user: string, limit: nat, before: Option<string>) returns (entries: seq<Entry>)
      requires Coherent(store, db) && Clean(ListKey(user, limit, before))
      modifies this`store
      ensures Coherent(store, db)
      ensures entries == FetchList(db, user, limit, before)
    {
      var k := ListKey(user, limit, before);
      assert Fresh(store, db, k);
      var cached := GetJson(k);
      if cached.Some? && cached.value.EntryList? {
        return cached.value.entries;
      }
      entries := ListConversations(db, user, limit, before);
      FillKeepsCoherent(store, db, k);
      store := SetJson(store, k, EntryList(entries));
      store := IndexKey(store, k);
    }

    method GetJournal(user: string, reference: string) returns (entry: Option<Entry>)
      requires Coherent(store, db) && ':' !in user
      modifies this`store
      ensures Coherent(store, db)
      ensures entry == FetchEntry(db, user, reference)
      ensures entry.Some? <==> (user, reference) in db
      ensures entry.Some? ==> Describes(entry.value, reference, db[(user, reference)])
    {
      if (user, reference) in db {
        EntryDescribes(reference, db[(user, reference)]);
      }
      var k := EntryKey(user, reference);
      assert Fresh(store, db, k);
      var cached := GetJson(k);
      if cached == Some(NotFoundMarker) {
        return None;
      }
      if cached.Some? && cached.value.EntryObject? {
        return Some(cached.value.entry);
      }
      entry := FetchEntry(db, user, reference);
      FillKeepsCoherent(store, db, k);
      if entry.None? {
        store := SetJson(store, k, NotFoundMarker);
        return;
      }
      store := SetJson(store, k, EntryObject(entry.value));
      store := IndexKey(store, k);
    }

    method ListMessages(user: string, reference: string, limit: nat, before: Option<int>) returns (page: seq<Message>)
      requires Coherent(store, db) && ':' !in user
      modifies this`store
      ensures Coherent(store, db)
      ensures page == FetchMessages(db, user, reference, limit, before)
      ensures (user, reference) !in db ==> page == []
      ensures (user, reference) in db && AllAscending(db) ==>
                IsPage(db[(user, reference)].messages, limit, before, page)
    {
      if (user, reference) in db && AllAscending(db) {
        PageIsPage(db[(user, reference)].messages, limit, before);
      }
      var k := MessagesKey(user, reference, limit, before);
      assert Fresh(store, db, k);
      var cached := GetJson(k);
      if cached.Some? && cached.value.MessageList? {
        return cached.value.messages;
      }
      page := FetchMessages(db, user, reference, limit, before);
      FillKeepsCoherent(store, db, k);
      store := SetJson(store, k, MessageList(page));
      store := IndexKey(store, k);
    }

    method InvalidateForReference(user: string, reference: string)
      modifies this`store
      ensures store == Invalidated(old(store), user, reference)
    {
      store := store - {Text(EntryKey(user, reference))};
      store := DeleteIndexed(store, ReferenceIndex(user, reference));
      store := DeleteIndexed(store, ListsIndex(user));
    }

    method EnsureJournal(user: string, reference: string, newId: string, now: int) returns (id: string)
      requires Coherent(store, db) && ':' !in user
      modifies this
      ensures Coherent(store, db)
      ensures db == EnsureConversation(old(db), user, reference, newId, now) && id == db[(user, reference)].id
      ensures EnsuresConversation(old(db), db, user, reference, newId, now)
      ensures AllAscending(old(db)) ==> AllAscending(db)
    {
      ghost var before := db;
      db := EnsureConversation(db, user, reference, newId, now);
      if AllAscending(before) {
        WritesKeepAscending(before, db, user, reference);
      }
      InvalidationRestores(store, before, db, user, reference);
      InvalidateForReference(user, reference);
      return db[(user, reference)].id;
    }

    // reference is the one the conversation id resolves to.
    method CreateJournalMessage(user: string, reference: string, m: Message, now: int)
      requires Coherent(store, db) && ':' !in user && (user, reference) in db
      modifies this
      ensures Coherent(store, db)
      ensures db == InsertMessage(old(db), user, reference, m, now)
      ensures PostsTo(old(db), db, user, reference, m, now)
      ensures AllAscending(old(db)) ==> AllAscending(db)
    {
      ghost var before := db;
      InsertPosts(db, user, reference, m, now);
      db := InsertMessage(db, user, reference, m, now);
      InvalidationRestores(store, before, db, user, reference);
      InvalidateForReference(user, reference);
    }

    method CreateJournalToolCall(user: string, reference: string, messageId: string, toolCall: string)
      requires Coherent(store, db) && ':' !in user && (user, reference) in db
      modifies this
      ensures Coherent(store, db)
      ensures db == InsertToolCall(old(db), user, reference, messageId, toolCall)
      ensures AddsCallTo(old(db), db, user, reference, messageId, toolCall)
      ensures AllAscending(old(db)) ==> AllAscending(db)
    {
      ghost var before := db;
      db := InsertToolCall(db, user, reference, messageId, toolCall);
      if AllAscending(before) {
        WritesKeepAscending(before, db, user, reference);
      }
      InvalidationRestores(store, before, db, user, reference);
      InvalidateForReference(user, reference);
    }

    // Some value expires.
    method Expire(text: string)
      requires Coherent(store, db)
      modifies this`store
      ensures Coherent(store, db)
      ensures store == if text in old(store) && old(store)[text].Value? then old(store) - {text} else old(store)
    {
      if text in store && store[text].Value? {
        ExpiryKeepsCoherent(store, db, text);
        store := store - {text};
      }
    }
  }

  /*** Runs ***/

  datatype State = State(db: Database, store: Store)

  // A read that misses and fills, a write with its invalidation, an expiry, or nothing at all.
  ghost predicate Step(s: State, s': State) {
    || s' == s
    || (exists k :: Clean(k) && !IsIndex(k) && s'.db == s.db
                    && (s'.store == IndexKey(SetJson(s.store, k, Expected(s.db, k)), k)
                        || (k.EntryKey? && s'.store == SetJson(s.store, k, Expected(s.db, k)))))
    || (exists user, reference :: ':' !in user && ChangesOnly(s.db, s'.db, user, reference)
                                  && s'.store == Invalidated(s.store, user, reference))
    || (exists text :: text in s.store && s.store[text].Value? && s' == State(s.db, s.store - {text}))
  }

  lemma StepKeepsCoherent(s: State, s': State)
    requires Coherent(s.store, s.db) && Step(s, s')
    ensures Coherent(s'.store, s'.db)
  {
    if k :| Clean(k) && !IsIndex(k) && s'.db == s.db
            && (s'.store == IndexKey(SetJson(s.store, k, Expected(s.db, k)), k)
                || (k.EntryKey? && s'.store == SetJson(s.store, k, Expected(s.db, k)))) {
      FillKeepsCoherent(s.store, s.db, k);
    } else if user, reference :| ':' !in user && ChangesOnly(s.db, s'.db, user, reference)
                                 && s'.store == Invalidated(s.store, user, reference) {
      InvalidationRestores(s.store, s.db, s'.db, user, reference);
    } else if text :| text in s.store && s.store[text].Value? && s' == State(s.db, s.store - {text}) {
      ExpiryKeepsCoherent(s.store, s.db, text);
    }
  }

  // After any sequence of reads, writes and expiries from an empty cache, every hit equals a read.
  lemma {:induction false} RunsStayCoherent(run: seq<State>, i: nat)
    requires i < |run| && run[0].store == map[]
    requires forall j | 0 <= j < |run| - 1 :: Step(run[j], run[j + 1])
    ensures Coherent(run[i].store, run[i].db)
  {
    if i > 0 {
      RunsStayCoherent(run, i - 1);
      assert Step(run[i - 1], run[i - 1 + 1]);
      StepKeepsCoherent(run[i - 1], run[i]);
    }
  }
}
