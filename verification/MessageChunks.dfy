/** Uncommitted journal messages: cut into runs, split under a token budget, enqueued and
    committed chunk by chunk. */
module MessageChunks {
  import opened Sequences
  import opened Wrappers

  datatype Message = Message(id: string, reference: string, content: Option<string>, committed: bool)

  // A row of the query: the message, and whether the one before it in its conversation is committed.
  datatype Row = Row(message: Message, previousCommitted: Option<bool>)

  /*** Tokens ***/

  // A quarter of the length, rounded half to even.
  function CountTextTokens(text: Option<string>): (tokens: nat)
    ensures text.None? ==> tokens == 0
    ensures text.Some? ==> -2 <= 4 * tokens - |text.value| <= 2
    ensures text.Some? && |text.value| % 4 == 2 ==> tokens % 2 == 0
  {
    if text.None? || text.value == "" then 0
    else
      var quarters, rest := |text.value| / 4, |text.value| % 4;
      if rest < 2 then quarters
      else if rest > 2 then quarters + 1
      else quarters + quarters % 2
  }

  function Total(chunk: seq<Message>): nat {
    if chunk == [] then 0 else CountTextTokens(chunk[0].content) + Total(chunk[1..])
  }

  lemma {:induction false} TotalAppend(a: seq<Message>, b: seq<Message>)
    ensures Total(a + b) == Total(a) + Total(b)
  {
    if a == [] {
      assert a + b == b;
    } else {
      assert (a + b)[1..] == a[1..] + b;
      TotalAppend(a[1..], b);
    }
  }

  function Flatten(chunks: seq<seq<Message>>): seq<Message> {
    if chunks == [] then [] else chunks[0] + Flatten(chunks[1..])
  }

  lemma {:induction false} FlattenAppend(a: seq<seq<Message>>, b: seq<seq<Message>>)
    ensures Flatten(a + b) == Flatten(a) + Flatten(b)
  {
    if a == [] {
      assert a + b == b;
    } else {
      assert (a + b)[1..] == a[1..] + b;
      FlattenAppend(a[1..], b);
    }
  }

  /*** The greedy split ***/

  predicate Overflows(chunk: seq<Message>, m: Message, limit: int) {
    chunk != [] && Total(chunk) + CountTextTokens(m.content) > limit
  }

  function SplitFrom(chunk: seq<Message>, rest: seq<Message>, limit: int): (chunks: seq<seq<Message>>)
    ensures chunk + rest != [] ==> chunks != []
    decreases rest
  {
    if rest == [] then if chunk == [] then [] else [chunk]
    else if Overflows(chunk, rest[0], limit) then [chunk] + SplitFrom([rest[0]], rest[1..], limit)
    else SplitFrom(chunk + [rest[0]], rest[1..], limit)
  }

  method SplitByTokenLimit(run: seq<Message>, limit: int) returns (chunks: seq<seq<Message>>)
    ensures chunks == SplitFrom([], run, limit)
  {
    chunks := [];
    var chunk: seq<Message> := [];
    var chunkTokens := 0;
    for i := 0 to |run|
      invariant chunkTokens == Total(chunk)
      invariant chunks + SplitFrom(chunk, run[i..], limit) == SplitFrom([], run, limit)
    {
      var tokens := CountTextTokens(run[i].content);
      assert run[i..][1..] == run[i + 1..];
      TotalAppend(chunk, [run[i]]);
      assert Total([run[i]]) == tokens && [] + [run[i]] == [run[i]];
      if chunk != [] && chunkTokens + tokens > limit {
        Regroup(chunks, [chunk], SplitFrom([run[i]], run[i + 1..], limit));
        chunks := chunks + [chunk];
        chunk := [];
        chunkTokens := 0;
      }
      chunk := chunk + [run[i]];
      chunkTokens := chunkTokens + tokens;
    }
    if chunk != [] {
      chunks := chunks + [chunk];
    }
  }

  predicate Fits(chunk: seq<Message>, limit: int) {
    |chunk| >= 2 ==> Total(chunk) <= limit
  }

  // Consecutive nonempty chunks of run; a chunk of two or more messages stays within the limit.
  predicate IsSplit(run: seq<Message>, chunks: seq<seq<Message>>, limit: int) {
    Flatten(chunks) == run && forall c | c in chunks :: c != [] && Fits(c, limit)
  }

  lemma {:induction false} GreedyIsSplit(chunk: seq<Message>, rest: seq<Message>, limit: int)
    requires Fits(chunk, limit)
    ensures IsSplit(chunk + rest, SplitFrom(chunk, rest, limit), limit)
    decreases rest
  {
    if rest == [] {
      assert Flatten([chunk]) == chunk + Flatten([]);
    } else if Overflows(chunk, rest[0], limit) {
      GreedyIsSplit([rest[0]], rest[1..], limit);
      assert [rest[0]] + rest[1..] == rest;
    } else {
      TotalAppend(chunk, [rest[0]]);
      GreedyIsSplit(chunk + [rest[0]], rest[1..], limit);
      assert chunk + [rest[0]] + rest[1..] == chunk + rest;
    }
  }

  // A split of what follows the first k messages, with no more chunks, and fewer if k covers the first one.
  lemma {:induction false} DropFront(run: seq<Message>, chunks: seq<seq<Message>>, limit: int, k: nat)
    returns (shorter: seq<seq<Message>>)
    requires IsSplit(run, chunks, limit) && k <= |run|
    ensures IsSplit(run[k..], shorter, limit) && |shorter| <= |chunks|
    ensures chunks != [] && k >= |chunks[0]| ==> |shorter| < |chunks|
    decreases |chunks|
  {
    if chunks == [] {
      shorter := chunks;
    } else {
      var first := chunks[0];
      assert first in chunks && forall c | c in chunks[1..] :: c in chunks;
      assert run == first + Flatten(chunks[1..]);
      if k >= |first| {
        shorter := DropFront(Flatten(chunks[1..]), chunks[1..], limit, k - |first|);
        assert run[k..] == Flatten(chunks[1..])[k - |first|..];
      } else {
        shorter := [first[k..]] + chunks[1..];
        CutFirst(run, chunks, limit, k);
      }
    }
  }

  lemma CutFirst(run: seq<Message>, chunks: seq<seq<Message>>, limit: int, k: nat)
    requires IsSplit(run, chunks, limit) && chunks != [] && k < |chunks[0]|
    ensures k <= |run| && IsSplit(run[k..], [chunks[0][k..]] + chunks[1..], limit)
  {
    var first, shorter := chunks[0], [chunks[0][k..]] + chunks[1..];
    assert first in chunks && forall c | c in chunks[1..] :: c in chunks;
    TotalAppend(first[..k], first[k..]);
    assert first == first[..k] + first[k..];
    assert run == first + Flatten(chunks[1..]);
    assert run[k..] == first[k..] + Flatten(chunks[1..]);
    assert shorter[1..] == chunks[1..];
    assert Flatten(shorter) == first[k..] + Flatten(chunks[1..]);
  }

  lemma LongerTotalsMore(short: seq<Message>, long: seq<Message>)
    requires short <= long
    ensures Total(short) <= Total(long)
  {
    assert long == short + long[|short|..];
    TotalAppend(short, long[|short|..]);
  }

  lemma {:induction false} GreedyFromIsOptimal(chunk: seq<Message>, rest: seq<Message>, limit: int,
                                               other: seq<seq<Message>>)
    requires chunk != [] && IsSplit(chunk + rest, other, limit)
    ensures |SplitFrom(chunk, rest, limit)| <= |other|
    decreases rest
  {
    if rest == [] {
    } else if Overflows(chunk, rest[0], limit) {
      var first := other[0];
      assert chunk + rest == first + Flatten(other[1..]);
      assert first in other;
      if |first| > |chunk| {
        assert chunk + [rest[0]] == (chunk + rest)[..|chunk| + 1] == first[..|chunk| + 1];
        LongerTotalsMore(chunk + [rest[0]], first);
        TotalAppend(chunk, [rest[0]]);
        assert false;
      }
      var shorter := DropFront(chunk + rest, other, limit, |chunk|);
      assert (chunk + rest)[|chunk|..] == [rest[0]] + rest[1..];
      GreedyFromIsOptimal([rest[0]], rest[1..], limit, shorter);
    } else {
      assert chunk + [rest[0]] + rest[1..] == chunk + rest;
      GreedyFromIsOptimal(chunk + [rest[0]], rest[1..], limit, other);
    }
  }

  // No split of a run into consecutive fitting chunks has fewer chunks than the greedy one.
  lemma GreedyIsOptimal(run: seq<Message>, limit: int, other: seq<seq<Message>>)
    requires IsSplit(run, other, limit)
    ensures IsSplit(run, SplitFrom([], run, limit), limit)
    ensures |SplitFrom([], run, limit)| <= |other|
  {
    GreedyIsSplit([], run, limit);
    assert [] + run == run;
    if run != [] {
      assert [run[0]] + run[1..] == run && [] + [run[0]] == [run[0]];
      GreedyFromIsOptimal([run[0]], run[1..], limit, other);
    }
  }

  /*** Listing ***/

  // Runs end at a committed row, at a new reference, and after a row that follows a committed one.
  function Listing(run: seq<Message>, rows: seq<Row>, limit: int): seq<seq<Message>>
    decreases rows
  {
    if rows == [] then SplitFrom([], run, limit)
    else
      var m, rest := rows[0].message, rows[1..];
      if m.committed then SplitFrom([], run, limit) + Listing([], rest, limit)
      else if run != [] && (run[0].reference != m.reference || rows[0].previousCommitted == Some(true))
      then SplitFrom([], run, limit) + Listing([m], rest, limit)
      else Listing(run + [m], rest, limit)
  }

  method ListUncommittedMessageSequences(rows: seq<Row>, limit: int) returns (chunks: seq<seq<Message>>)
    ensures chunks == Listing([], rows, limit)
  {
    chunks := [];
    var run: seq<Message> := [];
    var reference: Option<string> := None;
    for i := 0 to |rows|
      invariant run != [] ==> reference == Some(run[0].reference)
      invariant chunks + Listing(run, rows[i..], limit) == Listing([], rows, limit)
    {
      var m := rows[i].message;
      assert rows[i..][1..] == rows[i + 1..];
      if m.committed {
        if run != [] {
          var split := SplitByTokenLimit(run, limit);
          Regroup(chunks, split, Listing([], rows[i + 1..], limit));
          chunks := chunks + split;
          run := [];
        }
        reference := Some(m.reference);
        continue;
      }
      if reference == None {
        reference := Some(m.reference);
      }
      if reference != Some(m.reference) {
        if run != [] {
          var split := SplitByTokenLimit(run, limit);
          Regroup(chunks, split, Listing([m], rows[i + 1..], limit));
          chunks := chunks + split;
          run := [];
        }
        reference := Some(m.reference);
      }
      if rows[i].previousCommitted == Some(true) && run != [] {
        var split := SplitByTokenLimit(run, limit);
        Regroup(chunks, split, Listing([m], rows[i + 1..], limit));
        chunks := chunks + split;
        run := [];
      }
      assert [] + [m] == [m];
      run := run + [m];
    }
    if run != [] {
      var split := SplitByTokenLimit(run, limit);
      chunks := chunks + split;
    }
  }

  /*** The query ***/

  // A user's messages in the order of the query, with one conversation for each reference;
  // previous is the message before them.
  function WithLag(previous: Option<Message>, messages: seq<Message>): seq<Row>
    decreases messages
  {
    if messages == [] then []
    else
      var m := messages[0];
      var lag := if previous.Some? && previous.value.reference == m.reference then Some(previous.value.committed)
                 else None;
      [Row(m, lag)] + WithLag(Some(m), messages[1..])
  }

  // Each row has the flag of the row before it, where that is one of the same conversation.
  lemma {:induction false} LagIsPrevious(previous: Option<Message>, messages: seq<Message>, i: nat)
    requires i < |messages|
    ensures |WithLag(previous, messages)| == |messages| && WithLag(previous, messages)[i].message == messages[i]
    ensures var before := if i > 0 then Some(messages[i - 1]) else previous;
            WithLag(previous, messages)[i].previousCommitted
            == if before.Some? && before.value.reference == messages[i].reference then Some(before.value.committed)
               else None
    decreases i
  {
    if i > 0 {
      LagIsPrevious(Some(messages[0]), messages[1..], i - 1);
    } else if |messages| > 1 {
      LagLength(Some(messages[0]), messages[1..]);
    }
  }

  lemma {:induction false} LagLength(previous: Option<Message>, messages: seq<Message>)
    ensures |WithLag(previous, messages)| == |messages|
    decreases messages
  {
    if messages != [] {
      LagLength(Some(messages[0]), messages[1..]);
    }
  }

  function Scoped(messages: seq<Message>, reference: Option<string>): seq<Message> {
    if messages == [] then []
    else if reference == None || reference == Some(messages[0].reference)
    then [messages[0]] + Scoped(messages[1..], reference)
    else Scoped(messages[1..], reference)
  }

  function Uncommitted(messages: seq<Message>): seq<Message> {
    if messages == [] then []
    else if messages[0].committed then Uncommitted(messages[1..])
    else [messages[0]] + Uncommitted(messages[1..])
  }

  // One pass that closes the current chunk at a committed message, at a new reference, or when it is full.
  function Chunks(chunk: seq<Message>, messages: seq<Message>, limit: int): seq<seq<Message>>
    decreases messages
  {
    if messages == [] then if chunk == [] then [] else [chunk]
    else
      var m, rest := messages[0], messages[1..];
      if m.committed then (if chunk == [] then [] else [chunk]) + Chunks([], rest, limit)
      else if chunk != [] && (chunk[0].reference != m.reference || Overflows(chunk, m, limit))
      then [chunk] + Chunks([m], rest, limit)
      else Chunks(chunk + [m], rest, limit)
  }

  // Adding a message to a run either extends its last chunk or opens a new one.
  lemma {:induction false} SplitGrows(chunk: seq<Message>, run: seq<Message>, m: Message, limit: int)
    requires chunk + run != []
    ensures var s := SplitFrom(chunk, run, limit);
            s != [] && s[|s| - 1] != [] && SplitFrom(chunk, run + [m], limit)
            == if Overflows(s[|s| - 1], m, limit) then s + [[m]] else s[..|s| - 1] + [s[|s| - 1] + [m]]
    decreases run
  {
    if run == [] {
      assert run + [m] == [m];
    } else {
      assert (run + [m])[1..] == run[1..] + [m];
      if Overflows(chunk, run[0], limit) {
        SplitGrows([run[0]], run[1..], m, limit);
      } else {
        SplitGrows(chunk + [run[0]], run[1..], m, limit);
      }
    }
  }

  lemma {:induction false} SplitReferences(chunk: seq<Message>, run: seq<Message>, limit: int, reference: string)
    requires forall m | m in chunk || m in run :: m.reference == reference
    ensures forall c, m | c in SplitFrom(chunk, run, limit) && m in c :: m.reference == reference
    decreases run
  {
    if run != [] {
      if Overflows(chunk, run[0], limit) {
        SplitReferences([run[0]], run[1..], limit, reference);
      } else {
        SplitReferences(chunk + [run[0]], run[1..], limit, reference);
      }
    }
  }

  lemma SplitSingle(m: Message, limit: int)
    ensures SplitFrom([], [m], limit) == [[m]]
  {
    assert [] + [m] == [m] && [m][1..] == [];
    assert SplitFrom([m], [], limit) == [[m]];
  }

  // While a run is open, its last message is uncommitted and shares its reference.
  ghost predicate OpenRun(run: seq<Message>, previous: Option<Message>) {
    run != [] ==>
      && previous.Some? && !previous.value.committed && previous.value.reference == run[0].reference
      && forall m | m in run :: m.reference == run[0].reference
  }

  // The chunks of the open run, the last of them going on with the messages that follow.
  function SplitThenChunks(run: seq<Message>, messages: seq<Message>, limit: int): seq<seq<Message>> {
    if run == [] then Chunks([], messages, limit)
    else
      var s := SplitFrom([], run, limit);
      s[..|s| - 1] + Chunks(s[|s| - 1], messages, limit)
  }

  // The last chunk of a run: not empty, and of the run's reference.
  lemma LastOfRun(run: seq<Message>, previous: Option<Message>, limit: int)
    requires OpenRun(run, previous) && run != []
    ensures var s := SplitFrom([], run, limit);
            && s != [] && s[|s| - 1] != [] && s[|s| - 1][0].reference == run[0].reference
            && s == s[..|s| - 1] + [s[|s| - 1]]
  {
    var s := SplitFrom([], run, limit);
    SplitGrows([], run, run[0], limit);
    SplitReferences([], run, limit, run[0].reference);
    assert s[|s| - 1] in s && s[|s| - 1][0] in s[|s| - 1];
  }

  lemma ClosedRun(run: seq<Message>, previous: Option<Message>, m: Message, rest: seq<Message>, limit: int)
    requires OpenRun(run, previous)
    requires m.committed || (run != [] && run[0].reference != m.reference)
    ensures SplitThenChunks(run, [m] + rest, limit)
            == SplitFrom([], run, limit) + Chunks(if m.committed then [] else [m], rest, limit)
  {
    assert ([m] + rest)[1..] == rest;
    if run != [] {
      LastOfRun(run, previous, limit);
      var s := SplitFrom([], run, limit);
      var tail := Chunks(if m.committed then [] else [m], rest, limit);
      assert Chunks(s[|s| - 1], [m] + rest, limit) == [s[|s| - 1]] + tail;
      Regroup(s[..|s| - 1], [s[|s| - 1]], tail);
    }
  }

  lemma GrownRun(run: seq<Message>, previous: Option<Message>, m: Message, rest: seq<Message>, limit: int)
    requires OpenRun(run, previous) && !m.committed && (run != [] ==> run[0].reference == m.reference)
    ensures SplitThenChunks(run, [m] + rest, limit) == SplitThenChunks(run + [m], rest, limit)
  {
    assert ([m] + rest)[1..] == rest;
    if run == [] {
      assert run + [m] == [m];
      SplitSingle(m, limit);
      assert [] + Chunks([m], rest, limit) == Chunks([m], rest, limit);
    } else {
      LastOfRun(run, previous, limit);
      SplitGrows([], run, m, limit);
      var s, grown := SplitFrom([], run, limit), SplitFrom([], run + [m], limit);
      if Overflows(s[|s| - 1], m, limit) {
        assert grown[..|grown| - 1] == s;
        Regroup(s[..|s| - 1], [s[|s| - 1]], Chunks([m], rest, limit));
      } else {
        assert grown[..|grown| - 1] == s[..|s| - 1];
      }
    }
  }

  // The branch on a committed predecessor never fires: runs then splits equals the one-pass form.
  lemma {:induction false} ListingIsChunks(run: seq<Message>, previous: Option<Message>, messages: seq<Message>,
                                           limit: int)
    requires OpenRun(run, previous)
    ensures Listing(run, WithLag(previous, messages), limit) == SplitThenChunks(run, messages, limit)
    decreases messages
  {
    if messages == [] {
      if run != [] {
        LastOfRun(run, previous, limit);
      }
    } else {
      var m, rest := messages[0], messages[1..];
      assert messages == [m] + rest;
      assert WithLag(previous, messages)[1..] == WithLag(Some(m), rest);
      if m.committed {
        ListingIsChunks([], Some(m), rest, limit);
        ClosedRun(run, previous, m, rest, limit);
      } else if run != [] && run[0].reference != m.reference {
        ListingIsChunks([m], Some(m), rest, limit);
        SplitSingle(m, limit);
        ClosedRun(run, previous, m, rest, limit);
      } else {
        ListingIsChunks(run + [m], Some(m), rest, limit);
        GrownRun(run, previous, m, rest, limit);
      }
    }
  }

  // A chunk is a stretch of neighbouring rows, all uncommitted and of one reference, within the limit.
  ghost predicate GoodChunk(messages: seq<Message>, c: seq<Message>, limit: int) {
    && c != [] && Fits(c, limit)
    && (forall m | m in c :: !m.committed && m.reference == c[0].reference)
    && exists i, j :: 0 <= i <= j <= |messages| && messages[i..j] == c
  }

  ghost predicate Partition(chunks: seq<seq<Message>>, chunk: seq<Message>, messages: seq<Message>, limit: int) {
    && Flatten(chunks) == chunk + Uncommitted(messages)
    && forall c | c in chunks :: GoodChunk(chunk + messages, c, limit)
  }

  // The chunks are a partition of the uncommitted rows into good chunks, in order.
  lemma {:induction false} ChunksArePartition(chunk: seq<Message>, messages: seq<Message>, limit: int)
    requires chunk != [] ==> GoodChunk(chunk, chunk, limit)
    ensures Partition(Chunks(chunk, messages, limit), chunk, messages, limit)
    decreases messages
  {
    if messages == [] {
      if chunk != [] {
        assert (chunk + messages)[0..|chunk|] == chunk;
        assert Flatten([chunk]) == chunk + Flatten([]);
      }
    } else {
      var m, rest := messages[0], messages[1..];
      if m.committed {
        ChunksArePartition([], rest, limit);
        ClosedByCommitted(chunk, messages, Chunks([], rest, limit), limit);
      } else if chunk != [] && (chunk[0].reference != m.reference || Overflows(chunk, m, limit)) {
        assert [m][0..1] == [m];
        ChunksArePartition([m], rest, limit);
        ClosedByNext(chunk, messages, Chunks([m], rest, limit), limit);
      } else {
        GoodChunkGrows(chunk, m, limit);
        ChunksArePartition(chunk + [m], rest, limit);
        Regroup(chunk, [m], rest);
        Regroup(chunk, [m], Uncommitted(rest));
        assert [m] + rest == messages;
      }
    }
  }

  lemma GoodChunkGrows(chunk: seq<Message>, m: Message, limit: int)
    requires chunk != [] ==> GoodChunk(chunk, chunk, limit) && chunk[0].reference == m.reference
    requires !m.committed && !Overflows(chunk, m, limit)
    ensures GoodChunk(chunk + [m], chunk + [m], limit)
  {
    TotalAppend(chunk, [m]);
    assert (chunk + [m])[0..|chunk| + 1] == chunk + [m];
  }

  lemma ClosedByCommitted(chunk: seq<Message>, messages: seq<Message>, tail: seq<seq<Message>>, limit: int)
    requires messages != [] && messages[0].committed && (chunk != [] ==> GoodChunk(chunk, chunk, limit))
    requires Partition(tail, [], messages[1..], limit)
    ensures Partition((if chunk == [] then [] else [chunk]) + tail, chunk, messages, limit)
  {
    SliceOfSuffix([], messages[1..], chunk + messages, |chunk| + 1, tail, limit);
    if chunk == [] {
      assert [] + tail == tail;
    } else {
      assert (chunk + messages)[0..|chunk|] == chunk;
      assert ([chunk] + tail)[1..] == tail;
    }
  }

  lemma ClosedByNext(chunk: seq<Message>, messages: seq<Message>, tail: seq<seq<Message>>, limit: int)
    requires messages != [] && !messages[0].committed && chunk != [] && GoodChunk(chunk, chunk, limit)
    requires Partition(tail, [messages[0]], messages[1..], limit)
    ensures Partition([chunk] + tail, chunk, messages, limit)
  {
    SliceOfSuffix([messages[0]], messages[1..], chunk + messages, |chunk|, tail, limit);
    assert (chunk + messages)[0..|chunk|] == chunk;
    assert ([chunk] + tail)[1..] == tail;
  }

  lemma SliceOfSuffix(chunk: seq<Message>, rest: seq<Message>, all: seq<Message>, k: nat, chunks: seq<seq<Message>>,
                      limit: int)
    requires k <= |all| && all[k..] == chunk + rest
    requires forall c | c in chunks :: GoodChunk(chunk + rest, c, limit)
    ensures forall c | c in chunks :: GoodChunk(all, c, limit)
  {
    forall c | c in chunks
      ensures GoodChunk(all, c, limit)
    {
      var i, j :| 0 <= i <= j <= |chunk + rest| && (chunk + rest)[i..j] == c;
      forall x | 0 <= x < |c|
        ensures all[k + i..k + j][x] == c[x]
      {
        assert all[k + (i + x)] == all[k..][i + x] == (chunk + rest)[i + x] == c[x];
      }
      assert all[k + i..k + j] == c;
    }
  }

  /*** Committing ***/

  function Ids(messages: seq<Message>): set<string> {
    set m | m in messages :: m.id
  }

  // The update by id: every message with one of these ids becomes committed.
  function Commit(messages: seq<Message>, ids: set<string>): seq<Message> {
    if messages == [] then []
    else
      var m := messages[0];
      [if m.id in ids then m.(committed := true) else m] + Commit(messages[1..], ids)
  }

  ghost predicate DistinctIds(messages: seq<Message>) {
    forall i, j | 0 <= i < j < |messages| :: messages[i].id != messages[j].id
  }

  lemma {:induction false} CommitOthers(messages: seq<Message>, ids: set<string>)
    requires forall m | m in messages :: m.id !in ids
    ensures Commit(messages, ids) == messages
  {
    if messages != [] {
      CommitOthers(messages[1..], ids);
    }
  }

  lemma {:induction false} CommitTwice(messages: seq<Message>, a: set<string>, b: set<string>)
    ensures Commit(Commit(messages, a), b) == Commit(messages, a + b)
  {
    if messages != [] {
      CommitTwice(messages[1..], a, b);
    }
  }

  lemma {:induction false} CommitAt(messages: seq<Message>, ids: set<string>)
    ensures |Commit(messages, ids)| == |messages|
    ensures forall i | 0 <= i < |messages| ::
              Commit(messages, ids)[i] == messages[i].(committed := messages[i].committed || messages[i].id in ids)
  {
    if messages != [] {
      CommitAt(messages[1..], ids);
    }
  }

  lemma {:induction false} ScopedCommit(messages: seq<Message>, reference: Option<string>, ids: set<string>)
    ensures Scoped(Commit(messages, ids), reference) == Commit(Scoped(messages, reference), ids)
  {
    if messages != [] {
      ScopedCommit(messages[1..], reference, ids);
    }
  }

  lemma {:induction false} ScopedDistinct(messages: seq<Message>, reference: Option<string>)
    requires DistinctIds(messages)
    ensures DistinctIds(Scoped(messages, reference))
    ensures forall m | m in Scoped(messages, reference) :: m in messages
  {
    if messages != [] {
      ScopedDistinct(messages[1..], reference);
      forall m | m in messages[1..]
        ensures m.id != messages[0].id
      {
        var j :| 0 <= j < |messages| - 1 && messages[1..][j] == m;
        assert messages[j + 1] == m;
      }
    }
  }

  lemma {:induction false} FirstChunkGrows(chunk: seq<Message>, messages: seq<Message>, limit: int)
    requires chunk != []
    ensures Chunks(chunk, messages, limit) != [] && chunk <= Chunks(chunk, messages, limit)[0]
    decreases messages
  {
    if messages != [] {
      FirstChunkGrows(chunk + [messages[0]], messages[1..], limit);
    }
  }

  // Committing the chunk being built, as it will turn out, leaves exactly the chunks after it.
  lemma {:induction false} RestAfterOpenChunk(chunk: seq<Message>, messages: seq<Message>, limit: int)
    requires chunk != [] && DistinctIds(chunk + messages)
    ensures var cs := Chunks(chunk, messages, limit);
            cs != [] && Chunks([], Commit(messages, Ids(cs[0])), limit) == cs[1..]
    decreases messages
  {
    FirstChunkGrows(chunk, messages, limit);
    var cs := Chunks(chunk, messages, limit);
    if messages != [] {
      var m, rest := messages[0], messages[1..];
      if m.committed || chunk[0].reference != m.reference || Overflows(chunk, m, limit) {
        assert cs[0] == chunk;
        ChunkIdsElsewhere(chunk, messages);
        CommitOthers(messages, Ids(chunk));
        assert [] + [m] == [m];
      } else {
        assert chunk + [m] + rest == chunk + messages;
        RestAfterOpenChunk(chunk + [m], rest, limit);
        FirstChunkGrows(chunk + [m], rest, limit);
        assert cs[0][|chunk|] == (chunk + [m])[|chunk|];
        assert Commit(messages, Ids(cs[0]))[0].committed;
        assert Commit(messages, Ids(cs[0]))[1..] == Commit(rest, Ids(cs[0]));
      }
    }
  }

  lemma ChunkIdsElsewhere(chunk: seq<Message>, messages: seq<Message>)
    requires DistinctIds(chunk + messages)
    ensures forall m | m in messages :: m.id !in Ids(chunk)
  {
    forall i, j | 0 <= i < |messages| && 0 <= j < |chunk|
      ensures messages[i].id != chunk[j].id
    {
      assert (chunk + messages)[|chunk| + i] == messages[i] && (chunk + messages)[j] == chunk[j];
    }
  }

  lemma {:induction false} RestAfterFirstChunk(messages: seq<Message>, limit: int)
    requires DistinctIds(messages) && Chunks([], messages, limit) != []
    ensures Chunks([], Commit(messages, Ids(Chunks([], messages, limit)[0])), limit) == Chunks([], messages, limit)[1..]
  {
    var m, rest := messages[0], messages[1..];
    var cs := Chunks([], messages, limit);
    var after := Commit(messages, Ids(cs[0]));
    assert after[1..] == Commit(rest, Ids(cs[0]));
    assert messages == [m] + rest && [] + [m] == [m];
    if m.committed {
      assert cs == Chunks([], rest, limit);
      RestAfterFirstChunk(rest, limit);
    } else {
      FirstChunkGrows([m], rest, limit);
      RestAfterOpenChunk([m], rest, limit);
      assert cs[0][0] == [m][0];
    }
    assert after[0].committed;
  }

  // Exact resumption: once the first k chunks are committed, listing again gives the other chunks unchanged.
  lemma {:induction false} ResumesExactly(messages: seq<Message>, limit: int, k: nat)
    requires DistinctIds(messages) && k <= |Chunks([], messages, limit)|
    ensures Chunks([], Commit(messages, Ids(Flatten(Chunks([], messages, limit)[..k]))), limit)
            == Chunks([], messages, limit)[k..]
    decreases k
  {
    var cs := Chunks([], messages, limit);
    if k == 0 {
      CommitOthers(messages, {});
      assert Ids(Flatten(cs[..0])) == {};
    } else {
      var after := Commit(messages, Ids(cs[0]));
      RestAfterFirstChunk(messages, limit);
      CommitAt(messages, Ids(cs[0]));
      ResumesExactly(after, limit, k - 1);
      assert cs[..k] == [cs[0]] + cs[1..][..k - 1] && cs[1..][k - 1..] == cs[k..];
      FlattenAppend([cs[0]], cs[1..][..k - 1]);
      assert Flatten([cs[0]]) == cs[0] + Flatten([]);
      CommitTwice(messages, Ids(cs[0]), Ids(Flatten(cs[1..][..k - 1])));
      assert Ids(Flatten(cs[..k])) == Ids(cs[0]) + Ids(Flatten(cs[1..][..k - 1]));
    }
  }

  /*** Which messages the jobs carry ***/

  // What a job asks for: all uncommitted messages, or those of one journal.
  predicate Wanted(m: Message, reference: Option<string>) {
    !m.committed && (reference.Some? ==> m.reference == reference.value)
  }

  ghost predicate Increasing(positions: seq<nat>) {
    forall i, j | 0 <= i < j < |positions| :: positions[i] < positions[j]
  }

  ghost predicate PickedFrom(messages: seq<Message>, positions: seq<nat>, picked: seq<Message>) {
    |positions| == |picked|
    && forall i | 0 <= i < |picked| :: positions[i] < |messages| && picked[i] == messages[positions[i]]
  }

  // picked holds the messages at these positions, which ascend and are exactly those of wanted messages.
  ghost predicate Picks(messages: seq<Message>, reference: Option<string>, positions: seq<nat>, picked: seq<Message>) {
    && PickedFrom(messages, positions, picked) && Increasing(positions)
    && forall p: nat | p < |messages| :: Wanted(messages[p], reference) <==> p in positions
  }

  ghost predicate PicksWanted(messages: seq<Message>, reference: Option<string>, picked: seq<Message>) {
    exists positions :: Picks(messages, reference, positions, picked)
  }

  function Shifted(positions: seq<nat>): (shifted: seq<nat>)
    ensures |shifted| == |positions| && forall i | 0 <= i < |positions| :: shifted[i] == positions[i] + 1
  {
    seq(|positions|, i requires 0 <= i < |positions| => positions[i] + 1)
  }

  lemma ShiftedMember(positions: seq<nat>, p: nat)
    ensures p in Shifted(positions) <==> p > 0 && p - 1 in positions
  {
    if i :| 0 <= i < |positions| && positions[i] == p - 1 {
      assert Shifted(positions)[i] == p;
    }
  }

  lemma SkippedFrom(first: Message, rest: seq<Message>, positions: seq<nat>, picked: seq<Message>)
    requires PickedFrom(rest, positions, picked)
    ensures PickedFrom([first] + rest, Shifted(positions), picked)
  {
  }

  lemma PicksSkip(first: Message, rest: seq<Message>, reference: Option<string>, positions: seq<nat>,
                  picked: seq<Message>)
    requires Picks(rest, reference, positions, picked) && !Wanted(first, reference)
    ensures Picks([first] + rest, reference, Shifted(positions), picked)
  {
    var messages, shifted := [first] + rest, Shifted(positions);
    SkippedFrom(first, rest, positions, picked);
    forall p: nat | p < |messages|
      ensures Wanted(messages[p], reference) <==> p in shifted
    {
      ShiftedMember(positions, p);
      assert p > 0 ==> messages[p] == rest[p - 1];
    }
  }

  lemma TakenFrom(first: Message, rest: seq<Message>, positions: seq<nat>, picked: seq<Message>)
    requires PickedFrom(rest, positions, picked)
    ensures PickedFrom([first] + rest, [0] + Shifted(positions), [first] + picked)
  {
  }

  lemma TakenIncrease(positions: seq<nat>)
    requires Increasing(positions)
    ensures Increasing([0] + Shifted(positions))
  {
  }

  lemma PicksTake(first: Message, rest: seq<Message>, reference: Option<string>, positions: seq<nat>,
                  picked: seq<Message>)
    requires Picks(rest, reference, positions, picked) && Wanted(first, reference)
    ensures Picks([first] + rest, reference, [0] + Shifted(positions), [first] + picked)
  {
    var messages, taken := [first] + rest, [0] + Shifted(positions);
    TakenFrom(first, rest, positions, picked);
    TakenIncrease(positions);
    forall p: nat | p < |messages|
      ensures Wanted(messages[p], reference) <==> p in taken
    {
      ShiftedMember(positions, p);
      assert p in taken <==> p == 0 || p in Shifted(positions);
      assert p > 0 ==> messages[p] == rest[p - 1];
    }
  }

  lemma {:induction false} UncommittedScopedPicks(messages: seq<Message>, reference: Option<string>)
    ensures PicksWanted(messages, reference, Uncommitted(Scoped(messages, reference)))
  {
    if messages == [] {
      assert Picks(messages, reference, [], []);
    } else {
      var first, rest := messages[0], messages[1..];
      UncommittedScopedPicks(rest, reference);
      var picked := Uncommitted(Scoped(rest, reference));
      var positions :| Picks(rest, reference, positions, picked);
      assert messages == [first] + rest;
      if Wanted(first, reference) {
        PicksTake(first, rest, reference, positions, picked);
      } else {
        PicksSkip(first, rest, reference, positions, picked);
      }
    }
  }

  // The pending chunks carry exactly the wanted messages, each once and in order.
  lemma PendingPicksWanted(messages: seq<Message>, reference: Option<string>, limit: int)
    ensures PicksWanted(messages, reference, Flatten(Chunks([], Scoped(messages, reference), limit)))
  {
    ChunksArePartition([], Scoped(messages, reference), limit);
    assert [] + Uncommitted(Scoped(messages, reference)) == Uncommitted(Scoped(messages, reference));
    UncommittedScopedPicks(messages, reference);
  }

  /*** Enqueueing ***/

  datatype EnqueueError = NoPendingMessages | UpstreamUnavailable | EnqueueFailed

  class KnowledgeService {
    var messages: seq<Message>
    var jobs: seq<seq<Message>>
    const maxTokens: int

    constructor (stored: seq<Message>, limit: int)
      ensures messages == stored && jobs == [] && maxTokens == limit
    {
      messages, jobs, maxTokens := stored, [], limit;
    }

    ghost function Pending(reference: Option<string>): seq<seq<Message>>
      reads this
    {
      Chunks([], Scoped(messages, reference), maxTokens)
    }

    // The publisher accepts that many jobs and then fails; the result is the number of the first job.
    method EnqueueUpdateJob(reference: Option<string>, accepted: nat, unavailable: bool)
      returns (r: Result<nat, EnqueueError>)
      modifies this
      ensures var sent := if accepted < |old(Pending(reference))| then accepted else |old(Pending(reference))|;
              && jobs == old(jobs) + old(Pending(reference))[..sent]
              && messages == Commit(old(messages), Ids(Flatten(old(Pending(reference))[..sent])))
      ensures r == if old(Pending(reference)) == [] then Err(NoPendingMessages)
                   else if accepted >= |old(Pending(reference))| then Ok(|old(jobs)|)
                   else if unavailable then Err(UpstreamUnavailable) else Err(EnqueueFailed)
      ensures r.Ok? ==> PicksWanted(old(messages), reference, Flatten(jobs[|old(jobs)|..]))
    {
      var chunks := ListUncommittedMessageSequences(WithLag(None, Scoped(messages, reference)), maxTokens);
      ListingIsChunks([], None, Scoped(messages, reference), maxTokens);
      CommitOthers(messages, {});
      assert Ids(Flatten(chunks[..0])) == {};
      if chunks == [] {
        return Err(NoPendingMessages);
      }
      var first := |jobs|;
      for i := 0 to |chunks|
        invariant i <= accepted
        invariant jobs == old(jobs) + chunks[..i]
        invariant messages == Commit(old(messages), Ids(Flatten(chunks[..i])))
      {
        if i == accepted {
          return Err(if unavailable then UpstreamUnavailable else EnqueueFailed);
        }
        jobs := jobs + [chunks[i]];
        messages := Commit(messages, Ids(chunks[i]));
        assert chunks[..i + 1] == chunks[..i] + [chunks[i]];
        FlattenAppend(chunks[..i], [chunks[i]]);
        assert Flatten([chunks[i]]) == chunks[i] + Flatten([]);
        CommitTwice(old(messages), Ids(Flatten(chunks[..i])), Ids(chunks[i]));
        assert Ids(Flatten(chunks[..i + 1])) == Ids(Flatten(chunks[..i])) + Ids(chunks[i]);
      }
      assert chunks[..|chunks|] == chunks;
      PendingPicksWanted(old(messages), reference, maxTokens);
      assert jobs[|old(jobs)|..] == chunks;
      return Ok(first);
    }
  }

  /*** Retries ***/

  datatype State = State(messages: seq<Message>, jobs: seq<seq<Message>>)

  function PendingIn(s: State, reference: Option<string>, limit: int): seq<seq<Message>> {
    Chunks([], Scoped(s.messages, reference), limit)
  }

  // One call that got sent chunks out.
  ghost predicate Attempt(s: State, s': State, reference: Option<string>, limit: int) {
    exists sent :: 0 <= sent <= |PendingIn(s, reference, limit)|
                   && s'.jobs == s.jobs + PendingIn(s, reference, limit)[..sent]
                   && s'.messages == Commit(s.messages, Ids(Flatten(PendingIn(s, reference, limit)[..sent])))
  }

  lemma CommitKeepsDistinct(messages: seq<Message>, ids: set<string>)
    requires DistinctIds(messages)
    ensures DistinctIds(Commit(messages, ids))
  {
    CommitAt(messages, ids);
  }

  lemma PendingAfterCommit(messages: seq<Message>, reference: Option<string>, limit: int, sent: nat)
    requires DistinctIds(messages) && sent <= |Chunks([], Scoped(messages, reference), limit)|
    ensures var pending := Chunks([], Scoped(messages, reference), limit);
            Chunks([], Scoped(Commit(messages, Ids(Flatten(pending[..sent]))), reference), limit) == pending[sent..]
  {
    var pending := Chunks([], Scoped(messages, reference), limit);
    ScopedDistinct(messages, reference);
    ScopedCommit(messages, reference, Ids(Flatten(pending[..sent])));
    ResumesExactly(Scoped(messages, reference), limit, sent);
  }

  lemma AttemptConservesChunks(s: State, s': State, reference: Option<string>, limit: int)
    requires DistinctIds(s.messages) && Attempt(s, s', reference, limit)
    ensures DistinctIds(s'.messages)
    ensures s'.jobs + PendingIn(s', reference, limit) == s.jobs + PendingIn(s, reference, limit)
  {
    var pending := PendingIn(s, reference, limit);
    var sent :| 0 <= sent <= |pending| && s'.jobs == s.jobs + pending[..sent]
                && s'.messages == Commit(s.messages, Ids(Flatten(pending[..sent])));
    PendingAfterCommit(s.messages, reference, limit, sent);
    CommitKeepsDistinct(s.messages, Ids(Flatten(pending[..sent])));
    assert pending == pending[..sent] + pending[sent..];
    Regroup(s.jobs, pending[..sent], pending[sent..]);
  }

  // Whatever fails and however often it is retried, the jobs sent and the chunks still pending are
  // together the chunks of the start: nothing is lost, repeated, reordered or cut differently.
  lemma {:induction false} RetriesConserveChunks(run: seq<State>, reference: Option<string>, limit: int, i: nat)
    requires i < |run| && DistinctIds(run[0].messages)
    requires forall k | 0 <= k < |run| - 1 :: Attempt(run[k], run[k + 1], reference, limit)
    ensures DistinctIds(run[i].messages)
    ensures run[i].jobs + PendingIn(run[i], reference, limit) == run[0].jobs + PendingIn(run[0], reference, limit)
  {
    if i > 0 {
      RetriesConserveChunks(run, reference, limit, i - 1);
      assert Attempt(run[i - 1], run[i - 1 + 1], reference, limit);
      AttemptConservesChunks(run[i - 1], run[i], reference, limit);
    }
  }

  // Once nothing is pending, the jobs carry every message that was uncommitted, once and in order.
  lemma AllSentOnce(run: seq<State>, reference: Option<string>, limit: int, i: nat)
    requires i < |run| && DistinctIds(run[0].messages)
    requires forall k | 0 <= k < |run| - 1 :: Attempt(run[k], run[k + 1], reference, limit)
    requires PendingIn(run[i], reference, limit) == []
    ensures Flatten(run[i].jobs) == Flatten(run[0].jobs) + Uncommitted(Scoped(run[0].messages, reference))
  {
    RetriesConserveChunks(run, reference, limit, i);
    FlattenAppend(run[0].jobs, PendingIn(run[0], reference, limit));
    ChunksArePartition([], Scoped(run[0].messages, reference), limit);
    assert run[i].jobs + [] == run[i].jobs;
  }

  // Then the jobs carry exactly the wanted messages of the start.
  lemma AllWantedSent(run: seq<State>, reference: Option<string>, limit: int, i: nat) returns (picked: seq<Message>)
    requires i < |run| && DistinctIds(run[0].messages)
    requires forall k | 0 <= k < |run| - 1 :: Attempt(run[k], run[k + 1], reference, limit)
    requires PendingIn(run[i], reference, limit) == []
    ensures Flatten(run[i].jobs) == Flatten(run[0].jobs) + picked && PicksWanted(run[0].messages, reference, picked)
  {
    picked := Uncommitted(Scoped(run[0].messages, reference));
    AllSentOnce(run, reference, limit, i);
    UncommittedScopedPicks(run[0].messages, reference);
  }
}
