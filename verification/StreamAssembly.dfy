/** Streamed chat responses: tool calls put together from interleaved fragments, and their agreement
    with the response read as a whole. */
module StreamAssembly {
  import opened Sequences
  import opened Wrappers
  import opened JsonValues

  // A piece of the tool call with this index.
  datatype Fragment = Fragment(index: nat, id: Option<string>, name: Option<string>, arguments: Option<string>)

  datatype Chunk = Chunk(content: Option<string>, fragments: seq<Fragment>, finish: Option<string>)

  datatype CallState = CallState(id: Option<string>, name: Option<string>, index: nat, arguments: string)

  // An id that neither side sent is generated.
  datatype CallId = Given(id: string) | Generated

  datatype Frame =
    | TextDelta(text: string)
    | ToolCallFrame(id: CallId, name: string, index: nat, arguments: Json)
    | Completion(reason: string)

  predicate Truthy(s: Option<string>) {
    s.Some? && s.value != ""
  }

  // Parsing a text as JSON; no value for a text that is not JSON.
  type Parser = string -> Option<Json>

  function CoerceToolArguments(parse: Parser, arguments: string): Json {
    var parsed := parse(arguments);
    if parsed.Some? then AsObject(parsed.value) else Obj(map["raw" := Str(arguments)])
  }

  /*** Putting fragments together ***/

  function Opened(f: Fragment): CallState {
    CallState(f.id, f.name, f.index, "")
  }

  function Extended(s: CallState, f: Fragment): CallState {
    CallState(if Truthy(f.id) then f.id else s.id, if Truthy(f.name) then f.name else s.name, s.index,
              s.arguments + if f.arguments.Some? then f.arguments.value else "")
  }

  // The state of one index after a list of fragments of all indices.
  function StateOf(fragments: seq<Fragment>, index: nat): Option<CallState> {
    if fragments == [] then None
    else
      var earlier, f := StateOf(fragments[..|fragments| - 1], index), fragments[|fragments| - 1];
      if f.index != index then earlier
      else Some(Extended(if earlier.Some? then earlier.value else Opened(f), f))
  }

  ghost predicate Holds(pending: map<nat, CallState>, fragments: seq<Fragment>) {
    forall i: nat :: StateOf(fragments, i) == if i in pending then Some(pending[i]) else None
  }

  method AddFragment(pending: map<nat, CallState>, f: Fragment, ghost fragments: seq<Fragment>)
    returns (next: map<nat, CallState>)
    requires Holds(pending, fragments)
    ensures Holds(next, fragments + [f])
  {
    var state := if f.index in pending then pending[f.index] else Opened(f);
    if Truthy(f.id) {
      state := state.(id := f.id);
    }
    if Truthy(f.name) {
      state := state.(name := f.name);
    }
    if f.arguments.Some? {
      state := state.(arguments := state.arguments + f.arguments.value);
    }
    next := pending[f.index := state];
    assert (fragments + [f])[..|fragments + [f]| - 1] == fragments;
    assert state.arguments + "" == state.arguments;
  }

  function FrameOf(parse: Parser, s: CallState): Frame {
    ToolCallFrame(if Truthy(s.id) then Given(s.id.value) else Generated,
                  if Truthy(s.name) then s.name.value else "tool", s.index, CoerceToolArguments(parse, s.arguments))
  }

  // The frames of the open calls with an index below n, in ascending order.
  function CallFrames(parse: Parser, fragments: seq<Fragment>, n: nat): seq<Frame> {
    if n == 0 then [] else CallFrames(parse, fragments, n - 1) + FramesOf(parse, StateOf(fragments, n - 1))
  }

  function FramesOf(parse: Parser, s: Option<CallState>): seq<Frame> {
    if s.Some? then [FrameOf(parse, s.value)] else []
  }

  function IndexBound(fragments: seq<Fragment>): nat {
    if fragments == [] then 0
    else
      var earlier, f := IndexBound(fragments[..|fragments| - 1]), fragments[|fragments| - 1];
      if f.index >= earlier then f.index + 1 else earlier
  }

  lemma {:induction false} BoundCovers(fragments: seq<Fragment>, index: nat)
    ensures StateOf(fragments, index).Some? ==> index < IndexBound(fragments)
  {
    if fragments != [] {
      BoundCovers(fragments[..|fragments| - 1], index);
    }
  }

  lemma {:induction false} NoCallsBetween(parse: Parser, fragments: seq<Fragment>, m: nat, n: nat)
    requires m <= n && forall i | m <= i < n :: StateOf(fragments, i).None?
    ensures CallFrames(parse, fragments, n) == CallFrames(parse, fragments, m)
    decreases n
  {
    if m < n {
      NoCallsBetween(parse, fragments, m, n - 1);
    }
  }

  function TextFrames(c: Chunk): seq<Frame> {
    if Truthy(c.content) then [TextDelta(c.content.value)] else []
  }

  function Frames(parse: Parser, open: seq<Fragment>, chunks: seq<Chunk>): seq<Frame>
    decreases chunks
  {
    if chunks == [] then []
    else
      var c, text := chunks[0], TextFrames(chunks[0]);
      var all := open + c.fragments;
      if Truthy(c.finish)
      then text + (CallFrames(parse, all, IndexBound(all))
                   + ([Completion(c.finish.value)] + Frames(parse, [], chunks[1..])))
      else text + Frames(parse, all, chunks[1..])
  }

  method Least(keys: set<nat>) returns (least: nat)
    requires keys != {}
    ensures least in keys && forall k: nat :: k in keys ==> least <= k
  {
    least :| least in keys;
    var rest := keys - {least};
    while rest != {}
      invariant rest <= keys && least in keys
      invariant forall k: nat :: k in keys && k !in rest ==> least <= k
      decreases rest
    {
      var k :| k in rest;
      least := if k < least then k else least;
      rest := rest - {k};
    }
  }

  // The open calls, sorted by index.
  method FlushCalls(parse: Parser, pending: map<nat, CallState>, ghost fragments: seq<Fragment>)
    returns (frames: seq<Frame>)
    requires Holds(pending, fragments)
    ensures frames == CallFrames(parse, fragments, IndexBound(fragments))
  {
    frames := [];
    var rest := pending.Keys;
    ghost var done: nat := 0;
    forall i: nat | i in pending
      ensures i < IndexBound(fragments)
    {
      BoundCovers(fragments, i);
    }
    while rest != {}
      invariant rest <= pending.Keys && done <= IndexBound(fragments)
      invariant forall i: nat | i in pending :: i in rest <==> i >= done
      invariant frames == CallFrames(parse, fragments, done)
      decreases rest
    {
      var k := Least(rest);
      NoCallsBetween(parse, fragments, done, k);
      assert StateOf(fragments, k) == Some(pending[k]);
      frames := frames + [FrameOf(parse, pending[k])];
      rest := rest - {k};
      done := k + 1;
    }
    NoCallsBetween(parse, fragments, done, IndexBound(fragments));
  }

  method NativeChatStream(parse: Parser, chunks: seq<Chunk>) returns (frames: seq<Frame>)
    ensures frames == Frames(parse, [], chunks)
  {
    frames := [];
    var pending: map<nat, CallState> := map[];
    ghost var open: seq<Fragment> := [];
    for i := 0 to |chunks|
      invariant Holds(pending, open)
      invariant frames + Frames(parse, open, chunks[i..]) == Frames(parse, [], chunks)
    {
      var c := chunks[i];
      assert chunks[i..][1..] == chunks[i + 1..];
      var emitted: seq<Frame> := [];
      if Truthy(c.content) {
        emitted := [TextDelta(c.content.value)];
      }
      ghost var before := open;
      for k := 0 to |c.fragments|
        invariant open == before + c.fragments[..k]
        invariant Holds(pending, open)
      {
        pending := AddFragment(pending, c.fragments[k], open);
        open := open + [c.fragments[k]];
      }
      assert open == before + c.fragments;
      if Truthy(c.finish) {
        var calls := FlushCalls(parse, pending, open);
        Regroup(calls, [Completion(c.finish.value)], Frames(parse, [], chunks[i + 1..]));
        Regroup(emitted, calls + [Completion(c.finish.value)], Frames(parse, [], chunks[i + 1..]));
        emitted := emitted + (calls + [Completion(c.finish.value)]);
        pending := map[];
        open := [];
      }
      Regroup(frames, emitted, Frames(parse, open, chunks[i + 1..]));
      frames := frames + emitted;
    }
  }

  /*** What a state holds, however the stream is cut and interleaved ***/

  // The fragments of one index, in order.
  function Only(fragments: seq<Fragment>, index: nat): seq<Fragment> {
    if fragments == [] then []
    else
      var earlier, f := Only(fragments[..|fragments| - 1], index), fragments[|fragments| - 1];
      if f.index == index then earlier + [f] else earlier
  }

  function JoinedArguments(fragments: seq<Fragment>): string {
    if fragments == [] then ""
    else
      var f := fragments[|fragments| - 1];
      JoinedArguments(fragments[..|fragments| - 1]) + if f.arguments.Some? then f.arguments.value else ""
  }

  // The last id sent, if one that is not empty was sent at all.
  function LastId(fragments: seq<Fragment>): Option<string> {
    if fragments == [] then None
    else if Truthy(fragments[|fragments| - 1].id) then fragments[|fragments| - 1].id
    else LastId(fragments[..|fragments| - 1])
  }

  function LastName(fragments: seq<Fragment>): Option<string> {
    if fragments == [] then None
    else if Truthy(fragments[|fragments| - 1].name) then fragments[|fragments| - 1].name
    else LastName(fragments[..|fragments| - 1])
  }

  lemma OwnGrows(own: seq<Fragment>, f: Fragment)
    ensures JoinedArguments(own + [f]) == JoinedArguments(own) + if f.arguments.Some? then f.arguments.value else ""
    ensures LastId(own + [f]) == if Truthy(f.id) then f.id else LastId(own)
    ensures LastName(own + [f]) == if Truthy(f.name) then f.name else LastName(own)
  {
    assert (own + [f])[..|own|] == own;
  }

  ghost predicate Describes(s: CallState, index: nat, own: seq<Fragment>) {
    && s.index == index && s.arguments == JoinedArguments(own)
    && (if Truthy(s.id) then s.id else None) == LastId(own)
    && (if Truthy(s.name) then s.name else None) == LastName(own)
  }

  // The frame of an index depends on its own fragments only: the last id and name, and all arguments joined.
  lemma {:induction false} StateIsOwnFragments(fragments: seq<Fragment>, index: nat)
    ensures StateOf(fragments, index).Some? <==> Only(fragments, index) != []
    ensures StateOf(fragments, index).Some? ==>
              Describes(StateOf(fragments, index).value, index, Only(fragments, index))
  {
    if fragments != [] {
      var init, f := fragments[..|fragments| - 1], fragments[|fragments| - 1];
      StateIsOwnFragments(init, index);
      if f.index == index {
        OwnGrows(Only(init, index), f);
      }
    }
  }

  /*** The response as a whole ***/

  datatype WholeCall = WholeCall(id: Option<string>, name: Option<string>, arguments: string)

  datatype Whole = Whole(content: Option<string>, calls: seq<WholeCall>, finish: string)

  datatype Block = TextBlock(text: string) | ToolCallBlock(id: CallId, name: string, arguments: Json)

  function CallBlock(parse: Parser, c: WholeCall): Block
    requires parse(c.arguments).Some?
  {
    ToolCallBlock(if c.id.Some? then Given(c.id.value) else Generated, if c.name.Some? then c.name.value else "tool",
                  AsObject(parse(c.arguments).value))
  }

  predicate AllParse(parse: Parser, calls: seq<WholeCall>) {
    forall i | 0 <= i < |calls| :: parse(calls[i].arguments).Some?
  }

  function WholeBlocks(parse: Parser, calls: seq<WholeCall>): (blocks: seq<Block>)
    requires AllParse(parse, calls)
    ensures |blocks| == |calls| && forall i | 0 <= i < |calls| :: blocks[i] == CallBlock(parse, calls[i])
  {
    seq(|calls|, i requires 0 <= i < |calls| && parse(calls[i].arguments).Some? => CallBlock(parse, calls[i]))
  }

  // No blocks when some arguments are not JSON: the source raises then.
  function ResponseBlocks(parse: Parser, w: Whole): Option<seq<Block>> {
    if AllParse(parse, w.calls)
    then Some((if Truthy(w.content) then [TextBlock(w.content.value)] else []) + WholeBlocks(parse, w.calls))
    else None
  }

  function AllFragments(chunks: seq<Chunk>): seq<Fragment> {
    if chunks == [] then [] else chunks[0].fragments + AllFragments(chunks[1..])
  }

  function AllContent(chunks: seq<Chunk>): string {
    if chunks == [] then ""
    else (if chunks[0].content.Some? then chunks[0].content.value else "") + AllContent(chunks[1..])
  }

  predicate Ascending(indices: seq<nat>) {
    forall i, j | 0 <= i < j < |indices| :: indices[i] < indices[j]
  }

  // The fragments carry each call under its index, cut anyhow, and nothing under any other index.
  ghost predicate CarriesCalls(all: seq<Fragment>, w: Whole, indices: seq<nat>) {
    && |indices| == |w.calls| && Ascending(indices)
    && (forall j: nat | j !in indices :: Only(all, j) == [])
    && (forall i | 0 <= i < |w.calls| ::
          var own, c := Only(all, indices[i]), w.calls[i];
          own != [] && JoinedArguments(own) == c.arguments && LastId(own) == c.id && LastName(own) == c.name)
  }

  // The stream carries the whole response: its text in order, its calls, and one finish at its end.
  ghost predicate Carries(chunks: seq<Chunk>, w: Whole, indices: seq<nat>) {
    && chunks != [] && chunks[|chunks| - 1].finish == Some(w.finish) && w.finish != ""
    && (forall i | 0 <= i < |chunks| - 1 :: !Truthy(chunks[i].finish))
    && AllContent(chunks) == (if w.content.Some? then w.content.value else "")
    && CarriesCalls(AllFragments(chunks), w, indices)
  }

  function TextOf(frames: seq<Frame>): string {
    if frames == [] then "" else (if frames[0].TextDelta? then frames[0].text else "") + TextOf(frames[1..])
  }

  function ToolFrames(frames: seq<Frame>): (tools: seq<Frame>)
    ensures forall f | f in tools :: f.ToolCallFrame?
  {
    if frames == [] then []
    else if frames[0].ToolCallFrame? then [frames[0]] + ToolFrames(frames[1..])
    else ToolFrames(frames[1..])
  }

  lemma {:induction false} TextAppend(a: seq<Frame>, b: seq<Frame>)
    ensures TextOf(a + b) == TextOf(a) + TextOf(b)
  {
    if a == [] {
      assert a + b == b;
    } else {
      var text := if a[0].TextDelta? then a[0].text else "";
      assert (a + b)[1..] == a[1..] + b;
      TextAppend(a[1..], b);
      Regroup(text, TextOf(a[1..]), TextOf(b));
    }
  }

  lemma {:induction false} ToolsAppend(a: seq<Frame>, b: seq<Frame>)
    ensures ToolFrames(a + b) == ToolFrames(a) + ToolFrames(b)
  {
    if a == [] {
      assert a + b == b;
    } else {
      assert (a + b)[1..] == a[1..] + b;
      ToolsAppend(a[1..], b);
      Regroup([a[0]], ToolFrames(a[1..]), ToolFrames(b));
    }
  }

  // The frames are calls only.
  ghost predicate AreCalls(frames: seq<Frame>) {
    ToolFrames(frames) == frames && TextOf(frames) == ""
  }

  lemma OneMoreCall(frames: seq<Frame>, f: Frame)
    requires AreCalls(frames) && f.ToolCallFrame?
    ensures AreCalls(frames + [f])
  {
    ToolsAppend(frames, [f]);
    TextAppend(frames, [f]);
  }

  lemma {:induction false} CallFramesAreCalls(parse: Parser, fragments: seq<Fragment>, n: nat)
    ensures AreCalls(CallFrames(parse, fragments, n))
  {
    if n > 0 {
      var earlier, s := CallFrames(parse, fragments, n - 1), StateOf(fragments, n - 1);
      CallFramesAreCalls(parse, fragments, n - 1);
      if s.Some? {
        OneMoreCall(earlier, FrameOf(parse, s.value));
      } else {
        assert earlier + [] == earlier;
      }
    }
  }

  // The frames carry this text and these calls, and end with this finish.
  ghost predicate Shows(frames: seq<Frame>, text: string, calls: seq<Frame>, reason: string) {
    && TextOf(frames) == text && ToolFrames(frames) == calls
    && frames != [] && frames[|frames| - 1] == Completion(reason)
  }

  lemma TextFirst(c: Chunk, frames: seq<Frame>, text: string, calls: seq<Frame>, reason: string)
    requires Shows(frames, text, calls, reason)
    ensures Shows(TextFrames(c) + frames, (if c.content.Some? then c.content.value else "") + text, calls, reason)
  {
    TextAppend(TextFrames(c), frames);
    ToolsAppend(TextFrames(c), frames);
  }

  lemma CallsLast(calls: seq<Frame>, reason: string)
    requires AreCalls(calls)
    ensures Shows(calls + [Completion(reason)], "", calls, reason)
  {
    TextAppend(calls, [Completion(reason)]);
    ToolsAppend(calls, [Completion(reason)]);
  }

  // A stream with one finish at its end yields its text, then every call once, then the finish.
  lemma {:induction false} OneFinishFrames(parse: Parser, open: seq<Fragment>, chunks: seq<Chunk>, all: seq<Fragment>)
    requires chunks != [] && Truthy(chunks[|chunks| - 1].finish) && all == open + AllFragments(chunks)
    requires forall i | 0 <= i < |chunks| - 1 :: !Truthy(chunks[i].finish)
    ensures Shows(Frames(parse, open, chunks), AllContent(chunks), CallFrames(parse, all, IndexBound(all)),
                  chunks[|chunks| - 1].finish.value)
    decreases chunks
  {
    var c, rest := chunks[0], chunks[1..];
    var reason := chunks[|chunks| - 1].finish.value;
    var calls := CallFrames(parse, all, IndexBound(all));
    if |chunks| == 1 {
      assert AllFragments(rest) == [] && all == open + c.fragments;
      assert [Completion(reason)] + Frames(parse, [], rest) == [Completion(reason)];
      CallFramesAreCalls(parse, all, IndexBound(all));
      CallsLast(calls, reason);
      TextFirst(c, calls + [Completion(reason)], "", calls, reason);
    } else {
      assert all == (open + c.fragments) + AllFragments(rest);
      OneFinishFrames(parse, open + c.fragments, rest, all);
      TextFirst(c, Frames(parse, open + c.fragments, rest), AllContent(rest), calls, reason);
    }
  }

  // The text deltas of a stream, one for each chunk with text.
  function TextsOf(chunks: seq<Chunk>): seq<Frame> {
    if chunks == [] then [] else TextFrames(chunks[0]) + TextsOf(chunks[1..])
  }

  lemma {:induction false} TextsAreContent(chunks: seq<Chunk>)
    ensures forall f | f in TextsOf(chunks) :: f.TextDelta? && f.text != ""
    ensures TextOf(TextsOf(chunks)) == AllContent(chunks)
  {
    if chunks != [] {
      TextsAreContent(chunks[1..]);
      TextAppend(TextFrames(chunks[0]), TextsOf(chunks[1..]));
    }
  }

  // Frame by frame: the text of the chunks as it comes, the calls, and the finish.
  lemma {:induction false} OneFinishShape(parse: Parser, open: seq<Fragment>, chunks: seq<Chunk>, all: seq<Fragment>)
    requires chunks != [] && Truthy(chunks[|chunks| - 1].finish) && all == open + AllFragments(chunks)
    requires forall i | 0 <= i < |chunks| - 1 :: !Truthy(chunks[i].finish)
    ensures Frames(parse, open, chunks)
            == TextsOf(chunks) + (CallFrames(parse, all, IndexBound(all))
                                  + [Completion(chunks[|chunks| - 1].finish.value)])
    decreases chunks
  {
    var c, rest := chunks[0], chunks[1..];
    var last := CallFrames(parse, all, IndexBound(all)) + [Completion(chunks[|chunks| - 1].finish.value)];
    if |chunks| == 1 {
      assert AllFragments(rest) == [] && all == open + c.fragments;
      assert [Completion(c.finish.value)] + Frames(parse, [], rest) == [Completion(c.finish.value)];
      assert TextsOf(chunks) == TextFrames(c) + TextsOf(rest) == TextFrames(c);
    } else {
      assert all == (open + c.fragments) + AllFragments(rest);
      OneFinishShape(parse, open + c.fragments, rest, all);
      Regroup(TextFrames(c), TextsOf(rest), last);
    }
  }

  // Every finish closes the calls before it: what follows is a stream of its own.
  lemma {:induction false} FinishStartsAfresh(parse: Parser, open: seq<Fragment>, a: seq<Chunk>, b: seq<Chunk>)
    requires a != [] && Truthy(a[|a| - 1].finish)
    ensures Frames(parse, open, a + b) == Frames(parse, open, a) + Frames(parse, [], b)
    decreases a
  {
    var c, rest, text := a[0], a[1..], TextFrames(a[0]);
    var all := open + c.fragments;
    assert (a + b)[0] == c && (a + b)[1..] == rest + b;
    if Truthy(c.finish) {
      var done := [Completion(c.finish.value)];
      var calls := CallFrames(parse, all, IndexBound(all));
      if rest != [] {
        FinishStartsAfresh(parse, [], rest, b);
      } else {
        assert rest + b == b;
      }
      assert Frames(parse, [], rest + b) == Frames(parse, [], rest) + Frames(parse, [], b);
      Regroup(done, Frames(parse, [], rest), Frames(parse, [], b));
      Regroup(calls, done + Frames(parse, [], rest), Frames(parse, [], b));
      Regroup(text, calls + (done + Frames(parse, [], rest)), Frames(parse, [], b));
    } else {
      FinishStartsAfresh(parse, all, rest, b);
      Regroup(text, Frames(parse, all, rest), Frames(parse, [], b));
    }
  }

  // A stream that stops without a finish shows its text only.
  lemma {:induction false} UnfinishedShowsText(parse: Parser, open: seq<Fragment>, chunks: seq<Chunk>)
    requires forall c | c in chunks :: !Truthy(c.finish)
    ensures Frames(parse, open, chunks) == TextsOf(chunks)
    decreases chunks
  {
    if chunks != [] {
      UnfinishedShowsText(parse, open + chunks[0].fragments, chunks[1..]);
    }
  }

  lemma {:induction false} LastTruthy(fragments: seq<Fragment>)
    ensures LastId(fragments).Some? ==> LastId(fragments).value != ""
    ensures LastName(fragments).Some? ==> LastName(fragments).value != ""
  {
    if fragments != [] {
      LastTruthy(fragments[..|fragments| - 1]);
    }
  }

  // The content blocks a reader of the stream puts together: all text first, then the calls as they came.
  function Assembled(frames: seq<Frame>): seq<Block> {
    (if TextOf(frames) != "" then [TextBlock(TextOf(frames))] else []) + CallBlocks(ToolFrames(frames))
  }

  function CallBlocks(frames: seq<Frame>): (blocks: seq<Block>)
    requires forall f | f in frames :: f.ToolCallFrame?
    ensures |blocks| == |frames|
    ensures forall i | 0 <= i < |frames| ::
              blocks[i] == ToolCallBlock(frames[i].id, frames[i].name, frames[i].arguments)
  {
    seq(|frames|, i requires 0 <= i < |frames| && frames[i].ToolCallFrame? =>
      ToolCallBlock(frames[i].id, frames[i].name, frames[i].arguments))
  }

  // One call frame for each call of the response, in ascending index.
  predicate CallsMatch(parse: Parser, w: Whole, indices: seq<nat>, calls: seq<Frame>)
    requires |indices| == |w.calls|
  {
    && |calls| == |w.calls|
    && forall i | 0 <= i < |calls| :: calls[i] == ExpectedFrame(parse, w.calls[i], indices[i])
  }

  // Malformed arguments come through as raw text.
  function ExpectedFrame(parse: Parser, c: WholeCall, index: nat): Frame {
    ToolCallFrame(if c.id.Some? then Given(c.id.value) else Generated,
                  if c.name.Some? then c.name.value else "tool",
                  index,
                  if parse(c.arguments).Some? then AsObject(parse(c.arguments).value)
                  else Obj(map["raw" := Str(c.arguments)]))
  }

  // Under each index the call is pending, and under no other index anything is.
  ghost predicate StatesMatch(parse: Parser, all: seq<Fragment>, w: Whole, indices: seq<nat>) {
    && |indices| == |w.calls| && Ascending(indices)
    && (forall j: nat | j !in indices :: StateOf(all, j).None?)
    && (forall i | 0 <= i < |indices| ::
          && StateOf(all, indices[i]).Some?
          && FrameOf(parse, StateOf(all, indices[i]).value) == ExpectedFrame(parse, w.calls[i], indices[i]))
  }

  lemma CarriedStates(parse: Parser, all: seq<Fragment>, w: Whole, indices: seq<nat>)
    requires CarriesCalls(all, w, indices)
    ensures StatesMatch(parse, all, w, indices)
  {
    forall j: nat | j !in indices
      ensures StateOf(all, j).None?
    {
      StateIsOwnFragments(all, j);
    }
    forall i | 0 <= i < |indices|
      ensures StateOf(all, indices[i]).Some?
      ensures FrameOf(parse, StateOf(all, indices[i]).value) == ExpectedFrame(parse, w.calls[i], indices[i])
    {
      StateIsOwnFragments(all, indices[i]);
      LastTruthy(Only(all, indices[i]));
    }
  }

  // The frames the first k calls should have.
  function FirstFrames(parse: Parser, w: Whole, indices: seq<nat>, k: nat): (frames: seq<Frame>)
    requires k <= |indices| == |w.calls|
    ensures |frames| == k && forall i | 0 <= i < k :: frames[i] == ExpectedFrame(parse, w.calls[i], indices[i])
  {
    if k == 0 then []
    else FirstFrames(parse, w, indices, k - 1) + [ExpectedFrame(parse, w.calls[k - 1], indices[k - 1])]
  }

  // Up to n the frames are those of the first k calls.
  lemma {:induction false} CarriedUpTo(parse: Parser, all: seq<Fragment>, w: Whole, indices: seq<nat>, k: nat, n: nat)
    requires StatesMatch(parse, all, w, indices) && k <= |indices|
    requires (k > 0 ==> indices[k - 1] < n) && (k < |indices| ==> n <= indices[k])
    ensures CallFrames(parse, all, n) == FirstFrames(parse, w, indices, k)
    decreases k
  {
    NothingBetween(parse, all, w, indices, k, n);
    if k == 0 {
      NoCallsBetween(parse, all, 0, n);
    } else {
      NoCallsBetween(parse, all, indices[k - 1] + 1, n);
      CarriedUpTo(parse, all, w, indices, k - 1, indices[k - 1]);
    }
  }

  // From the last of the first k indices up to n nothing else is carried.
  lemma NothingBetween(parse: Parser, all: seq<Fragment>, w: Whole, indices: seq<nat>, k: nat, n: nat)
    requires StatesMatch(parse, all, w, indices) && k <= |indices| && (k < |indices| ==> n <= indices[k])
    ensures forall j: nat | (k > 0 ==> indices[k - 1] < j) && j < n :: StateOf(all, j).None?
  {
    forall j: nat | (k > 0 ==> indices[k - 1] < j) && j < n
      ensures j !in indices
    {
      forall i | 0 <= i < |indices|
        ensures indices[i] != j
      {
        if i < k - 1 {
          assert indices[i] < indices[k - 1];
        } else if i > k {
          assert indices[k] < indices[i];
        }
      }
    }
  }

  lemma CarriedFrames(parse: Parser, all: seq<Fragment>, w: Whole, indices: seq<nat>)
    requires CarriesCalls(all, w, indices)
    ensures CallsMatch(parse, w, indices, CallFrames(parse, all, IndexBound(all)))
  {
    CarriedStates(parse, all, w, indices);
    if indices != [] {
      BoundCovers(all, indices[|indices| - 1]);
    }
    CarriedUpTo(parse, all, w, indices, |indices|, IndexBound(all));
  }

  // What a stream that carries a response shows: its text, one frame for each call, and its finish reason,
  // however the calls are numbered, cut into fragments and interleaved. Malformed arguments come through as raw
  // text.
  lemma StreamShowsWhole(parse: Parser, chunks: seq<Chunk>, w: Whole, indices: seq<nat>)
    requires Carries(chunks, w, indices)
    ensures var frames := Frames(parse, [], chunks);
            && CallsMatch(parse, w, indices, ToolFrames(frames))
            && Shows(frames, if w.content.Some? then w.content.value else "", ToolFrames(frames), w.finish)
            && frames == TextsOf(chunks) + (ToolFrames(frames) + [Completion(w.finish)])
  {
    var all := AllFragments(chunks);
    assert all == [] + all;
    OneFinishShape(parse, [], chunks, all);
    OneFinishFrames(parse, [], chunks, all);
    CarriedFrames(parse, all, w, indices);
  }

  lemma SameBlocks(parse: Parser, w: Whole, indices: seq<nat>, frames: seq<Frame>)
    requires |indices| == |w.calls| && AllParse(parse, w.calls) && CallsMatch(parse, w, indices, ToolFrames(frames))
    requires Shows(frames, if w.content.Some? then w.content.value else "", ToolFrames(frames), w.finish)
    ensures Some(Assembled(frames)) == ResponseBlocks(parse, w)
  {
    var calls := ToolFrames(frames);
    forall i | 0 <= i < |calls|
      ensures CallBlocks(calls)[i] == WholeBlocks(parse, w.calls)[i]
    {
      assert calls[i] == ExpectedFrame(parse, w.calls[i], indices[i]);
    }
    assert CallBlocks(calls) == WholeBlocks(parse, w.calls);
  }

  // Streaming agrees with not streaming: the blocks put together from the frames are the blocks of the
  // response read as a whole, unless its arguments are malformed and reading it raises.
  lemma StreamAgreesWithWhole(parse: Parser, chunks: seq<Chunk>, w: Whole, indices: seq<nat>)
    requires Carries(chunks, w, indices)
    ensures Some(Assembled(Frames(parse, [], chunks))) == ResponseBlocks(parse, w) <==> AllParse(parse, w.calls)
  {
    StreamShowsWhole(parse, chunks, w, indices);
    if AllParse(parse, w.calls) {
      SameBlocks(parse, w, indices, Frames(parse, [], chunks));
    }
  }
}
