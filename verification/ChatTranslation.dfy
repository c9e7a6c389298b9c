/** Chat messages between the OpenAI form and the native form, and the check of the order in which
    tool calls and tool results may follow each other. */
module ChatTranslation {
  import opened Sequences
  import opened Wrappers
  import opened JsonValues

  /*** The OpenAI form ***/

  datatype Role = System | User | Assistant | Foreign(name: string)

  datatype OpenAICall = OpenAICall(id: string, name: string, arguments: Json)

  datatype OpenAIMessage =
    | Chat(role: Role, content: Option<string>, calls: seq<OpenAICall>)
    | ToolAnswer(callId: string, answer: string)

  /*** The native form ***/

  datatype Block =
    | Text(text: string)
    | ToolCall(id: string, name: string, arguments: Json)
    | ToolResult(callId: string, result: string)

  datatype NativeRole = NativeSystem | NativeUser | NativeAssistant

  datatype NativeMessage = NativeMessage(role: NativeRole, content: seq<Block>)

  // The blocks each role may hold.
  predicate WellTyped(m: NativeMessage) {
    forall b | b in m.content ::
      match m.role
      case NativeSystem => b.Text?
      case NativeUser => b.Text? || b.ToolResult?
      case NativeAssistant => b.Text? || b.ToolCall?
  }

  /*** The order of calls and results ***/

  function CallIds(blocks: seq<Block>): set<string> {
    set b | b in blocks && b.ToolCall? :: b.id
  }

  predicate HasCalls(blocks: seq<Block>) {
    exists b :: b in blocks && b.ToolCall?
  }

  predicate HasResults(blocks: seq<Block>) {
    exists b :: b in blocks && b.ToolResult?
  }

  // Takes the ids that results answer out of the pending ones; each must be pending when it is answered.
  function Resolve(pending: set<string>, blocks: seq<Block>): Option<set<string>> {
    if blocks == [] then Some(pending)
    else if !blocks[0].ToolResult? || blocks[0].callId !in pending then None
    else Resolve(pending - {blocks[0].callId}, blocks[1..])
  }

  // The pending ids after one more message, if it may stand here.
  function Advance(pending: set<string>, m: NativeMessage): Option<set<string>> {
    if m.role.NativeAssistant? then
      if pending != {} && HasCalls(m.content) then None else Some(pending + CallIds(m.content))
    else if pending == {} then
      if HasResults(m.content) then None else Some(pending)
    else if !m.role.NativeUser? then None
    else Resolve(pending, m.content)
  }

  function Scan(pending: set<string>, messages: seq<NativeMessage>): Option<set<string>>
    decreases messages
  {
    if messages == [] then Some(pending)
    else
      var next := Advance(pending, messages[0]);
      if next.None? then None else Scan(next.value, messages[1..])
  }

  predicate Accepts(messages: seq<NativeMessage>) {
    (forall m | m in messages :: WellTyped(m)) && Scan({}, messages) == Some({})
  }

  lemma {:induction false} ResolveNeedsResults(pending: set<string>, blocks: seq<Block>)
    ensures Resolve(pending, blocks).Some? ==> forall b | b in blocks :: b.ToolResult? && b.callId in pending
    ensures Resolve(pending, blocks).Some? ==>
              Resolve(pending, blocks).value == pending - set b | b in blocks && b.ToolResult? :: b.callId
  {
    if blocks != [] && blocks[0].ToolResult? && blocks[0].callId in pending {
      ResolveNeedsResults(pending - {blocks[0].callId}, blocks[1..]);
      assert blocks == [blocks[0]] + blocks[1..];
    }
  }

  /*** The same order, position by position ***/

  predicate Calls(m: NativeMessage, id: string) {
    m.role.NativeAssistant? && exists b :: b in m.content && b.ToolCall? && b.id == id
  }

  predicate Answers(m: NativeMessage, id: string) {
    m.role.NativeUser? && exists b :: b in m.content && b.ToolResult? && b.callId == id
  }

  // An assistant message before i calls id, and no message between answers it.
  ghost predicate PendingAt(messages: seq<NativeMessage>, i: nat, id: string)
    requires i <= |messages|
  {
    exists j :: 0 <= j < i && Calls(messages[j], id) && forall k | j < k < i :: !Answers(messages[k], id)
  }

  // Calls stand only where nothing is pending, and results only where something is: in a user message that holds
  // nothing else, each for another pending call.
  ghost predicate InOrderAt(messages: seq<NativeMessage>, i: nat)
    requires i < |messages|
  {
    var m := messages[i];
    if m.role.NativeAssistant? then
      (exists b :: b in m.content && b.ToolCall?) ==> forall id :: !PendingAt(messages, i, id)
    else if forall id :: !PendingAt(messages, i, id) then
      forall b | b in m.content :: !b.ToolResult?
    else
      && m.role.NativeUser?
      && (forall k | 0 <= k < |m.content| :: m.content[k].ToolResult? && PendingAt(messages, i, m.content[k].callId))
      && (forall j, k | 0 <= j < k < |m.content| :: m.content[j].callId != m.content[k].callId)
  }

  ghost predicate InOrder(messages: seq<NativeMessage>) {
    && (forall i | 0 <= i < |messages| :: InOrderAt(messages, i))
    && forall id :: !PendingAt(messages, |messages|, id)
  }

  ghost predicate ArePending(messages: seq<NativeMessage>, i: nat, pending: set<string>)
    requires i <= |messages|
  {
    forall id :: id in pending <==> PendingAt(messages, i, id)
  }

  lemma PendingLater(messages: seq<NativeMessage>, i: nat, id: string)
    requires i < |messages|
    ensures PendingAt(messages, i + 1, id)
            <==> Calls(messages[i], id) || (PendingAt(messages, i, id) && !Answers(messages[i], id))
  {
  }

  lemma {:induction false} ResolvesDistinct(pending: set<string>, blocks: seq<Block>)
    ensures Resolve(pending, blocks).Some? <==>
              && (forall k | 0 <= k < |blocks| :: blocks[k].ToolResult? && blocks[k].callId in pending)
              && (forall j, k | 0 <= j < k < |blocks| :: blocks[j].callId != blocks[k].callId)
  {
    if blocks != [] && blocks[0].ToolResult? && blocks[0].callId in pending {
      var rest := blocks[1..];
      ResolvesDistinct(pending - {blocks[0].callId}, rest);
      assert forall k | 0 < k < |blocks| :: blocks[k] == rest[k - 1];
    }
  }

  // One message may stand at i exactly when it is in order there, and then advances the pending calls.
  lemma AdvancesInOrder(messages: seq<NativeMessage>, i: nat, pending: set<string>)
    requires i < |messages| && ArePending(messages, i, pending)
    ensures Advance(pending, messages[i]).Some? <==> InOrderAt(messages, i)
    ensures Advance(pending, messages[i]).Some? ==> ArePending(messages, i + 1, Advance(pending, messages[i]).value)
  {
    var m := messages[i];
    ResolveNeedsResults(pending, m.content);
    ResolvesDistinct(pending, m.content);
    assert (forall id :: !PendingAt(messages, i, id)) <==> pending == {};
    forall id
      ensures PendingAt(messages, i + 1, id)
              <==> Calls(messages[i], id) || (PendingAt(messages, i, id) && !Answers(messages[i], id))
    {
      PendingLater(messages, i, id);
    }
  }

  lemma {:induction false} ScanInOrder(messages: seq<NativeMessage>, i: nat, pending: set<string>)
    requires i <= |messages| && ArePending(messages, i, pending)
    ensures Scan(pending, messages[i..]) == Some({}) <==>
              && (forall k | i <= k < |messages| :: InOrderAt(messages, k))
              && forall id :: !PendingAt(messages, |messages|, id)
    decreases |messages| - i
  {
    if i < |messages| {
      assert messages[i..][1..] == messages[i + 1..];
      AdvancesInOrder(messages, i, pending);
      var next := Advance(pending, messages[i]);
      if next.Some? {
        ScanInOrder(messages, i + 1, next.value);
      }
    } else {
      assert (forall id :: !PendingAt(messages, i, id)) <==> pending == {};
    }
  }

  // A list is accepted exactly when every message is in order where it stands and no call is left.
  lemma AcceptsInOrder(messages: seq<NativeMessage>)
    ensures Scan({}, messages) == Some({}) <==> InOrder(messages)
  {
    assert messages[0..] == messages;
    ScanInOrder(messages, 0, {});
  }

  datatype SequenceError =
    | UnresolvedCalls
    | ResultWithoutCall
    | CallsNotFollowedByUser
    | MixedResults
    | UnknownCallId(id: string)
    | MissingResults

  // The validator's loop.
  method ValidateToolCallSequence(messages: seq<NativeMessage>) returns (error: Option<SequenceError>)
    ensures error.None? <==> Scan({}, messages) == Some({})
    ensures error.None? <==> InOrder(messages)
  {
    AcceptsInOrder(messages);
    var pending: set<string> := {};
    for i := 0 to |messages|
      invariant Scan({}, messages) == Scan(pending, messages[i..])
    {
      var m := messages[i];
      assert messages[i..][1..] == messages[i + 1..];
      if m.role.NativeAssistant? {
        if pending != {} && HasCalls(m.content) {
          return Some(UnresolvedCalls);
        }
        pending := pending + CallIds(m.content);
        continue;
      }
      if pending == {} {
        if HasResults(m.content) {
          return Some(ResultWithoutCall);
        }
        continue;
      }
      if !m.role.NativeUser? {
        return Some(CallsNotFollowedByUser);
      }
      if exists b :: b in m.content && !b.ToolResult? {
        ResolveNeedsResults(pending, m.content);
        return Some(MixedResults);
      }
      var before := pending;
      for j := 0 to |m.content|
        invariant Resolve(before, m.content) == Resolve(pending, m.content[j..])
      {
        assert m.content[j..][1..] == m.content[j + 1..];
        assert m.content[j] in m.content;
        if m.content[j].callId !in pending {
          return Some(UnknownCallId(m.content[j].callId));
        }
        pending := pending - {m.content[j].callId};
      }
    }
    return if pending != {} then Some(MissingResults) else None;
  }

  /*** What an accepted sequence guarantees ***/

  // A pending id is answered by some message, and no assistant calls a tool before that.
  lemma {:induction false} PendingIsAnswered(pending: set<string>, messages: seq<NativeMessage>, id: string)
    returns (j: nat)
    requires Scan(pending, messages) == Some({}) && id in pending
    ensures j < |messages| && messages[j].role.NativeUser? && Answers(messages[j], id)
    ensures forall k | 0 <= k < j :: !HasCalls(messages[k].content) || !messages[k].role.NativeAssistant?
  {
    var m := messages[0];
    if m.role.NativeUser? && Answers(m, id) {
      j := 0;
    } else {
      var next := Advance(pending, m).value;
      if m.role.NativeUser? {
        ResolveNeedsResults(pending, m.content);
      }
      assert id in next;
      j := PendingIsAnswered(next, messages[1..], id);
      j := j + 1;
    }
  }

  // Every tool call of an accepted sequence is answered later, before the next tool calls.
  lemma {:induction false} CallsAreAnswered(pending: set<string>, messages: seq<NativeMessage>, i: nat, id: string)
    returns (j: nat)
    requires Scan(pending, messages) == Some({}) && i < |messages|
    requires messages[i].role.NativeAssistant? && id in CallIds(messages[i].content)
    ensures i < j < |messages| && messages[j].role.NativeUser? && Answers(messages[j], id)
    ensures forall k | i < k < j :: !HasCalls(messages[k].content) || !messages[k].role.NativeAssistant?
    decreases i
  {
    var next := Advance(pending, messages[0]).value;
    if i == 0 {
      j := PendingIsAnswered(next, messages[1..], id);
    } else {
      j := CallsAreAnswered(next, messages[1..], i - 1, id);
    }
    j := j + 1;
  }

  // Every tool result of an accepted sequence answers an earlier call.
  lemma {:induction false} ResultsHaveCalls(pending: set<string>, messages: seq<NativeMessage>, j: nat, id: string)
    requires Scan(pending, messages) == Some({}) && j < |messages|
    requires messages[j].role.NativeUser? && Answers(messages[j], id)
    ensures id in pending
            || exists i :: 0 <= i < j && messages[i].role.NativeAssistant? && id in CallIds(messages[i].content)
    decreases j
  {
    var next := Advance(pending, messages[0]).value;
    if j == 0 {
      ResolveNeedsResults(pending, messages[0].content);
    } else {
      ResultsHaveCalls(next, messages[1..], j - 1, id);
      if messages[0].role.NativeUser? {
        ResolveNeedsResults(pending, messages[0].content);
      }
      if id !in next {
        var i :| 0 <= i < j - 1 && messages[1..][i].role.NativeAssistant? && id in CallIds(messages[1..][i].content);
        assert messages[i + 1].role.NativeAssistant?;
      }
    }
  }

  /*** OpenAI to native ***/

  function CallBlocks(calls: seq<OpenAICall>): (blocks: seq<Block>)
    ensures |blocks| == |calls|
    ensures forall i | 0 <= i < |calls| ::
              blocks[i] == ToolCall(calls[i].id, calls[i].name, AsObject(calls[i].arguments))
  {
    seq(|calls|, i requires 0 <= i < |calls| => ToolCall(calls[i].id, calls[i].name, AsObject(calls[i].arguments)))
  }

  function TextBlocks(content: Option<string>): seq<Block> {
    if content.Some? && content.value != "" then [Text(content.value)] else []
  }

  function NativeOf(m: OpenAIMessage): seq<NativeMessage> {
    match m
    case ToolAnswer(callId, answer) => [NativeMessage(NativeUser, [ToolResult(callId, answer)])]
    case Chat(role, content, calls) =>
      var blocks := TextBlocks(content) + CallBlocks(calls);
      match role
      case System => [NativeMessage(NativeSystem, blocks)]
      case User => [NativeMessage(NativeUser, blocks)]
      case Assistant => [NativeMessage(NativeAssistant, blocks)]
      case Foreign(_) => []
  }

  // A message says the same in the native form: who speaks, the text, the calls made and the call answered.
  lemma NativeSaysSame(m: OpenAIMessage, n: NativeMessage, id: string, text: string)
    requires n in NativeOf(m)
    ensures Calls(n, id) <==> m.Chat? && m.role.Assistant? && exists c :: c in m.calls && c.id == id
    ensures Answers(n, id) <==> m.ToolAnswer? && m.callId == id
    ensures Text(text) in n.content <==> m.Chat? && m.content == Some(text) && text != ""
    ensures m.Chat? ==> (n.role.NativeSystem? <==> m.role.System?) && (n.role.NativeUser? <==> m.role.User?)
  {
    if m.Chat? {
      var texts, calls := TextBlocks(m.content), CallBlocks(m.calls);
      assert forall b :: b in n.content <==> b in texts || b in calls;
      assert forall b | b in texts :: b.Text? && b.text == m.content.value;
      if text != "" && m.content == Some(text) {
        assert texts[0] == Text(text);
      }
      if c :| c in m.calls && c.id == id {
        var i :| 0 <= i < |m.calls| && m.calls[i] == c;
        assert calls[i] in n.content;
      }
    } else {
      assert n.content[0] in n.content;
    }
  }

  function ToNative(messages: seq<OpenAIMessage>): seq<NativeMessage> {
    if messages == [] then [] else NativeOf(messages[0]) + ToNative(messages[1..])
  }

  method ContentBlocks(content: Option<string>, calls: seq<OpenAICall>) returns (blocks: seq<Block>)
    ensures blocks == TextBlocks(content) + CallBlocks(calls)
  {
    var texts := if content.Some? && content.value != "" then [Text(content.value)] else [];
    blocks := texts;
    for k := 0 to |calls|
      invariant |blocks| == |texts| + k
      invariant blocks == texts + CallBlocks(calls)[..k]
    {
      blocks := blocks + [ToolCall(calls[k].id, calls[k].name, AsObject(calls[k].arguments))];
    }
  }

  method ToNativeMessage(m: OpenAIMessage) returns (native: seq<NativeMessage>)
    ensures native == NativeOf(m)
  {
    match m {
      case ToolAnswer(callId, answer) =>
        return [NativeMessage(NativeUser, [ToolResult(callId, answer)])];
      case Chat(role, content, calls) =>
        var blocks := ContentBlocks(content, calls);
        match role {
          case System => return [NativeMessage(NativeSystem, blocks)];
          case User => return [NativeMessage(NativeUser, blocks)];
          case Assistant => return [NativeMessage(NativeAssistant, blocks)];
          case Foreign(_) => return [];
        }
    }
  }

  method ToNativeMessages(messages: seq<OpenAIMessage>) returns (native: seq<NativeMessage>)
    ensures native == ToNative(messages)
  {
    native := [];
    for i := 0 to |messages|
      invariant native + ToNative(messages[i..]) == ToNative(messages)
    {
      assert messages[i..][1..] == messages[i + 1..];
      var some := ToNativeMessage(messages[i]);
      Regroup(native, some, ToNative(messages[i + 1..]));
      native := native + some;
    }
  }

  /*** Native to OpenAI ***/

  function JoinedText(blocks: seq<Block>): string {
    if blocks == [] then "" else (if blocks[0].Text? then blocks[0].text else "") + JoinedText(blocks[1..])
  }

  function CallsOf(blocks: seq<Block>): seq<OpenAICall> {
    if blocks == [] then []
    else
      var rest := CallsOf(blocks[1..]);
      if blocks[0].ToolCall? then [OpenAICall(blocks[0].id, blocks[0].name, blocks[0].arguments)] + rest else rest
  }

  predicate HasText(blocks: seq<Block>) {
    exists b :: b in blocks && b.Text?
  }

  function ContentOf(text: string): Option<string> {
    if text == "" then None else Some(text)
  }

  // The blocks of a system or user message each become a message of their own.
  function Separate(role: NativeRole, blocks: seq<Block>): seq<OpenAIMessage> {
    if blocks == [] then []
    else
      var rest := Separate(role, blocks[1..]);
      if blocks[0].Text? then [Chat(if role.NativeSystem? then System else User, Some(blocks[0].text), [])] + rest
      else if blocks[0].ToolResult? && role.NativeUser? then [ToolAnswer(blocks[0].callId, blocks[0].result)] + rest
      else rest
  }

  function OpenAIOf(m: NativeMessage): seq<OpenAIMessage> {
    if !m.role.NativeAssistant? then Separate(m.role, m.content)
    else if HasText(m.content) || HasCalls(m.content)
    then [Chat(Assistant, ContentOf(JoinedText(m.content)), CallsOf(m.content))]
    else []
  }

  function ToOpenAI(native: seq<NativeMessage>): seq<OpenAIMessage> {
    if native == [] then [] else OpenAIOf(native[0]) + ToOpenAI(native[1..])
  }

  lemma OneMoreBlock(blocks: seq<Block>, b: Block)
    ensures JoinedText(blocks + [b]) == JoinedText(blocks) + if b.Text? then b.text else ""
    ensures CallsOf(blocks + [b])
            == CallsOf(blocks) + if b.ToolCall? then [OpenAICall(b.id, b.name, b.arguments)] else []
    ensures HasText(blocks + [b]) <==> HasText(blocks) || b.Text?
    ensures HasCalls(blocks + [b]) <==> HasCalls(blocks) || b.ToolCall?
  {
    CallsAppend(blocks, [b]);
    TextsAppend(blocks, [b]);
    assert JoinedText([b]) == (if b.Text? then b.text else "") + JoinedText([]);
    assert b in blocks + [b] && forall x | x in blocks :: x in blocks + [b];
  }

  method AssistantMessage(blocks: seq<Block>) returns (messages: seq<OpenAIMessage>)
    ensures messages == OpenAIOf(NativeMessage(NativeAssistant, blocks))
  {
    var text := "";
    var parts := 0;
    var calls: seq<OpenAICall> := [];
    for k := 0 to |blocks|
      invariant text == JoinedText(blocks[..k]) && calls == CallsOf(blocks[..k])
      invariant (parts > 0 <==> HasText(blocks[..k])) && (calls != [] <==> HasCalls(blocks[..k]))
    {
      OneMoreBlock(blocks[..k], blocks[k]);
      assert blocks[..k + 1] == blocks[..k] + [blocks[k]];
      match blocks[k] {
        case Text(t) =>
          text := text + t;
          parts := parts + 1;
        case ToolCall(id, name, arguments) =>
          calls := calls + [OpenAICall(id, name, arguments)];
        case ToolResult(_, _) =>
      }
    }
    assert blocks[..|blocks|] == blocks;
    return if parts > 0 || calls != [] then [Chat(Assistant, ContentOf(text), calls)] else [];
  }

  method SeparateMessages(role: NativeRole, blocks: seq<Block>) returns (messages: seq<OpenAIMessage>)
    ensures messages == Separate(role, blocks)
  {
    messages := [];
    for k := 0 to |blocks|
      invariant messages + Separate(role, blocks[k..]) == Separate(role, blocks)
    {
      assert blocks[k..][1..] == blocks[k + 1..];
      var some: seq<OpenAIMessage> := [];
      match blocks[k] {
        case Text(t) => some := [Chat(if role.NativeSystem? then System else User, Some(t), [])];
        case ToolResult(callId, result) =>
          if role.NativeUser? {
            some := [ToolAnswer(callId, result)];
          }
        case ToolCall(_, _, _) =>
      }
      assert Separate(role, blocks[k..]) == some + Separate(role, blocks[k + 1..]);
      Regroup(messages, some, Separate(role, blocks[k + 1..]));
      messages := messages + some;
    }
  }

  method ToOpenAIMessages(native: seq<NativeMessage>) returns (messages: seq<OpenAIMessage>)
    ensures messages == ToOpenAI(native)
  {
    messages := [];
    for i := 0 to |native|
      invariant messages + ToOpenAI(native[i..]) == ToOpenAI(native)
    {
      assert native[i..][1..] == native[i + 1..];
      var some: seq<OpenAIMessage>;
      if native[i].role.NativeAssistant? {
        some := AssistantMessage(native[i].content);
        assert NativeMessage(NativeAssistant, native[i].content) == native[i];
      } else {
        some := SeparateMessages(native[i].role, native[i].content);
      }
      assert some == OpenAIOf(native[i]);
      Regroup(messages, some, ToOpenAI(native[i + 1..]));
      messages := messages + some;
    }
  }

  /*** The round trip ***/

  function NormalCalls(calls: seq<OpenAICall>): (normal: seq<OpenAICall>)
    ensures |normal| == |calls|
    ensures forall i | 0 <= i < |calls| ::
              normal[i] == OpenAICall(calls[i].id, calls[i].name, AsObject(calls[i].arguments))
  {
    seq(|calls|, i requires 0 <= i < |calls| => OpenAICall(calls[i].id, calls[i].name, AsObject(calls[i].arguments)))
  }

  predicate IsEmpty(m: OpenAIMessage) {
    m.Chat? && (m.content.None? || m.content.value == "") && (m.calls == [] || !m.role.Assistant?)
  }

  // Messages without content, and messages of other roles, go; arguments become objects; empty text becomes none.
  function NormalOf(m: OpenAIMessage): seq<OpenAIMessage> {
    if m.ToolAnswer? then [m]
    else if m.role.Foreign? || IsEmpty(m) then []
    else [Chat(m.role, if m.content == Some("") then None else m.content, NormalCalls(m.calls))]
  }

  function Normalize(messages: seq<OpenAIMessage>): seq<OpenAIMessage> {
    if messages == [] then [] else NormalOf(messages[0]) + Normalize(messages[1..])
  }

  predicate IsNormal(m: OpenAIMessage) {
    m.Chat? ==> !m.role.Foreign? && !IsEmpty(m) && m.content != Some("")
                && forall c | c in m.calls :: c.arguments.Obj?
  }

  lemma {:induction false} CallsRoundTrip(calls: seq<OpenAICall>)
    ensures CallsOf(CallBlocks(calls)) == NormalCalls(calls)
    ensures JoinedText(CallBlocks(calls)) == ""
    ensures HasCalls(CallBlocks(calls)) <==> calls != []
    ensures forall b | b in CallBlocks(calls) :: b.ToolCall?
  {
    if calls != [] {
      CallsRoundTrip(calls[1..]);
      assert CallBlocks(calls)[1..] == CallBlocks(calls[1..]);
      assert NormalCalls(calls) == [NormalCalls(calls)[0]] + NormalCalls(calls[1..]);
      assert CallBlocks(calls)[0] in CallBlocks(calls);
    }
  }

  lemma {:induction false} CallsAppend(a: seq<Block>, b: seq<Block>)
    ensures CallsOf(a + b) == CallsOf(a) + CallsOf(b)
  {
    if a == [] {
      assert a + b == b;
    } else {
      assert (a + b)[1..] == a[1..] + b;
      CallsAppend(a[1..], b);
      if a[0].ToolCall? {
        Regroup([OpenAICall(a[0].id, a[0].name, a[0].arguments)], CallsOf(a[1..]), CallsOf(b));
      }
    }
  }

  lemma {:induction false} TextsAppend(a: seq<Block>, b: seq<Block>)
    ensures JoinedText(a + b) == JoinedText(a) + JoinedText(b)
  {
    if a == [] {
      assert a + b == b;
    } else {
      assert (a + b)[1..] == a[1..] + b;
      TextsAppend(a[1..], b);
      Regroup(if a[0].Text? then a[0].text else "", JoinedText(a[1..]), JoinedText(b));
    }
  }

  lemma {:induction false} OpenAIAppend(a: seq<NativeMessage>, b: seq<NativeMessage>)
    ensures ToOpenAI(a + b) == ToOpenAI(a) + ToOpenAI(b)
  {
    if a == [] {
      assert a + b == b;
    } else {
      assert (a + b)[1..] == a[1..] + b;
      OpenAIAppend(a[1..], b);
    }
  }

  lemma AssistantBlocks(content: Option<string>, calls: seq<OpenAICall>, blocks: seq<Block>)
    requires blocks == TextBlocks(content) + CallBlocks(calls)
    ensures HasText(blocks) <==> TextBlocks(content) != []
    ensures HasCalls(blocks) <==> calls != []
    ensures CallsOf(blocks) == NormalCalls(calls)
    ensures JoinedText(blocks) == if TextBlocks(content) == [] then "" else content.value
  {
    CallsRoundTrip(calls);
    var texts := TextBlocks(content);
    if texts == [] {
      assert blocks == CallBlocks(calls);
    } else {
      assert blocks[0] == texts[0] && blocks[1..] == CallBlocks(calls);
      assert blocks[0] in blocks;
      if calls != [] {
        assert blocks[1] == CallBlocks(calls)[0] && blocks[1] in blocks;
      }
    }
  }

  lemma AssistantRoundTrip(content: Option<string>, calls: seq<OpenAICall>)
    ensures OpenAIOf(NativeMessage(NativeAssistant, TextBlocks(content) + CallBlocks(calls)))
            == NormalOf(Chat(Assistant, content, calls))
  {
    AssistantBlocks(content, calls, TextBlocks(content) + CallBlocks(calls));
    assert calls == [] ==> NormalCalls(calls) == [];
  }

  // A system or user message with tool calls is not well typed, so only its text counts.
  lemma OneRoundTrip(m: OpenAIMessage)
    requires forall n | n in NativeOf(m) :: WellTyped(n)
    ensures ToOpenAI(NativeOf(m)) == NormalOf(m)
  {
    if m.ToolAnswer? {
      var n := NativeOf(m)[0];
      assert Separate(n.role, n.content) == [m] + Separate(n.role, n.content[1..]);
      assert ToOpenAI([n]) == OpenAIOf(n) + ToOpenAI([]);
    } else if !m.role.Foreign? {
      var n := NativeOf(m)[0];
      assert ToOpenAI([n]) == OpenAIOf(n) + ToOpenAI([]);
      if m.role.Assistant? {
        AssistantRoundTrip(m.content, m.calls);
      } else {
        assert n in NativeOf(m);
        PlainHasNoCalls(m.content, m.calls, n);
        assert n.content == TextBlocks(m.content);
        assert NormalCalls([]) == [];
        if n.content != [] {
          assert Separate(n.role, n.content) == [Chat(m.role, m.content, [])] + Separate(n.role, n.content[1..]);
        }
      }
    }
  }

  lemma PlainHasNoCalls(content: Option<string>, calls: seq<OpenAICall>, n: NativeMessage)
    requires WellTyped(n) && !n.role.NativeAssistant? && n.content == TextBlocks(content) + CallBlocks(calls)
    ensures calls == []
  {
    CallsRoundTrip(calls);
    assert forall b | b in CallBlocks(calls) :: b in n.content;
  }

  // Translating to the native form and back normalises a list, and nothing else.
  lemma {:induction false} RoundTrip(messages: seq<OpenAIMessage>)
    requires forall n | n in ToNative(messages) :: WellTyped(n)
    ensures ToOpenAI(ToNative(messages)) == Normalize(messages)
  {
    if messages != [] {
      OneRoundTrip(messages[0]);
      RoundTrip(messages[1..]);
      OpenAIAppend(NativeOf(messages[0]), ToNative(messages[1..]));
    }
  }

  lemma {:induction false} NormalFixed(messages: seq<OpenAIMessage>)
    requires forall m | m in messages :: IsNormal(m)
    ensures Normalize(messages) == messages
  {
    if messages != [] {
      NormalFixed(messages[1..]);
      var m := messages[0];
      if m.Chat? {
        assert IsNormal(m);
        assert forall i | 0 <= i < |m.calls| :: m.calls[i] in m.calls && NormalCalls(m.calls)[i] == m.calls[i];
        assert NormalCalls(m.calls) == m.calls;
      }
    }
  }

  lemma {:induction false} NormalizeIsNormal(messages: seq<OpenAIMessage>)
    ensures forall m | m in Normalize(messages) :: IsNormal(m)
  {
    if messages != [] {
      NormalizeIsNormal(messages[1..]);
    }
  }

  lemma NormalizeIdempotent(messages: seq<OpenAIMessage>)
    ensures Normalize(Normalize(messages)) == Normalize(messages)
  {
    NormalizeIsNormal(messages);
    NormalFixed(Normalize(messages));
  }

  /*** Normalising keeps a list acceptable ***/

  function NonEmpty(native: seq<NativeMessage>): seq<NativeMessage> {
    if native == [] then []
    else (if native[0].content == [] then [] else [native[0]]) + NonEmpty(native[1..])
  }

  lemma {:induction false} NativeAppend(a: seq<OpenAIMessage>, b: seq<OpenAIMessage>)
    ensures ToNative(a + b) == ToNative(a) + ToNative(b)
  {
    if a == [] {
      assert a + b == b;
    } else {
      assert (a + b)[1..] == a[1..] + b;
      NativeAppend(a[1..], b);
    }
  }

  lemma {:induction false} NonEmptyAppend(a: seq<NativeMessage>, b: seq<NativeMessage>)
    ensures NonEmpty(a + b) == NonEmpty(a) + NonEmpty(b)
  {
    if a == [] {
      assert a + b == b;
    } else {
      assert (a + b)[1..] == a[1..] + b;
      NonEmptyAppend(a[1..], b);
    }
  }

  lemma NormalCallBlocks(calls: seq<OpenAICall>)
    ensures CallBlocks(NormalCalls(calls)) == CallBlocks(calls)
  {
  }

  lemma OneNormalNative(m: OpenAIMessage)
    requires forall n | n in NativeOf(m) :: WellTyped(n)
    ensures ToNative(NormalOf(m)) == NonEmpty(NativeOf(m))
  {
    if m.Chat? && !m.role.Foreign? {
      NormalCallBlocks(m.calls);
      CallsRoundTrip(m.calls);
      var n := NativeOf(m)[0];
      assert NonEmpty([n]) == (if n.content == [] then [] else [n]) + NonEmpty([]);
      if !m.role.Assistant? && m.calls != [] {
        var b :| b in CallBlocks(m.calls) && b.ToolCall?;
        assert n in NativeOf(m) && b in n.content;
      }
      if !IsEmpty(m) {
        var normal := NormalOf(m)[0];
        assert TextBlocks(normal.content) == TextBlocks(m.content);
        assert ToNative([normal]) == NativeOf(normal) + ToNative([]);
      }
    } else if m.ToolAnswer? {
      assert ToNative([m]) == NativeOf(m) + ToNative([]);
      assert NonEmpty(NativeOf(m)) == NativeOf(m) + NonEmpty([]);
    }
  }

  lemma {:induction false} NormalNative(messages: seq<OpenAIMessage>)
    requires forall n | n in ToNative(messages) :: WellTyped(n)
    ensures ToNative(Normalize(messages)) == NonEmpty(ToNative(messages))
  {
    if messages != [] {
      OneNormalNative(messages[0]);
      NormalNative(messages[1..]);
      NativeAppend(NormalOf(messages[0]), Normalize(messages[1..]));
      NonEmptyAppend(NativeOf(messages[0]), ToNative(messages[1..]));
    }
  }

  lemma {:induction false} ScanNonEmpty(pending: set<string>, native: seq<NativeMessage>)
    requires Scan(pending, native).Some?
    ensures Scan(pending, NonEmpty(native)) == Scan(pending, native)
    decreases native
  {
    if native != [] {
      var m := native[0];
      var next := Advance(pending, m).value;
      ScanNonEmpty(next, native[1..]);
      if m.content == [] {
        assert CallIds(m.content) == {} && next == pending;
        assert [] + NonEmpty(native[1..]) == NonEmpty(native[1..]);
      } else {
        assert ([m] + NonEmpty(native[1..]))[1..] == NonEmpty(native[1..]);
      }
    }
  }

  lemma {:induction false} NonEmptyFrom(native: seq<NativeMessage>)
    ensures forall m | m in NonEmpty(native) :: m in native
  {
    if native != [] {
      NonEmptyFrom(native[1..]);
    }
  }

  // An accepted list stays accepted once normalised, and then the round trip is the identity.
  lemma NormalisedRoundTrip(messages: seq<OpenAIMessage>)
    requires Accepts(ToNative(messages))
    ensures Accepts(ToNative(Normalize(messages)))
    ensures ToOpenAI(ToNative(Normalize(messages))) == Normalize(messages)
  {
    NormalNative(messages);
    ScanNonEmpty({}, ToNative(messages));
    NonEmptyFrom(ToNative(messages));
    RoundTrip(Normalize(messages));
    NormalizeIdempotent(messages);
  }
}
