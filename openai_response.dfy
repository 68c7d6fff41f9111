/**
 * The chat session of the OpenAI Responses API adapter: how a turn's contents
 * enter the input history, how tool definitions are converted, how the items
 * of a response are recorded back into the history and surfaced as candidates
 * and parts.
 */
module OpenAIResponse {
  import opened Wrappers
  import opened Gollm

  /** A `function_call` item of a response. `id` is the item's own identifier,
      `callId` the identifier the tool result must quote back. */
  datatype ResponseToolCall = ResponseToolCall(id: string, callId: string, name: string, arguments: string, status: string)

  /** One element of an output message's content. */
  datatype MessageContent = OutputText(text: string) | Refusal(refusal: string)

  /** One item of `Response.Output`. */
  datatype OutputItem =
    | FunctionCallItem(call: ResponseToolCall)
    | ReasoningItem(id: string, summary: seq<string>)
    | MessageItem(id: string, status: string, content: seq<MessageContent>)
    | UnknownItem

  datatype Response = Response(output: seq<OutputItem>)

  /** One element of the input item list sent with a request. */
  datatype InputItem =
    | UserMessage(text: string)
    | FunctionCallOutput(callId: string, output: string)
    | FunctionCallParam(call: ResponseToolCall)
    | ReasoningParam(id: string, summary: seq<string>)
    | OutputMessageParam(id: string, status: string, text: string)

  /** A tool of the request; `NoTool` is Go's zero `ToolUnionParam`. */
  datatype ToolParam = NoTool | FunctionTool(name: string, description: string, parameters: Args)

  /** What the session hands to `Responses.New`. */
  datatype Request = Request(input: seq<InputItem>, tools: seq<ToolParam>)

  /** The single value yielded by the stream: the response, or nil on error. */
  datatype ChatReply = ChatReply(resp: Option<Response>)

  /** An `openAIResponsePart`: exactly one of the two fields is meant to be set. */
  datatype Part = Part(content: string, toolCall: FunctionCall)

  /** The outcome of converting a tool call: the call and an optional error. */
  datatype Converted = Converted(call: FunctionCall, err: Option<Error>)

  /** The text the adapter reads from a message content element: refusals
      carry no `Text`. */
  function TextOf(c: MessageContent): string {
    if c.OutputText? then c.text else ""
  }

  /** Every output message has at least one content element; the adapter
      indexes `Content[0]` without a length check. */
  predicate WellFormedItem(item: OutputItem) {
    item.MessageItem? ==> |item.content| > 0
  }

  predicate WellFormed(r: Response) {
    forall k :: 0 <= k < |r.output| ==> WellFormedItem(r.output[k])
  }

  // ---------------------------------------------------------------------
  // Tool calls, candidates and parts
  // ---------------------------------------------------------------------

  /** The arguments of a tool call: the decoded object, or an empty map when
      the text is empty or does not decode. `decode` is `json.Unmarshal`. */
  function ArgumentsOf(text: string, decode: string -> Option<Args>): Args {
    if text != "" && decode(text).Some? then decode(text).value else map[]
  }

  /** `convertResponseToolCallToFunctionCall`. */
  function ConvertToolCall(tc: ResponseToolCall, decode: string -> Option<Args>): (r: Converted)
    ensures r.err.Some? <==> tc.name == ""
    ensures r.err.Some? ==> r.err == Some(MissingName) && r.call == ZeroCall
    ensures r.err.None? ==> r.call.id == tc.callId && r.call.name == tc.name
    ensures r.err.None? && tc.arguments != "" && decode(tc.arguments).Some? ==>
              r.call.arguments == decode(tc.arguments).value
    ensures r.err.None? && (tc.arguments == "" || decode(tc.arguments).None?) ==>
              r.call.arguments == map[]
  {
    if tc.name == "" then Converted(ZeroCall, Some(MissingName))
    else Converted(FunctionCall(tc.callId, tc.name, ArgumentsOf(tc.arguments, decode)), None)
  }

  /** The item kinds the agent loop is shown; reasoning is held back. */
  predicate IsCandidate(item: OutputItem) {
    item.FunctionCallItem? || item.MessageItem?
  }

  /** The candidates among the output items, in their order. */
  function KeepCandidates(out: seq<OutputItem>): (r: seq<OutputItem>)
    ensures forall k :: 0 <= k < |r| ==> IsCandidate(r[k])
    ensures forall x :: IsCandidate(x) ==> multiset(r)[x] == multiset(out)[x]
    ensures |r| <= |out|
  {
    if |out| == 0 then []
    else
      var init := out[..|out| - 1];
      var last := out[|out| - 1];
      assert out == init + [last];
      if IsCandidate(last) then KeepCandidates(init) + [last] else KeepCandidates(init)
  }

  /** `Candidates`: nothing for a nil response. */
  function Candidates(resp: Option<Response>): (r: seq<OutputItem>)
    ensures resp.None? ==> r == []
    ensures forall k :: 0 <= k < |r| ==> IsCandidate(r[k])
    ensures resp.Some? ==> forall x :: IsCandidate(x) ==> multiset(r)[x] == multiset(resp.value.output)[x]
  {
    if resp.None? then [] else KeepCandidates(resp.value.output)
  }

  /** Keeping candidates distributes over concatenation, so the candidates of
      a response keep the order of its output. */
  lemma {:induction false} KeepCandidatesAppend(a: seq<OutputItem>, b: seq<OutputItem>)
    ensures KeepCandidates(a + b) == KeepCandidates(a) + KeepCandidates(b)
    decreases |b|
  {
    if |b| == 0 {
      assert a + b == a;
    } else {
      var init := b[..|b| - 1];
      assert a + b == (a + init) + [b[|b| - 1]];
      assert (a + b)[..|a + b| - 1] == a + init;
      KeepCandidatesAppend(a, init);
    }
  }

  /** `Parts` of a candidate. */
  function Parts(item: OutputItem, decode: string -> Option<Args>): (r: seq<Part>)
    requires WellFormedItem(item)
    ensures IsCandidate(item) <==> |r| == 1
    ensures !IsCandidate(item) <==> r == []
    ensures item.FunctionCallItem? ==> r == [Part("", ConvertToolCall(item.call, decode).call)]
    ensures item.MessageItem? ==> r == [Part(TextOf(item.content[0]), ZeroCall)]
  {
    match item
    case FunctionCallItem(tc) => [Part("", ConvertToolCall(tc, decode).call)]
    case MessageItem(_, _, content) => [Part(TextOf(content[0]), ZeroCall)]
    case _ => []
  }

  /** `AsText`: the content and whether it is non-empty. */
  function AsText(p: Part): (r: (string, bool))
    ensures r.0 == p.content
    ensures r.1 <==> |p.content| > 0
  {
    (p.content, p.content != "")
  }

  /** `AsFunctionCalls`: always the one tool call, claimed only when there is
      no text. */
  function AsFunctionCalls(p: Part): (r: (seq<FunctionCall>, bool))
    ensures r.0 == [p.toolCall]
    ensures r.1 <==> |p.content| == 0
  {
    ([p.toolCall], p.content == "")
  }

  /** Exactly one of the two views of a part reports success. */
  lemma OneViewSucceeds(p: Part)
    ensures AsText(p).1 != AsFunctionCalls(p).1
  {
  }

  /** A named tool call surfaces as one part whose function-call view succeeds
      with the converted call, which quotes the item's `call_id`. */
  lemma ToolCallPartView(tc: ResponseToolCall, decode: string -> Option<Args>)
    requires tc.name != ""
    ensures var ps := Parts(FunctionCallItem(tc), decode);
      |ps| == 1 && !AsText(ps[0]).1 && AsFunctionCalls(ps[0]).1 &&
      AsFunctionCalls(ps[0]).0 == [FunctionCall(tc.callId, tc.name, ArgumentsOf(tc.arguments, decode))]
  {
  }

  /** A message with non-empty text surfaces as text. A message whose first
      content is empty (or a refusal) claims the function-call view instead,
      with Go's zero call. */
  lemma MessagePartView(id: string, status: string, content: seq<MessageContent>, decode: string -> Option<Args>)
    requires |content| > 0
    ensures var ps := Parts(MessageItem(id, status, content), decode);
      |ps| == 1 &&
      (TextOf(content[0]) != "" ==> AsText(ps[0]) == (TextOf(content[0]), true) && !AsFunctionCalls(ps[0]).1) &&
      (TextOf(content[0]) == "" ==> !AsText(ps[0]).1 && AsFunctionCalls(ps[0]) == ([ZeroCall], true))
  {
  }

  // ---------------------------------------------------------------------
  // Recording contents and responses in the history
  // ---------------------------------------------------------------------

  /** `addContentsToHistory` accepts strings and encodable tool results. */
  predicate Handled(c: Content) {
    c.TextContent? || (c.ResultContent? && EncodableArgs(c.result.result))
  }

  function RejectionOf(c: Content): Error
    requires !Handled(c)
  {
    if c.ResultContent? then ResultNotEncodable(c.result.name) else UnhandledContent
  }

  /** The position of the first content `addContentsToHistory` cannot add, or
      the length when there is none. */
  function FirstUnhandled(cs: seq<Content>): (r: nat)
    ensures r <= |cs|
    ensures forall k :: 0 <= k < r ==> Handled(cs[k])
    ensures r < |cs| ==> !Handled(cs[r])
  {
    if |cs| == 0 then 0
    else if !Handled(cs[0]) then 0
    else 1 + FirstUnhandled(cs[1..])
  }

  /** The input item one content becomes; `encode` is `json.Marshal` of the
      result map as text. */
  function ContentItem(c: Content, encode: Args -> string): InputItem
    requires Handled(c)
  {
    if c.TextContent? then UserMessage(c.text) else FunctionCallOutput(c.result.id, encode(c.result.result))
  }

  /** The input items a run of handled contents becomes, one each, in order. */
  function ContentItems(cs: seq<Content>, encode: Args -> string): (r: seq<InputItem>)
    requires forall k :: 0 <= k < |cs| ==> Handled(cs[k])
    ensures |r| == |cs|
    ensures forall k :: 0 <= k < |cs| ==> r[k] == ContentItem(cs[k], encode)
  {
    if |cs| == 0 then []
    else ContentItems(cs[..|cs| - 1], encode) + [ContentItem(cs[|cs| - 1], encode)]
  }

  /** What one output item adds to the history; unknown items add nothing. */
  function RecordItem(item: OutputItem): (r: seq<InputItem>)
    requires WellFormedItem(item)
  {
    match item
    case FunctionCallItem(tc) => [FunctionCallParam(tc)]
    case ReasoningItem(id, summary) => [ReasoningParam(id, summary)]
    case MessageItem(id, status, content) => [OutputMessageParam(id, status, TextOf(content[0]))]
    case UnknownItem => []
  }

  /** What a whole response output adds to the history. */
  function Recorded(out: seq<OutputItem>): seq<InputItem>
    requires forall k :: 0 <= k < |out| ==> WellFormedItem(out[k])
  {
    if |out| == 0 then []
    else Recorded(out[..|out| - 1]) + RecordItem(out[|out| - 1])
  }

  function CountReasoning(out: seq<OutputItem>): nat {
    if |out| == 0 then 0
    else CountReasoning(out[..|out| - 1]) + (if out[|out| - 1].ReasoningItem? then 1 else 0)
  }

  /** Every known item of a response is recorded in the history exactly once:
      the candidates plus the reasoning items, which are never surfaced as
      candidates. */
  lemma {:induction false} RecordedCount(out: seq<OutputItem>)
    requires forall k :: 0 <= k < |out| ==> WellFormedItem(out[k])
    ensures |Recorded(out)| == |KeepCandidates(out)| + CountReasoning(out)
  {
    if |out| > 0 {
      assert out == out[..|out| - 1] + [out[|out| - 1]];
      RecordedCount(out[..|out| - 1]);
    }
  }

  /** A reasoning item of a response reaches the history and only there. */
  lemma {:induction false} ReasoningRecordedNotSurfaced(out: seq<OutputItem>, i: int)
    requires forall k :: 0 <= k < |out| ==> WellFormedItem(out[k])
    requires 0 <= i < |out| && out[i].ReasoningItem?
    ensures ReasoningParam(out[i].id, out[i].summary) in Recorded(out)
    ensures out[i] !in KeepCandidates(out)
  {
    var init := out[..|out| - 1];
    assert out == init + [out[|out| - 1]];
    if i < |out| - 1 {
      ReasoningRecordedNotSurfaced(init, i);
    }
    assert !IsCandidate(out[i]);
  }

  // ---------------------------------------------------------------------
  // Tool definitions
  // ---------------------------------------------------------------------

  /** `convertFunctionParameters`: a nil schema gives empty parameters; any
      failure of the conversion is reported against the function's name.
      `convert` stands for schema conversion, marshalling and unmarshalling. */
  function ConvertParameters(d: FunctionDefinition, convert: Json -> Option<Args>): (r: Result<Args, Error>)
    ensures d.parameters.None? ==> r == Ok(map[])
    ensures r.Err? <==> d.parameters.Some? && convert(d.parameters.value).None?
    ensures r.Err? ==> r.error == SchemaConversion(d.name)
  {
    if d.parameters.None? then Ok(map[])
    else if convert(d.parameters.value).None? then Err(SchemaConversion(d.name))
    else Ok(convert(d.parameters.value).value)
  }

  function ToolFor(d: FunctionDefinition, convert: Json -> Option<Args>): ToolParam
    requires ConvertParameters(d, convert).Ok?
  {
    FunctionTool(d.name, d.description, ConvertParameters(d, convert).value)
  }

  /** The position of the first definition whose parameters fail to convert,
      or the length when all convert. */
  function FirstUnconvertible(defs: seq<FunctionDefinition>, convert: Json -> Option<Args>): (r: nat)
    ensures r <= |defs|
    ensures forall k :: 0 <= k < r ==> ConvertParameters(defs[k], convert).Ok?
    ensures r < |defs| ==> ConvertParameters(defs[r], convert).Err?
  {
    if |defs| == 0 then 0
    else if ConvertParameters(defs[0], convert).Err? then 0
    else 1 + FirstUnconvertible(defs[1..], convert)
  }

  // ---------------------------------------------------------------------
  // The session
  // ---------------------------------------------------------------------

  class ChatSession {
    var history: seq<InputItem>
    var functionDefinitions: seq<FunctionDefinition>
    var tools: seq<ToolParam>
    const model: string

    constructor (model: string)
      ensures history == [] && functionDefinitions == [] && tools == []
      ensures this.model == model
    {
      history := [];
      functionDefinitions := [];
      tools := [];
      this.model := model;
    }

    /** `SetFunctionDefinitions`: stores the definitions and converts them in
        order; on the first failure the remaining tools stay zero. */
    method SetFunctionDefinitions(defs: seq<FunctionDefinition>, convert: Json -> Option<Args>)
      returns (err: Option<Error>)
      modifies this
      ensures functionDefinitions == defs && history == old(history)
      ensures |tools| == |defs|
      ensures var k := FirstUnconvertible(defs, convert);
        (err.None? <==> k == |defs|) &&
        (k < |defs| ==> err == Some(SchemaConversion(defs[k].name))) &&
        (forall i :: 0 <= i < k ==> tools[i] == ToolFor(defs[i], convert)) &&
        (forall i :: k <= i < |defs| ==> tools[i] == NoTool)
    {
      functionDefinitions := defs;
      tools := seq(|defs|, _ => NoTool);
      err := None;
      ghost var k := FirstUnconvertible(defs, convert);
      var i := 0;
      while i < |defs|
        invariant 0 <= i <= k
        invariant functionDefinitions == defs && history == old(history)
        invariant |tools| == |defs|
        invariant forall j :: 0 <= j < i ==> tools[j] == ToolFor(defs[j], convert)
        invariant forall j :: i <= j < |defs| ==> tools[j] == NoTool
      {
        var params := ConvertParameters(defs[i], convert);
        if params.Err? {
          return Some(params.error);
        }
        tools := tools[i := FunctionTool(defs[i].name, defs[i].description, params.value)];
        i := i + 1;
      }
    }

    /** `Send` is not implemented by this adapter; the returned response value
        is empty and carries nothing. */
    method Send(contents: seq<Content>) returns (err: Option<Error>)
      ensures err == Some(ErrUnsupported)
    {
      err := Some(ErrUnsupported);
    }

    /** `Initialize`: stored history is not restored; the in-memory history is
        kept as it is and no error is reported. */
    method Initialize(messages: seq<ChatMessage>) returns (err: Option<Error>)
      ensures err == None
    {
      err := None;
    }

    /** `IsRetryableError`: no error is never retried; any other error is
        classified by the shared default classifier. */
    function IsRetryableError(err: Option<Error>, defaultRetryable: Error -> bool): (r: bool)
      ensures err.None? ==> !r
      ensures err.Some? ==> r == defaultRetryable(err.value)
    {
      err.Some? && defaultRetryable(err.value)
    }

    /** `addContentsToHistory`: appends the contents one by one and stops at
        the first it cannot add; what was appended before stays. */
    method AddContentsToHistory(contents: seq<Content>, encode: Args -> string) returns (err: Option<Error>)
      modifies this
      ensures var k := FirstUnhandled(contents);
        history == old(history) + ContentItems(contents[..k], encode) &&
        (k == |contents| ==> err == None) &&
        (k < |contents| ==> err == Some(RejectionOf(contents[k])))
      ensures tools == old(tools) && functionDefinitions == old(functionDefinitions)
    {
      ghost var k := FirstUnhandled(contents);
      var i := 0;
      while i < |contents|
        invariant 0 <= i <= k
        invariant history == old(history) + ContentItems(contents[..i], encode)
        invariant tools == old(tools) && functionDefinitions == old(functionDefinitions)
      {
        var c := contents[i];
        if !Handled(c) {
          return Some(RejectionOf(c));
        }
        assert contents[..i + 1][..i] == contents[..i];
        assert ContentItems(contents[..i + 1], encode) == ContentItems(contents[..i], encode) + [ContentItem(c, encode)];
        history := history + [ContentItem(c, encode)];
        i := i + 1;
      }
      assert contents[..i] == contents;
      err := None;
    }

    /** Appends what the output items of a response add to the history. */
    method RecordOutput(out: seq<OutputItem>)
      requires forall k :: 0 <= k < |out| ==> WellFormedItem(out[k])
      modifies this
      ensures history == old(history) + Recorded(out)
      ensures tools == old(tools) && functionDefinitions == old(functionDefinitions)
    {
      var i := 0;
      while i < |out|
        invariant 0 <= i <= |out|
        invariant history == old(history) + Recorded(out[..i])
        invariant tools == old(tools) && functionDefinitions == old(functionDefinitions)
      {
        var item := out[i];
        assert out[..i + 1][..i] == out[..i];
        match item {
          case FunctionCallItem(tc) =>
            history := history + [FunctionCallParam(tc)];
          case ReasoningItem(id, summary) =>
            history := history + [ReasoningParam(id, summary)];
          case MessageItem(id, status, content) =>
            history := history + [OutputMessageParam(id, status, TextOf(content[0]))];
          case UnknownItem =>
        }
        i := i + 1;
      }
      assert out[..i] == out;
    }

    /** `SendStreaming`: the contents join the history, the whole history and
        the tools are sent, and the known items of the answer are recorded.
        `reply` is what the provider answered to `request`. */
    method SendStreaming(contents: seq<Content>, encode: Args -> string, reply: Result<Response, Error>)
      returns (request: Option<Request>, stream: Option<seq<ChatReply>>, err: Option<Error>)
      requires reply.Ok? ==> WellFormed(reply.value)
      modifies this
      ensures tools == old(tools) && functionDefinitions == old(functionDefinitions)
      ensures var k := FirstUnhandled(contents);
        k < |contents| ==>
          request == None && stream == None && err == Some(RejectionOf(contents[k])) &&
          history == old(history) + ContentItems(contents[..k], encode)
      ensures FirstUnhandled(contents) == |contents| ==>
          request == Some(Request(old(history) + ContentItems(contents, encode), tools)) &&
          err == (if reply.Err? then Some(reply.error) else None) &&
          stream == Some([ChatReply(if reply.Ok? then Some(reply.value) else None)]) &&
          history == request.value.input + (if reply.Ok? then Recorded(reply.value.output) else [])
    {
      err := AddContentsToHistory(contents, encode);
      if err.Some? {
        return None, None, err;
      }
      assert contents[..|contents|] == contents;
      request := Some(Request(history, tools));
      if reply.Ok? {
        RecordOutput(reply.value.output);
        stream := Some([ChatReply(Some(reply.value))]);
      } else {
        stream := Some([ChatReply(None)]);
        err := Some(reply.error);
      }
    }
  }
}
