/**
 * The provider-independent chat types the modelled code exchanges: JSON values,
 * function calls and their results, the contents passed to a chat turn and the
 * messages persisted in a session's history.
 */
module Gollm {
  import opened Wrappers

  /** A JSON value as Go's encoding/json produces or consumes it. `JUnsupported`
      stands for a Go value `json.Marshal` refuses (a channel, a function, a NaN). */
  datatype Json =
    | JNull
    | JBool(b: bool)
    | JNumber(n: real)
    | JString(s: string)
    | JArray(items: seq<Json>)
    | JObject(fields: map<string, Json>)
    | JUnsupported

  /** A decoded argument or result object (`map[string]any`). */
  type Args = map<string, Json>

  /** `json.Marshal` succeeds on the value. */
  predicate Encodable(j: Json) {
    match j
    case JUnsupported => false
    case JArray(items) => forall k :: 0 <= k < |items| ==> Encodable(items[k])
    case JObject(fields) => forall key :: key in fields ==> Encodable(fields[key])
    case _ => true
  }

  predicate EncodableArgs(a: Args) {
    forall key :: key in a ==> Encodable(a[key])
  }

  /** `FunctionCall`: a model's request to run a tool. */
  datatype FunctionCall = FunctionCall(id: string, name: string, arguments: Args)

  /** Go's zero `FunctionCall{}`. */
  const ZeroCall := FunctionCall("", "", map[])

  /** `FunctionCallResult`: a tool's answer, sent back to the model. */
  datatype FunctionCallResult = FunctionCallResult(id: string, name: string, result: Args)

  /** `FunctionDefinition`: a tool schema; `parameters` is None for a nil schema. */
  datatype FunctionDefinition = FunctionDefinition(name: string, description: string, parameters: Option<Json>)



  /** One element of the `contents ...any` of a chat turn. */
  datatype Content =
    | TextContent(text: string)
    | ResultContent(result: FunctionCallResult)
    | OtherContent(encodable: bool)   // a value of any other Go type

  /** An opaque handle for a `ChatResponse` value passed through unchanged;
      `encodable` says whether `json.Marshal` succeeds on it. */
  datatype Reply = Reply(handle: nat, encodable: bool)

  /** `ChatMessage`: one record of a session's history. */
  datatype ChatMessage = ChatMessage(role: string, content: seq<Content>, response: Option<Reply>)

  /** `json.Marshal` succeeds on the message. */
  predicate EncodableMessage(m: ChatMessage) {
    (forall k :: 0 <= k < |m.content| ==>
      match m.content[k]
      case TextContent(_) => true
      case ResultContent(r) => EncodableArgs(r.result)
      case OtherContent(e) => e
  ) && (m.response.Some? ==> m.response.value.encodable)
  }

  /** The errors of the chat layer. */
  datatype Error =
    | ErrUnsupported                 // errors.ErrUnsupported
    | MissingName                    // a tool call without a name
    | ResultNotEncodable(name: string)
    | UnhandledContent               // a content value of an unexpected Go type
    | SchemaConversion(name: string) // a tool schema the provider format cannot express
    | ProviderError(code: nat)       // any error reported by the provider or the transport
}
