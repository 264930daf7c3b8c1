/**
 * `AnthropicChatClient`: the adapter between Microsoft.Extensions.AI chat types and the
 * AWS Bedrock Converse API, as used for Anthropic models. This module holds the mapping
 * tables and the request side; the streaming fold is in module AnthropicStreaming.
 *
 * The JSON and AWS `Document` conversions the adapter calls are outside the model; they
 * are the fields of a `Marshaller` value that every member needing one receives.
 */
module AnthropicChatClient {
  import opened Wrappers
  import opened Text
  import Json
  import Utf8

  type Byte = Utf8.Byte

  // ----- Roles, stop reasons and finish reasons -----

  /** Microsoft.Extensions.AI `ChatRole`: a role name; two roles are equal ignoring case. */
  datatype ChatRole = ChatRole(value: string)

  const SystemRole := ChatRole("system")
  const AssistantRole := ChatRole("assistant")
  const UserRole := ChatRole("user")
  const ToolRole := ChatRole("tool")

  /** `ChatRole ==`: ordinal comparison of the names, ignoring case. */
  predicate SameRole(a: ChatRole, b: ChatRole) {
    EqualsIgnoreCase(a.value, b.value)
  }

  /**
   * Bedrock `ConversationRole`, an AWS constant class: `==` compares the values
   * ordinally, ignoring case.
   */
  datatype ConversationRole = ConversationRole(value: string)

  const ConversationAssistant := ConversationRole("assistant")
  const ConversationUser := ConversationRole("user")

  /** `ConversationRole ==`. */
  predicate SameConversationRole(a: ConversationRole, b: ConversationRole) {
    EqualsIgnoreCase(a.value, b.value)
  }

  /** Bedrock `StopReason`, an AWS constant class compared as `ConversationRole` is. */
  datatype StopReason = StopReason(value: string)

  const EndTurn := StopReason("end_turn")
  const ToolUse := StopReason("tool_use")
  const MaxTokens := StopReason("max_tokens")
  const StopSequence := StopReason("stop_sequence")
  const GuardrailIntervened := StopReason("guardrail_intervened")
  const ContentFiltered := StopReason("content_filtered")

  /** `StopReason ==`. */
  predicate SameStopReason(a: StopReason, b: StopReason) {
    EqualsIgnoreCase(a.value, b.value)
  }

  /**
   * Microsoft.Extensions.AI `ChatFinishReason`. Its constructor, like `ChatRole`'s,
   * refuses a null, empty or white-space value with an `ArgumentException`.
   */
  datatype ChatFinishReason = ChatFinishReason(value: string)

  const Stop := ChatFinishReason("stop")
  const Length := ChatFinishReason("length")
  const ToolCalls := ChatFinishReason("tool_calls")
  const ContentFilter := ChatFinishReason("content_filter")

  /** The Bedrock stop reasons that have a finish reason of their own. */
  predicate IsKnownStopReason(s: StopReason) {
    SameStopReason(s, MaxTokens) || SameStopReason(s, ToolUse) || SameStopReason(s, ContentFiltered)
    || SameStopReason(s, StopSequence) || SameStopReason(s, EndTurn)
  }

  /** `tool_use` and `end_turn`, the two known reasons of one length, differ in their first letter. */
  lemma ToolUseIsNotEndTurn(s: StopReason)
    ensures !(SameStopReason(s, ToolUse) && SameStopReason(s, EndTurn))
  {
    if SameStopReason(s, ToolUse) {
      assert AsciiLower(s.value[0]) == 't';
    }
  }

  /** A name equal to a known stop reason ignoring case starts with a letter, so it is not blank. */
  lemma KnownStopReasonNotBlank(s: StopReason)
    ensures IsKnownStopReason(s) ==> !IsBlank(s.value)
  {
    if IsKnownStopReason(s) {
      assert 'a' <= AsciiLower(s.value[0]) <= 'z';
    }
  }

  /** `ToChatFinishReason`: the four standard finish reasons, or a new one of the stop reason's name. */
  function ToChatFinishReason(stopReason: StopReason): (r: Result<ChatFinishReason>)
    ensures SameStopReason(stopReason, MaxTokens) ==> r == Ok(Length)
    ensures SameStopReason(stopReason, ToolUse) ==> r == Ok(ToolCalls)
    ensures SameStopReason(stopReason, ContentFiltered) ==> r == Ok(ContentFilter)
    ensures SameStopReason(stopReason, StopSequence) || SameStopReason(stopReason, EndTurn) ==> r == Ok(Stop)
    ensures !IsKnownStopReason(stopReason) && r.Ok? ==> r.value.value == stopReason.value
    ensures r.Err? <==> IsBlank(stopReason.value)
    ensures r.Err? ==> r.error == ArgumentError
  {
    ToolUseIsNotEndTurn(stopReason);
    KnownStopReasonNotBlank(stopReason);
    if SameStopReason(stopReason, MaxTokens) then Ok(Length)
    else if SameStopReason(stopReason, ToolUse) then Ok(ToolCalls)
    else if SameStopReason(stopReason, ContentFiltered) then Ok(ContentFilter)
    else if SameStopReason(stopReason, StopSequence) || SameStopReason(stopReason, EndTurn) then Ok(Stop)
    else if IsBlank(stopReason.value) then Err(ArgumentError)
    else Ok(ChatFinishReason(stopReason.value))
  }

  /** Guardrail interventions, which Bedrock also reports, are passed on by name. */
  lemma GuardrailFinishReason()
    ensures ToChatFinishReason(GuardrailIntervened) == Ok(ChatFinishReason("guardrail_intervened"))
  {
    assert !IsWhiteSpace(GuardrailIntervened.value[0]);
  }

  /**
   * Only the stop reasons with a finish reason of their own are turned into one of the
   * four standard finish reasons by the table; every other one keeps its name, or is
   * refused when it is blank.
   */
  lemma FinishReasonTable(s: StopReason)
    ensures IsKnownStopReason(s) <==>
      ToChatFinishReason(s).Ok? && ToChatFinishReason(s).value in {Length, ToolCalls, ContentFilter, Stop}
      && ToChatFinishReason(s).value.value != s.value
  {
  }

  /** Stop reasons whose names differ only in the case of letters get the same finish reason. */
  lemma FinishReasonIgnoresCase(a: StopReason, b: StopReason)
    requires SameStopReason(a, b) && IsKnownStopReason(a)
    ensures ToChatFinishReason(a) == ToChatFinishReason(b)
  {
    EqualsIgnoreCaseSymmetric(a.value, b.value);
    forall known | known in [MaxTokens, ToolUse, ContentFiltered, StopSequence, EndTurn]
      ensures SameStopReason(a, known) ==> SameStopReason(b, known)
    {
      if SameStopReason(a, known) {
        EqualsIgnoreCaseTransitive(b.value, a.value, known.value);
      }
    }
  }

  /** `ToChatRole`: the standard Assistant and User roles, or a new role of the same name. */
  function ToChatRole(role: ConversationRole): (r: Result<ChatRole>)
    ensures SameConversationRole(role, ConversationAssistant) ==> r == Ok(AssistantRole)
    ensures SameConversationRole(role, ConversationUser) ==> r == Ok(UserRole)
    ensures r.Err? ==> r.error == ArgumentError
  {
    if SameConversationRole(role, ConversationAssistant) then Ok(AssistantRole)
    else if SameConversationRole(role, ConversationUser) then Ok(UserRole)
    else if IsBlank(role.value) then Err(ArgumentError)
    else Ok(ChatRole(role.value))
  }

  /**
   * `ToChatRole` refuses exactly the blank names, and whichever branch it takes the chat
   * role has the conversation role's name, ignoring case; a name other than the two
   * standard ones is kept exactly.
   */
  lemma ToChatRolePreservesName(role: ConversationRole)
    ensures ToChatRole(role).Err? <==> IsBlank(role.value)
    ensures ToChatRole(role).Ok? ==> EqualsIgnoreCase(ToChatRole(role).value.value, role.value)
    ensures ToChatRole(role).Ok? ==>
      (!SameConversationRole(role, ConversationAssistant) && !SameConversationRole(role, ConversationUser)
       ==> ToChatRole(role).value.value == role.value)
    ensures ToChatRole(role).Ok? ==>
      (SameRole(ToChatRole(role).value, AssistantRole) <==> EqualsIgnoreCase(role.value, "assistant"))
  {
    var r := ToChatRole(role);
    if SameConversationRole(role, ConversationAssistant) || SameConversationRole(role, ConversationUser) {
      assert !IsWhiteSpace(role.value[0]);
      EqualsIgnoreCaseSymmetric(role.value, r.value.value);
    } else if r.Ok? {
      EqualsIgnoreCaseRefl(role.value);
    }
  }

  /** The conversation role a non-system message is sent with. */
  function ToConversationRole(role: ChatRole): (r: ConversationRole)
    ensures r == ConversationAssistant || r == ConversationUser
    ensures r == ConversationAssistant <==> SameRole(role, AssistantRole)
  {
    if SameRole(role, AssistantRole) then ConversationAssistant else ConversationUser
  }

  /** Tool messages and roles of any other name are sent as the user's. */
  lemma ToConversationRoleOthers(name: string)
    requires !EqualsIgnoreCase(name, "assistant")
    ensures ToConversationRole(ChatRole(name)) == ConversationUser
    ensures ToConversationRole(ToolRole) == ConversationUser
  {
    assert AsciiLower(ToolRole.value[0]) != AsciiLower(AssistantRole.value[0]);
  }

  // ----- Contents -----

  /** A JSON object as `Dictionary<string, object?>`. */
  type Arguments = map<string, Json.Value>

  /** An AWS `Document`; only the marshaller looks inside one. */
  datatype Document = Document(json: Json.Value)

  /**
   * The JSON and AWS `Document` conversions of the adapter (JsonExtension), which are
   * thin wrappers over System.Text.Json and the AWS document marshaller.
   */
  datatype Marshaller = Marshaller(
    /** `IDictionary.ToDocument`; a null dictionary gives the default document. */
    toDocument: Option<Arguments> -> Document,
    /**
     * `Document.DeserializeToDictionary`: null when the document writes nothing (or JSON
     * `null`), the exception of `JsonSerializer.Deserialize` (a `JsonException`) when what
     * it writes is not a JSON object.
     */
    toDictionary: Document -> Result<Option<Arguments>>,
    /**
     * `JsonSerializer.Deserialize<Dictionary<string, object?>>` of non-empty text: null
     * for the text `null`, a `JsonException` for text that is not a JSON object.
     */
    parseArguments: string -> Result<Option<Arguments>>)

  /** Token counts as Bedrock reports them. */
  datatype TokenUsage = TokenUsage(inputTokens: int, outputTokens: int, totalTokens: int)

  /** Token counts as Microsoft.Extensions.AI reports them. */
  datatype UsageDetails = UsageDetails(inputTokenCount: Option<int>, outputTokenCount: Option<int>, totalTokenCount: Option<int>)

  /** `ToUsageDetails`. */
  function ToUsageDetails(usage: Option<TokenUsage>): (r: Option<UsageDetails>)
    ensures r.Some? <==> usage.Some?
    ensures r.Some? ==> (r.value.inputTokenCount == Some(usage.value.inputTokens)
      && r.value.outputTokenCount == Some(usage.value.outputTokens)
      && r.value.totalTokenCount == Some(usage.value.totalTokens))
  {
    match usage
    case None => None
    case Some(u) => Some(UsageDetails(Some(u.inputTokens), Some(u.outputTokens), Some(u.totalTokens)))
  }

  /** The `Result` of a function call: null, a string, or an object the serializer may refuse. */
  datatype FunctionResult =
    | NullResult
    | StringResult(text: string)
    | ObjectResult(serialized: Option<string>)  // None: serialization throws NotSupportedException

  /** `SerializeResult`: a string as it is, an object serialized, otherwise the empty string. */
  function SerializeResult(result: FunctionResult): (r: string)
    ensures result.StringResult? ==> r == result.text
    ensures result.NullResult? ==> r == ""
    ensures result.ObjectResult? ==> r == result.serialized.GetOr("")
  {
    match result
    case NullResult => ""
    case StringResult(s) => s
    case ObjectResult(serialized) => serialized.GetOr("")
  }

  /** Microsoft.Extensions.AI `AIContent` and the subclasses the adapter handles. */
  datatype AIContent =
    | TextContent(text: string)
    | DataContent(data: seq<Byte>, mediaType: string)
    | FunctionCallContent(callId: string, name: string, arguments: Option<Arguments>)
    | FunctionResultContent(callId: string, result: FunctionResult, hasException: bool)
    | UsageContent(details: UsageDetails)
    | OtherContent(typeName: string)

  /** The text a content contributes to `ChatMessage.Text`. */
  function ContentText(c: AIContent): string {
    if c.TextContent? then c.text else ""
  }

  /** `DataContent.HasTopLevelMediaType`: the part before `/` names the type, ignoring case. */
  predicate HasTopLevelMediaType(mediaType: string, topLevel: string) {
    EqualsIgnoreCase(TopLevelType(mediaType), topLevel)
  }

  /** The part of a media type before its first `/`, or all of it. */
  function TopLevelType(mediaType: string): (r: string)
    ensures r <= mediaType
    ensures forall k :: 0 <= k < |r| ==> r[k] != '/'
    ensures |r| < |mediaType| ==> mediaType[|r|] == '/'
  {
    if mediaType == [] || mediaType[0] == '/' then [] else [mediaType[0]] + TopLevelType(mediaType[1..])
  }

  datatype MediaBlock = MediaBlock(bytes: seq<Byte>, format: string)
  datatype ToolUseBlock = ToolUseBlock(toolUseId: string, name: string, input: Document)
  datatype ToolResultStatus = StatusSuccess | StatusError
  datatype ToolResultBlock = ToolResultBlock(toolUseId: string, status: ToolResultStatus, content: seq<string>)

  /** Bedrock `ContentBlock`: a record whose members are all nullable. */
  datatype ContentBlock = ContentBlock(
    text: Option<string>,
    image: Option<MediaBlock>,
    document: Option<MediaBlock>,
    toolUse: Option<ToolUseBlock>,
    toolResult: Option<ToolResultBlock>)

  const EmptyBlock := ContentBlock(None, None, None, None, None)

  /** The .NET type name of a content, for the message of `NotSupportedException`. */
  function ContentTypeName(c: AIContent): string {
    match c
    case TextContent(_) => "Microsoft.Extensions.AI.TextContent"
    case DataContent(_, _) => "Microsoft.Extensions.AI.DataContent"
    case FunctionCallContent(_, _, _) => "Microsoft.Extensions.AI.FunctionCallContent"
    case FunctionResultContent(_, _, _) => "Microsoft.Extensions.AI.FunctionResultContent"
    case UsageContent(_) => "Microsoft.Extensions.AI.UsageContent"
    case OtherContent(name) => name
  }

  /** `FromAIContent`: one content of a request message as a Bedrock content block. */
  function FromAIContent(content: AIContent, m: Marshaller): (r: Result<ContentBlock>)
    ensures r.Err? <==>
      content.UsageContent? || content.OtherContent? ||
      (content.DataContent? && !HasTopLevelMediaType(content.mediaType, "image")
                            && !HasTopLevelMediaType(content.mediaType, "application"))
    ensures r.Err? ==> r.error == NotSupported("Unsupported content type: " + ContentTypeName(content))
    ensures content.FunctionResultContent? ==>
      r.Ok? && r.value.toolResult.Some? &&
      (r.value.toolResult.value.status == StatusError <==> content.hasException) &&
      r.value.toolResult.value.content == [SerializeResult(content.result)]
  {
    match content
    case TextContent(t) => Ok(EmptyBlock.(text := Some(t)))
    case DataContent(data, mediaType) =>
      if HasTopLevelMediaType(mediaType, "image") then Ok(EmptyBlock.(image := Some(MediaBlock(data, mediaType))))
      else if HasTopLevelMediaType(mediaType, "application") then Ok(EmptyBlock.(document := Some(MediaBlock(data, mediaType))))
      else Err(NotSupported("Unsupported content type: " + ContentTypeName(content)))
    case FunctionCallContent(callId, name, arguments) =>
      Ok(EmptyBlock.(toolUse := Some(ToolUseBlock(callId, name, m.toDocument(arguments)))))
    case FunctionResultContent(callId, result, hasException) =>
      var status := if hasException then StatusError else StatusSuccess;
      Ok(EmptyBlock.(toolResult := Some(ToolResultBlock(callId, status, [SerializeResult(result)]))))
    case _ => Err(NotSupported("Unsupported content type: " + ContentTypeName(content)))
  }

  /**
   * `ToAIContents`: a response block's text, then its tool use as a function call. The
   * caller collects the contents into a list, so when the tool use's input does not
   * deserialize the exception replaces the whole list.
   */
  function ToAIContents(block: ContentBlock, m: Marshaller): (r: Result<seq<AIContent>>)
    ensures r.Err? <==> block.toolUse.Some? && m.toDictionary(block.toolUse.value.input).Err?
    ensures r.Err? ==> r.error == m.toDictionary(block.toolUse.value.input).error
    ensures r.Ok? ==> |r.value| == (if block.text.Some? then 1 else 0) + (if block.toolUse.Some? then 1 else 0)
    ensures r.Ok? && block.text.Some? ==> r.value[0] == TextContent(block.text.value)
    ensures r.Ok? && block.toolUse.Some? ==>
      r.value[|r.value| - 1] == FunctionCallContent(block.toolUse.value.toolUseId, block.toolUse.value.name,
                                                    m.toDictionary(block.toolUse.value.input).value)
  {
    var text := if block.text.Some? then [TextContent(block.text.value)] else [];
    if block.toolUse.Some? then
      var u := block.toolUse.value;
      var arguments :- m.toDictionary(u.input);
      Ok(text + [FunctionCallContent(u.toolUseId, u.name, arguments)])
    else Ok(text)
  }

  /**
   * Text and function calls survive the trip to Bedrock blocks and back; a function
   * call's arguments do whenever the marshaller's two conversions undo each other.
   */
  lemma ContentRoundTrip(content: AIContent, m: Marshaller)
    requires content.TextContent? || content.FunctionCallContent?
    requires content.FunctionCallContent? ==> m.toDictionary(m.toDocument(content.arguments)) == Ok(content.arguments)
    ensures FromAIContent(content, m).Ok?
    ensures ToAIContents(FromAIContent(content, m).value, m) == Ok([content])
  {
    var none: seq<AIContent> := [];
    assert none + [content] == [content];
  }

  // ----- Request messages -----

  /** Microsoft.Extensions.AI `ChatMessage`. */
  datatype ChatMessage = ChatMessage(role: ChatRole, contents: seq<AIContent>)

  /** `ChatMessage.Text`: the texts of its text contents, concatenated. */
  function MessageText(contents: seq<AIContent>): string {
    if contents == [] then "" else ContentText(contents[0]) + MessageText(contents[1..])
  }

  datatype SystemContentBlock = SystemContentBlock(text: string)

  /** Bedrock `Message`. */
  datatype Message = Message(role: ConversationRole, content: seq<ContentBlock>)

  /** `[..contents.Select(FromAIContent)]`: converted in order; the first failure is thrown. */
  function FromAIContents(contents: seq<AIContent>, m: Marshaller): (r: Result<seq<ContentBlock>>)
    ensures r.Ok? <==> forall k :: 0 <= k < |contents| ==> FromAIContent(contents[k], m).Ok?
    ensures r.Ok? ==> (|r.value| == |contents| &&
      forall k :: 0 <= k < |contents| ==> r.value[k] == FromAIContent(contents[k], m).value)
  {
    if contents == [] then Ok([])
    else
      var first :- FromAIContent(contents[0], m);
      var rest :- FromAIContents(contents[1..], m);
      Ok([first] + rest)
  }

  /** The Bedrock message for a non-system chat message. */
  function ToMessage(message: ChatMessage, m: Marshaller): Result<Message> {
    var content :- FromAIContents(message.contents, m);
    Ok(Message(ToConversationRole(message.role), content))
  }

  /** What `ToRequestMessages` returns for `ms`: system blocks and messages, or the exception. */
  function RequestMessages(ms: seq<ChatMessage>, m: Marshaller): Result<(seq<SystemContentBlock>, seq<Message>)>
    decreases |ms|
  {
    if ms == [] then Ok(([], []))
    else
      var n := |ms| - 1;
      var prev :- RequestMessages(ms[..n], m);
      if SameRole(ms[n].role, SystemRole) then
        Ok((prev.0 + [SystemContentBlock(MessageText(ms[n].contents))], prev.1))
      else
        var message :- ToMessage(ms[n], m);
        Ok((prev.0, prev.1 + [message]))
  }

  /** Once a message is refused, so is every longer list that begins with it. */
  lemma {:induction false} RequestMessagesStaysFailed(ms: seq<ChatMessage>, m: Marshaller, i: nat)
    requires i <= |ms| && RequestMessages(ms[..i], m).Err?
    ensures RequestMessages(ms, m) == RequestMessages(ms[..i], m)
    decreases |ms| - i
  {
    if i < |ms| {
      assert ms[..i + 1][..i] == ms[..i];
      RequestMessagesStaysFailed(ms, m, i + 1);
    } else {
      assert ms[..i] == ms;
    }
  }

  /** `ToRequestMessages`: system messages apart, every other message converted, in order. */
  method ToRequestMessages(chatMessages: seq<ChatMessage>, m: Marshaller)
    returns (r: Result<(seq<SystemContentBlock>, seq<Message>)>)
    ensures r == RequestMessages(chatMessages, m)
  {
    var system: seq<SystemContentBlock> := [];
    var messages: seq<Message> := [];
    var i := 0;
    while i < |chatMessages|
      invariant 0 <= i <= |chatMessages|
      invariant RequestMessages(chatMessages[..i], m) == Ok((system, messages))
    {
      var chatMessage := chatMessages[i];
      assert chatMessages[..i + 1][..i] == chatMessages[..i];
      if SameRole(chatMessage.role, SystemRole) {
        system := system + [SystemContentBlock(MessageText(chatMessage.contents))];
      } else {
        var content := FromAIContents(chatMessage.contents, m);
        if content.Err? {
          RequestMessagesStaysFailed(chatMessages, m, i + 1);
          return Err(content.error);
        }
        messages := messages + [Message(ToConversationRole(chatMessage.role), content.value)];
      }
      i := i + 1;
    }
    assert chatMessages[..i] == chatMessages;
    return Ok((system, messages));
  }

  /** The system messages, in order. */
  function SystemMessages(ms: seq<ChatMessage>): seq<ChatMessage> {
    if ms == [] then []
    else (if SameRole(ms[0].role, SystemRole) then [ms[0]] else []) + SystemMessages(ms[1..])
  }

  /** The messages that are not system messages, in order. */
  function OtherMessages(ms: seq<ChatMessage>): seq<ChatMessage> {
    if ms == [] then []
    else (if SameRole(ms[0].role, SystemRole) then [] else [ms[0]]) + OtherMessages(ms[1..])
  }

  lemma {:induction false} SplitSnoc(ms: seq<ChatMessage>, x: ChatMessage)
    ensures SystemMessages(ms + [x]) == SystemMessages(ms) + (if SameRole(x.role, SystemRole) then [x] else [])
    ensures OtherMessages(ms + [x]) == OtherMessages(ms) + (if SameRole(x.role, SystemRole) then [] else [x])
  {
    if ms != [] {
      assert (ms + [x])[1..] == ms[1..] + [x];
      SplitSnoc(ms[1..], x);
    }
  }

  /**
   * When no content is refused, `system` holds the texts of the system messages and
   * `messages` the conversions of all the others, both in input order, and together they
   * account for every input message.
   */
  lemma {:induction false} RequestMessagesSplit(ms: seq<ChatMessage>, m: Marshaller)
    requires RequestMessages(ms, m).Ok?
    ensures var (system, messages) := RequestMessages(ms, m).value;
      && |system| == |SystemMessages(ms)|
      && |messages| == |OtherMessages(ms)|
      && |system| + |messages| == |ms|
      && (forall k :: 0 <= k < |system| ==> system[k].text == MessageText(SystemMessages(ms)[k].contents))
      && (forall k :: 0 <= k < |messages| ==> ToMessage(OtherMessages(ms)[k], m) == Ok(messages[k]))
    decreases |ms|
  {
    if ms != [] {
      var n := |ms| - 1;
      RequestMessagesSplit(ms[..n], m);
      SplitSnoc(ms[..n], ms[n]);
      assert ms[..n] + [ms[n]] == ms;
    }
  }

  /** `ToRequestMessages` throws exactly when some non-system message holds a content it cannot convert. */
  lemma {:induction false} RequestMessagesFails(ms: seq<ChatMessage>, m: Marshaller)
    ensures RequestMessages(ms, m).Err? <==>
      exists k, c :: 0 <= k < |ms| && !SameRole(ms[k].role, SystemRole) && 0 <= c < |ms[k].contents| &&
        FromAIContent(ms[k].contents[c], m).Err?
    decreases |ms|
  {
    if ms != [] {
      var n := |ms| - 1;
      RequestMessagesFails(ms[..n], m);
      forall k | 0 <= k < n ensures ms[..n][k] == ms[k] { }
    }
  }

  /** The role a message is sent with: Assistant for the assistant's, User for every other. */
  lemma RequestMessageRoles(ms: seq<ChatMessage>, m: Marshaller, k: nat)
    requires RequestMessages(ms, m).Ok?
    requires k < |RequestMessages(ms, m).value.1|
    ensures k < |OtherMessages(ms)|
    ensures var message := RequestMessages(ms, m).value.1[k];
      (message.role == ConversationAssistant <==> SameRole(OtherMessages(ms)[k].role, AssistantRole)) &&
      (message.role == ConversationUser <==> !SameRole(OtherMessages(ms)[k].role, AssistantRole))
  {
    RequestMessagesSplit(ms, m);
  }

  // ----- Options -----

  /** A value of `ChatOptions.AdditionalProperties`: a boxed `int`, or anything else. */
  datatype PropertyValue = IntValue(i: int) | OtherValue(json: Json.Value)

  /**
   * An `AdditionalPropertiesDictionary`, as its entries in enumeration order. Its keys
   * compare ordinally ignoring case, so no two of them are equal ignoring case.
   */
  type PropertyEntries = seq<(string, PropertyValue)>

  /** `TryGetValue(key)`: the value of the entry whose key equals `key` ignoring case. */
  function TryGetProperty(properties: PropertyEntries, key: string): (r: Option<PropertyValue>)
    ensures r.None? <==> forall k :: 0 <= k < |properties| ==> !EqualsIgnoreCase(properties[k].0, key)
    ensures r.Some? ==>
      exists k :: 0 <= k < |properties| && EqualsIgnoreCase(properties[k].0, key) && properties[k].1 == r.value
  {
    if properties == [] then None
    else if EqualsIgnoreCase(properties[0].0, key) then Some(properties[0].1)
    else TryGetProperty(properties[1..], key)
  }

  /** Keys that differ only in the case of letters find the same entry. */
  lemma {:induction false} TryGetPropertyIgnoresCase(properties: PropertyEntries, key: string, other: string)
    requires EqualsIgnoreCase(key, other)
    ensures TryGetProperty(properties, key) == TryGetProperty(properties, other)
  {
    if properties != [] {
      var first := properties[0].0;
      if EqualsIgnoreCase(first, key) {
        EqualsIgnoreCaseTransitive(first, key, other);
      } else if EqualsIgnoreCase(first, other) {
        EqualsIgnoreCaseSymmetric(key, other);
        EqualsIgnoreCaseTransitive(first, other, key);
      }
      TryGetPropertyIgnoresCase(properties[1..], key, other);
    }
  }

  /** Microsoft.Extensions.AI `AITool`. */
  datatype AITool =
    | AIFunction(name: string, description: string, jsonSchema: map<string, Json.Value>)
    | OtherTool(toolName: string)

  /** Microsoft.Extensions.AI `ChatToolMode`. */
  datatype ChatToolMode = AutoMode | NoneMode | RequiredMode(requiredFunctionName: Option<string>)

  /** Microsoft.Extensions.AI `ChatOptions`, without the floating-point sampling settings. */
  datatype ChatOptions = ChatOptions(
    modelId: Option<string>,
    maxOutputTokens: Option<int>,
    stopSequences: Option<seq<string>>,
    additionalProperties: Option<PropertyEntries>,
    tools: Option<seq<AITool>>,
    toolMode: Option<ChatToolMode>)

  /** `options?.ModelId ?? defaultModelId`: the model a request names. */
  function RequestModelId(options: Option<ChatOptions>, defaultModelId: string): (r: string)
    ensures options.Some? && options.value.modelId.Some? ==> r == options.value.modelId.value
    ensures options.None? || options.value.modelId.None? ==> r == defaultModelId
  {
    if options.Some? && options.value.modelId.Some? then options.value.modelId.value else defaultModelId
  }

  /** Bedrock `InferenceConfiguration`, without temperature and top-p. */
  datatype InferenceConfiguration = InferenceConfiguration(maxTokens: Option<int>, stopSequences: seq<string>)

  /** The token limit Anthropic uses when the options set none. */
  const DefaultMaxTokens := 1024

  /** The `max_tokens_to_sample` additional property, under a key of any case, when it is a boxed `int`. */
  function MaxTokensToSample(options: Option<ChatOptions>): Option<int> {
    if options.Some? && options.value.additionalProperties.Some? then
      var value := TryGetProperty(options.value.additionalProperties.value, "max_tokens_to_sample");
      if value.Some? && value.value.IntValue? then Some(value.value.i) else None
    else None
  }

  /**
   * `GetInferenceConfiguration`: the token limit is always set, from `max_tokens_to_sample`,
   * else from `MaxOutputTokens`, else 1024; the stop sequences are a copy of the options'.
   */
  method GetInferenceConfiguration(options: Option<ChatOptions>) returns (config: InferenceConfiguration)
    ensures config.maxTokens.Some?
    ensures MaxTokensToSample(options).Some? ==> config.maxTokens == MaxTokensToSample(options)
    ensures MaxTokensToSample(options).None? && options.Some? && options.value.maxOutputTokens.Some? ==>
      config.maxTokens == options.value.maxOutputTokens
    ensures MaxTokensToSample(options).None? && (options.None? || options.value.maxOutputTokens.None?) ==>
      config.maxTokens == Some(DefaultMaxTokens)
    ensures config.stopSequences ==
      if options.Some? && options.value.stopSequences.Some? then options.value.stopSequences.value else []
  {
    var maxTokens := if options.Some? then options.value.maxOutputTokens else None;
    var stopSequences := if options.Some? && options.value.stopSequences.Some? then options.value.stopSequences.value else [];
    config := InferenceConfiguration(maxTokens, stopSequences);
    if options.Some? && options.value.additionalProperties.Some? {
      var value := TryGetProperty(options.value.additionalProperties.value, "max_tokens_to_sample");
      if value.Some? && value.value.IntValue? {
        config := config.(maxTokens := Some(value.value.i));
      }
    }
    if config.maxTokens.None? {
      config := config.(maxTokens := Some(DefaultMaxTokens));
    }
  }

  // ----- Tools -----

  /** `options is { Tools.Count: > 0 }`. */
  predicate HasTools(options: Option<ChatOptions>) {
    options.Some? && options.value.tools.Some? && |options.value.tools.value| > 0
  }

  /** The `tool_choice` entry of the additional request fields. */
  datatype ToolChoice = ToolChoice(kind: string, name: Option<string>)

  /** The additional model request fields document: at most a `tool_choice`. */
  datatype AdditionalRequestFields = AdditionalRequestFields(toolChoice: Option<ToolChoice>)

  /** `GetTollChoice` (so spelled in the source). */
  function GetToolChoice(options: Option<ChatOptions>): (r: AdditionalRequestFields)
    ensures r.toolChoice.Some? <==>
      HasTools(options) && options.value.toolMode.Some? && options.value.toolMode.value.RequiredMode?
    ensures r.toolChoice.Some? ==>
      var required := options.value.toolMode.value.requiredFunctionName;
      && (r.toolChoice.value.kind == "any" <==> required.None?)
      && (r.toolChoice.value.kind == "tool" <==> required.Some?)
      && r.toolChoice.value.name == required
  {
    if HasTools(options) && options.value.toolMode.Some? && options.value.toolMode.value.RequiredMode? then
      var required := options.value.toolMode.value.requiredFunctionName;
      AdditionalRequestFields(Some(ToolChoice(if required.None? then "any" else "tool", required)))
    else
      AdditionalRequestFields(None)
  }

  /** The JSON-schema keywords passed on to Bedrock. */
  predicate IsSchemaKeyword(name: string) {
    name == "type" || name == "properties" || name == "required"
  }

  /** Bedrock `Tool` with its `ToolSpecification`. */
  datatype Tool = ToolSpec(name: string, description: string, inputSchema: map<string, Json.Value>)

  datatype ToolConfiguration = ToolConfiguration(tools: seq<Tool>)

  /** `FromAIFunction`: name and description carried, the schema cut down to three keywords. */
  function FromAIFunction(f: AITool): (r: Tool)
    requires f.AIFunction?
    ensures r.name == f.name && r.description == f.description
    ensures forall k :: k in r.inputSchema <==> k in f.jsonSchema && IsSchemaKeyword(k)
    ensures forall k :: k in r.inputSchema ==> r.inputSchema[k] == f.jsonSchema[k]
  {
    ToolSpec(f.name, f.description, map k | k in f.jsonSchema && IsSchemaKeyword(k) :: f.jsonSchema[k])
  }

  /** `Tools.OfType<AIFunction>().Select(FromAIFunction)`. */
  function FunctionTools(tools: seq<AITool>): (r: seq<Tool>)
    ensures |r| <= |tools|
  {
    if tools == [] then []
    else (if tools[0].AIFunction? then [FromAIFunction(tools[0])] else []) + FunctionTools(tools[1..])
  }

  /** `GetToolConfiguration`: null unless there are tools; then one Bedrock tool per AI function. */
  function GetToolConfiguration(options: Option<ChatOptions>): (r: Option<ToolConfiguration>)
    ensures r.None? <==> !HasTools(options)
    ensures r.Some? ==> r.value.tools == FunctionTools(options.value.tools.value)
  {
    if HasTools(options) then Some(ToolConfiguration(FunctionTools(options.value.tools.value))) else None
  }

  /** Every AI function among the tools becomes a Bedrock tool. */
  lemma {:induction false} FunctionToolsSpec(tools: seq<AITool>, k: nat)
    requires k < |tools| && tools[k].AIFunction?
    ensures FromAIFunction(tools[k]) in FunctionTools(tools)
  {
    if k > 0 {
      FunctionToolsSpec(tools[1..], k - 1);
    }
  }

  /** Every Bedrock tool listed comes from an AI function among the tools. */
  lemma {:induction false} FunctionToolsSound(tools: seq<AITool>, t: Tool)
    requires t in FunctionTools(tools)
    ensures exists k :: 0 <= k < |tools| && tools[k].AIFunction? && t == FromAIFunction(tools[k])
  {
    var first := if tools[0].AIFunction? then [FromAIFunction(tools[0])] else [];
    if t !in first {
      FunctionToolsSound(tools[1..], t);
      var k :| 0 <= k < |tools[1..]| && tools[1..][k].AIFunction? && t == FromAIFunction(tools[1..][k]);
      assert tools[k + 1] == tools[1..][k];
    }
  }

  /** The tools are converted in order: the list for `a + b` is the list for `a`, then the one for `b`. */
  lemma {:induction false} FunctionToolsAppend(a: seq<AITool>, b: seq<AITool>)
    ensures FunctionTools(a + b) == FunctionTools(a) + FunctionTools(b)
  {
    if a == [] {
      assert a + b == b;
    } else {
      var first := if a[0].AIFunction? then [FromAIFunction(a[0])] else [];
      assert (a + b)[0] == a[0] && (a + b)[1..] == a[1..] + b;
      FunctionToolsAppend(a[1..], b);
      calc {
        FunctionTools(a + b);
        first + FunctionTools(a[1..] + b);
        first + (FunctionTools(a[1..]) + FunctionTools(b));
        (first + FunctionTools(a[1..])) + FunctionTools(b);
      }
    }
  }

  /** Only AI functions contribute: a tool list without one gives an empty configuration. */
  lemma {:induction false} FunctionToolsNone(tools: seq<AITool>)
    requires forall k :: 0 <= k < |tools| ==> !tools[k].AIFunction?
    ensures FunctionTools(tools) == []
  {
    if tools != [] {
      FunctionToolsNone(tools[1..]);
    }
  }
}
