# StormHub core logic in Dafny

StormHub is a collection of .NET console demos for Microsoft.Extensions.AI, Semantic
Kernel, Kernel Memory and the Model Context Protocol. Most of it is glue around vendor
SDKs. This project models the parts that hold logic of their own and proves what they
promise:

- **Cosmos DB memory records** (`AzureCosmosDbMemoryRecord`, modules
  `AzureCosmosDbMemoryRecord`, `Utf8`, `Base64`). The record id codec is UTF-8, then
  Base64 (section 4 of RFC 4648, with `=` padding per section 3.2), then `=` replaced
  by `_`. Decoding is the reverse and uses .NET's lenient Base64 decoder and its
  replacement-character UTF-8 decoder. The module also covers the column list of
  queries and the mapping to and from Kernel Memory's `MemoryRecord`.
- **The tag-filter WHERE clause** (`AzureCosmosDbMemory.WithTags`, module
  `AzureCosmosDbMemory`). It is an imperative builder, proved against a specification
  of the clause text and the parameter list. The builder's ` AND ` separator depends on
  the pair index, not on whether an earlier term was written. The model keeps that
  behaviour as is.
- **The Bedrock adapter for Anthropic models** (`AnthropicChatClient`, modules
  `AnthropicChatClient` and `AnthropicStreaming`). It covers the mapping tables, the
  conversion of request messages and contents, the inference configuration, tool choice
  and tool configuration. It also covers the event loop of the streaming response, as
  a method over a sequence of stream events proved against a fold.
- **The fact evaluator** (`FactEvaluator`, module `FactEvaluator`). This covers checking
  the ideal answer, assembling the prompt, and grading the letter the model returns.
  Grading changes an `EvaluationResult` object in place.
- **Prompt-template adapters** (`TemplateAIFunction`, `TemplateServerPrompt`, with the
  Semantic Kernel types they use in module `SemanticKernel`). These cover the schema and
  argument lists built from a template's input variables. Arguments are copied into
  `KernelArguments`, whose keys compare ignoring case (ASCII letters only in this model,
  see below).

Foreign conversions are values the model receives:
- JSON serialization, AWS `Document` marshalling and template rendering are
  function-typed fields (`Marshaller`, `PromptTemplate.render`).
- `AIJsonUtilities.CreateJsonSchema` is represented by the arguments it receives
  (`PropertySchema`).
- Kernel Memory's `GetFileId` is a parameter of `FromMemoryRecord`.

## Model

| member | source | states |
|---|---|---|
| Utf8.EncodeChar | resources/2024-11-27/ConsoleApp/ConsoleApp/AzureCosmosDbMemoryRecord.cs:93 | a character encodes to 1 to 4 bytes, one byte exactly for ASCII, with continuation bytes after the first |
| Utf8.DecodeEncode | resources/2024-11-27/ConsoleApp/ConsoleApp/AzureCosmosDbMemoryRecord.cs:93-100 | UTF-8 decoding of the UTF-8 encoding of any string gives the string back |
| Base64.Encode | resources/2024-11-27/ConsoleApp/ConsoleApp/AzureCosmosDbMemoryRecord.cs:94 | the encoding of n bytes has 4·⌈n/3⌉ characters |
| Base64.EncodeShape | resources/2024-11-27/ConsoleApp/ConsoleApp/AzureCosmosDbMemoryRecord.cs:94 | every character is from the alphabet or `=`, and `=` fills exactly the last PadCount(n) positions |
| Base64.DecodeEncode | resources/2024-11-27/ConsoleApp/ConsoleApp/AzureCosmosDbMemoryRecord.cs:94-99 | decoding an encoding returns the original bytes |
| Base64.DecodeRejectsForeignChar | resources/2024-11-27/ConsoleApp/ConsoleApp/AzureCosmosDbMemoryRecord.cs:99 | text with a character that is neither alphabet, `=` nor whitespace fails to decode (FormatException) |
| AzureCosmosDbMemoryRecord.Replace | resources/2024-11-27/ConsoleApp/ConsoleApp/AzureCosmosDbMemoryRecord.cs:94-99 | character replacement keeps the length and changes exactly the occurrences of the replaced character |
| AzureCosmosDbMemoryRecord.DecodeEncodeId | resources/2024-11-27/ConsoleApp/ConsoleApp/AzureCosmosDbMemoryRecord.cs:91-101 | `DecodeId(EncodeId(id))` succeeds and returns `id`, for every string |
| AzureCosmosDbMemoryRecord.EncodeIdShape | resources/2024-11-27/ConsoleApp/ConsoleApp/AzureCosmosDbMemoryRecord.cs:91-95 | an encoded id has no `=`, its length is 4·⌈n/3⌉ for n UTF-8 bytes, and `_` appears only in the last two positions and only when n is not a multiple of 3 |
| AzureCosmosDbMemoryRecord.DecodeIdRejectsForeignChar | resources/2024-11-27/ConsoleApp/ConsoleApp/AzureCosmosDbMemoryRecord.cs:97-101 | an id with a character outside the alphabet, `_`, `=` and whitespace does not decode |
| AzureCosmosDbMemoryRecord.GetColumnsOrder | resources/2024-11-27/ConsoleApp/ConsoleApp/AzureCosmosDbMemoryRecord.cs:41-54 | the columns are id, file, tags, [embedding], payload, in that order |
| AzureCosmosDbMemoryRecord.GetColumnsQualified | resources/2024-11-27/ConsoleApp/ConsoleApp/AzureCosmosDbMemoryRecord.cs:52 | with a non-empty alias each column is `alias.name`; with a null or empty alias it is the bare field name |
| AzureCosmosDbMemoryRecord.GetColumnsEmbedding | resources/2024-11-27/ConsoleApp/ConsoleApp/AzureCosmosDbMemoryRecord.cs:46-50 | the embedding column is listed iff embeddings are asked for; 5 columns with it, 4 without |
| AzureCosmosDbMemoryRecord.ColumnsText | resources/2024-11-27/ConsoleApp/ConsoleApp/AzureCosmosDbMemoryRecord.cs:38-39 | `Columns` is the column list joined by `,` with no spaces |
| AzureCosmosDbMemoryRecord.ToFromMemoryRecord | resources/2024-11-27/ConsoleApp/ConsoleApp/AzureCosmosDbMemoryRecord.cs:56-89 | converting a memory record to a Cosmos record and back with embeddings gives the same id, payload, tags and vector |
| AzureCosmosDbMemoryRecord.ToFromMemoryRecordWithoutEmbedding | resources/2024-11-27/ConsoleApp/ConsoleApp/AzureCosmosDbMemoryRecord.cs:56-72 | without embeddings the round trip keeps id, payload and tags and leaves the vector at its default |
| AzureCosmosDbMemoryRecord.PartitionKeyIsFile | resources/2024-11-27/ConsoleApp/ConsoleApp/AzureCosmosDbMemoryRecord.cs:36 | the partition key of a stored record is its file id |
| AzureCosmosDbMemory.AppendGroup | resources/2024-11-27/ConsoleApp/ConsoleApp/AzureCosmosDbMemory.cs:211-227 | the inner loop appends one filter's text and parameters, as the specification functions define them |
| AzureCosmosDbMemory.WithTags | resources/2024-11-27/ConsoleApp/ConsoleApp/AzureCosmosDbMemory.cs:191-232 | the clause and parameters equal the specification; no filters or an empty list give an empty clause and no parameters |
| AzureCosmosDbMemory.ParamNameInjective | resources/2024-11-27/ConsoleApp/ConsoleApp/AzureCosmosDbMemory.cs:226 | different (i, j) give different `@filter_i_j_value` names |
| AzureCosmosDbMemory.ParameterEmittedIff | resources/2024-11-27/ConsoleApp/ConsoleApp/AzureCosmosDbMemory.cs:211-227 | parameter `@filter_i_j_value` with value v is emitted iff pair j of filter i exists and has value v; null values emit nothing |
| AzureCosmosDbMemory.ParametersOrderedDistinct | resources/2024-11-27/ConsoleApp/ConsoleApp/AzureCosmosDbMemory.cs:202-227 | parameter names are pairwise distinct and follow (i, j) order |
| AzureCosmosDbMemory.ParameterCount | resources/2024-11-27/ConsoleApp/ConsoleApp/AzureCosmosDbMemory.cs:211-227 | the number of parameters is the number of pairs with a non-null value |
| AzureCosmosDbMemory.WhereClauseBrackets | resources/2024-11-27/ConsoleApp/ConsoleApp/AzureCosmosDbMemory.cs:200-230 | a non-empty filter list gives a clause starting `WHERE ( ` and ending ` )` |
| AzureCosmosDbMemory.ClauseBodyJoin | resources/2024-11-27/ConsoleApp/ConsoleApp/AzureCosmosDbMemory.cs:202-209 | the body is the filters' texts joined by ` OR `, one separator before every filter after the first, even one that emits no term |
| AzureCosmosDbMemory.GroupTextEmptyIff | resources/2024-11-27/ConsoleApp/ConsoleApp/AzureCosmosDbMemory.cs:214-217 | a filter contributes no text iff all its values are null |
| AzureCosmosDbMemory.GroupTextFirstTerm | resources/2024-11-27/ConsoleApp/ConsoleApp/AzureCosmosDbMemory.cs:219-222 | the first written term of a filter is preceded by ` AND ` whenever its index j is positive, even though no term was written before it |
| AzureCosmosDbMemory.ParameterNamedInClause | resources/2024-11-27/ConsoleApp/ConsoleApp/AzureCosmosDbMemory.cs:224-226 | every parameter's name occurs in the clause |
| AzureCosmosDbMemory.SlotsSound | resources/2024-11-27/ConsoleApp/ConsoleApp/AzureCosmosDbMemory.cs:224-226 | the k-th parameter is `ARRAY_CONTAINS`'s parameter for a distinct (i, j) pair with a value, in (i, j) order |
| AnthropicChatClient.ToChatFinishReason | resources/2025-04-02/ConsoleApp/ConsoleApp/AnthropicChatClient.cs:327-340 | stop reasons compare ignoring case: max_tokens → length, tool_use → tool_calls, content_filtered → content_filter, stop_sequence and end_turn → stop; any other reason becomes a finish reason of its exact name; a blank name, and only that, is refused with an `ArgumentException` |
| AnthropicChatClient.FinishReasonIgnoresCase | resources/2025-04-02/ConsoleApp/ConsoleApp/AnthropicChatClient.cs:329-337 | two stop reasons whose names differ only in letter case get the same finish reason when one of them is a known reason |
| AnthropicChatClient.FinishReasonTable | resources/2025-04-02/ConsoleApp/ConsoleApp/AnthropicChatClient.cs:327-340 | exactly the reasons equal to one of the five known ones ignoring case are translated to a standard finish reason of another name |
| AnthropicChatClient.GuardrailFinishReason | resources/2025-04-02/ConsoleApp/ConsoleApp/AnthropicChatClient.cs:339 | guardrail_intervened passes through as a finish reason of that name |
| AnthropicChatClient.ToChatRole | resources/2025-04-02/ConsoleApp/ConsoleApp/AnthropicChatClient.cs:352-357 | roles compare ignoring case: assistant → Assistant, user → User; a refusal is an `ArgumentException` |
| AnthropicChatClient.ToChatRolePreservesName | resources/2025-04-02/ConsoleApp/ConsoleApp/AnthropicChatClient.cs:352-357 | a role is refused exactly when its name is blank; otherwise the chat role has the conversation role's name ignoring case, and exactly that name when it is neither assistant nor user; the result equals Assistant iff the name is "assistant" ignoring case |
| AnthropicChatClient.ToConversationRole | resources/2025-04-02/ConsoleApp/ConsoleApp/AnthropicChatClient.cs:198-200 | a non-system message becomes Assistant iff its role equals Assistant, User otherwise |
| AnthropicChatClient.ToConversationRoleOthers | resources/2025-04-02/ConsoleApp/ConsoleApp/AnthropicChatClient.cs:198-200 | Tool and every custom role map to User |
| AnthropicChatClient.ToUsageDetails | resources/2025-04-02/ConsoleApp/ConsoleApp/AnthropicChatClient.cs:342-350 | usage details exist iff usage does, with the same input, output and total counts |
| AnthropicChatClient.SerializeResult | resources/2025-04-02/ConsoleApp/ConsoleApp/JsonExtension.cs:37-53 | a string result is used as is, a null result and an unserializable one give the empty string |
| AnthropicChatClient.TopLevelType | resources/2025-04-02/ConsoleApp/ConsoleApp/AnthropicChatClient.cs:228-240 | the top-level media type is the longest prefix without `/` |
| AnthropicChatClient.FromAIContent | resources/2025-04-02/ConsoleApp/ConsoleApp/AnthropicChatClient.cs:220-281 | conversion fails with "Unsupported content type: …" exactly for usage, other contents and data that is neither image nor application; a function result becomes a tool result whose status is Error iff it carries an exception |
| AnthropicChatClient.ToAIContents | resources/2025-04-02/ConsoleApp/ConsoleApp/AnthropicChatClient.cs:209-218 | a block yields its text, then its tool use as a function call with the same id and name and the deserialized input, each only when present; the conversion throws the deserializer's exception iff the tool use's input does not deserialize |
| AnthropicChatClient.ContentRoundTrip | resources/2025-04-02/ConsoleApp/ConsoleApp/AnthropicChatClient.cs:209-260 | text and function-call contents survive conversion to a block and back, given the document conversions invert |
| AnthropicChatClient.FromAIContents | resources/2025-04-02/ConsoleApp/ConsoleApp/AnthropicChatClient.cs:201 | a message's contents convert iff each does, one block per content in order |
| AnthropicChatClient.ToRequestMessages | resources/2025-04-02/ConsoleApp/ConsoleApp/AnthropicChatClient.cs:185-207 | the loop produces the fold `RequestMessages`, stopping at the first content that throws |
| AnthropicChatClient.RequestMessagesSplit | resources/2025-04-02/ConsoleApp/ConsoleApp/AnthropicChatClient.cs:185-207 | system messages become system blocks of their text, in order; all others become messages, in order; the two lengths sum to the input length |
| AnthropicChatClient.RequestMessagesFails | resources/2025-04-02/ConsoleApp/ConsoleApp/AnthropicChatClient.cs:189-203 | the conversion throws iff some non-system message holds an unsupported content |
| AnthropicChatClient.RequestMessageRoles | resources/2025-04-02/ConsoleApp/ConsoleApp/AnthropicChatClient.cs:198-200 | the k-th message is Assistant iff the k-th non-system message's role is Assistant, User otherwise |
| AnthropicChatClient.RequestModelId | resources/2025-04-02/ConsoleApp/ConsoleApp/AnthropicChatClient.cs:34 | the request uses the options' model id, or the client's default when there is none |
| AnthropicChatClient.TryGetProperty | resources/2025-04-02/ConsoleApp/ConsoleApp/AnthropicChatClient.cs:369 | an additional property is found iff some key equals the one asked for ignoring case, and the value found is that entry's |
| AnthropicChatClient.TryGetPropertyIgnoresCase | resources/2025-04-02/ConsoleApp/ConsoleApp/AnthropicChatClient.cs:369 | keys that differ only in letter case find the same value, so `Max_Tokens_To_Sample` is read as `max_tokens_to_sample` |
| AnthropicChatClient.GetInferenceConfiguration | resources/2025-04-02/ConsoleApp/ConsoleApp/AnthropicChatClient.cs:359-375 | max tokens is always set: an int `max_tokens_to_sample` (under a key of any case) wins, then `MaxOutputTokens`, then 1024; stop sequences are the options' list or empty |
| AnthropicChatClient.GetToolChoice | resources/2025-04-02/ConsoleApp/ConsoleApp/AnthropicChatClient.cs:284-296 | `tool_choice` is present iff there are tools and the mode is Required; its type is "any" iff no function is named, "tool" otherwise, and it carries the name |
| AnthropicChatClient.FromAIFunction | resources/2025-04-02/ConsoleApp/ConsoleApp/AnthropicChatClient.cs:312-325 | a tool spec keeps the function's name and description and exactly the `type`, `properties` and `required` keys of its schema |
| AnthropicChatClient.GetToolConfiguration | resources/2025-04-02/ConsoleApp/ConsoleApp/AnthropicChatClient.cs:298-310 | the tool configuration is null iff there are no tools; otherwise it lists the function tools |
| AnthropicChatClient.FunctionToolsSpec | resources/2025-04-02/ConsoleApp/ConsoleApp/AnthropicChatClient.cs:305 | every function among the tools is listed |
| AnthropicChatClient.FunctionToolsSound | resources/2025-04-02/ConsoleApp/ConsoleApp/AnthropicChatClient.cs:305 | every listed tool is the conversion of a function among the tools, so other tools are dropped |
| AnthropicChatClient.FunctionToolsAppend | resources/2025-04-02/ConsoleApp/ConsoleApp/AnthropicChatClient.cs:305 | the list for two tool lists is the list for the first followed by the list for the second: the tools' order is kept |
| AnthropicChatClient.FunctionToolsNone | resources/2025-04-02/ConsoleApp/ConsoleApp/AnthropicChatClient.cs:305 | tools none of which is a function give an empty list |
| AnthropicStreaming.DeserializeArguments | resources/2025-04-02/ConsoleApp/ConsoleApp/JsonExtension.cs:55-65 | an absent or empty argument buffer gives an empty dictionary, as does text that parses to null; text the serializer refuses makes it throw the serializer's exception |
| AnthropicStreaming.HandleEvent | resources/2025-04-02/ConsoleApp/ConsoleApp/AnthropicChatClient.cs:89-181 | one pass of the loop body gives the loop variables, the updates and the exception that the step function `Step` states |
| AnthropicStreaming.StreamingUpdates | resources/2025-04-02/ConsoleApp/ConsoleApp/AnthropicChatClient.cs:82-182 | the loop yields the updates of the fold `Run` and ends with the fold's exception, if it has one; `Run` sets the role on the first event, whatever its kind |
| AnthropicStreaming.StepFailure | resources/2025-04-02/ConsoleApp/ConsoleApp/AnthropicChatClient.cs:89-181 | an event throws exactly when: it is a message start that is the first event (the role not yet set) and its role is null (NullReferenceException) or blank (ArgumentException); it starts a block with an index but no tool use, or is a delta without a body (NullReferenceException); it stops a tool-use block whose arguments do not deserialize; or it is the first message stop and its stop reason is null or blank, or its response fields do not deserialize or repeat a key ignoring case; a throwing event yields nothing |
| AnthropicStreaming.ResponsePropertiesFailure | resources/2025-04-02/ConsoleApp/ConsoleApp/AnthropicChatClient.cs:158-163 | the response fields are refused iff they do not deserialize or hold two keys equal ignoring case; otherwise they are the deserialized dictionary or null |
| AnthropicStreaming.FirstFailure | resources/2025-04-02/ConsoleApp/ConsoleApp/AnthropicChatClient.cs:87-182 | a stream that throws ends at its first throwing event: the events before it were handled, its exception is the stream's, and the updates are those yielded before it |
| AnthropicStreaming.RunStaysFailed | resources/2025-04-02/ConsoleApp/ConsoleApp/AnthropicChatClient.cs:87-99 | once an event throws, later events change nothing |
| AnthropicStreaming.SettledStays | resources/2025-04-02/ConsoleApp/ConsoleApp/AnthropicChatClient.cs:89-157 | a role or finish reason once set never changes |
| AnthropicStreaming.UnsetBefore | resources/2025-04-02/ConsoleApp/ConsoleApp/AnthropicChatClient.cs:82-157 | the role is null exactly until an event has been handled, which only a first message start that throws prevents (`role ??=` runs on every event); with no message stop the finish reason stays null |
| AnthropicStreaming.RoleFixedByFirstEvent | resources/2025-04-02/ConsoleApp/ConsoleApp/AnthropicChatClient.cs:89 | the first event fixes the role for the rest of the stream: the translated role of a message start, `default(ChatRole)` (a role whose value is null) for any other event; a first message start whose translation throws ends the stream with nothing yielded |
| AnthropicStreaming.LaterMessageStartIgnored | resources/2025-04-02/ConsoleApp/ConsoleApp/AnthropicChatClient.cs:89 | once the role is set, a message start neither changes the state, nor yields, nor throws |
| AnthropicStreaming.FinishReasonFixedByFirstMessageStop | resources/2025-04-02/ConsoleApp/ConsoleApp/AnthropicChatClient.cs:157 | when the first message stop is handled, its stop reason is present and translates, and the finish reason is that translation |
| AnthropicStreaming.StepToolUse | resources/2025-04-02/ConsoleApp/ConsoleApp/AnthropicChatClient.cs:93-129 | a start registers a fresh tool use at its index; other events keep the registered indices and append non-empty input to that index's buffer |
| AnthropicStreaming.ToolUseArguments | resources/2025-04-02/ConsoleApp/ConsoleApp/AnthropicChatClient.cs:93-129 | a block's argument buffer is the concatenation of its non-empty tool-use inputs since its latest start, in order |
| AnthropicStreaming.ToolUseRegistered | resources/2025-04-02/ConsoleApp/ConsoleApp/AnthropicChatClient.cs:93-101 | an index has a tool use iff some start event named it |
| AnthropicStreaming.StopYieldsCallIffRegistered | resources/2025-04-02/ConsoleApp/ConsoleApp/AnthropicChatClient.cs:133-153 | a block stop throws iff its index holds a tool use whose arguments do not deserialize; otherwise it yields one function call, with the tool use's id, name and parsed arguments, iff its index is registered, and nothing otherwise |
| AnthropicStreaming.StopWithoutStartYieldsNothing | resources/2025-04-02/ConsoleApp/ConsoleApp/AnthropicChatClient.cs:133-135 | a stop for an index no earlier start named yields no update |
| AnthropicStreaming.TextDeltasYieldTextUpdates | resources/2025-04-02/ConsoleApp/ConsoleApp/AnthropicChatClient.cs:105-116 | the texts of the yielded text updates are exactly the texts of the text deltas, in order, one each |
| AnthropicStreaming.UpdatesNameModel | resources/2025-04-02/ConsoleApp/ConsoleApp/AnthropicChatClient.cs:108-178 | every update names the request's model and carries a role |
| FactEvaluator.FirstExpert | resources/2024-12-05/ConsoleApp/ConsoleApp.Hosting/FactEvaluator.cs:22 | the context found is an expert from the list; none is found iff the list has no expert |
| FactEvaluator.FirstExpertIsFirst | resources/2024-12-05/ConsoleApp/ConsoleApp.Hosting/FactEvaluator.cs:22 | the context found is the first expert |
| FactEvaluator.RenderEvaluationPrompt | resources/2024-12-05/ConsoleApp/ConsoleApp.Hosting/FactEvaluator.cs:14-62 | rendering fails with "Ideal answer required in the additional context." iff there is no expert or its ideal answer is empty |
| FactEvaluator.OnlyFirstExpertUsed | resources/2024-12-05/ConsoleApp/ConsoleApp.Hosting/FactEvaluator.cs:21-25 | experts after the first do not affect the prompt |
| FactEvaluator.PromptLayout | resources/2024-12-05/ConsoleApp/ConsoleApp.Hosting/FactEvaluator.cs:32-48 | the prompt holds, right after its preamble, the data block with question, expert and submission in that order between `[BEGIN DATA]` and `[END DATA]`; a missing request or response text is empty |
| FactEvaluator.RatingOf | resources/2024-12-05/ConsoleApp/ConsoleApp.Hosting/FactEvaluator.cs:84-91 | no response is rated Unknown or Poor |
| FactEvaluator.RatingTable | resources/2024-12-05/ConsoleApp/ConsoleApp.Hosting/FactEvaluator.cs:84-91 | A → Average, B → Good, C → Exceptional, D → Unacceptable, E → Exceptional; a response is conclusive iff it is exactly one of these letters, so "a", " A" and "A\n" are Inconclusive |
| FactEvaluator.Interpret | resources/2024-12-05/ConsoleApp/ConsoleApp.Hosting/FactEvaluator.cs:95-96 | the interpretation is failed iff the rating is Inconclusive iff the response is not one of the five letters |
| FactEvaluator.WithDiagnostic | resources/2024-12-05/ConsoleApp/ConsoleApp.Hosting/FactEvaluator.cs:93-94 | adding a diagnostic appends it and keeps the metric's kind, name and interpretation |
| FactEvaluator.InitialMetrics | resources/2024-12-05/ConsoleApp/ConsoleApp.Hosting/FactEvaluator.cs:101-105 | a new result holds exactly the metric names `["FactEvaluator"]`, as a numeric metric |
| FactEvaluator.Graded | resources/2024-12-05/ConsoleApp/ConsoleApp.Hosting/FactEvaluator.cs:93-96 | grading keeps the metric names, appends the response as an informational diagnostic to every metric, and sets the evaluator's interpretation |
| FactEvaluator.ParseEvaluationResponse | resources/2024-12-05/ConsoleApp/ConsoleApp.Hosting/FactEvaluator.cs:64-99 | fails with "NumericMetric type required", leaving the result unchanged, iff there is no numeric metric of the evaluator's name; otherwise the result is graded |
| FactEvaluator.InitialResultGrades | resources/2024-12-05/ConsoleApp/ConsoleApp.Hosting/FactEvaluator.cs:93-101 | grading a fresh result gives its metric exactly one diagnostic, the response, and the response's interpretation |
| SemanticKernel.FindKey | resources/2025-04-16/ConsoleApp/ConsoleApp/TemplateAIFunction.cs:70 | `KernelArguments` finds the first key equal to the given one ignoring (ASCII) case, or none |
| SemanticKernel.CopyToKernelArguments | resources/2025-04-16/ConsoleApp/ConsoleApp/TemplateAIFunction.cs:66-71 | the copy loop produces the fold `Copied`; its keys never repeat ignoring case |
| SemanticKernel.PutKeepsDistinct | resources/2025-04-16/ConsoleApp/ConsoleApp/TemplateAIFunction.cs:70 | a write keeps the keys distinct ignoring case |
| SemanticKernel.CopiedDistinct | resources/2025-04-16/ConsoleApp/ConsoleApp/TemplateServerPrompt.cs:40-44 | the copied arguments have keys distinct ignoring case |
| SemanticKernel.LookupPut | resources/2025-04-16/ConsoleApp/ConsoleApp/TemplateAIFunction.cs:70 | after a write, the written key reads the new value (ignoring case) and every other key reads what it did before |
| SemanticKernel.CopiedLookup | resources/2025-04-16/ConsoleApp/ConsoleApp/TemplateServerPrompt.cs:41-44 | after the copy each key reads the value of the last source entry with that key ignoring case, and a key not in the source reads nothing |
| SemanticKernel.CopiedIdentity | resources/2025-04-16/ConsoleApp/ConsoleApp/TemplateAIFunction.cs:66-71 | arguments whose keys already differ ignoring case are copied unchanged and in order |
| SemanticKernel.RequiredNamesEmpty | resources/2025-04-16/ConsoleApp/ConsoleApp/TemplateAIFunction.cs:46-50 | no required name is listed iff no input variable is required |
| SemanticKernel.RequiredNamesSound | resources/2025-04-16/ConsoleApp/ConsoleApp/TemplateAIFunction.cs:46-50 | a name is listed iff some required variable has it |
| TemplateAIFunction.BuildSchema | resources/2025-04-16/ConsoleApp/ConsoleApp/TemplateAIFunction.cs:11-51 | the schema has type "object" and the configuration's description or ""; its property keys are the variable names, each described by the last variable of that name; `required` is null iff nothing is required, else the required names in order |
| TemplateAIFunction.DescribesUnique | resources/2025-04-16/ConsoleApp/ConsoleApp/TemplateAIFunction.cs:33-51 | that description determines the schema completely |
| TemplateAIFunction.TemplateAIFunction.constructor | resources/2025-04-16/ConsoleApp/ConsoleApp/TemplateAIFunction.cs:28-56 | the name is the configuration's or the template's type name; the description equals the schema's |
| TemplateAIFunction.TemplateAIFunction.InvokeCore | resources/2025-04-16/ConsoleApp/ConsoleApp/TemplateAIFunction.cs:64-76 | invocation renders the template with the copied arguments, which are the given ones when their keys already differ ignoring case |
| TemplateServerPrompt.ProtocolPromptOf | resources/2025-04-16/ConsoleApp/ConsoleApp/TemplateServerPrompt.cs:17-30 | the prompt's name is the configuration's or the template's type name, its description is passed through, and it has one argument per input variable, in order, with the same name, description and required flag |
| TemplateServerPrompt.AgreesWithFunctionSchema | resources/2025-04-16/ConsoleApp/ConsoleApp/TemplateServerPrompt.cs:21-29 | for one configuration, the prompt's argument names are the function schema's property keys and its required arguments are the schema's required list |
| TemplateServerPrompt.TemplateServerPrompt.constructor | resources/2025-04-16/ConsoleApp/ConsoleApp/TemplateServerPrompt.cs:12-31 | the advertised prompt is built from the configuration |
| TemplateServerPrompt.TemplateServerPrompt.Get | resources/2025-04-16/ConsoleApp/ConsoleApp/TemplateServerPrompt.cs:33-59 | the result has exactly one message; its text is the template rendered with no arguments iff the request has no arguments dictionary, and with the copied request arguments otherwise |

## Left out

- Network and SDK calls are not modelled: Cosmos DB container operations, Bedrock `ConverseAsync`/`ConverseStreamAsync`, endpoint resolution and service lookup. `GetResponseAsync` is only the composition of the modelled conversions with such a call.
- Floating point is not modelled: `Temperature`, `TopP` and the relevance score `(similarity + 1) / 2`.
- Cancellation and asynchronous enumeration are not modelled; streams are finite sequences.
- JSON serialization, AWS `Document` marshalling (`ToDocument`, `DeserializeToDictionary`, `JsonSerializer`), `AIJsonUtilities.CreateJsonSchema` and `IPromptTemplate.RenderAsync` are library code; the model takes them as given functions or records their inputs. The property filter of `JsonElement.ToDocument` is modelled on a map, so a JSON object with a duplicate property name, which makes it throw, is not represented.
- Kernel Memory's `GetFileId` is library code; `FromMemoryRecord` receives the file id.
- Strings are sequences of Unicode scalar values, so lone UTF-16 surrogates are not represented.
- AnthropicChatClient.SameRole: compares role names ignoring case for ASCII letters only, while .NET's ordinal case-insensitive comparison also folds other letters (`É` and `é`). The same holds for every comparison ignoring case below.
- AnthropicChatClient.ToChatFinishReason: matches the known stop reasons ignoring ASCII case only (`SameStopReason`), while the AWS constant class also folds non-ASCII letters.
- AnthropicChatClient.ToChatRole: matches assistant and user ignoring ASCII case only (`SameConversationRole`), for the same reason.
- AnthropicChatClient.GetInferenceConfiguration: finds `max_tokens_to_sample` ignoring ASCII case only (`TryGetProperty`), for the same reason.
- AnthropicStreaming.KeysDistinctIgnoringCase: the duplicate-key check of `new AdditionalPropertiesDictionary(properties)` is modelled for ASCII letters only, for the same reason.
- SemanticKernel.FindKey: ASCII-only case folding; .NET's `OrdinalIgnoreCase` also folds non-ASCII letters (`É` and `é`), so two `KernelArguments` keys that differ only in such letters are distinct here. PutKeepsDistinct, CopiedDistinct, LookupPut, CopiedLookup and CopiedIdentity inherit this.
- AnthropicChatClient.HasTopLevelMediaType: compares the text before the first `/` ignoring ASCII case, without trimming spaces around that part.
- AnthropicChatClient.Marshaller: which exception `JsonSerializer.Deserialize` and the document marshaller throw, and on which input, belongs to the library; the model passes on whatever error the given conversion returns. `toDocument` is taken as total: `JsonSerializer.SerializeToNode` followed by `Document.FromObject` is assumed not to throw on argument dictionaries whose values are JSON values.
- The key order of the serialized `AIFunctionSchema` properties, and the JSON text itself, are not modelled; the schema is a map.
- The `Role` and content `Type` of the prompt message are library defaults and are not modelled.
- The kernel and the logger and template factories are services outside the model; the template the factory creates is a parameter of the constructors.
- FactEvaluator.Prompt: the prompt text uses `\n` line breaks; the raw string literal's line endings follow the source file's, which the model does not track.
