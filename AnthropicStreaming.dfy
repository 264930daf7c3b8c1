/**
 * The event loop of `AnthropicChatClient.GetStreamingResponseAsync`: Bedrock's
 * Converse stream events turned into chat response updates. The loop keeps the role
 * set by the first event, the finish reason of the first message stop, the
 * additional response fields, and a table from content-block index to the tool use
 * started there, whose argument text grows with every tool-use input delta.
 *
 * `Run` states what the loop has produced after a prefix of the stream, and the
 * exception that ended it, if one did; the method `StreamingUpdates` is the loop
 * itself, proved to agree with `Run`.
 */
module AnthropicStreaming {
  import opened Wrappers
  import opened Text
  import opened AnthropicChatClient

  datatype ToolUseStart = ToolUseStart(toolUseId: string, name: string)

  /** The tool-use part of a delta; `input` is its (nullable) `Input`. */
  datatype ToolUseDelta = ToolUseDelta(input: Option<string>)

  datatype Delta = Delta(text: Option<string>, toolUse: Option<ToolUseDelta>)

  /** Bedrock `IEventStreamEvent`s of a Converse stream; `None` stands for a null member. */
  datatype StreamEvent =
    | MessageStart(role: Option<ConversationRole>)
    | ContentBlockStart(index: Option<int>, start: Option<ToolUseStart>)  // start None: no tool use in the start
    | ContentBlockDelta(index: Option<int>, delta: Option<Delta>)
    | ContentBlockStop(index: Option<int>)
    | MessageStop(stopReason: Option<StopReason>, additionalModelResponseFields: Document)
    | Metadata(usage: Option<TokenUsage>)
    | OtherEvent

  /** `ToolUseContent`: a started tool use; `arguments` is its `StringBuilder`, null until written. */
  datatype ToolUseContent = ToolUseContent(callId: string, name: string, arguments: Option<string>)

  /**
   * `DeserializeArguments`: an absent or empty buffer, and text that parses to null, give
   * an empty dictionary; text the serializer refuses makes it throw.
   */
  function DeserializeArguments(t: ToolUseContent, m: Marshaller): (r: Result<Arguments>)
    ensures t.arguments.None? || t.arguments == Some("") ==> r == Ok(map[])
    ensures t.arguments.Some? && t.arguments.value != "" ==>
      && (r.Err? <==> m.parseArguments(t.arguments.value).Err?)
      && (r.Err? ==> r.error == m.parseArguments(t.arguments.value).error)
      && (r.Ok? ==> r.value == m.parseArguments(t.arguments.value).value.GetOr(map[]))
  {
    if t.arguments.None? || t.arguments.value == "" then Ok(map[])
    else
      var result :- m.parseArguments(t.arguments.value);
      Ok(result.GetOr(map[]))
  }

  /**
   * A value of the `ChatRole` struct as the loop stores it: a role with a name, or
   * `default(ChatRole)`, whose `Value` is null.
   */
  datatype RoleStruct = Role(chatRole: ChatRole) | DefaultChatRole

  /** Microsoft.Extensions.AI `ChatResponseUpdate`; `role` is its `ChatRole?`. */
  datatype ChatResponseUpdate = ChatResponseUpdate(
    finishReason: Option<ChatFinishReason>,
    modelId: string,
    role: Option<RoleStruct>,
    rawRepresentation: StreamEvent,
    additionalProperties: Option<Arguments>,
    contents: seq<AIContent>)

  /** The loop's variables: `role`, `finishReason`, `additionalProperties`, `toolUseContents`. */
  datatype StreamState = StreamState(
    role: Option<RoleStruct>,
    finishReason: Option<ChatFinishReason>,
    additionalProperties: Option<Arguments>,
    toolUses: map<int, ToolUseContent>)

  /** Before the first event. A null `toolUseContents` behaves as an empty table. */
  const Initial := StreamState(None, None, None, map[])

  /** An update carrying the current role, finish reason and properties. */
  function UpdateOf(st: StreamState, e: StreamEvent, modelId: string, contents: seq<AIContent>): ChatResponseUpdate {
    ChatResponseUpdate(st.finishReason, modelId, st.role, e, st.additionalProperties, contents)
  }

  /** `ToChatRole(messageStartEvent.Role)`; a null role is dereferenced. */
  function StartRole(role: Option<ConversationRole>): Result<ChatRole> {
    if role.None? then Err(NullReference) else ToChatRole(role.value)
  }

  /**
   * The right-hand side of `role ??= streamEvent is MessageStartEvent m ? ToChatRole(m.Role) : default`:
   * the translated role of a message start, `default(ChatRole)` for any other event.
   */
  function AssignedRole(e: StreamEvent): (r: Result<RoleStruct>)
    ensures !e.MessageStart? ==> r == Ok(DefaultChatRole)
    ensures e.MessageStart? && r.Ok? ==> r.value.Role?
  {
    if e.MessageStart? then
      var role :- StartRole(e.role);
      Ok(Role(role))
    else Ok(DefaultChatRole)
  }

  /** `ToChatFinishReason(messageStopEvent.StopReason)`; a null stop reason is dereferenced. */
  function StopFinishReason(stopReason: Option<StopReason>): Result<ChatFinishReason> {
    if stopReason.None? then Err(NullReference) else ToChatFinishReason(stopReason.value)
  }

  /**
   * No two keys are equal ignoring case, which `new AdditionalPropertiesDictionary(properties)`
   * requires of the dictionary it copies (it throws `ArgumentException` otherwise).
   */
  predicate KeysDistinctIgnoringCase(properties: Arguments) {
    forall a, b :: a in properties && b in properties && a != b ==> !EqualsIgnoreCase(a, b)
  }

  /** The additional response fields of a message stop: null, a dictionary, or the exception. */
  function ResponseProperties(fields: Document, m: Marshaller): Result<Option<Arguments>> {
    var properties :- m.toDictionary(fields);
    if properties.Some? && !KeysDistinctIgnoringCase(properties.value) then Err(ArgumentError) else Ok(properties)
  }

  /** What one event does: the new state, the updates it yields, and the exception it throws. */
  datatype StepOutcome = StepOutcome(state: StreamState, updates: seq<ChatResponseUpdate>, failure: Option<Error>)

  /** Whether a delta carries tool-use input that the buffer of its index takes. */
  predicate AppendsInput(st: StreamState, index: Option<int>, delta: Delta) {
    delta.toolUse.Some? && index.Some? && index.value in st.toolUses &&
    delta.toolUse.value.input.Some? && delta.toolUse.value.input.value != ""
  }

  /** A tool use with `input` appended to its arguments (`Arguments ??= new(); Append(input)`). */
  function Appended(t: ToolUseContent, input: string): ToolUseContent {
    t.(arguments := Some(t.arguments.GetOr("") + input))
  }

  /** The handling of one event. */
  function Step(st0: StreamState, e: StreamEvent, modelId: string, m: Marshaller): StepOutcome {
    if st0.role.None? && AssignedRole(e).Err? then
      StepOutcome(st0, [], Some(AssignedRole(e).error))
    else
    var st := if st0.role.None? then st0.(role := Some(AssignedRole(e).value)) else st0;
    match e
    case ContentBlockStart(index, start) =>
      if index.None? then StepOutcome(st, [], None)
      else if start.None? then StepOutcome(st, [], Some(NullReference))
      else StepOutcome(st.(toolUses := st.toolUses[index.value := ToolUseContent(start.value.toolUseId, start.value.name, None)]), [], None)
    case ContentBlockDelta(index, delta) =>
      if delta.None? then StepOutcome(st, [], Some(NullReference))
      else
        var texts := if delta.value.text.Some? then [UpdateOf(st, e, modelId, [TextContent(delta.value.text.value)])] else [];
        var st' := if AppendsInput(st, index, delta.value)
          then st.(toolUses := st.toolUses[index.value := Appended(st.toolUses[index.value], delta.value.toolUse.value.input.value)])
          else st;
        StepOutcome(st', texts, None)
    case ContentBlockStop(index) =>
      if index.Some? && index.value in st.toolUses then
        var t := st.toolUses[index.value];
        var arguments := DeserializeArguments(t, m);
        if arguments.Err? then StepOutcome(st, [], Some(arguments.error))
        else StepOutcome(st, [UpdateOf(st, e, modelId, [FunctionCallContent(t.callId, t.name, Some(arguments.value))])], None)
      else StepOutcome(st, [], None)
    case MessageStop(stopReason, fields) =>
      if st.finishReason.None? && StopFinishReason(stopReason).Err? then
        StepOutcome(st, [], Some(StopFinishReason(stopReason).error))
      else
        var st1 := if st.finishReason.None? then st.(finishReason := Some(StopFinishReason(stopReason).value)) else st;
        if st1.additionalProperties.None? then
          var properties := ResponseProperties(fields, m);
          if properties.Err? then StepOutcome(st1, [], Some(properties.error))
          else StepOutcome(st1.(additionalProperties := properties.value), [], None)
        else StepOutcome(st1, [], None)
    case Metadata(usage) =>
      var usageDetails := ToUsageDetails(usage);
      StepOutcome(st, [UpdateOf(st, e, modelId, if usageDetails.Some? then [UsageContent(usageDetails.value)] else [])], None)
    case _ =>
      StepOutcome(st, [], None)
  }

  /** The state, the updates yielded so far, and the exception that ended the stream, if one did. */
  datatype Outcome = Outcome(state: StreamState, updates: seq<ChatResponseUpdate>, failure: Option<Error>)

  /** The loop run over `events`; after an exception nothing more happens. */
  function Run(events: seq<StreamEvent>, modelId: string, m: Marshaller): Outcome
    decreases |events|
  {
    if events == [] then Outcome(Initial, [], None)
    else
      var prev := Run(events[..|events| - 1], modelId, m);
      if prev.failure.Some? then prev
      else
        var s := Step(prev.state, events[|events| - 1], modelId, m);
        Outcome(s.state, prev.updates + s.updates, s.failure)
  }

  lemma RunStep(events: seq<StreamEvent>, i: nat, modelId: string, m: Marshaller)
    requires i < |events|
    ensures events[..i + 1][..i] == events[..i]
    ensures Run(events[..i + 1], modelId, m) ==
      var prev := Run(events[..i], modelId, m);
      if prev.failure.Some? then prev
      else
        var s := Step(prev.state, events[i], modelId, m);
        Outcome(s.state, prev.updates + s.updates, s.failure)
  {
    assert events[..i + 1][..i] == events[..i];
  }

  /** The last event of a run that has not thrown was handled after a run that had not thrown either. */
  lemma RunLast(events: seq<StreamEvent>, modelId: string, m: Marshaller)
    requires events != [] && Run(events, modelId, m).failure.None?
    ensures var prev := Run(events[..|events| - 1], modelId, m);
      var s := Step(prev.state, events[|events| - 1], modelId, m);
      prev.failure.None? && Run(events, modelId, m) == Outcome(s.state, prev.updates + s.updates, s.failure)
  {
  }

  /**
   * One pass of the loop body: the `role ??=` line, then the `switch` on the event.
   * Returns the loop variables afterwards, the updates yielded, and the exception
   * thrown, if one is.
   */
  method HandleEvent(st: StreamState, streamEvent: StreamEvent, modelId: string, m: Marshaller)
    returns (next: StreamState, yielded: seq<ChatResponseUpdate>, failure: Option<Error>)
    ensures StepOutcome(next, yielded, failure) == Step(st, streamEvent, modelId, m)
  {
    var role, finishReason, additionalProperties, toolUseContents := st.role, st.finishReason, st.additionalProperties, st.toolUses;
    yielded := [];
    if role.None? {
      if streamEvent.MessageStart? {
        if streamEvent.role.None? {
          return st, [], Some(NullReference);
        }
        var chatRole := ToChatRole(streamEvent.role.value);
        if chatRole.Err? {
          return st, [], Some(chatRole.error);
        }
        role := Some(Role(chatRole.value));
      } else {
        role := Some(DefaultChatRole);
      }
    }
    next := StreamState(role, finishReason, additionalProperties, toolUseContents);
    match streamEvent {
      case ContentBlockStart(index, start) =>
        if index.Some? {
          if start.None? {
            return next, [], Some(NullReference);
          }
          toolUseContents := toolUseContents[index.value := ToolUseContent(start.value.toolUseId, start.value.name, None)];
        }
      case ContentBlockDelta(index, delta) =>
        if delta.None? {
          return next, [], Some(NullReference);
        }
        if delta.value.text.Some? {
          yielded := [ChatResponseUpdate(finishReason, modelId, role, streamEvent, additionalProperties, [TextContent(delta.value.text.value)])];
        }
        if delta.value.toolUse.Some? && index.Some? && index.value in toolUseContents {
          var toolUseContent := toolUseContents[index.value];
          var input := delta.value.toolUse.value.input;
          if input.Some? && input.value != "" {
            var arguments := if toolUseContent.arguments.None? then "" else toolUseContent.arguments.value;
            toolUseContents := toolUseContents[index.value := toolUseContent.(arguments := Some(arguments + input.value))];
          }
        }
      case ContentBlockStop(index) =>
        if index.Some? && index.value in toolUseContents {
          var toolUse := toolUseContents[index.value];
          var arguments := DeserializeArguments(toolUse, m);
          if arguments.Err? {
            return next, [], Some(arguments.error);
          }
          var call := FunctionCallContent(toolUse.callId, toolUse.name, Some(arguments.value));
          yielded := [ChatResponseUpdate(finishReason, modelId, role, streamEvent, additionalProperties, [call])];
        }
      case MessageStop(stopReason, fields) =>
        if finishReason.None? {
          if stopReason.None? {
            return next, [], Some(NullReference);
          }
          var reason := ToChatFinishReason(stopReason.value);
          if reason.Err? {
            return next, [], Some(reason.error);
          }
          finishReason := Some(reason.value);
        }
        if additionalProperties.None? {
          var properties := m.toDictionary(fields);
          if properties.Err? {
            return StreamState(role, finishReason, additionalProperties, toolUseContents), [], Some(properties.error);
          }
          if properties.value.Some? {
            if !KeysDistinctIgnoringCase(properties.value.value) {
              return StreamState(role, finishReason, additionalProperties, toolUseContents), [], Some(ArgumentError);
            }
            additionalProperties := properties.value;
          }
        }
      case Metadata(usage) =>
        var usageDetails := ToUsageDetails(usage);
        var contents := if usageDetails.Some? then [UsageContent(usageDetails.value)] else [];
        yielded := [ChatResponseUpdate(finishReason, modelId, role, streamEvent, additionalProperties, contents)];
      case _ =>
    }
    return StreamState(role, finishReason, additionalProperties, toolUseContents), yielded, None;
  }

  /**
   * The streaming loop. Returns the updates yielded, in order, and the exception that
   * ended the stream, if one did.
   */
  method StreamingUpdates(events: seq<StreamEvent>, modelId: string, m: Marshaller)
    returns (updates: seq<ChatResponseUpdate>, failure: Option<Error>)
    ensures updates == Run(events, modelId, m).updates
    ensures failure == Run(events, modelId, m).failure
  {
    var state := Initial;
    updates := [];
    var i := 0;
    while i < |events|
      invariant 0 <= i <= |events|
      invariant Run(events[..i], modelId, m) == Outcome(state, updates, None)
    {
      RunStep(events, i, modelId, m);
      var next, yielded, thrown := HandleEvent(state, events[i], modelId, m);
      if thrown.Some? {
        RunStaysFailed(events, i + 1, modelId, m);
        return updates + yielded, thrown;
      }
      state, updates := next, updates + yielded;
      i := i + 1;
    }
    assert events[..i] == events;
    return updates, None;
  }

  /** Once the stream has thrown, later events change nothing. */
  lemma {:induction false} RunStaysFailed(events: seq<StreamEvent>, i: nat, modelId: string, m: Marshaller)
    requires i <= |events| && Run(events[..i], modelId, m).failure.Some?
    ensures Run(events, modelId, m) == Run(events[..i], modelId, m)
    decreases |events| - i
  {
    if i < |events| {
      RunStep(events, i, modelId, m);
      RunStaysFailed(events, i + 1, modelId, m);
    } else {
      assert events[..i] == events;
    }
  }

  /** Event `k` was handled without an exception, at it or before it. */
  predicate Handled(events: seq<StreamEvent>, k: nat, modelId: string, m: Marshaller)
    requires k < |events|
  {
    Run(events[..k + 1], modelId, m).failure.None?
  }

  // ----- Exceptions -----

  /**
   * Which events throw, and what: a message start that is the first event (the role
   * not yet set) whose role is null
   * (`NullReferenceException`) or blank (`ArgumentException`); a block start with an
   * index but no tool use, and a delta without a body (`NullReferenceException`); the stop
   * of a tool-use block whose arguments do not deserialize (the serializer's exception);
   * a first message stop whose stop reason is null or blank, or whose response fields do
   * not deserialize or repeat a key ignoring case. A throwing event yields nothing.
   */
  lemma StepFailure(st: StreamState, e: StreamEvent, modelId: string, m: Marshaller)
    ensures var f := Step(st, e, modelId, m).failure;
      && (f.Some? ==> Step(st, e, modelId, m).updates == [])
      && (e.MessageStart? ==>
            (f.Some? <==> st.role.None? && (e.role.None? || IsBlank(e.role.value.value)))
            && (f.Some? ==> f == Some(if e.role.None? then NullReference else ArgumentError)))
      && (e.ContentBlockStart? ==> f == (if e.index.Some? && e.start.None? then Some(NullReference) else None))
      && (e.ContentBlockDelta? ==> f == (if e.delta.None? then Some(NullReference) else None))
      && (e.ContentBlockStop? ==>
            f == (if e.index.Some? && e.index.value in st.toolUses && DeserializeArguments(st.toolUses[e.index.value], m).Err?
                  then Some(DeserializeArguments(st.toolUses[e.index.value], m).error) else None))
      && (e.MessageStop? && st.finishReason.None? && e.stopReason.None? ==> f == Some(NullReference))
      && (e.MessageStop? && st.finishReason.None? && e.stopReason.Some? && IsBlank(e.stopReason.value.value) ==>
            f == Some(ArgumentError))
      && (e.MessageStop? && (st.finishReason.Some? || (e.stopReason.Some? && !IsBlank(e.stopReason.value.value))) ==>
            f == (if st.additionalProperties.None? && ResponseProperties(e.additionalModelResponseFields, m).Err?
                  then Some(ResponseProperties(e.additionalModelResponseFields, m).error) else None))
      && (e.Metadata? || e.OtherEvent? ==> f.None?)
  {
    if e.MessageStart? && e.role.Some? {
      ToChatRolePreservesName(e.role.value);
    }
  }

  /** The additional response fields are refused exactly when they do not deserialize or repeat a key ignoring case. */
  lemma ResponsePropertiesFailure(fields: Document, m: Marshaller)
    ensures ResponseProperties(fields, m).Err? <==>
      m.toDictionary(fields).Err? || (m.toDictionary(fields).value.Some? && !KeysDistinctIgnoringCase(m.toDictionary(fields).value.value))
    ensures ResponseProperties(fields, m).Ok? ==> ResponseProperties(fields, m).value == m.toDictionary(fields).value
  {
  }

  /**
   * A stream that throws ends at the first event that throws: the events before it were
   * handled, its exception is the stream's, and the updates are those yielded before it.
   */
  lemma {:induction false} FirstFailure(events: seq<StreamEvent>, modelId: string, m: Marshaller) returns (k: nat)
    requires Run(events, modelId, m).failure.Some?
    ensures k < |events|
    ensures Run(events[..k], modelId, m).failure.None?
    ensures Step(Run(events[..k], modelId, m).state, events[k], modelId, m).failure == Run(events, modelId, m).failure
    ensures Run(events, modelId, m).updates == Run(events[..k], modelId, m).updates
    decreases |events|
  {
    var n := |events| - 1;
    var prev := Run(events[..n], modelId, m);
    RunStep(events, n, modelId, m);
    assert events[..n + 1] == events;
    if prev.failure.Some? {
      k := FirstFailure(events[..n], modelId, m);
      assert events[..n][..k] == events[..k];
      assert events[..n][k] == events[k];
    } else {
      k := n;
      var s := Step(prev.state, events[n], modelId, m);
      StepFailure(prev.state, events[n], modelId, m);
      assert prev.updates + s.updates == prev.updates;
    }
  }

  // ----- Role and finish reason -----

  /** A role or finish reason, once set, stays as it is. */
  lemma {:induction false} SettledStays(events: seq<StreamEvent>, i: nat, modelId: string, m: Marshaller)
    requires i <= |events|
    ensures var before, after := Run(events[..i], modelId, m).state, Run(events, modelId, m).state;
      && (before.role.Some? ==> after.role == before.role)
      && (before.finishReason.Some? ==> after.finishReason == before.finishReason)
    decreases |events| - i
  {
    if i < |events| {
      var before, next := Run(events[..i], modelId, m).state, Run(events[..i + 1], modelId, m).state;
      assert (before.role.Some? ==> next.role == before.role)
        && (before.finishReason.Some? ==> next.finishReason == before.finishReason) by {
        RunStep(events, i, modelId, m);
      }
      SettledStays(events, i + 1, modelId, m);
    } else {
      assert events[..i] == events;
    }
  }

  /**
   * The first event fixes the role, whatever follows: a message start's translated role,
   * `default(ChatRole)` for any other event; if that translation throws, the stream
   * ends there with nothing yielded.
   */
  lemma RoleFixedByFirstEvent(events: seq<StreamEvent>, modelId: string, m: Marshaller)
    requires events != []
    ensures AssignedRole(events[0]).Err? ==>
      Run(events, modelId, m) == Outcome(Initial, [], Some(AssignedRole(events[0]).error))
    ensures AssignedRole(events[0]).Ok? ==> Run(events, modelId, m).state.role == Some(AssignedRole(events[0]).value)
  {
    RunStep(events, 0, modelId, m);
    assert events[..0] == [];
    if AssignedRole(events[0]).Err? {
      RunStaysFailed(events, 1, modelId, m);
    } else {
      SettledStays(events, 1, modelId, m);
    }
  }

  /** After the first event, a message start changes nothing: `role ??=` does not evaluate it again. */
  lemma LaterMessageStartIgnored(st: StreamState, e: StreamEvent, modelId: string, m: Marshaller)
    requires st.role.Some? && e.MessageStart?
    ensures Step(st, e, modelId, m) == StepOutcome(st, [], None)
  {
  }

  /**
   * The role is null exactly until an event has been handled, which only a first message
   * start that throws prevents; the finish reason stays null while no message stop came.
   */
  lemma {:induction false} UnsetBefore(events: seq<StreamEvent>, modelId: string, m: Marshaller)
    ensures Run(events, modelId, m).state.role.None? <==> events == [] || AssignedRole(events[0]).Err?
    ensures (forall j :: 0 <= j < |events| ==> !events[j].MessageStop?) ==> Run(events, modelId, m).state.finishReason.None?
    decreases |events|
  {
    if events != [] {
      RoleFixedByFirstEvent(events, modelId, m);
      var n := |events| - 1;
      UnsetBefore(events[..n], modelId, m);
      forall j | 0 <= j < n ensures events[..n][j] == events[j] { }
    }
  }

  /** The finish reason is the one of the first message stop, whatever follows it. */
  lemma FinishReasonFixedByFirstMessageStop(events: seq<StreamEvent>, k: nat, modelId: string, m: Marshaller)
    requires k < |events| && events[k].MessageStop?
    requires forall j :: 0 <= j < k ==> !events[j].MessageStop?
    requires Handled(events, k, modelId, m)
    ensures events[k].stopReason.Some? && ToChatFinishReason(events[k].stopReason.value).Ok?
    ensures Run(events, modelId, m).state.finishReason == Some(ToChatFinishReason(events[k].stopReason.value).value)
  {
    UnsetBefore(events[..k], modelId, m);
    RunStep(events, k, modelId, m);
    SettledStays(events, k + 1, modelId, m);
  }

  // ----- Tool uses -----

  /** Event `e` starts a tool use at block `index`. */
  predicate StartsAt(e: StreamEvent, index: int) {
    e.ContentBlockStart? && e.index == Some(index) && e.start.Some?
  }

  /** The tool-use input that `e` carries for block `index` ("" if none). */
  function InputAt(e: StreamEvent, index: int): string {
    if e.ContentBlockDelta? && e.index == Some(index) && e.delta.Some? && e.delta.value.toolUse.Some?
       && e.delta.value.toolUse.value.input.Some?
    then e.delta.value.toolUse.value.input.value
    else ""
  }

  /** The tool-use inputs for block `index` in `events`, concatenated in order. */
  function InputsAt(events: seq<StreamEvent>, index: int): string {
    if events == [] then "" else InputAt(events[0], index) + InputsAt(events[1..], index)
  }

  lemma {:induction false} InputsAtSnoc(events: seq<StreamEvent>, e: StreamEvent, index: int)
    ensures InputsAt(events + [e], index) == InputsAt(events, index) + InputAt(e, index)
  {
    if events != [] {
      assert (events + [e])[1..] == events[1..] + [e];
      InputsAtSnoc(events[1..], e, index);
    }
  }

  /** The argument buffer that holds `text`: null while nothing has been appended. */
  function Buffer(text: string): Option<string> {
    if text == "" then None else Some(text)
  }

  /** A tool use whose start is event `s` and whose inputs since are `text`. */
  function StartedWith(e: StreamEvent, text: string): ToolUseContent
    requires e.ContentBlockStart? && e.start.Some?
  {
    ToolUseContent(e.start.value.toolUseId, e.start.value.name, Buffer(text))
  }

  /** One handled event moves the entry of block `index` as its start and inputs say. */
  lemma StepToolUse(st: StreamState, e: StreamEvent, index: int, modelId: string, m: Marshaller)
    requires Step(st, e, modelId, m).failure.None?
    ensures var after := Step(st, e, modelId, m).state.toolUses;
      && (StartsAt(e, index) ==> index in after && after[index] == StartedWith(e, ""))
      && (!StartsAt(e, index) ==> (index in after <==> index in st.toolUses))
      && (!StartsAt(e, index) && index in st.toolUses ==>
            after[index] == st.toolUses[index].(arguments :=
              if InputAt(e, index) == "" then st.toolUses[index].arguments
              else Some(st.toolUses[index].arguments.GetOr("") + InputAt(e, index))))
  {
  }

  /**
   * After a tool use starts at block `index` (event `s`) and no later event starts
   * another there, the entry of `index` holds the start's call id and name and the
   * in-order concatenation of the non-empty tool-use inputs for `index` since event `s`.
   */
  lemma {:induction false} ToolUseArguments(events: seq<StreamEvent>, s: nat, index: int, modelId: string, m: Marshaller)
    requires s < |events| && StartsAt(events[s], index)
    requires forall j :: s < j < |events| ==> !StartsAt(events[j], index)
    requires Run(events, modelId, m).failure.None?
    ensures index in Run(events, modelId, m).state.toolUses
    ensures Run(events, modelId, m).state.toolUses[index] == StartedWith(events[s], InputsAt(events[s + 1..], index))
    decreases |events|
  {
    var n := |events| - 1;
    var prev := Run(events[..n], modelId, m);
    var before, after := prev.state.toolUses, Run(events, modelId, m).state.toolUses;
    assert prev.failure.None?
      && (StartsAt(events[n], index) ==> index in after && after[index] == StartedWith(events[n], ""))
      && (!StartsAt(events[n], index) ==> (index in after <==> index in before))
      && (!StartsAt(events[n], index) && index in before ==>
            after[index] == before[index].(arguments :=
              if InputAt(events[n], index) == "" then before[index].arguments
              else Some(before[index].arguments.GetOr("") + InputAt(events[n], index)))) by {
      RunLast(events, modelId, m);
      StepToolUse(prev.state, events[n], index, modelId, m);
    }
    if s == n {
      assert events[s + 1..] == [];
    } else {
      forall j | s < j < n ensures !StartsAt(events[..n][j], index) {
        assert events[..n][j] == events[j];
      }
      ToolUseArguments(events[..n], s, index, modelId, m);
      var earlier := InputsAt(events[..n][s + 1..], index);
      var input := InputAt(events[n], index);
      assert InputsAt(events[s + 1..], index) == earlier + input by {
        assert events[..n][s + 1..] + [events[n]] == events[s + 1..];
        InputsAtSnoc(events[..n][s + 1..], events[n], index);
      }
      assert earlier + "" == earlier && "" + input == input;
    }
  }

  /** A block index has an entry exactly when a handled event started a tool use there. */
  lemma {:induction false} ToolUseRegistered(events: seq<StreamEvent>, index: int, modelId: string, m: Marshaller)
    requires Run(events, modelId, m).failure.None?
    ensures index in Run(events, modelId, m).state.toolUses <==> exists j :: 0 <= j < |events| && StartsAt(events[j], index)
    decreases |events|
  {
    if events != [] {
      var n := |events| - 1;
      var prev := Run(events[..n], modelId, m);
      RunLast(events, modelId, m);
      ToolUseRegistered(events[..n], index, modelId, m);
      StepToolUse(prev.state, events[n], index, modelId, m);
      if exists j :: 0 <= j < n && StartsAt(events[..n][j], index) {
        var j :| 0 <= j < n && StartsAt(events[..n][j], index);
        assert StartsAt(events[j], index);
      }
      if exists j :: 0 <= j < |events| && StartsAt(events[j], index) {
        var j :| 0 <= j < |events| && StartsAt(events[j], index);
        if j < n {
          assert StartsAt(events[..n][j], index);
        }
      }
    }
  }

  /**
   * A block stop yields an update exactly when its index holds a tool use whose arguments
   * deserialize; that update is one function call with the tool use's call id and name
   * and the parsed arguments. When they do not deserialize, the stop throws the
   * serializer's exception and yields nothing.
   */
  lemma StopYieldsCallIffRegistered(st: StreamState, index: int, modelId: string, m: Marshaller)
    ensures var s := Step(st, ContentBlockStop(Some(index)), modelId, m);
      && (s.failure.Some? <==> index in st.toolUses && DeserializeArguments(st.toolUses[index], m).Err?)
      && (s.failure.Some? ==> s.failure.value == DeserializeArguments(st.toolUses[index], m).error)
      && |s.updates| == (if index in st.toolUses && s.failure.None? then 1 else 0)
      && (index in st.toolUses && s.failure.None? ==>
            var t := st.toolUses[index];
            s.updates[0].contents == [FunctionCallContent(t.callId, t.name, Some(DeserializeArguments(t, m).value))])
  {
  }

  /** A stop of a block where no tool use was ever started yields nothing. */
  lemma StopWithoutStartYieldsNothing(events: seq<StreamEvent>, k: nat, modelId: string, m: Marshaller)
    requires k < |events| && events[k].ContentBlockStop? && events[k].index.Some?
    requires forall j :: 0 <= j < k ==> !StartsAt(events[j], events[k].index.value)
    requires Run(events[..k], modelId, m).failure.None?
    ensures Run(events[..k + 1], modelId, m).updates == Run(events[..k], modelId, m).updates
  {
    var index := events[k].index.value;
    ToolUseRegistered(events[..k], index, modelId, m);
    RunStep(events, k, modelId, m);
  }

  // ----- Text -----

  /** The texts of the updates whose one content is text, in order. */
  function UpdateTexts(us: seq<ChatResponseUpdate>): seq<string> {
    if us == [] then []
    else
      var n := |us| - 1;
      UpdateTexts(us[..n]) + (if |us[n].contents| == 1 && us[n].contents[0].TextContent? then [us[n].contents[0].text] else [])
  }

  /** Event `e` is a delta that carries text. */
  predicate TextDelta(e: StreamEvent) {
    e.ContentBlockDelta? && e.delta.Some? && e.delta.value.text.Some?
  }

  /** The texts of the deltas that carry text, in order. */
  function DeltaTexts(events: seq<StreamEvent>): seq<string> {
    if events == [] then []
    else
      var first := if TextDelta(events[0]) then [events[0].delta.value.text.value] else [];
      first + DeltaTexts(events[1..])
  }

  lemma {:induction false} UpdateTextsAppend(us: seq<ChatResponseUpdate>, vs: seq<ChatResponseUpdate>)
    ensures UpdateTexts(us + vs) == UpdateTexts(us) + UpdateTexts(vs)
    decreases |vs|
  {
    if vs == [] {
      assert us + vs == us;
    } else {
      var n := |vs| - 1;
      assert (us + vs)[..|us| + n] == us + vs[..n];
      UpdateTextsAppend(us, vs[..n]);
    }
  }

  lemma {:induction false} DeltaTextsSnoc(events: seq<StreamEvent>, e: StreamEvent)
    ensures DeltaTexts(events + [e]) == DeltaTexts(events) + (if TextDelta(e) then [e.delta.value.text.value] else [])
  {
    if events != [] {
      assert (events + [e])[1..] == events[1..] + [e];
      DeltaTextsSnoc(events[1..], e);
    }
  }

  /** One event yields a text update exactly when it is a delta with text, and then its text. */
  lemma StepTexts(st: StreamState, e: StreamEvent, modelId: string, m: Marshaller)
    requires Step(st, e, modelId, m).failure.None?
    ensures UpdateTexts(Step(st, e, modelId, m).updates) == (if TextDelta(e) then [e.delta.value.text.value] else [])
  {
    var us := Step(st, e, modelId, m).updates;
    assert |us| <= 1;
    if |us| == 1 {
      assert us[..0] == [];
    }
  }

  /** Each text delta yields exactly one text update, and the texts come out in stream order. */
  lemma {:induction false} TextDeltasYieldTextUpdates(events: seq<StreamEvent>, modelId: string, m: Marshaller)
    requires Run(events, modelId, m).failure.None?
    ensures UpdateTexts(Run(events, modelId, m).updates) == DeltaTexts(events)
    decreases |events|
  {
    if events != [] {
      var n := |events| - 1;
      var prev := Run(events[..n], modelId, m);
      var s := Step(prev.state, events[n], modelId, m);
      var text := if TextDelta(events[n]) then [events[n].delta.value.text.value] else [];
      assert prev.failure.None? && s.failure.None? && Run(events, modelId, m).updates == prev.updates + s.updates by {
        RunLast(events, modelId, m);
      }
      assert UpdateTexts(prev.updates) == DeltaTexts(events[..n]) by {
        TextDeltasYieldTextUpdates(events[..n], modelId, m);
      }
      assert UpdateTexts(s.updates) == text by {
        StepTexts(prev.state, events[n], modelId, m);
      }
      assert UpdateTexts(prev.updates + s.updates) == UpdateTexts(prev.updates) + UpdateTexts(s.updates) by {
        UpdateTextsAppend(prev.updates, s.updates);
      }
      assert DeltaTexts(events) == DeltaTexts(events[..n]) + text by {
        DeltaTextsSnoc(events[..n], events[n]);
        assert events[..n] + [events[n]] == events;
      }
    }
  }

  /** Every update names the request's model and carries a role: the first event has set it. */
  lemma {:induction false} UpdatesNameModel(events: seq<StreamEvent>, modelId: string, m: Marshaller)
    ensures forall k :: 0 <= k < |Run(events, modelId, m).updates| ==>
      Run(events, modelId, m).updates[k].modelId == modelId && Run(events, modelId, m).updates[k].role.Some?
    decreases |events|
  {
    if events != [] {
      UpdatesNameModel(events[..|events| - 1], modelId, m);
    }
  }
}
