/**
 * An MCP server prompt backed by a Semantic Kernel prompt template: the prompt it
 * advertises lists the template's input variables, and getting it renders the template.
 */
module TemplateServerPrompt {
  import opened Wrappers
  import opened SemanticKernel
  import TemplateAIFunction

  /** An argument the prompt advertises. */
  datatype PromptArgument = PromptArgument(name: string, description: Option<string>, required: bool)

  /** The protocol description of the prompt. */
  datatype Prompt = Prompt(name: string, description: Option<string>, arguments: seq<PromptArgument>)

  /** The parameters of a prompts/get request; `arguments` is absent when the client sent none. */
  datatype GetPromptRequestParams = GetPromptRequestParams(name: string, arguments: Option<Entries>)

  /** The request context; its parameters may be absent. */
  datatype RequestContext = RequestContext(params: Option<GetPromptRequestParams>)

  datatype Content = Content(text: string)
  datatype PromptMessage = PromptMessage(content: Content)
  datatype GetPromptResult = GetPromptResult(messages: seq<PromptMessage>)

  /**
   * The advertised prompt: named as the configuration or, failing that, as the template's
   * type; described as the configuration; one argument per input variable, in order,
   * with its name, description and required flag.
   */
  function ProtocolPromptOf(config: PromptTemplateConfig, typeName: string): (p: Prompt)
    ensures p.name == config.name.GetOr(typeName)
    ensures p.description == config.description
    ensures |p.arguments| == |config.inputVariables|
    ensures forall k :: 0 <= k < |p.arguments| ==>
      var v := config.inputVariables[k];
      p.arguments[k] == PromptArgument(v.name, v.description, v.isRequired)
  {
    Prompt(config.name.GetOr(typeName), config.description,
      seq(|config.inputVariables|, k requires 0 <= k < |config.inputVariables| =>
        var v := config.inputVariables[k];
        PromptArgument(v.name, v.description, v.isRequired)))
  }

  /** The names of the required arguments, in order. */
  function RequiredArguments(arguments: seq<PromptArgument>): seq<string> {
    if arguments == [] then []
    else
      var n := |arguments| - 1;
      RequiredArguments(arguments[..n]) + (if arguments[n].required then [arguments[n].name] else [])
  }

  /**
   * The prompt and the `AIFunction` built from the same configuration agree: the prompt's
   * argument names are the schema's property names, and its required arguments are the
   * schema's required list (empty when the schema has none).
   */
  lemma AgreesWithFunctionSchema(config: PromptTemplateConfig, typeName: string, schema: TemplateAIFunction.AIFunctionSchema)
    requires TemplateAIFunction.Describes(config, schema)
    ensures (set a | a in ProtocolPromptOf(config, typeName).arguments :: a.name) == schema.properties.Keys
    ensures RequiredArguments(ProtocolPromptOf(config, typeName).arguments) == schema.required.GetOr([])
  {
    var variables := config.inputVariables;
    var arguments := ProtocolPromptOf(config, typeName).arguments;
    forall name | name in schema.properties.Keys ensures exists a :: a in arguments && a.name == name {
      var k :| 0 <= k < |variables| && variables[k].name == name;
      assert arguments[k].name == name;
    }
    RequiredArgumentsOfVariables(variables, arguments);
  }

  lemma {:induction false} RequiredArgumentsOfVariables(variables: seq<InputVariable>, arguments: seq<PromptArgument>)
    requires |arguments| == |variables|
    requires forall k :: 0 <= k < |variables| ==>
      arguments[k].name == variables[k].name && arguments[k].required == variables[k].isRequired
    ensures RequiredArguments(arguments) == RequiredNames(variables)
  {
    if variables != [] {
      var n := |variables| - 1;
      RequiredArgumentsOfVariables(variables[..n], arguments[..n]);
    }
  }

  /** `TemplateServerPrompt`: a server prompt whose description comes from a template configuration. */
  class TemplateServerPrompt {
    /** The template the factory created for the configuration. */
    const template: PromptTemplate
    const protocolPrompt: Prompt

    constructor (config: PromptTemplateConfig, template: PromptTemplate)
      ensures this.template == template
      ensures protocolPrompt == ProtocolPromptOf(config, template.typeName)
    {
      this.template := template;
      protocolPrompt := ProtocolPromptOf(config, template.typeName);
    }

    /**
     * Getting the prompt yields exactly one message, holding the template rendered with
     * the request's arguments copied into `KernelArguments`, or with no arguments at all
     * when the request has none.
     */
    method Get(request: RequestContext) returns (result: GetPromptResult)
      ensures |result.messages| == 1
      ensures (request.params.None? || request.params.value.arguments.None?) ==>
        result.messages[0].content.text == template.render(None)
      ensures request.params.Some? && request.params.value.arguments.Some? ==>
        result.messages[0].content.text == template.render(Some(Copied(request.params.value.arguments.value)))
    {
      var arguments: Option<Entries> := None;
      if request.params.Some? && request.params.value.arguments.Some? {
        var copied := CopyToKernelArguments(request.params.value.arguments.value);
        arguments := Some(copied);
      }
      var text := template.render(arguments);
      result := GetPromptResult([PromptMessage(Content(text))]);
    }
  }
}
