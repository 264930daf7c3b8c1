/**
 * An `AIFunction` backed by a Semantic Kernel prompt template: its JSON schema is built
 * from the template's input variables, and invoking it renders the template.
 */
module TemplateAIFunction {
  import opened Wrappers
  import opened SemanticKernel
  import Json

  /**
   * The schema of one parameter, recorded as the arguments given to
   * `AIJsonUtilities.CreateJsonSchema` (which builds the JSON and is not part of this model).
   */
  datatype PropertySchema = PropertySchema(
    description: Option<string>,
    hasDefaultValue: bool,
    defaultValue: Option<Json.Value>)

  /** `AIFunctionSchema`: the object the function's JSON schema is serialized from. */
  datatype AIFunctionSchema = AIFunctionSchema(
    schemaType: string,
    description: Option<string>,
    properties: map<string, PropertySchema>,
    required: Option<seq<string>>)

  /** The schema of a parameter: its description, and a default value when the variable has one. */
  function PropertyOf(variable: InputVariable): PropertySchema {
    PropertySchema(variable.description, variable.default.Some?, variable.default)
  }

  /** No later variable has the same name as `variables[k]`. */
  predicate LastWithName(variables: seq<InputVariable>, k: int)
    requires 0 <= k < |variables|
  {
    forall j :: k < j < |variables| ==> variables[j].name != variables[k].name
  }

  /** The names of the variables. */
  function Names(variables: seq<InputVariable>): set<string> {
    set k | 0 <= k < |variables| :: variables[k].name
  }

  /** Each name is described by the last variable of that name. */
  ghost predicate LastOfEachName(variables: seq<InputVariable>, properties: map<string, PropertySchema>) {
    forall k :: 0 <= k < |variables| && LastWithName(variables, k) ==>
      variables[k].name in properties && properties[variables[k].name] == PropertyOf(variables[k])
  }

  /** The required list as the schema carries it: absent when nothing is required. */
  function RequiredList(variables: seq<InputVariable>): Option<seq<string>> {
    if RequiredNames(variables) == [] then None else Some(RequiredNames(variables))
  }

  /**
   * What the constructor's loop builds: an object schema whose description is the
   * configuration's (empty when it has none); one property per distinct variable name,
   * described by the last variable of that name; and a required list that is absent
   * when no variable is required and otherwise lists the required names in order.
   */
  ghost predicate Describes(config: PromptTemplateConfig, schema: AIFunctionSchema) {
    var variables := config.inputVariables;
    && schema.schemaType == "object"
    && schema.description == Some(config.description.GetOr(""))
    && schema.properties.Keys == Names(variables)
    && LastOfEachName(variables, schema.properties)
    && schema.required == RequiredList(variables)
  }

  /** The schema-building loop of the constructor. */
  method BuildSchema(config: PromptTemplateConfig) returns (schema: AIFunctionSchema)
    ensures Describes(config, schema)
  {
    var variables := config.inputVariables;
    var properties: map<string, PropertySchema> := map[];
    var required: Option<seq<string>> := None;
    var i := 0;
    while i < |variables|
      invariant 0 <= i <= |variables|
      invariant properties.Keys == Names(variables[..i])
      invariant LastOfEachName(variables[..i], properties)
      invariant required == RequiredList(variables[..i])
    {
      var variable := variables[i];
      assert properties[variable.name := PropertyOf(variable)].Keys == Names(variables[..i + 1]) by {
        NamesStep(variables, i);
      }
      assert LastOfEachName(variables[..i + 1], properties[variable.name := PropertyOf(variable)]) by {
        PropertyStep(variables, i, properties);
      }
      assert RequiredList(variables[..i + 1]) ==
        if variable.isRequired then Some(required.GetOr([]) + [variable.name]) else required
      by {
        RequiredStep(variables, i);
      }
      properties := properties[variable.name := PropertyOf(variable)];
      if variable.isRequired {
        required := Some(required.GetOr([]) + [variable.name]);
      }
      i := i + 1;
    }
    assert variables[..i] == variables;
    schema := AIFunctionSchema("object", Some(config.description.GetOr("")), properties, required);
  }

  /** The names of a longer prefix: one more name. */
  lemma NamesStep(variables: seq<InputVariable>, i: int)
    requires 0 <= i < |variables|
    ensures Names(variables[..i + 1]) == Names(variables[..i]) + {variables[i].name}
  {
    var prefix, next := variables[..i], variables[..i + 1];
    forall name | name in Names(next) ensures name in Names(prefix) + {variables[i].name} {
      var k :| 0 <= k < |next| && next[k].name == name;
      if k < i { assert prefix[k] == next[k]; }
    }
    forall name | name in Names(prefix) ensures name in Names(next) {
      var k :| 0 <= k < |prefix| && prefix[k].name == name;
      assert next[k] == prefix[k];
    }
    assert next[i] == variables[i];
  }

  /** One step of the loop over the properties. */
  lemma PropertyStep(variables: seq<InputVariable>, i: int, properties: map<string, PropertySchema>)
    requires 0 <= i < |variables|
    requires LastOfEachName(variables[..i], properties)
    ensures LastOfEachName(variables[..i + 1], properties[variables[i].name := PropertyOf(variables[i])])
  {
    var prefix, next := variables[..i], variables[..i + 1];
    var updated := properties[variables[i].name := PropertyOf(variables[i])];
    forall k | 0 <= k < |next| && LastWithName(next, k)
      ensures next[k].name in updated && updated[next[k].name] == PropertyOf(next[k])
    {
      if k < i {
        assert next[k] == prefix[k];
        assert next[i] == variables[i];
        assert forall j :: k < j < i ==> prefix[j] == next[j];
        assert LastWithName(prefix, k);
        assert prefix[k].name in properties && properties[prefix[k].name] == PropertyOf(prefix[k]);
        assert next[k].name != variables[i].name;
      } else {
        assert next[k] == variables[i];
      }
    }
  }

  /** One step of the loop over the required names. */
  lemma RequiredStep(variables: seq<InputVariable>, i: int)
    requires 0 <= i < |variables|
    ensures RequiredList(variables[..i + 1]) ==
      if variables[i].isRequired then Some(RequiredList(variables[..i]).GetOr([]) + [variables[i].name])
      else RequiredList(variables[..i])
  {
    var prefix, next := variables[..i], variables[..i + 1];
    assert next[..i] == prefix;
    assert RequiredNames(next) == RequiredNames(prefix) + (if variables[i].isRequired then [variables[i].name] else []);
    assert RequiredList(prefix).GetOr([]) == RequiredNames(prefix);
    if variables[i].isRequired {
      assert RequiredNames(next) == RequiredNames(prefix) + [variables[i].name];
      assert |RequiredNames(next)| > 0;
    } else {
      assert RequiredNames(next) == RequiredNames(prefix);
    }
  }

  /** The description of the schema pins it down: no two different schemas meet it. */
  lemma DescribesUnique(config: PromptTemplateConfig, a: AIFunctionSchema, b: AIFunctionSchema)
    requires Describes(config, a) && Describes(config, b)
    ensures a == b
  {
    var variables := config.inputVariables;
    forall name | name in a.properties ensures a.properties[name] == b.properties[name] {
      var k := LastIndexOf(variables, name);
    }
    assert a.properties == b.properties;
  }

  /** The position of the last variable named `name`, which some variable is. */
  lemma LastIndexOf(variables: seq<InputVariable>, name: string) returns (k: int)
    requires name in Names(variables)
    ensures 0 <= k < |variables| && variables[k].name == name && LastWithName(variables, k)
  {
    k := |variables| - 1;
    while variables[k].name != name
      invariant 0 <= k < |variables|
      invariant forall j :: k < j < |variables| ==> variables[j].name != name
      invariant exists j :: 0 <= j <= k && variables[j].name == name
      decreases k
    {
      k := k - 1;
    }
  }

  /** `TemplateAIFunction`: a function whose schema, name and description come from a template configuration. */
  class TemplateAIFunction {
    /** The template the factory created for the configuration. */
    const template: PromptTemplate
    const name: string
    const description: string
    const jsonSchema: AIFunctionSchema

    /**
     * The name is the configuration's, or the template's type name when it has none; the
     * description is the schema's, which is the configuration's or empty.
     */
    constructor (config: PromptTemplateConfig, template: PromptTemplate)
      ensures this.template == template
      ensures Describes(config, jsonSchema)
      ensures name == config.name.GetOr(template.typeName)
      ensures jsonSchema.description == Some(description)
    {
      var schema := BuildSchema(config);
      this.template := template;
      jsonSchema := schema;
      name := config.name.GetOr(template.typeName);
      description := schema.description.GetOr("");
    }

    /**
     * Invocation renders the template with the arguments copied into `KernelArguments`;
     * arguments whose names already differ ignoring case reach it unchanged.
     */
    method InvokeCore(arguments: Entries) returns (text: string)
      ensures text == template.render(Some(Copied(arguments)))
      ensures KeysDistinct(arguments) ==> text == template.render(Some(arguments))
    {
      var kernelArguments := CopyToKernelArguments(arguments);
      text := template.render(Some(kernelArguments));
      if KeysDistinct(arguments) {
        CopiedIdentity(arguments);
      }
    }
  }
}
