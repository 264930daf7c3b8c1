/**
 * The Semantic Kernel types the prompt-template adapters use: prompt template
 * configurations, the templates themselves (whose rendering is outside this model), and
 * `KernelArguments`, a dictionary whose keys compare ordinally ignoring case.
 */
module SemanticKernel {
  import opened Wrappers
  import opened Text
  import Json

  /** An `InputVariable` of a prompt template configuration. */
  datatype InputVariable = InputVariable(
    name: string,
    description: Option<string>,
    default: Option<Json.Value>,
    isRequired: bool)

  /** `PromptTemplateConfig`, as far as the adapters read it. */
  datatype PromptTemplateConfig = PromptTemplateConfig(
    name: Option<string>,
    description: Option<string>,
    inputVariables: seq<InputVariable>)

  /** The names of the required input variables, in declaration order, repeats kept. */
  function RequiredNames(variables: seq<InputVariable>): (names: seq<string>)
    ensures |names| <= |variables|
  {
    if variables == [] then []
    else
      var n := |variables| - 1;
      RequiredNames(variables[..n]) + (if variables[n].isRequired then [variables[n].name] else [])
  }

  /** The list of required names is empty exactly when no input variable is required. */
  lemma {:induction false} RequiredNamesEmpty(variables: seq<InputVariable>)
    ensures RequiredNames(variables) == [] <==> forall k :: 0 <= k < |variables| ==> !variables[k].isRequired
  {
    if variables != [] {
      var n := |variables| - 1;
      RequiredNamesEmpty(variables[..n]);
      assert forall k :: 0 <= k < n ==> variables[..n][k] == variables[k];
    }
  }

  /** Every listed name belongs to a required input variable, and every required variable is listed. */
  lemma {:induction false} RequiredNamesSound(variables: seq<InputVariable>)
    ensures forall name :: name in RequiredNames(variables) <==>
      exists k :: 0 <= k < |variables| && variables[k].isRequired && variables[k].name == name
  {
    if variables != [] {
      var n := |variables| - 1;
      RequiredNamesSound(variables[..n]);
      assert forall k :: 0 <= k < n ==> variables[..n][k] == variables[k];
    }
  }

  /** Dictionary entries in enumeration order: a key and its value. */
  type Entries = seq<(string, Json.Value)>

  /**
   * An `IPromptTemplate`: the name of its .NET type and `RenderAsync`, which takes the
   * (possibly null) kernel arguments and is not part of this model.
   */
  datatype PromptTemplate = PromptTemplate(typeName: string, render: Option<Entries> -> string)

  // ----- KernelArguments -----

  /** The position of the entry whose key equals `key` ignoring case, the first one if several; -1 if none. */
  function FindKey(entries: Entries, key: string): (r: int)
    ensures -1 <= r < |entries|
    ensures r >= 0 ==> EqualsIgnoreCase(entries[r].0, key)
    ensures r >= 0 ==> forall j :: 0 <= j < r ==> !EqualsIgnoreCase(entries[j].0, key)
    ensures r < 0 ==> forall j :: 0 <= j < |entries| ==> !EqualsIgnoreCase(entries[j].0, key)
  {
    if entries == [] then -1
    else if EqualsIgnoreCase(entries[0].0, key) then 0
    else
      var i := FindKey(entries[1..], key);
      if i < 0 then -1 else i + 1
  }

  /** `arguments[key]` read: the value under `key`, ignoring case, or none. */
  function Lookup(entries: Entries, key: string): Option<Json.Value> {
    var i := FindKey(entries, key);
    if i < 0 then None else Some(entries[i].1)
  }

  /**
   * `arguments[key] = value`: an entry whose key equals `key` ignoring case gets the new
   * value and keeps its key; otherwise a new entry is added at the end.
   */
  function Put(entries: Entries, key: string, value: Json.Value): (r: Entries)
    ensures |r| == |entries| || |r| == |entries| + 1
  {
    var i := FindKey(entries, key);
    if i < 0 then entries + [(key, value)] else entries[i := (entries[i].0, value)]
  }

  /** No two keys are equal ignoring case: what a case-insensitive dictionary keeps. */
  predicate KeysDistinct(entries: Entries) {
    forall a, b :: 0 <= a < b < |entries| ==> !EqualsIgnoreCase(entries[a].0, entries[b].0)
  }

  /** The entries of `source` copied one by one, in order, into an empty `KernelArguments`. */
  function Copied(source: Entries): Entries {
    if source == [] then []
    else
      var n := |source| - 1;
      Put(Copied(source[..n]), source[n].0, source[n].1)
  }

  /**
   * `foreach (var (key, value) in source) arguments[key] = value;` into a fresh
   * `KernelArguments`, as both prompt-template adapters do.
   */
  method CopyToKernelArguments(source: Entries) returns (arguments: Entries)
    ensures arguments == Copied(source)
    ensures KeysDistinct(arguments)
  {
    arguments := [];
    var i := 0;
    while i < |source|
      invariant 0 <= i <= |source|
      invariant arguments == Copied(source[..i])
      invariant KeysDistinct(arguments)
    {
      var (key, value) := source[i];
      assert source[..i + 1][..i] == source[..i];
      PutKeepsDistinct(arguments, key, value);
      var existing := FindKey(arguments, key);
      if existing < 0 {
        arguments := arguments + [(key, value)];
      } else {
        arguments := arguments[existing := (arguments[existing].0, value)];
      }
      i := i + 1;
    }
    assert source[..i] == source;
  }

  lemma PutKeepsDistinct(entries: Entries, key: string, value: Json.Value)
    requires KeysDistinct(entries)
    ensures KeysDistinct(Put(entries, key, value))
  {
    var r := Put(entries, key, value);
    forall a, b | 0 <= a < b < |r| ensures !EqualsIgnoreCase(r[a].0, r[b].0) {
      if b == |entries| {
        if EqualsIgnoreCase(r[a].0, r[b].0) {
          EqualsIgnoreCaseSymmetric(r[a].0, key);
        }
      }
    }
  }

  /** The keys a copy holds never repeat, ignoring case. */
  lemma {:induction false} CopiedDistinct(source: Entries)
    ensures KeysDistinct(Copied(source))
  {
    if source != [] {
      var n := |source| - 1;
      CopiedDistinct(source[..n]);
      PutKeepsDistinct(Copied(source[..n]), source[n].0, source[n].1);
    }
  }

  /** The value of the last entry of `source` whose key equals `key` ignoring case. */
  function LastValue(source: Entries, key: string): Option<Json.Value> {
    if source == [] then None
    else
      var n := |source| - 1;
      if EqualsIgnoreCase(source[n].0, key) then Some(source[n].1) else LastValue(source[..n], key)
  }

  /** Reading a key after a write: the written value if the keys match ignoring case, else as before. */
  lemma LookupPut(entries: Entries, k: string, v: Json.Value, key: string)
    requires KeysDistinct(entries)
    ensures Lookup(Put(entries, k, v), key) == if EqualsIgnoreCase(k, key) then Some(v) else Lookup(entries, key)
  {
    var i := FindKey(entries, k);
    var r := Put(entries, k, v);
    var f := FindKey(r, key);
    if EqualsIgnoreCase(k, key) {
      if i < 0 {
        forall j | 0 <= j < |entries| ensures !EqualsIgnoreCase(entries[j].0, key) {
          if EqualsIgnoreCase(entries[j].0, key) {
            EqualsIgnoreCaseSymmetric(k, key);
            EqualsIgnoreCaseTransitive(entries[j].0, key, k);
          }
        }
        assert r[|entries|].0 == k;
        assert f == |entries|;
      } else {
        EqualsIgnoreCaseSymmetric(entries[i].0, k);
        EqualsIgnoreCaseTransitive(entries[i].0, k, key);
        assert EqualsIgnoreCase(r[i].0, key);
        assert 0 <= f <= i;
        if f < i {
          EqualsIgnoreCaseSymmetric(r[i].0, key);
          EqualsIgnoreCaseTransitive(r[f].0, key, r[i].0);
          assert false;
        }
      }
    } else {
      if i < 0 {
        assert !EqualsIgnoreCase(r[|entries|].0, key);
        assert FindKey(r, key) == FindKey(entries, key) by {
          var g := FindKey(entries, key);
          if g >= 0 {
            assert r[g] == entries[g];
          }
        }
      } else {
        assert forall j :: 0 <= j < |r| ==> r[j].0 == entries[j].0;
        var g := FindKey(entries, key);
        assert f == g by {
          if g >= 0 { assert EqualsIgnoreCase(r[g].0, key); }
          if f >= 0 { assert EqualsIgnoreCase(entries[f].0, key); }
        }
        if g == i {
          EqualsIgnoreCaseSymmetric(entries[i].0, k);
          EqualsIgnoreCaseTransitive(k, entries[i].0, key);
          assert false;
        }
      }
    }
  }

  /**
   * After the copy, every key reads back, ignoring case, the value of the last source
   * entry with that key; a key no source entry has reads nothing.
   */
  lemma {:induction false} CopiedLookup(source: Entries, key: string)
    ensures Lookup(Copied(source), key) == LastValue(source, key)
  {
    if source != [] {
      var n := |source| - 1;
      CopiedLookup(source[..n], key);
      CopiedDistinct(source[..n]);
      LookupPut(Copied(source[..n]), source[n].0, source[n].1, key);
    }
  }

  /** A source whose keys already differ ignoring case is copied entry for entry, in order. */
  lemma {:induction false} CopiedIdentity(source: Entries)
    requires KeysDistinct(source)
    ensures Copied(source) == source
  {
    if source != [] {
      var n := |source| - 1;
      assert KeysDistinct(source[..n]);
      CopiedIdentity(source[..n]);
      assert FindKey(source[..n], source[n].0) < 0;
      assert source[..n] + [(source[n].0, source[n].1)] == source;
    }
  }
}
