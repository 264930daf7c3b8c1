/** JSON values that the modelled code only carries from one place to another. */
module Json {

  /**
   * A JSON value (a C# `object`, `JsonElement` or AWS `Document` payload). None of the
   * modelled code looks inside one, so it is kept as its serialised text.
   */
  datatype Value = Value(text: string)
}
