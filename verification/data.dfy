/**
 * The values a form is built from, after Rails parameters have been unwrapped
 * and their keys symbolized, and the schema metadata the adapter reads.
 */
module Data {
  import opened Wrappers
  import opened OrderedHash

  /** A Ruby value as it arrives in form data: scalars, arrays and (ordered) hashes. */
  datatype Value =
    | Nil
    | Bool(b: bool)
    | Int(i: int)
    | Str(s: string)
    | Arr(items: seq<Value>)
    | Hash(entries: seq<(Key, Value)>)

  /**
   * A field's metadata: its `:type` (`"array"`, `"string"`, ... when one was
   * declared), its nested `:schema` if it has one, and its `:options` list.
   */
  datatype FieldSpec = FieldSpec(typeTag: Option<string>, schema: Option<Schema>, options: Option<seq<Value>>)

  /** A schema: its fields by name, in declaration order. */
  datatype Schema = Schema(fields: seq<(Key, FieldSpec)>)
}
