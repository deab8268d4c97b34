# parametric-active_model in Dafny

A model of `Parametric::ActiveModel`, the adapter that makes a Parametric
schema usable as a Rails form object. The model covers three pieces of it,
plus the class-level plumbing around them:

- **The alias table** (`parametric_rails_form_setters`). Defining a schema
  registers one Rails nested-attributes key per array field and per nested
  object field. The table is one hash, mutated in place and shared by every
  form class. It is modelled as the class `FormSetters.SetterTable`, an object
  that every `ActiveModelForm.FormClass` is built with; a child class built
  by `BuildClassForChild` is handed its parent's table.
- **The Rails key normaliser** (`_map_rails_fields`). It rebuilds the
  submitted hash. `friends_attributes: {"0" => …, "1" => …}` becomes
  `friends: [...]`, `account_attributes: {...}` becomes `account: {...}`, and
  nested hashes are rebuilt with the same table.
- **The error aggregator** (`errors`, `_is_array_error?`). It files every
  validator message under the second `.`-segment of its path. It skips
  paths that go through an array element (`[digits]`), and memoises the
  result on the instance.
- `options_for`, the class-name fallback (`self.name`, `name=`) and the
  naming of child classes.

Ruby hashes are insertion-ordered, and the order shows (`Hash#values`, the
order of errors). So a hash is a sequence of `(key, value)` entries
(module `OrderedHash`). `h[k] = v` is `Put`: it overwrites the value in
place, or appends a new key. Keys are symbols, written by their names.
`pluralize` and `singularize` are ActiveSupport inflections, passed in as
`string -> string` parameters. Where Ruby would raise, the model returns
`Err`:

- `v.values` on a non-hash gives `NotAHash`.
- `nil.to_sym` on a path with no second segment gives `NoSecondSegment`.
- `nil.meta_data` for an undeclared field gives `UnknownField`.

Modules: `Wrappers`, `OrderedHash`, `Data` (values and schema metadata),
`FormSetters`, `RailsFields`, `ErrorPaths`, `FormErrors`, `ActiveModelForm`,
and `Scenarios` (the repository's examples plus three derived cases).

Behaviour of the code worth noting:

- Array values are `Hash#values`, in submission order. They are not sorted
  by numeric index (`RailsArrayUnsortedScenario`).
- A non-hash value under an array alias raises (`NotAHash`): the
  normaliser can fail.
- Nested hashes are rebuilt with the same shared table, not with a
  per-type table.
- An object alias is built from the **singular** of the field name:
  `singularize(key) + "_attributes"`.
- A path with `[digits]` anywhere is dropped at every level, not only when
  its leading segment is an index.

## Model

| member | source | states |
|---|---|---|
| `OrderedHash.Lookup` | lib/parametric/active_model.rb:66 | `h[k]` is nil exactly when `k` is not a key; otherwise it is a value stored under `k`, the one stored there when keys are unique; used for `fields[field]` and to read rebuilt hashes back |
| `OrderedHash.Put` | lib/parametric/active_model.rb:109 | storing under a new key appends the entry at the end (its other cases are `KeysPut` and `LookupPut`) |
| `OrderedHash.ValuesOf` | lib/parametric/active_model.rb:104 | `Hash#values`: one value per entry, the i-th value being the i-th entry's, in insertion order |
| `OrderedHash.LookupPut` | lib/parametric/active_model.rb:109 | after `obj[k] = v`, `obj[k]` is `v` and every other key reads as before |
| `OrderedHash.KeysPut` | lib/parametric/active_model.rb:109 | `obj[k] = v` keeps the key order when `k` is present and appends `k` otherwise |
| `OrderedHash.LookupPutAll` | lib/parametric/active_model.rb:101-110 | after a sequence of stores, a key holds the value of its last store (later entries win), else its old value |
| `OrderedHash.PutAllFresh` | lib/parametric/active_model.rb:101-110 | storing entries with distinct new keys appends them unchanged, in order |
| `FormSetters.RegistrationOf` | lib/parametric/active_model.rb:39-55 | an array field registers `pluralize(key)+"_attributes"` → `pluralize(key)`; a non-array field with a nested schema registers `singularize(key)+"_attributes"` → `singularize(key)`; any other field registers nothing; the `type == :array` disjunct of the `elsif` never decides the outcome |
| `FormSetters.Registered` | lib/parametric/active_model.rb:35-56 | the table after a schema's fields are registered in declaration order; registering never removes a key from either table |
| `FormSetters.ArrayAliasKeys` | lib/parametric/active_model.rb:35-42 | a key is in the arrays table after registration iff it was there before or some array field's pluralized setter key equals it |
| `FormSetters.ObjectAliasKeys` | lib/parametric/active_model.rb:35-50 | a key is in the objects table after registration iff it was there before or some non-array field with a nested schema registers it |
| `FormSetters.ArrayAliasRegistered` | lib/parametric/active_model.rb:39-42 | an array field's setter key maps to its pluralized name unless a later array field reuses the key |
| `FormSetters.ObjectAliasRegistered` | lib/parametric/active_model.rb:47-50 | a nested-object field's setter key maps to its singularized name unless a later such field reuses the key |
| `FormSetters.ArrayAliasKept` | lib/parametric/active_model.rb:31-42 | an arrays entry already in the shared table keeps its name when no array field of the new schema registers its key |
| `FormSetters.ObjectAliasKept` | lib/parametric/active_model.rb:31-50 | an objects entry already in the shared table keeps its name when no nested-object field of the new schema registers its key |
| `FormSetters.ScalarFieldsRegisterNothing` | lib/parametric/active_model.rb:35-56 | fields without array type or nested schema leave both tables unchanged |
| `FormSetters.SetterTable.constructor` | lib/parametric/active_model.rb:31-32 | the shared table starts as `{arrays: {}, objects: {}}` |
| `FormSetters.SetterTable.AfterDefineSchema` | lib/parametric/active_model.rb:34-57 | the field loop leaves the shared table equal to the old table with every field's registration applied in declaration order |
| `RailsFields.MapRailsFields` | lib/parametric/active_model.rb:100-111 | `_map_rails_fields`: succeeds exactly when every top-level entry can be rebuilt, and builds a hash with no repeated key (further properties in the `RailsFields` lemmas below) |
| `RailsFields.Fold` | lib/parametric/active_model.rb:101-110 | the `each_with_object` loop: succeeds exactly when every entry can be rebuilt, and keeps the accumulator's keys unique |
| `RailsFields.MapEntry` | lib/parametric/active_model.rb:101-109 | a rebuilt entry is stored under the key's registered collection or object name, or under the key itself |
| `RailsFields.FoldIsPutAll` | lib/parametric/active_model.rb:100-111 | the `each_with_object` fold equals rebuilding each entry on its own and storing the results in order, with the first failure reported |
| `RailsFields.SucceedsIffWellShaped` | lib/parametric/active_model.rb:102-108 | normalisation succeeds iff every array-alias key holds a hash, at every position the normaliser visits (hash values; not array elements, not the values of an index hash) |
| `RailsFields.ArrayAttributesNeedHash` | lib/parametric/active_model.rb:102-104 | an array-alias key holding a non-hash value (an array included) makes the whole call fail |
| `RailsFields.LookupNormalized` | lib/parametric/active_model.rb:100-111 | each output key holds the rebuilt value of the last input entry stored under it |
| `RailsFields.ArrayAttributesBecomeValues` | lib/parametric/active_model.rb:102-104 | an array-alias key is replaced by its collection name, whose value is the list of the submitted hash's values in insertion order, elements not rebuilt |
| `RailsFields.ObjectAttributesRenamed` | lib/parametric/active_model.rb:105-109 | an object-alias key is replaced by its object name; a hash value under it is rebuilt recursively, any other value is kept |
| `RailsFields.OtherKeysKept` | lib/parametric/active_model.rb:101-109 | a key in neither table keeps its name; a hash value is rebuilt, a non-hash value (arrays included) passes through untouched |
| `RailsFields.NormalizedKeys` | lib/parametric/active_model.rb:101-110 | the output keys are the stored keys in order of first occurrence, none repeated |
| `RailsFields.CanonicalUnchanged` | lib/parametric/active_model.rb:100-111 | a hash with no alias key and no repeated key at any position the normaliser visits (hash values, not array elements) comes back equal, key order included |
| `ErrorPaths.Pieces` | lib/parametric/active_model.rb:75 | cutting a path at every `.` gives dot-free pieces that join back to the path |
| `ErrorPaths.PiecesOfJoin` | lib/parametric/active_model.rb:75 | cutting a join of dot-free pieces gives the pieces back |
| `ErrorPaths.DropTrailingEmpty` | lib/parametric/active_model.rb:75 | `split` without a limit drops exactly the trailing empty fields and keeps the rest in order |
| `ErrorPaths.RubySplit` | lib/parametric/active_model.rb:75 | `key.split('.')`: dot-free pieces, a prefix of the cut path, ending in a non-empty piece, with only empty pieces dropped |
| `ErrorPaths.SecondSegment` | lib/parametric/active_model.rb:75 | `key.split('.')[1]`: the second dot-separated piece, nil exactly when every piece after the first is empty |
| `ErrorPaths.SecondSegmentOf` | lib/parametric/active_model.rb:75 | `a.b` and `a.b.rest` have second segment `b` (dot-free `a`, non-empty dot-free `b`) |
| `ErrorPaths.NoDotNoSecondSegment` | lib/parametric/active_model.rb:75 | a path with no `.` has no second segment |
| `ErrorPaths.DigitsThenBracket` | lib/parametric/active_model.rb:97 | the scan answers true iff the text starts with one or more digits followed by `]` |
| `ErrorPaths.IsArrayError` | lib/parametric/active_model.rb:96-98 | `_is_array_error?` is true iff the path contains `[`, one or more digits, `]` somewhere |
| `FormErrors.FiledUnder` | lib/parametric/active_model.rb:74-76 | one path's messages: nothing for an array path; fails exactly for a non-array path with messages and no second segment; otherwise every message, in order, under the second segment |
| `FormErrors.MessagesFor` | spec/parametric/active_model_spec.rb:47-54 | `errors[attr]`: only messages logged under `attr`, never more than the log holds, and none when no entry names `attr` (its exact contents are `ErrorsForAttribute`) |
| `FormErrors.Aggregate` | lib/parametric/active_model.rb:73-77 | the log of `errors`: succeeds exactly when every path can be filed (further properties in the lemmas below) |
| `FormErrors.AggregateFirstFailure` | lib/parametric/active_model.rb:73-77 | a failed aggregate reports the failure of the first path that cannot be filed, every earlier path being fileable |
| `FormErrors.AggregateAppend` | lib/parametric/active_model.rb:73-77 | processing two runs of paths one after the other is processing their concatenation; a failure is final |
| `FormErrors.AggregateOkIff` | lib/parametric/active_model.rb:73-76 | collecting fails iff some non-array path with at least one message has no second segment |
| `FormErrors.ArrayPathIgnored` | lib/parametric/active_model.rb:75 | a path containing `[digits]` contributes nothing, wherever it stands |
| `FormErrors.ErrorsForAttribute` | lib/parametric/active_model.rb:73-76 | `errors[attr]` is every message of every non-array path whose second segment is `attr`, in source order, none deduplicated |
| `FormErrors.OwnsPlainPath` | lib/parametric/active_model.rb:75 | a path `root.attr…` containing no `[` is filed under `attr` |
| `FormErrors.TopLevelErrors` | lib/parametric/active_model.rb:73-76 | `$.name` with messages `msgs` gives `errors[:name] == msgs` |
| `FormErrors.NestedArrayErrors` | lib/parametric/active_model.rb:75 | a path through an array element such as `$.friends[0].name` adds nothing to the parent's errors |
| `FormErrors.SiblingPathsAccumulate` | lib/parametric/active_model.rb:73-76 | messages of `$.account` and `$.account.name` accumulate under `account`, in order |
| `FormErrors.AddMessages` | lib/parametric/active_model.rb:74-76 | the inner loop appends each message under the path's second segment (none for an array path), or fails on a path without one |
| `FormErrors.CollectErrors` | lib/parametric/active_model.rb:71-78 | the nested loops produce exactly the aggregate of the validator's report |
| `FormErrors.FormInstance.Errors` | lib/parametric/active_model.rb:69-80 | returns the aggregate; a memoised log is returned as is; a successful first call memoises its result, a failing one memoises nothing |
| `FormErrors.ErrorsTwice` | lib/parametric/active_model.rb:70 | two calls of `errors` on one form give the same answer |
| `ActiveModelForm.OptionsFor` | lib/parametric/active_model.rb:65-67 | a declared field's `:options` list, `[]` when it declares none; failure iff the field is not declared |
| `ActiveModelForm.FormClass.constructor` | lib/parametric/active_model.rb:24 | a new form class holds the shared table and starts with no assigned name and an empty schema |
| `ActiveModelForm.FormClass.Name` | lib/parametric/active_model.rb:15-17 | the constant name when the class has one, else the name assigned with `name=` |
| `ActiveModelForm.FormClass.SetName` | lib/parametric/active_model.rb:11-13 | stores the assigned name; an anonymous class then answers it as its name |
| `ActiveModelForm.FormClass.DefineSchema` | lib/parametric/active_model.rb:25 | stores the schema and registers its aliases in the shared table |
| `ActiveModelForm.FormClass.BuildClassForChild` | lib/parametric/active_model.rb:23-29 | a fresh anonymous class with the child schema, sharing the table (which gains the child's aliases), named `singularize(key)` |
| `ActiveModelForm.FormClass.Initialize` | lib/parametric/active_model.rb:59-63 | the data handed to the struct constructor is the submitted hash normalised through the shared table |
| `Scenarios.UserFormAliases` | spec/parametric/active_model_spec.rb:20-35 | the user form registers exactly `friends_attributes` → `friends` and `account_attributes` → `account` |
| `Scenarios.RailsArrayScenario` | spec/parametric/active_model_spec.rb:119-131 | `friends_attributes: {"0" => Joe, "1" => Joan}` arrives as `friends: [Joe, Joan]` next to the untouched `name` |
| `Scenarios.RailsArrayUnsortedScenario` | lib/parametric/active_model.rb:104 | indices submitted as `"1"`, `"0"` keep that order in the array |
| `Scenarios.RailsArrayNotAHashScenario` | lib/parametric/active_model.rb:104 | a plain array under `friends_attributes` makes the construction fail |
| `Scenarios.RailsObjectScenario` | spec/parametric/active_model_spec.rb:133-143 | `account_attributes: {name: "ACME"}` arrives as `account: {name: "ACME"}` |
| `Scenarios.NamedClassScenario` | lib/parametric/active_model.rb:11-17 | a class bound to `FriendForm` keeps that name after `name = 'friend'`; an anonymous class takes `friend` |

## Left out

- Rails parameter unwrapping (`permit!`, `to_hash`, `deep_symbolize_keys`, lib/parametric/active_model.rb:60-61): the input is an already unwrapped hash whose keys are symbol names. Keys that `deep_symbolize_keys` would leave as non-symbols are not modelled.
- The ActiveModel contract (`ActiveModel::Model`, `Naming`, `model_name` with `demodulize`, `human_attribute_name`, `lookup_ancestors`, `read_attribute_for_validation`): host-framework conformance, not logic of this adapter.
- The per-field readers and the no-op `*_attributes=` setters created with `define_method` (lines 36-38, 44-46, 52-54): Ruby metaprogramming. The readers only return the struct's stored values.
- Object-graph construction, coercion and validation (`Parametric::Struct`, `super data`, `super` in `errors`, `_graph`): Parametric::Struct is not part of this model. The validator's path → messages report is an input (`FormInstance.pathErrors`). How `schema` reaches the registration hook is modelled only by `DefineSchema`.
- `ActiveModel::Errors` is reduced to its ordered (attribute, message) log. The `:blank` error type and the clearing of errors by `valid?` are not modelled.
- ActiveSupport inflections are abstract `string -> string` parameters.
- `FormClass.Name`: Ruby's `Class#name` can change from nil to a constant name once an anonymous class is assigned to a constant. The model fixes the constant name when the class is created.
- `meta_data[:schema].present?` is modelled as "a nested schema is declared". `blank?` semantics of arbitrary objects are not modelled.
- Value kinds other than nil, booleans, integers, strings, arrays and hashes are not modelled. They behave like the scalars here.
