/**
 * `Parametric::ActiveModel` itself: a form class with its display name, its
 * schema, the shared alias table, the child classes it builds for nested
 * schemas, the data it hands on at construction, and `options_for`.
 */
module ActiveModelForm {
  import opened Wrappers
  import opened OrderedHash
  import opened Data
  import opened FormSetters
  import opened RailsFields

  /** `fields[field]` is nil, so reading its `meta_data` raises. */
  datatype OptionsError = UnknownField(field: Key)

  /** `options_for(field)`: the field's declared `:options`, `[]` when none are declared. */
  function OptionsFor(schema: Schema, field: Key): (r: Result<seq<Value>, OptionsError>)
    ensures r.Err? <==> field !in KeysOf(schema.fields)
    ensures UniqueKeys(schema.fields) ==>
      forall i :: 0 <= i < |schema.fields| && schema.fields[i].0 == field ==>
        r == Ok(if schema.fields[i].1.options.Some? then schema.fields[i].1.options.value else [])
  {
    match Lookup(schema.fields, field)
    case None => Err(UnknownField(field))
    case Some(spec) => Ok(spec.options.GetOr([]))
  }

  class FormClass {
    /** `parametric_rails_form_setters`: one hash, inherited by every form class. */
    const setters: SetterTable
    /** What Ruby's own `Class#name` answers: the constant the class is bound to, if any. */
    const constantName: Option<string>
    /** `@name`, set by `name=`. */
    var assignedName: Option<string>
    var schema: Schema

    constructor (setters: SetterTable, constantName: Option<string>)
      ensures this.setters == setters && this.constantName == constantName
      ensures assignedName == None && schema == Schema([])
    {
      this.setters := setters;
      this.constantName := constantName;
      assignedName := None;
      schema := Schema([]);
    }

    /** `self.name`: `super || @name`. */
    function Name(): (r: Option<string>)
      reads this
      ensures constantName.Some? ==> r == constantName
      ensures constantName.None? ==> r == assignedName
    {
      if constantName.Some? then constantName else assignedName
    }

    /** `self.name = str`. */
    method SetName(str: string)
      modifies this`assignedName
      ensures assignedName == Some(str)
      ensures constantName.None? ==> Name() == Some(str)
    {
      assignedName := Some(str);
    }

    /** `schema s`: stores the schema and runs the alias registration hook on the shared table. */
    method DefineSchema(s: Schema, pluralize: string -> string, singularize: string -> string)
      modifies this`schema, setters
      ensures schema == s
      ensures setters.Table() == Registered(old(setters.Table()), s.fields, pluralize, singularize)
    {
      schema := s;
      setters.AfterDefineSchema(s, pluralize, singularize);
    }

    /**
     * `parametric_build_class_for_child`: a new anonymous form class with the
     * child schema, named after the singular of the field's key. Its aliases
     * go into the same shared table.
     */
    method BuildClassForChild(key: Key, childSchema: Schema, pluralize: string -> string, singularize: string -> string)
      returns (klass: FormClass)
      modifies setters
      ensures fresh(klass)
      ensures klass.setters == setters && klass.schema == childSchema
      ensures klass.Name() == Some(singularize(key))
      ensures setters.Table() == Registered(old(setters.Table()), childSchema.fields, pluralize, singularize)
    {
      klass := new FormClass(setters, None);
      klass.DefineSchema(childSchema, pluralize, singularize);
      klass.SetName(singularize(key));
    }

    /**
     * `initialize(data)`: the hash handed on to the struct constructor, with
     * Rails nested-attributes keys mapped through the shared table.
     */
    method Initialize(data: seq<(Key, Value)>) returns (r: Result<seq<(Key, Value)>, NormalizeError>)
      ensures r == MapRailsFields(setters.Table(), data)
    {
      r := MapRailsFields(Aliases(setters.arrays, setters.objects), data);
    }
  }
}
