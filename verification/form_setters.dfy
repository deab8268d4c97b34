/**
 * The alias table `parametric_rails_form_setters`: for every array field it
 * maps the Rails nested-attributes key `<plural>_attributes` to the
 * collection name, and for every other field with a nested schema it maps
 * `<singular>_attributes` to the object name.
 */
module FormSetters {
  import opened Wrappers
  import opened OrderedHash
  import opened Data

  /** The two tables, `[:arrays]` and `[:objects]`: setter key -> canonical key. */
  datatype Aliases = Aliases(arrays: map<Key, Key>, objects: map<Key, Key>)

  const Suffix: string := "_attributes"

  /** What one field adds to the tables. */
  datatype Registration = ArrayAlias(attr: Key, name: Key) | ObjectAlias(attr: Key, name: Key)

  predicate IsArrayField(f: FieldSpec) {
    f.typeTag == Some("array")
  }

  /**
   * The registration for field `key`, with the branch conditions as the
   * source writes them; the `IsArrayField(f)` disjunct of the second branch
   * never decides anything, so a non-array field registers exactly when it
   * has a nested schema.
   */
  function RegistrationOf(key: Key, f: FieldSpec, pluralize: string -> string, singularize: string -> string): (r: Option<Registration>)
    ensures r.None? <==> !IsArrayField(f) && f.schema.None?
    ensures IsArrayField(f) ==> r == Some(ArrayAlias(ArrayAttr(key, pluralize), pluralize(key)))
    ensures !IsArrayField(f) && f.schema.Some? ==> r == Some(ObjectAlias(ObjectAttr(key, singularize), singularize(key)))
  {
    if IsArrayField(f) then
      Some(ArrayAlias(ArrayAttr(key, pluralize), pluralize(key)))
    else if IsArrayField(f) || f.schema.Some? then
      Some(ObjectAlias(ObjectAttr(key, singularize), singularize(key)))
    else
      None
  }

  function Register(t: Aliases, r: Option<Registration>): Aliases {
    match r
    case None => t
    case Some(ArrayAlias(attr, name)) => t.(arrays := t.arrays[attr := name])
    case Some(ObjectAlias(attr, name)) => t.(objects := t.objects[attr := name])
  }

  /** The tables after registering `fields` in order on top of `t`; registering never removes a key. */
  function Registered(t: Aliases, fields: seq<(Key, FieldSpec)>, pluralize: string -> string, singularize: string -> string): (r: Aliases)
    ensures t.arrays.Keys <= r.arrays.Keys && t.objects.Keys <= r.objects.Keys
  {
    if fields == [] then t
    else
      var last := fields[|fields| - 1];
      Register(Registered(t, fields[..|fields| - 1], pluralize, singularize),
               RegistrationOf(last.0, last.1, pluralize, singularize))
  }

  /** Registering one more field after `fields`. */
  lemma RegisteredSnoc(t: Aliases, fields: seq<(Key, FieldSpec)>, f: (Key, FieldSpec), pluralize: string -> string, singularize: string -> string)
    ensures Registered(t, fields + [f], pluralize, singularize) ==
      Register(Registered(t, fields, pluralize, singularize), RegistrationOf(f.0, f.1, pluralize, singularize))
  {
    assert (fields + [f])[..|fields|] == fields;
  }

  /** The setter key an array field registers. */
  function ArrayAttr(key: Key, pluralize: string -> string): Key {
    pluralize(key) + Suffix
  }

  /** The setter key a nested-object field registers. */
  function ObjectAttr(key: Key, singularize: string -> string): Key {
    singularize(key) + Suffix
  }

  predicate IsObjectField(f: FieldSpec) {
    !IsArrayField(f) && f.schema.Some?
  }

  /** A key is in the arrays table exactly when it was there or some array field registers it. */
  lemma {:induction false} ArrayAliasKeys(t: Aliases, fields: seq<(Key, FieldSpec)>, pluralize: string -> string, singularize: string -> string, attr: Key)
    ensures attr in Registered(t, fields, pluralize, singularize).arrays <==>
      attr in t.arrays ||
      exists i :: 0 <= i < |fields| && IsArrayField(fields[i].1) && ArrayAttr(fields[i].0, pluralize) == attr
  {
    if fields != [] {
      var init := fields[..|fields| - 1];
      ArrayAliasKeys(t, init, pluralize, singularize, attr);
      assert forall i :: 0 <= i < |init| ==> init[i] == fields[i];
    }
  }

  /** A key is in the objects table exactly when it was there or some nested-object field registers it. */
  lemma {:induction false} ObjectAliasKeys(t: Aliases, fields: seq<(Key, FieldSpec)>, pluralize: string -> string, singularize: string -> string, attr: Key)
    ensures attr in Registered(t, fields, pluralize, singularize).objects <==>
      attr in t.objects ||
      exists i :: 0 <= i < |fields| && IsObjectField(fields[i].1) && ObjectAttr(fields[i].0, singularize) == attr
  {
    if fields != [] {
      var init := fields[..|fields| - 1];
      ObjectAliasKeys(t, init, pluralize, singularize, attr);
      assert forall i :: 0 <= i < |init| ==> init[i] == fields[i];
    }
  }

  /** An array field's setter key names its pluralized collection, unless a later array field registers the same key. */
  lemma {:induction false} ArrayAliasRegistered(t: Aliases, fields: seq<(Key, FieldSpec)>, pluralize: string -> string, singularize: string -> string, i: nat)
    requires i < |fields| && IsArrayField(fields[i].1)
    requires forall j :: i < j < |fields| && IsArrayField(fields[j].1) ==> ArrayAttr(fields[j].0, pluralize) != ArrayAttr(fields[i].0, pluralize)
    ensures ArrayAttr(fields[i].0, pluralize) in Registered(t, fields, pluralize, singularize).arrays
    ensures Registered(t, fields, pluralize, singularize).arrays[ArrayAttr(fields[i].0, pluralize)] == pluralize(fields[i].0)
  {
    var init := fields[..|fields| - 1];
    if i < |fields| - 1 {
      assert forall j :: 0 <= j < |init| ==> init[j] == fields[j];
      ArrayAliasRegistered(t, init, pluralize, singularize, i);
    }
  }

  /** A nested-object field's setter key names its singularized object, unless a later such field registers the same key. */
  lemma {:induction false} ObjectAliasRegistered(t: Aliases, fields: seq<(Key, FieldSpec)>, pluralize: string -> string, singularize: string -> string, i: nat)
    requires i < |fields| && IsObjectField(fields[i].1)
    requires forall j :: i < j < |fields| && IsObjectField(fields[j].1) ==> ObjectAttr(fields[j].0, singularize) != ObjectAttr(fields[i].0, singularize)
    ensures ObjectAttr(fields[i].0, singularize) in Registered(t, fields, pluralize, singularize).objects
    ensures Registered(t, fields, pluralize, singularize).objects[ObjectAttr(fields[i].0, singularize)] == singularize(fields[i].0)
  {
    var init := fields[..|fields| - 1];
    if i < |fields| - 1 {
      assert forall j :: 0 <= j < |init| ==> init[j] == fields[j];
      ObjectAliasRegistered(t, init, pluralize, singularize, i);
    }
  }

  /** An array alias already in the table keeps its name when no array field of `fields` registers its key. */
  lemma {:induction false} ArrayAliasKept(t: Aliases, fields: seq<(Key, FieldSpec)>, pluralize: string -> string, singularize: string -> string, attr: Key)
    requires attr in t.arrays
    requires forall i :: 0 <= i < |fields| && IsArrayField(fields[i].1) ==> ArrayAttr(fields[i].0, pluralize) != attr
    ensures attr in Registered(t, fields, pluralize, singularize).arrays
    ensures Registered(t, fields, pluralize, singularize).arrays[attr] == t.arrays[attr]
  {
    if fields != [] {
      var init := fields[..|fields| - 1];
      assert forall j :: 0 <= j < |init| ==> init[j] == fields[j];
      ArrayAliasKept(t, init, pluralize, singularize, attr);
    }
  }

  /** An object alias already in the table keeps its name when no nested-object field of `fields` registers its key. */
  lemma {:induction false} ObjectAliasKept(t: Aliases, fields: seq<(Key, FieldSpec)>, pluralize: string -> string, singularize: string -> string, attr: Key)
    requires attr in t.objects
    requires forall i :: 0 <= i < |fields| && IsObjectField(fields[i].1) ==> ObjectAttr(fields[i].0, singularize) != attr
    ensures attr in Registered(t, fields, pluralize, singularize).objects
    ensures Registered(t, fields, pluralize, singularize).objects[attr] == t.objects[attr]
  {
    if fields != [] {
      var init := fields[..|fields| - 1];
      assert forall j :: 0 <= j < |init| ==> init[j] == fields[j];
      ObjectAliasKept(t, init, pluralize, singularize, attr);
    }
  }

  /** Scalar fields (no array type, no nested schema) register nothing. */
  lemma {:induction false} ScalarFieldsRegisterNothing(t: Aliases, fields: seq<(Key, FieldSpec)>, pluralize: string -> string, singularize: string -> string)
    requires forall i :: 0 <= i < |fields| ==> !IsArrayField(fields[i].1) && fields[i].1.schema.None?
    ensures Registered(t, fields, pluralize, singularize) == t
  {
    if fields != [] {
      var init := fields[..|fields| - 1];
      assert forall j :: 0 <= j < |init| ==> init[j] == fields[j];
      ScalarFieldsRegisterNothing(t, init, pluralize, singularize);
    }
  }

  /**
   * The shared `{arrays: {}, objects: {}}` hash. It is created once and
   * every form class holds the same object, so registrations made while
   * defining one schema are seen by every other form class.
   */
  class SetterTable {
    var arrays: map<Key, Key>
    var objects: map<Key, Key>

    constructor ()
      ensures arrays == map[] && objects == map[]
    {
      arrays := map[];
      objects := map[];
    }

    function Table(): Aliases
      reads this
    {
      Aliases(arrays, objects)
    }

    /** `parametric_after_define_schema`: registers the aliases of every field of `schema`, in place. */
    method AfterDefineSchema(schema: Schema, pluralize: string -> string, singularize: string -> string)
      modifies this
      ensures Table() == Registered(old(Table()), schema.fields, pluralize, singularize)
    {
      var fields := schema.fields;
      for i := 0 to |fields|
        invariant Table() == Registered(old(Table()), fields[..i], pluralize, singularize)
      {
        assert fields[..i + 1][..i] == fields[..i];
        var (key, field) := fields[i];
        if field.typeTag == Some("array") {
          arrays := arrays[ArrayAttr(key, pluralize) := pluralize(key)];
        } else if field.typeTag == Some("array") || field.schema.Some? {
          objects := objects[ObjectAttr(key, singularize) := singularize(key)];
        }
      }
      assert fields[..|fields|] == fields;
    }
  }
}
