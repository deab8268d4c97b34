/**
 * The repository's own examples, stated over the model: the `user_form`
 * schema (a `name`, an array of `friends`, an `account` object), the two
 * Rails nested-attributes submissions and the class names.
 */
module Scenarios {
  import opened Wrappers
  import opened OrderedHash
  import opened Data
  import opened FormSetters
  import opened RailsFields
  import opened ActiveModelForm

  const FriendSchema := Schema([
    ("name", FieldSpec(Some("string"), None, None)),
    ("age", FieldSpec(Some("integer"), None, None))])

  const AccountSchema := Schema([("name", FieldSpec(Some("string"), None, None))])

  const UserSchema := Schema([
    ("name", FieldSpec(Some("string"), None, None)),
    ("friends", FieldSpec(Some("array"), Some(FriendSchema), None)),
    ("account", FieldSpec(None, Some(AccountSchema), None))])

  const UserAliases := Aliases(map["friends_attributes" := "friends"], map["account_attributes" := "account"])

  /** With `"friends".pluralize == "friends"` and `"account".singularize == "account"`, the user form registers exactly these two aliases. */
  lemma UserFormAliases(pluralize: string -> string, singularize: string -> string)
    requires pluralize("friends") == "friends" && singularize("account") == "account"
    ensures Registered(Aliases(map[], map[]), UserSchema.fields, pluralize, singularize) == UserAliases
  {
    var fs := UserSchema.fields;
    var t0 := Aliases(map[], map[]);
    var t2 := Aliases(map["friends_attributes" := "friends"], map[]);
    assert fs == [fs[0]] + [fs[1]] + [fs[2]];
    assert [fs[0]] == [] + [fs[0]];
    RegisteredSnoc(t0, [], fs[0], pluralize, singularize);
    RegisteredSnoc(t0, [fs[0]], fs[1], pluralize, singularize);
    RegisteredSnoc(t0, [fs[0]] + [fs[1]], fs[2], pluralize, singularize);
    assert RegistrationOf(fs[0].0, fs[0].1, pluralize, singularize) == None;
    assert ArrayAttr("friends", pluralize) == "friends_attributes";
    assert RegistrationOf(fs[1].0, fs[1].1, pluralize, singularize) == Some(ArrayAlias("friends_attributes", "friends"));
    assert ObjectAttr("account", singularize) == "account_attributes";
    assert RegistrationOf(fs[2].0, fs[2].1, pluralize, singularize) == Some(ObjectAlias("account_attributes", "account"));
    assert Registered(t0, [fs[0]] + [fs[1]], pluralize, singularize) == t2;
  }

  function Person(name: string, age: int): Value {
    Hash([("name", Str(name)), ("age", Int(age))])
  }

  /** Two entries are rebuilt and stored one after the other. */
  lemma FoldTwo(t: Aliases, e0: (Key, Value), e1: (Key, Value), r0: (Key, Value), r1: (Key, Value))
    requires MapEntry(t, e0) == Ok(r0) && MapEntry(t, e1) == Ok(r1) && r0.0 != r1.0
    ensures MapRailsFields(t, [e0, e1]) == Ok([r0, r1])
  {
    var h := [e0, e1];
    assert h[1..] == [e1] && h[1..][1..] == [];
    assert Put([], r0.0, r0.1) == [r0];
    assert Put([r0], r1.0, r1.1) == [r0, r1];
    assert Fold(t, [], [r0, r1]) == Ok([r0, r1]);
    assert Fold(t, [e1], [r0]) == Fold(t, [], [r0, r1]);
    assert Fold(t, h, []) == Fold(t, [e1], [r0]);
  }

  /** `friends_attributes: {"0" => Joe, "1" => Joan}` arrives as `friends: [Joe, Joan]`. */
  lemma RailsArrayScenario()
    ensures MapRailsFields(UserAliases, [
        ("name", Str("Foo")),
        ("friends_attributes", Hash([("0", Person("Joe", 34)), ("1", Person("Joan", 43))]))])
      == Ok([("name", Str("Foo")), ("friends", Arr([Person("Joe", 34), Person("Joan", 43)]))])
  {
    var friends := [("0", Person("Joe", 34)), ("1", Person("Joan", 43))];
    assert ValuesOf(friends) == [Person("Joe", 34), Person("Joan", 43)];
    assert MapEntry(UserAliases, ("friends_attributes", Hash(friends))) == Ok(("friends", Arr([Person("Joe", 34), Person("Joan", 43)])));
    assert MapEntry(UserAliases, ("name", Str("Foo"))) == Ok(("name", Str("Foo")));
    FoldTwo(UserAliases, ("name", Str("Foo")), ("friends_attributes", Hash(friends)),
      ("name", Str("Foo")), ("friends", Arr([Person("Joe", 34), Person("Joan", 43)])));
  }

  /** The array keeps the submitted order of the indices, not their numeric order. */
  lemma RailsArrayUnsortedScenario()
    ensures MapRailsFields(UserAliases, [("friends_attributes", Hash([("1", Person("Joan", 43)), ("0", Person("Joe", 34))]))])
      == Ok([("friends", Arr([Person("Joan", 43), Person("Joe", 34)]))])
  {
    var friends := [("1", Person("Joan", 43)), ("0", Person("Joe", 34))];
    assert ValuesOf(friends) == [Person("Joan", 43), Person("Joe", 34)];
    var h := [("friends_attributes", Hash(friends))];
    assert MapEntry(UserAliases, h[0]) == Ok(("friends", Arr([Person("Joan", 43), Person("Joe", 34)])));
    assert h[1..] == [];
  }

  /** A plain array under `friends_attributes` has no `values`: the construction fails. */
  lemma RailsArrayNotAHashScenario()
    ensures MapRailsFields(UserAliases, [("friends_attributes", Arr([Person("Joe", 34)]))]) == Err(NotAHash("friends_attributes"))
  {
  }

  /** `account_attributes: {name: "ACME"}` arrives as `account: {name: "ACME"}`. */
  lemma RailsObjectScenario()
    ensures MapRailsFields(UserAliases, [("name", Str("Foo")), ("account_attributes", Hash([("name", Str("ACME"))]))])
      == Ok([("name", Str("Foo")), ("account", Hash([("name", Str("ACME"))]))])
  {
    var acme := [("name", Str("ACME"))];
    assert MapEntry(UserAliases, acme[0]) == Ok(acme[0]);
    assert acme[1..] == [];
    assert Put([], "name", Str("ACME")) == acme;
    assert Fold(UserAliases, acme, []) == Ok(acme);
    assert MapEntry(UserAliases, ("account_attributes", Hash(acme))) == Ok(("account", Hash(acme)));
    assert MapEntry(UserAliases, ("name", Str("Foo"))) == Ok(("name", Str("Foo")));
    FoldTwo(UserAliases, ("name", Str("Foo")), ("account_attributes", Hash(acme)), ("name", Str("Foo")), ("account", Hash(acme)));
  }

  /** A class bound to a constant keeps that name; `name=` only names anonymous classes. */
  method NamedClassScenario(setters: SetterTable) returns (named: Option<string>, anonymous: Option<string>)
    ensures named == Some("FriendForm") && anonymous == Some("friend")
  {
    var friendForm := new FormClass(setters, Some("FriendForm"));
    friendForm.SetName("friend");
    named := friendForm.Name();
    var anon := new FormClass(setters, None);
    anon.SetName("friend");
    anonymous := anon.Name();
  }
}
