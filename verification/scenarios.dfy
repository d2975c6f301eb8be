/**
 * Client code over the engine, one method per documented use: the subjects
 * are the test fixtures `TestPojo` (a bean with `getName()`) and
 * `TestRecord` (a record with accessors `name()`, `age()`, `height()`).
 */
module Scenarios {
  import opened Values
  import Validation
  import Exceptions
  import Resolver
  import opened TestValidators
  import opened Engine

  /** A `TestPojo`: the getter `getName()` is the only member the table models. */
  function TestPojo(name: Value): Subject {
    Subject(map["getName" := Returns(name)])
  }

  /** A `TestRecord`: record accessors named exactly after the components. */
  function TestRecord(name: Value, age: Value, height: Value): Subject {
    Subject(map["name" := Returns(name), "age" := Returns(age), "height" := Returns(height)])
  }

  /** The errors of the documented example after its first and after its last call. */
  const NAME_ERROR: ErrorMap := map[Some("name") := Some("name is required")]
  const BOTH_ERRORS: ErrorMap := map[Some("name") := Some("name is required"),
                                     Some("height") := Some("height must be greater than zero")]

  /** The record's components are read through its exact-name accessors, as it has no getters. */
  lemma RecordAccessors(name: Value, age: Value, height: Value)
    ensures var r := TestRecord(name, age, height);
      && Resolver.GetFieldValue(r, "name") == name
      && Resolver.GetFieldValue(r, "age") == age
      && Resolver.GetFieldValue(r, "height") == height
  {
    var r := TestRecord(name, age, height);
    assert Resolver.GetterName("name") == "getName";
    assert Resolver.GetterName("age") == "getAge";
    assert Resolver.GetterName("height") == "getHeight";
    Resolver.ResolvesThroughAccessor(r, "name", name);
    Resolver.ResolvesThroughAccessor(r, "age", age);
    Resolver.ResolvesThroughAccessor(r, "height", height);
  }

  /** `validate(null, "name", required)` on an empty map writes `name is required`. */
  lemma NameStep()
    ensures Validation.ValidateValue(map[], Null, Some("name"), Some([Required]))
         == Validation.Step(None, NAME_ERROR)
  {
    assert "name" + " is required" == "name is required";
    Validation.RecordsFirstFailure(map[], Null, "name", [Required], 0);
  }

  /** `validate(2, "age", required, positive)`: both pass, nothing is written. */
  lemma AgeStep()
    ensures Validation.ValidateValue(NAME_ERROR, Num(2), Some("age"), Some([Required, Positive]))
         == Validation.Step(None, NAME_ERROR)
  {
    Validation.PassingChainKeepsEntry(NAME_ERROR, Num(2), "age", [Required, Positive]);
  }

  /** `validate(-3, "height", required, positive)`: `positive` fails and its message is added. */
  lemma HeightStep()
    ensures Validation.ValidateValue(NAME_ERROR, Num(-3), Some("height"), Some([Required, Positive]))
         == Validation.Step(None, BOTH_ERRORS)
  {
    assert "height" + " must be greater than zero" == "height must be greater than zero";
    Validation.RecordsFirstFailure(NAME_ERROR, Num(-3), "height", [Required, Positive], 1);
    assert NAME_ERROR[Some("height") := Some("height must be greater than zero")] == BOTH_ERRORS;
  }

  /**
   * The documented example: `name` fails `required`, `age = 2` passes both
   * validators, `height = -3` passes `required` and fails `positive`.
   * `checkHasErrors` then raises with exactly that map and the record.
   */
  method DocumentationExample() returns (errors: ErrorMap, thrown: Option<Exceptions.VerdictException>)
    ensures errors == map[Some("name") := Some("name is required"),
                          Some("height") := Some("height must be greater than zero")]
    ensures thrown == Some(Exceptions.VerdictException(errors, Some(TestRecord(Null, Num(2), Num(-3)))))
  {
    var data := TestRecord(Null, Num(2), Num(-3));
    var v := new Verdict.WithData(data);
    ghost var ran: nat;
    var t: Option<Validation.Failure>;
    RecordAccessors(Null, Num(2), Num(-3));
    Validation.ValidateFieldResolves(map[], data, "name", Some([Required]));
    NameStep();
    t, ran := v.Validate(Some("name"), Some([Required]));
    Validation.ValidateFieldResolves(NAME_ERROR, data, "age", Some([Required, Positive]));
    AgeStep();
    t, ran := v.Validate(Some("age"), Some([Required, Positive]));
    Validation.ValidateFieldResolves(NAME_ERROR, data, "height", Some([Required, Positive]));
    HeightStep();
    t, ran := v.Validate(Some("height"), Some([Required, Positive]));
    errors := v.errors;
    assert Some("name") in errors;
    thrown := v.CheckHasErrors();
  }

  /**
   * The failures raised by bad arguments: no validators, then an empty name,
   * then the data-bound overload on an engine built without data. None of
   * them leaves an entry behind.
   */
  method EdgeCases() returns (noValidator: Option<Validation.Failure>, noName: Option<Validation.Failure>,
                              noData: Option<Validation.Failure>, errors: ErrorMap)
    ensures noValidator == Some(Validation.IllegalArgument(Validation.NEED_VALIDATOR))
    ensures noName == Some(Validation.IllegalArgument(Validation.NEED_NAME))
    ensures noData == Some(Validation.IllegalState(Validation.NEED_DATA))
    ensures errors == map[]
  {
    var v := new Verdict();
    ghost var ran: nat;
    noValidator, ran := v.ValidateValue(Str("abc"), Some("name"), Some([]));
    noName, ran := v.ValidateValue(Str("abc"), Some(""), Some([Required]));
    noData, ran := v.Validate(Some("name"), Some([Required]));
    errors := v.errors;
  }

  /** `validate(value, "name", required)` on a fresh engine records an error exactly when `required` rejects the value. */
  method InlineRequired(value: Value) returns (failed: bool)
    ensures failed <==> value == Null || value == Str("") || value == Num(0)
  {
    var v := new Verdict();
    ghost var ran: nat;
    var t;
    t, ran := v.ValidateValue(value, Some("name"), Some([Required]));
    failed := v.HasErrorOn(Some("name"));
  }

  /** The data-bound overload on a bean reads the field through `getName()`. */
  method PojoRequired(name: Value) returns (failed: bool)
    ensures failed <==> name == Null || name == Str("") || name == Num(0)
  {
    var v := new Verdict.WithData(TestPojo(name));
    ghost var ran: nat;
    var t;
    assert Resolver.GetterName("name") == "getName";
    t, ran := v.Validate(Some("name"), Some([Required]));
    failed := v.HasErrorOn(Some("name"));
  }

  /** The data-bound overload on a record, which has no `getName()`, falls back to `name()`. */
  method RecordRequired(name: Value) returns (failed: bool)
    ensures failed <==> name == Null || name == Str("") || name == Num(0)
  {
    var v := new Verdict.WithData(TestRecord(name, Null, Null));
    ghost var ran: nat;
    var t;
    assert Resolver.GetterName("name") == "getName";
    t, ran := v.Validate(Some("name"), Some([Required]));
    failed := v.HasErrorOn(Some("name"));
  }

  /**
   * Validating `name` again with a value that passes does not clear the
   * error recorded by the first call.
   */
  method RevalidationKeepsError() returns (message: JString)
    ensures message == Some("name is required")
  {
    var v := new Verdict();
    ghost var ran: nat;
    var t;
    assert "name" + " is required" == "name is required";
    Validation.RecordsFirstFailure(map[], Null, "name", [Required], 0);
    t, ran := v.ValidateValue(Null, Some("name"), Some([Required]));
    assert v.errors == map[Some("name") := Some("name is required")];
    Validation.PassingChainKeepsEntry(v.errors, Str("John"), "name", [Required]);
    t, ran := v.ValidateValue(Str("John"), Some("name"), Some([Required]));
    message := v.GetErrorOn(Some("name"));
  }

  /**
   * In the chain `required, positive` a null value stops at `required`:
   * `positive` is never invoked.
   */
  method ShortCircuit() returns (message: JString, ghost ran: nat)
    ensures message == Some("age is required") && ran == 1
  {
    var v := new Verdict();
    var t;
    assert "age" + " is required" == "age is required";
    Validation.ChainStopsAt([Required, Positive], Null, "age", 0);
    t, ran := v.ValidateValue(Null, Some("age"), Some([Required, Positive]));
    assert v.errors == map[Some("age") := Some("age is required")];
    message := v.GetErrorOn(Some("age"));
  }

  /** `addErrorOn(f, null)` makes `hasErrors()` true while `hasErrorOn(f)` stays false. */
  method NullMessage() returns (any: bool, on: bool)
    ensures any && !on
  {
    var v := new Verdict();
    v.AddErrorOn(Some("name"), None);
    any := v.HasErrors();
    on := v.HasErrorOn(Some("name"));
  }
}
