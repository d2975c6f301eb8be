/**
 * The validation engine `Verdict`: a mutable error map, and the subject
 * (with its class) fixed at construction. Both `validate` overloads and
 * `addErrorOn` update the map in place; the queries only read it.
 */
module Engine {
  import opened Values
  import Validation
  import Exceptions
  import Resolver

  class Verdict {
    /** Field name to message; the only state that changes. */
    var errors: ErrorMap
    /** The data under validation, or `null`; its member table stands for its class too. */
    const data: Option<Subject>

    /** `new Verdict()`: no data, no errors. */
    constructor ()
      ensures errors == map[] && data == None
    {
      errors := map[];
      data := None;
    }

    /** `new Verdict(data)`: the data is held for the engine's whole life. */
    constructor WithData(subject: Subject)
      ensures errors == map[] && data == Some(subject)
    {
      errors := map[];
      data := Some(subject);
    }

    /** `getErrors()`: the map the queries read, as it is now. */
    function GetErrors(): (r: ErrorMap)
      reads this
      ensures r == errors
      ensures r == map[] <==> !HasErrors()
      ensures forall field :: field in r ==> GetErrorOn(field) == r[field]
      ensures forall field :: field !in r ==> !HasErrorOn(field)
    {
      errors
    }

    /**
     * `getData()`: the subject given to the constructor; `null` exactly when
     * the data-bound `validate` raises `IllegalStateException`.
     */
    function GetData(): (r: Option<Subject>)
      ensures r == data
      ensures forall m, name, vs ::
                (Validation.ValidateField(m, r, name, vs).thrown.Some?
                 && Validation.ValidateField(m, r, name, vs).thrown.value.IllegalState?) <==> r.None?
    {
      data
    }

    /** `getErrorOn(field)`: the stored message, or `null` when absent or stored as `null`. */
    function GetErrorOn(field: JString): (r: JString)
      reads this
      ensures field in errors ==> r == errors[field]
      ensures field !in errors ==> r.None?
    {
      if field in errors then errors[field] else None
    }

    /** `hasErrors()`: some entry exists, even one whose message is `null`. */
    function HasErrors(): (b: bool)
      reads this
      ensures b <==> exists field :: field in errors
      ensures !b ==> forall field :: GetErrorOn(field).None?
    {
      errors != map[]
    }

    /** `hasErrorOn(field)`: tests `get(field) != null`, not the presence of the key. */
    function HasErrorOn(field: JString): (b: bool)
      reads this
      ensures b <==> field in errors && errors[field].Some?
      ensures b ==> HasErrors()
    {
      GetErrorOn(field).Some?
    }

    /** `addErrorOn(field, error)`: an unconditional `put`, `null` message included. */
    method AddErrorOn(field: JString, error: JString)
      modifies this
      ensures errors == old(errors)[field := error]
      ensures HasErrors() && GetErrorOn(field) == error
      ensures HasErrorOn(field) <==> error.Some?
      ensures errors - {field} == old(errors) - {field}
    {
      errors := errors[field := error];
      assert field in errors;
    }

    /** `checkHasErrors()`: raises a `VerdictException` carrying the current map and data exactly when there are errors. */
    method CheckHasErrors() returns (thrown: Option<Exceptions.VerdictException>)
      ensures thrown.Some? <==> HasErrors()
      ensures thrown.Some? ==> thrown.value.GetErrors() == GetErrors() && thrown.value.GetData() == GetData()
    {
      if HasErrors() {
        thrown := Some(Exceptions.VerdictException(errors, data));
      } else {
        thrown := None;
      }
    }

    /**
     * `validate(value, name, validators...)`. `ran` counts the validators
     * invoked: none when an argument is rejected, up to and including the
     * first failing one otherwise.
     */
    method ValidateValue(value: Value, name: JString, validators: Option<seq<Validation.Validator>>)
      returns (thrown: Option<Validation.Failure>, ghost ran: nat)
      modifies this
      ensures Validation.Step(thrown, errors) == Validation.ValidateValue(old(errors), value, name, validators)
      ensures thrown.Some? ==> ran == 0 && errors == old(errors)
      ensures thrown.None? ==> ran == match Validation.FirstFailure(validators.value, value, name.value)
                                       case Some(k) => k + 1
                                       case None => |validators.value|
      ensures errors - {name} == old(errors) - {name}
    {
      if validators.None? || |validators.value| == 0 {
        return Some(Validation.IllegalArgument(Validation.NEED_VALIDATOR)), 0;
      }
      if name.None? || name.value == "" {
        return Some(Validation.IllegalArgument(Validation.NEED_NAME)), 0;
      }
      var vs := validators.value;
      thrown := None;
      ran := 0;
      for i := 0 to |vs|
        invariant forall j :: 0 <= j < i ==> vs[j](value, name.value).None?
        invariant errors == old(errors)
        invariant ran == i
      {
        var message := vs[i](value, name.value);
        ran := ran + 1;
        if message.Some? {
          errors := errors[name := message];
          Validation.ChainStopsAt(vs, value, name.value, i);
          return;
        }
      }
    }

    /**
     * `validate(name, validators...)`: requires data, resolves the field
     * through the subject's accessors, then runs the value overload.
     */
    method Validate(name: JString, validators: Option<seq<Validation.Validator>>)
      returns (thrown: Option<Validation.Failure>, ghost ran: nat)
      modifies this
      ensures Validation.Step(thrown, errors) == Validation.ValidateField(old(errors), data, name, validators)
      ensures data.None? ==> thrown == Some(Validation.IllegalState(Validation.NEED_DATA))
      ensures thrown.Some? ==> errors == old(errors)
      ensures thrown.Some? ==> ran == 0
      ensures thrown.None? ==> ran == match Validation.FirstFailure(validators.value,
                                              Resolver.GetFieldValue(data.value, name.value), name.value)
                                       case Some(k) => k + 1
                                       case None => |validators.value|
    {
      if data.None? {
        return Some(Validation.IllegalState(Validation.NEED_DATA)), 0;
      }
      if name.None? {
        return Some(Validation.NullPointer), 0;
      }
      if name.value == "" {
        return Some(Validation.StringIndexOutOfBounds), 0;
      }
      var value := Resolver.GetFieldValue(data.value, name.value);
      thrown, ran := ValidateValue(value, name, validators);
    }
  }

  /** A `null` message stored with `addErrorOn` is an error for `hasErrors` but not for `hasErrorOn`. */
  lemma NullEntryCountsOnlyForHasErrors(v: Verdict, field: JString)
    requires field in v.errors && v.errors[field].None?
    ensures v.HasErrors() && !v.HasErrorOn(field) && v.GetErrorOn(field).None?
  {
  }
}
