/**
 * The concrete validators of the test helper `TestVerdict`: `required`,
 * `positive` and `maxLength(size)`. Numbers are `Integer`s, so
 * `intValue()` is the number itself.
 */
module TestValidators {
  import opened Values
  import Validation

  /** `required`: fails on `null`, on the empty string and on the number zero. */
  function Required(value: Value, name: string): (r: JString)
    ensures r.Some? <==> value == Null || value == Str("") || value == Num(0)
    ensures r.Some? ==> r.value == name + " is required"
  {
    if value.Null? || (value.Str? && |value.s| == 0) || (value.Num? && value.n == 0) then
      Some(name + " is required")
    else
      None
  }

  /**
   * `positive`: passes exactly the numbers that are not negative, so zero
   * passes although the message speaks of "greater than zero".
   */
  function Positive(value: Value, name: string): (r: JString)
    ensures r.None? <==> value.Num? && value.n >= 0
    ensures r.Some? ==> r.value == name + " must be greater than zero"
  {
    if value.Null? || !value.Num? || value.n < 0 then
      Some(name + " must be greater than zero")
    else
      None
  }

  /**
   * The check `maxLength(size)` performs: `null` passes; otherwise the
   * `length()` of `toString()`, in UTF-16 code units, is compared.
   */
  function MaxLengthCheck(size: int, value: Value, name: string): (r: JString)
    ensures r.Some? <==> !value.Null? && Utf16Length(Show(value)) > size
    ensures r.Some? ==> r.value == name + " must have maximum " + IntToString(size) + " characters"
  {
    if value.Null? then None
    else if Utf16Length(Show(value)) > size then Some(name + " must have maximum " + IntToString(size) + " characters")
    else None
  }

  /** `maxLength(size)`: the validator that closes over `size`. */
  function MaxLength(size: int): (v: Validation.Validator)
    ensures forall value, name :: v(value, name) == MaxLengthCheck(size, value, name)
  {
    (value: Value, name: string) => MaxLengthCheck(size, value, name)
  }

  /** A string exactly `size` code units long passes `maxLength(size)`; one character more fails. */
  lemma MaxLengthBoundary(size: nat, s: string, name: string)
    requires Utf16Length(s) == size
    ensures MaxLength(size)(Str(s), name).None?
    ensures MaxLength(size)(Str(s + "x"), name) == Some(name + " must have maximum " + IntToString(size) + " characters")
  {
    Utf16LengthAppend(s, "x");
  }

  /**
   * A character outside the Basic Multilingual Plane counts twice: one emoji
   * already exceeds `maxLength(1)`.
   */
  lemma MaxLengthCountsSurrogates(name: string)
    ensures MaxLength(1)(Str("\U{1F600}"), name).Some?
    ensures MaxLength(2)(Str("\U{1F600}"), name).None?
  {
    assert Supplementary("\U{1F600}"[0]);
  }

  /**
   * A number is measured by its decimal rendering, sign included: `-5`
   * exceeds a limit of one character, `5` does not, and `12` fits a limit of two.
   */
  lemma MaxLengthMeasuresDigits(name: string)
    ensures MaxLength(1)(Num(5), name).None?
    ensures MaxLength(1)(Num(-5), name).Some?
    ensures MaxLength(2)(Num(12), name).None?
  {
    assert IntToString(-5) == "-5";
    assert IntToString(12) == "12";
  }

  /**
   * Zero passes `positive` but not `required`; in the chain `required,
   * positive` zero is therefore reported as missing.
   */
  lemma ZeroIsRequiredButPositive(name: string)
    ensures Positive(Num(0), name).None?
    ensures Validation.Chain([Required, Positive], Num(0), name) == Some(name + " is required")
  {
    Validation.ChainStopsAt([Required, Positive], Num(0), name, 0);
  }
}
