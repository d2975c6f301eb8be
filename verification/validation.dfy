/**
 * What one `validate` call does to the error map, as pure functions: the
 * short-circuiting validator chain, the argument checks of the value
 * overload, and the data check and field resolution of the data-bound
 * overload. The class `Verdict` (module Engine) is proved against these.
 */
module Validation {
  import opened Values
  import Resolver

  /** `Verdict.Validator`: the message for a failing value, or `null` when it passes. */
  type Validator = (Value, string) -> JString

  /** The unchecked exceptions `validate` can raise. */
  datatype Failure =
    | IllegalArgument(message: string)
    | IllegalState(message: string)
    | NullPointer
    | StringIndexOutOfBounds

  const NEED_VALIDATOR := "You need to pass at least one validator"
  const NEED_NAME := "You need to pass a name"
  const NEED_DATA := "You need to pass an object to be validated at the constructor if you want to use FieldValidator::validate without passing the value"

  /** The exception a call raised, if any, and the error map after it. */
  datatype Step = Step(thrown: Option<Failure>, errors: ErrorMap)

  /**
   * The position of the first validator that returns a non-null message
   * (an empty message counts), or `None` when all of them return `null`.
   */
  function FirstFailure(vs: seq<Validator>, value: Value, name: string): (r: Option<nat>)
    ensures r.Some? ==> r.value < |vs| && vs[r.value](value, name).Some?
    ensures r.Some? ==> forall j :: 0 <= j < r.value ==> vs[j](value, name).None?
    ensures r.None? ==> forall j :: 0 <= j < |vs| ==> vs[j](value, name).None?
    decreases |vs|
  {
    if |vs| == 0 then None
    else if vs[0](value, name).Some? then Some(0)
    else match FirstFailure(vs[1..], value, name)
      case None => None
      case Some(k) => Some(k + 1)
  }

  /** The message the chain records: that of the first failing validator. */
  function Chain(vs: seq<Validator>, value: Value, name: string): (r: JString)
    ensures r.None? <==> forall j :: 0 <= j < |vs| ==> vs[j](value, name).None?
    ensures r.Some? ==> exists k :: 0 <= k < |vs| && vs[k](value, name) == r
  {
    match FirstFailure(vs, value, name)
    case None => None
    case Some(k) => vs[k](value, name)
  }

  /** Any validator whose predecessors all pass decides the chain. */
  lemma ChainStopsAt(vs: seq<Validator>, value: Value, name: string, k: nat)
    requires k < |vs| && vs[k](value, name).Some?
    requires forall j :: 0 <= j < k ==> vs[j](value, name).None?
    ensures FirstFailure(vs, value, name) == Some(k)
    ensures Chain(vs, value, name) == vs[k](value, name)
  {
  }

  /**
   * Running `a` and then `b` in one call: the first failure of `a` if it has
   * one (so `b` never matters), the first failure of `b` otherwise.
   */
  lemma {:induction false} ChainAppend(a: seq<Validator>, b: seq<Validator>, value: Value, name: string)
    ensures Chain(a + b, value, name) == if Chain(a, value, name).Some? then Chain(a, value, name) else Chain(b, value, name)
    decreases |a|
  {
    if |a| > 0 {
      assert (a + b)[0] == a[0];
      assert (a + b)[1..] == a[1..] + b;
      ChainAppend(a[1..], b, value, name);
      if a[0](value, name).Some? {
        ChainStopsAt(a, value, name, 0);
        ChainStopsAt(a + b, value, name, 0);
      } else {
        ChainOfTail(a, value, name);
        ChainOfTail(a + b, value, name);
      }
    } else {
      assert a + b == b;
    }
  }

  /** A chain whose head passes behaves as its tail. */
  lemma ChainOfTail(vs: seq<Validator>, value: Value, name: string)
    requires |vs| > 0 && vs[0](value, name).None?
    ensures Chain(vs, value, name) == Chain(vs[1..], value, name)
  {
    match FirstFailure(vs[1..], value, name)
    case None =>
    case Some(k) => assert vs[1..][k] == vs[k + 1];
  }

  /**
   * `validate(value, name, validators...)`: the validator count is checked
   * first, then the name; then the first non-null message, if any, is put
   * under `name`.
   */
  function ValidateValue(m: ErrorMap, value: Value, name: JString, validators: Option<seq<Validator>>): (r: Step)
    ensures r.thrown.Some? ==> r.errors == m
  {
    if validators.None? || |validators.value| == 0 then Step(Some(IllegalArgument(NEED_VALIDATOR)), m)
    else if name.None? || name.value == "" then Step(Some(IllegalArgument(NEED_NAME)), m)
    else match Chain(validators.value, value, name.value)
      case None => Step(None, m)
      case Some(message) => Step(None, m[name := Some(message)])
  }

  /** Zero validators, or a null array, is rejected whatever the name, before any validator runs. */
  lemma MissingValidatorsRejected(m: ErrorMap, value: Value, name: JString, validators: Option<seq<Validator>>)
    requires validators.None? || validators.value == []
    ensures ValidateValue(m, value, name, validators) == Step(Some(IllegalArgument(NEED_VALIDATOR)), m)
  {
  }

  /** With validators present, a null or empty name is rejected and the map is left alone. */
  lemma MissingNameRejected(m: ErrorMap, value: Value, name: JString, vs: seq<Validator>)
    requires |vs| > 0
    requires name.None? || name.value == ""
    ensures ValidateValue(m, value, name, Some(vs)) == Step(Some(IllegalArgument(NEED_NAME)), m)
  {
  }

  /**
   * The validator at position `k` fails and all before it pass: exactly its
   * message is stored under `name`, even when it is the empty string, and
   * the rest of the map is as before.
   */
  lemma RecordsFirstFailure(m: ErrorMap, value: Value, name: string, vs: seq<Validator>, k: nat)
    requires name != ""
    requires k < |vs| && vs[k](value, name).Some?
    requires forall j :: 0 <= j < k ==> vs[j](value, name).None?
    ensures ValidateValue(m, value, Some(name), Some(vs)) == Step(None, m[Some(name) := vs[k](value, name)])
  {
    ChainStopsAt(vs, value, name, k);
  }

  /**
   * When every validator passes the map is exactly as before: an entry left
   * for `name` by an earlier call is not cleared.
   */
  lemma PassingChainKeepsEntry(m: ErrorMap, value: Value, name: string, vs: seq<Validator>)
    requires name != "" && |vs| > 0
    requires forall j :: 0 <= j < |vs| ==> vs[j](value, name).None?
    ensures ValidateValue(m, value, Some(name), Some(vs)) == Step(None, m)
    ensures Some(name) in m ==> Some(name) in ValidateValue(m, value, Some(name), Some(vs)).errors
  {
  }

  /** Only the entry for `name` can change, and no key ever disappears. */
  lemma OnlyNameChanges(m: ErrorMap, value: Value, name: JString, validators: Option<seq<Validator>>)
    ensures var r := ValidateValue(m, value, name, validators);
      m.Keys <= r.errors.Keys && r.errors.Keys <= m.Keys + {name}
      && forall k :: k in m && k != name ==> r.errors[k] == m[k]
  {
  }

  /** Repeating a `validate` call with the same arguments changes nothing more. */
  lemma ValidateValueIdempotent(m: ErrorMap, value: Value, name: JString, validators: Option<seq<Validator>>)
    ensures var once := ValidateValue(m, value, name, validators);
      ValidateValue(once.errors, value, name, validators) == once
  {
  }

  /** Validating two different fields gives the same map in either order. */
  lemma DistinctFieldsCommute(m: ErrorMap, v1: Value, n1: JString, vs1: Option<seq<Validator>>,
                              v2: Value, n2: JString, vs2: Option<seq<Validator>>)
    requires n1 != n2
    ensures ValidateValue(ValidateValue(m, v1, n1, vs1).errors, v2, n2, vs2).errors
         == ValidateValue(ValidateValue(m, v2, n2, vs2).errors, v1, n1, vs1).errors
  {
  }

  /**
   * The data-bound `validate(name, validators...)`: the data check comes
   * first, then the getter name is built (which throws on a null or empty
   * name, outside any handler), then the field is resolved and the value
   * overload runs, with its own argument checks.
   */
  function ValidateField(m: ErrorMap, data: Option<Subject>, name: JString, validators: Option<seq<Validator>>): (r: Step)
    ensures r.thrown.Some? ==> r.errors == m
  {
    if data.None? then Step(Some(IllegalState(NEED_DATA)), m)
    else if name.None? then Step(Some(NullPointer), m)
    else if name.value == "" then Step(Some(StringIndexOutOfBounds), m)
    else ValidateValue(m, Resolver.GetFieldValue(data.value, name.value), name, validators)
  }

  /** Without data the data-bound overload always raises `IllegalStateException`. */
  lemma NoDataIsIllegalState(m: ErrorMap, name: JString, validators: Option<seq<Validator>>)
    ensures ValidateField(m, None, name, validators) == Step(Some(IllegalState(NEED_DATA)), m)
  {
  }

  /**
   * With data, an empty or null name fails while the getter name is built,
   * before the argument checks: the exception is an index error or a null
   * pointer, not `IllegalArgumentException`, even when no validator is given.
   */
  lemma BadNameWithDataFailsEarly(m: ErrorMap, s: Subject, validators: Option<seq<Validator>>)
    ensures ValidateField(m, Some(s), Some(""), validators) == Step(Some(StringIndexOutOfBounds), m)
    ensures ValidateField(m, Some(s), None, validators) == Step(Some(NullPointer), m)
    ensures ValidateValue(m, Null, None, validators).thrown.value.IllegalArgument?
    ensures ValidateValue(m, Null, Some(""), validators).thrown.value.IllegalArgument?
  {
  }

  /** With data and a non-empty name, the call is the value overload on the resolved field. */
  lemma ValidateFieldResolves(m: ErrorMap, s: Subject, name: string, validators: Option<seq<Validator>>)
    requires name != ""
    ensures ValidateField(m, Some(s), Some(name), validators)
         == ValidateValue(m, Resolver.GetFieldValue(s, name), Some(name), validators)
  {
  }
}
