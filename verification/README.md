# Verdict validation engine in Dafny

This project models the core of Verdict, a small Java field-validation library.
A `Verdict` engine is built with or without a subject object. Callers then run
`validate` once per field. Each call takes a list of validators, runs them in
order, and stops at the first one that returns a non-null message. That message
goes into a mutable error map under the field's name. Callers read the map back
with `hasErrors`, `hasErrorOn` and `getErrorOn`, write into it directly with
`addErrorOn`, or call `checkHasErrors`, which raises a `VerdictException`
carrying the map and the subject.

The data-bound `validate(name, ...)` overload reads the field from the subject by
convention. It calls the zero-argument method `get` + Capitalised(name). If no
such method exists, it calls the method named exactly `name`. Any reflection
failure gives `null`.

Modules, one per source component:

- `Values` (values.dfy): Java values as data.
  - A nullable string is `Option<string>`.
  - A dynamic value is `Null | Str | Num | Other`.
  - The subject is a table from method name to `Returns(value) | Throws`.
  - The error map is `map<JString, JString>`, so null keys and null messages can be represented.
  - Also holds `Integer.toString` and its inverse.
- `Resolver` (resolver.dfy): the getter-name convention, `extractFieldValue` and `getFieldValue`.
- `Validation` (validation.dfy): the `Validator` interface, the short-circuiting chain, and what each `validate` overload does to the map, as pure functions. The lemmas about them live here too.
- `Engine` (engine.dfy): the class `Verdict`.
  - Its `errors` field is updated in place by `ValidateValue`, `Validate` and `AddErrorOn`.
  - `ValidateValue` and `Validate` are proved against the functions of `Validation`; `AddErrorOn` is proved against an update of the old map.
  - `data` is a `const` set by the constructor.
- `Exceptions` (exception.dfy): `VerdictException` as an immutable datatype.
- `TestValidators` (validators.dfy): the validators `required`, `positive` and `maxLength(size)` from the test helper `TestVerdict`.
- `Scenarios` (scenarios.dfy): client methods that follow the unit tests. They use the fixture subjects `TestPojo` (the table models only `getName()`) and `TestRecord` (accessors `name()`, `age()`, `height()`).

Java's two `validate` overloads become `Verdict.ValidateValue(value, name, validators)`
and `Verdict.Validate(name, validators)`. An exception the Java code raises is
returned as `thrown: Option<Failure>`; when it is `Some`, the error map is unchanged.
A null validator array is `None` for the `validators` argument. The ghost result
`ran` is incremented after every validator call in the loop, so the postcondition
on `ran` states that no validator after the first failing one is invoked.

With data present, the data-bound overload builds the getter name before the
value overload's argument checks run. For the name `""`, `name.substring(0, 1)`
at Verdict.java:174 raises a `StringIndexOutOfBoundsException`, and for a null
name it raises a `NullPointerException`; `getFieldValue` catches neither. So
these calls never reach the `IllegalArgumentException` checks at Verdict.java:131-136.
`Validation.BadNameWithDataFailsEarly` states this.

## Model

| member | source | states |
|---|---|---|
| `Values.IntToString` | src/test/java/io/github/honatas/verdict/TestVerdict.java:33-34 | `Integer.toString`: never empty; it starts with `-` exactly for negative numbers, followed by decimal digits with no leading zero |
| `Values.DigitsRoundTrip` | src/test/java/io/github/honatas/verdict/TestVerdict.java:33-34 | reading back the decimal digits of a natural number gives the number |
| `Values.IntToStringRoundTrip` | src/test/java/io/github/honatas/verdict/TestVerdict.java:33-34 | parsing the decimal rendering of any integer gives it back, so the limit in a `maxLength` message is unambiguous |
| `Values.Show` | src/test/java/io/github/honatas/verdict/TestVerdict.java:33 | `toString()` of a string is the string itself; of an `Integer`, its `Integer.toString` rendering, which parses back to the number |
| `Values.Utf16Length` | src/test/java/io/github/honatas/verdict/TestVerdict.java:33 | `length()` counts UTF-16 code units: between one and two per character, and equal to the character count iff no character lies outside the Basic Multilingual Plane |
| `Values.Utf16LengthAppend` | src/test/java/io/github/honatas/verdict/TestVerdict.java:33 | the UTF-16 length of a concatenation is the sum of the two lengths |
| `Resolver.UpperAscii` | src/main/java/io/github/honatas/verdict/Verdict.java:174 | upper-casing the first character maps `a`..`z` to `A`..`Z` and leaves every other character alone |
| `Resolver.GetterName` | src/main/java/io/github/honatas/verdict/Verdict.java:174 | the getter name is `get` followed by the capitalised name; it is three characters longer and never equal to the name itself |
| `Resolver.GetterNameCollision` | src/main/java/io/github/honatas/verdict/Verdict.java:174 | two names share a getter iff their first characters upper-case alike and the rest agree (`age` and `Age` both read `getAge`) |
| `Resolver.Invoke` | src/main/java/io/github/honatas/verdict/Verdict.java:175-176 | `Method.invoke` yields the accessor's return value exactly when it returns; a throwing accessor gives `InvocationTargetException`, never `NoSuchMethodException` |
| `Resolver.ExtractFieldValue` | src/main/java/io/github/honatas/verdict/Verdict.java:172-181 | an existing getter is invoked; only without one is the exact-name member invoked; `NoSuchMethodException` escapes exactly when the subject has neither |
| `Resolver.GetFieldValue` | src/main/java/io/github/honatas/verdict/Verdict.java:164-170 | a non-null result is what extraction produced; a missing member or a throwing accessor both give `null` |
| `Resolver.ResolvesThroughGetter` | src/main/java/io/github/honatas/verdict/Verdict.java:174-176 | when the getter exists, the field is what it returns |
| `Resolver.ThrowingGetterHasNoFallback` | src/main/java/io/github/honatas/verdict/Verdict.java:176-177 | a getter that throws gives `InvocationTargetException` and so `null`; the exact-name member is not tried |
| `Resolver.ResolvesThroughAccessor` | src/main/java/io/github/honatas/verdict/Verdict.java:177-179 | without a getter, the field is what the member named exactly `name` returns |
| `Resolver.ThrowingAccessorIsNull` | src/main/java/io/github/honatas/verdict/Verdict.java:164-179 | without a getter, an exact-name accessor that throws gives `InvocationTargetException`, so the field reads as `null` |
| `Resolver.UnresolvedIsNull` | src/main/java/io/github/honatas/verdict/Verdict.java:164-181 | with neither member, extraction ends in `NoSuchMethodException` and the field reads as `null` |
| `Resolver.GetterShadowsAccessor` | src/main/java/io/github/honatas/verdict/Verdict.java:173-180 | once the getter exists, adding, replacing, making throw or removing the exact-name member cannot change the resolved value |
| `Resolver.LookupFailureLooksLikeNull` | src/main/java/io/github/honatas/verdict/Verdict.java:164-170 | a subject without the member and one whose getter returns `null` differ in extraction but read the same (`null`) |
| `Validation.FirstFailure` | src/main/java/io/github/honatas/verdict/Verdict.java:138-146 | the index found has a non-null message (an empty message counts) and every validator before it returns `null`; no index means all return `null` |
| `Validation.Chain` | src/main/java/io/github/honatas/verdict/Verdict.java:138-146 | the chain records nothing iff every validator passes; otherwise it records the message of one of the validators |
| `Validation.ChainStopsAt` | src/main/java/io/github/honatas/verdict/Verdict.java:139-144 | a failing validator whose predecessors all pass is the one whose message is recorded |
| `Validation.ChainOfTail` | src/main/java/io/github/honatas/verdict/Verdict.java:138-141 | a passing first validator hands the decision to the rest of the list |
| `Validation.ChainAppend` | src/main/java/io/github/honatas/verdict/Verdict.java:138-146 | running `a` then `b` records the first failure of `a` if there is one; otherwise it records the first failure of `b` |
| `Validation.ValidateValue` | src/main/java/io/github/honatas/verdict/Verdict.java:130-147 | whenever an exception is raised, the map is unchanged |
| `Validation.MissingValidatorsRejected` | src/main/java/io/github/honatas/verdict/Verdict.java:131-133 | a null or empty validator list raises `IllegalArgumentException` ("at least one validator") whatever the name; the map is unchanged |
| `Validation.MissingNameRejected` | src/main/java/io/github/honatas/verdict/Verdict.java:134-136 | with validators present, a null or empty name raises `IllegalArgumentException` ("a name"); the map is unchanged |
| `Validation.RecordsFirstFailure` | src/main/java/io/github/honatas/verdict/Verdict.java:138-146 | the message of the first failing validator, `""` included, is put under the name, and nothing else changes |
| `Validation.PassingChainKeepsEntry` | src/main/java/io/github/honatas/verdict/Verdict.java:138-146 | when all validators pass, the map is exactly as before; an earlier entry for the name is not cleared |
| `Validation.OnlyNameChanges` | src/main/java/io/github/honatas/verdict/Verdict.java:143 | no key disappears, the only key that can appear is the name, and every other entry keeps its message |
| `Validation.ValidateValueIdempotent` | src/main/java/io/github/honatas/verdict/Verdict.java:130-147 | repeating a call with the same arguments changes nothing further |
| `Validation.DistinctFieldsCommute` | src/main/java/io/github/honatas/verdict/Verdict.java:143 | calls for two different names give the same map in either order |
| `Validation.ValidateField` | src/main/java/io/github/honatas/verdict/Verdict.java:156-162 | whenever the data-bound overload raises, the map is unchanged |
| `Validation.NoDataIsIllegalState` | src/main/java/io/github/honatas/verdict/Verdict.java:157-159 | without data, every call raises `IllegalStateException` with its message; the map is unchanged |
| `Validation.BadNameWithDataFailsEarly` | src/main/java/io/github/honatas/verdict/Verdict.java:157-174 | with data, the name `""` raises an index exception and a null name a `NullPointerException`, before any argument check; the value overload would have raised `IllegalArgumentException` for both |
| `Validation.ValidateFieldResolves` | src/main/java/io/github/honatas/verdict/Verdict.java:160-161 | with data and a non-empty name, the call is the value overload applied to the resolved field |
| `Engine.Verdict.constructor` | src/main/java/io/github/honatas/verdict/Verdict.java:33-36 | a new engine has no errors and no data |
| `Engine.Verdict.WithData` | src/main/java/io/github/honatas/verdict/Verdict.java:42-46 | a new engine has no errors and holds the given subject |
| `Engine.Verdict.GetErrors` | src/main/java/io/github/honatas/verdict/Verdict.java:52-54 | the returned map is the engine's map itself, null-valued keys included; it is empty iff `hasErrors` is false, and `getErrorOn` reads each of its entries |
| `Engine.Verdict.GetData` | src/main/java/io/github/honatas/verdict/Verdict.java:60-62 | the subject given to the constructor; it is `null` exactly when the data-bound `validate` raises `IllegalStateException`, whatever the map, name and validators |
| `Engine.Verdict.GetErrorOn` | src/main/java/io/github/honatas/verdict/Verdict.java:104-106 | a present key gives the message stored under it, `null` included; an absent key gives `null` |
| `Engine.Verdict.HasErrors` | src/main/java/io/github/honatas/verdict/Verdict.java:68-70 | true iff the map has some entry; when false, `getErrorOn` is `null` for every field |
| `Engine.Verdict.HasErrorOn` | src/main/java/io/github/honatas/verdict/Verdict.java:86-88 | true iff the key is present with a non-null message; it implies `hasErrors` |
| `Engine.Verdict.AddErrorOn` | src/main/java/io/github/honatas/verdict/Verdict.java:95-97 | overwrites the given key with the message, null included; `hasErrors` then holds, `hasErrorOn` holds iff the message is non-null, and no other key changes |
| `Engine.Verdict.CheckHasErrors` | src/main/java/io/github/honatas/verdict/Verdict.java:76-80 | raises iff `hasErrors`, and the exception's `getErrors` and `getData` are the engine's |
| `Engine.Verdict.ValidateValue` | src/main/java/io/github/honatas/verdict/Verdict.java:130-147 | the raised exception and the new map are those of `Validation.ValidateValue`; no validator runs when an argument is rejected; exactly the validators up to the first failure run; no key but the name changes |
| `Engine.Verdict.Validate` | src/main/java/io/github/honatas/verdict/Verdict.java:150-162 | the raised exception and the new map are those of `Validation.ValidateField`; without data it raises `IllegalStateException`; a raise leaves the map unchanged and runs no validator; otherwise exactly the validators up to the first failure on the resolved field run |
| `Engine.NullEntryCountsOnlyForHasErrors` | src/main/java/io/github/honatas/verdict/Verdict.java:68-70 | a key stored with a null message makes `hasErrors` true while `hasErrorOn` and `getErrorOn` report nothing |
| `Exceptions.AccessorsReturnArguments` | src/main/java/io/github/honatas/verdict/exception/VerdictException.java:25-52 | `getErrors` and `getData` return exactly the two constructor arguments |
| `Exceptions.WithoutData` | src/main/java/io/github/honatas/verdict/exception/VerdictException.java:34-36 | the one-argument constructor keeps the map and has `getData() == null` |
| `TestValidators.Required` | src/test/java/io/github/honatas/verdict/TestVerdict.java:14-19 | fails iff the value is null, the empty string or the number zero, with `name + " is required"` |
| `TestValidators.Positive` | src/test/java/io/github/honatas/verdict/TestVerdict.java:21-26 | passes iff the value is a number that is not negative, so zero passes; otherwise `name + " must be greater than zero"` |
| `TestValidators.MaxLengthCheck` | src/test/java/io/github/honatas/verdict/TestVerdict.java:29-37 | fails iff the value is non-null and its `toString()` has more than `size` UTF-16 code units, with `name + " must have maximum " + size + " characters"` |
| `TestValidators.MaxLength` | src/test/java/io/github/honatas/verdict/TestVerdict.java:28-38 | the validator returned behaves as `MaxLengthCheck` for the captured `size` on every value and name |
| `TestValidators.MaxLengthBoundary` | src/test/java/io/github/honatas/verdict/TestVerdict.java:33-36 | a string of exactly `size` UTF-16 code units passes; one more character fails with the message |
| `TestValidators.MaxLengthCountsSurrogates` | src/test/java/io/github/honatas/verdict/TestVerdict.java:33 | one emoji, a surrogate pair in UTF-16, exceeds `maxLength(1)` and fits `maxLength(2)` |
| `TestValidators.MaxLengthMeasuresDigits` | src/test/java/io/github/honatas/verdict/TestVerdict.java:33 | numbers are measured by their decimal rendering, sign included: `5` fits one character, `-5` does not, `12` fits two |
| `TestValidators.ZeroIsRequiredButPositive` | src/test/java/io/github/honatas/verdict/TestVerdict.java:14-25 | zero passes `positive`, but the chain `required, positive` reports it as required |
| `Scenarios.RecordAccessors` | src/test/java/io/github/honatas/verdict/TestRecord.java:5 | a record's components `name`, `age` and `height` are read through its exact-name accessors, since it has no getters |
| `Scenarios.NameStep` | src/test/java/io/github/honatas/verdict/VerdictTest.java:99 | validating the null name with `required` on an empty map writes `name is required` |
| `Scenarios.AgeStep` | src/test/java/io/github/honatas/verdict/VerdictTest.java:100 | validating age 2 with `required, positive` leaves the map as it was |
| `Scenarios.HeightStep` | src/test/java/io/github/honatas/verdict/VerdictTest.java:101 | validating height -3 with `required, positive` adds `height must be greater than zero` to the `name` entry |
| `Scenarios.DocumentationExample` | src/test/java/io/github/honatas/verdict/VerdictTest.java:96-103 | the three calls leave exactly `{name ↦ "name is required", height ↦ "height must be greater than zero"}`; `checkHasErrors` raises with that map and the record |
| `Scenarios.EdgeCases` | src/test/java/io/github/honatas/verdict/VerdictTest.java:105-120 | no validators and an empty name each raise `IllegalArgumentException`; a data-bound call without data raises `IllegalStateException`; the map stays empty |
| `Scenarios.InlineRequired` | src/test/java/io/github/honatas/verdict/VerdictTest.java:17-61 | after `validate(value, "name", required)`, `hasErrorOn("name")` holds iff the value is null, empty or zero |
| `Scenarios.PojoRequired` | src/test/java/io/github/honatas/verdict/VerdictTest.java:63-77 | on a bean, the field is read through `getName()` and checked by `required` |
| `Scenarios.RecordRequired` | src/test/java/io/github/honatas/verdict/VerdictTest.java:79-93 | on a record, which has no getter, the field is read through `name()` and checked by `required` |
| `Scenarios.RevalidationKeepsError` | src/main/java/io/github/honatas/verdict/Verdict.java:138-146 | validating a field again with a value that passes keeps the earlier message |
| `Scenarios.ShortCircuit` | src/main/java/io/github/honatas/verdict/Verdict.java:141-144 | with a null value, `required, positive` records `required`'s message and invokes exactly one validator |
| `Scenarios.NullMessage` | src/main/java/io/github/honatas/verdict/Verdict.java:86-97 | after `addErrorOn(f, null)`, `hasErrors()` is true and `hasErrorOn(f)` is false |

## Left out

- Logging (`Logger` calls): they have no effect on behaviour.
- Java reflection is replaced by the subject's member table of public zero-argument methods. The table does not model visibility, inheritance, `getClass`, or the side effects of an accessor. `IllegalAccessException` and `SecurityException` are folded into `Throws`, which `getFieldValue` turns into `null` as it does `InvocationTargetException`.
- `getValidatorRegexMatch` and `getValidatorRegexFind` are not modelled. Their behaviour lives in `java.util.regex`. A non-string value makes them fail with a `ClassCastException`, which the total `Validator` type cannot express.
- `Engine.Verdict.WithData`: passing `null` to the one-argument constructor raises a `NullPointerException` in `data.getClass()`. That case is not modelled; the constructor takes a non-null subject.
- `Exceptions.VerdictException` is not given a null error map. The engine never passes one.
- `Resolver.UpperAscii`: only ASCII letters are upper-cased. Locale-dependent and non-ASCII case mapping in `toUpperCase` is not modelled.
- `Values.Value`: a Java string holding an unpaired surrogate cannot be represented, since a Dafny `char` is a Unicode scalar value.
- `Values.Value`: numbers are `Integer`s, so `intValue()` is the identity. Truncation and overflow of other `Number` types are not modelled.
- Validators are total functions. A validator that throws, and a null element of the validator array, are not modelled.
- Aliasing is not modelled. `getErrors()` and the thrown exception share the live map in Java; here they hold its value at the time of the call.
- `HashMap` iteration order and `toString` are not modelled. The documented example compares map contents instead.
- `Serializable` and `serialVersionUID` have no behaviour to model.
