/**
 * Field resolution for the data-bound `validate`: the value of field `name`
 * is what the subject's `get` + Capitalised(name) accessor returns, or, when
 * the subject has no such method, what its accessor named exactly `name`
 * returns. Reflection failures fold to `null`.
 */
module Resolver {
  import opened Values

  /** `String.toUpperCase()` on a one-character string, for ASCII letters. */
  function UpperAscii(c: char): (u: char)
    ensures 'a' <= c <= 'z' ==> 'A' <= u <= 'Z' && u as int - 'A' as int == c as int - 'a' as int
    ensures !('a' <= c <= 'z') ==> u == c
  {
    if 'a' <= c <= 'z' then (c as int - 'a' as int + 'A' as int) as char else c
  }

  /**
   * `"get" + name.substring(0, 1).toUpperCase() + name.substring(1)`.
   * Defined only for a non-empty name: on `""` the source's `substring(0, 1)`
   * throws, which the data-bound `validate` models separately.
   */
  function GetterName(name: string): (g: string)
    requires |name| >= 1
    ensures |g| == |name| + 3 && g[..3] == "get"
    ensures g[3] == UpperAscii(name[0]) && g[4..] == name[1..]
    ensures g != name
  {
    "get" + [UpperAscii(name[0])] + name[1..]
  }

  /**
   * Two field names share a getter exactly when they agree after their first
   * character and their first characters have the same upper case, so `age`
   * and `Age` are both read through `getAge`.
   */
  lemma GetterNameCollision(a: string, b: string)
    requires |a| >= 1 && |b| >= 1
    ensures GetterName(a) == GetterName(b) <==> UpperAscii(a[0]) == UpperAscii(b[0]) && a[1..] == b[1..]
  {
  }

  /**
   * What `extractFieldValue` ends with: a value, or one of the two checked
   * reflection exceptions it can raise for a present subject.
   */
  datatype Extraction = Extracted(value: Value) | NoSuchMethod | InvocationTarget

  /** `Method.invoke` on the subject: a throwing accessor surfaces as `InvocationTargetException`. */
  function Invoke(o: Outcome): (r: Extraction)
    ensures r.Extracted? <==> o.Returns?
    ensures r.Extracted? ==> r.value == o.result
    ensures !r.NoSuchMethod?
  {
    match o
    case Returns(v) => Extracted(v)
    case Throws => InvocationTarget
  }

  /**
   * `extractFieldValue(name)`: try the getter; only when the getter does not
   * exist (`NoSuchMethodException`) try the member named exactly `name`.
   */
  function ExtractFieldValue(s: Subject, name: string): (r: Extraction)
    requires |name| >= 1
    ensures GetterName(name) in s.members ==> r == Invoke(s.members[GetterName(name)])
    ensures GetterName(name) !in s.members && name in s.members ==> r == Invoke(s.members[name])
    ensures r.NoSuchMethod? <==> GetterName(name) !in s.members && name !in s.members
  {
    var getter := GetterName(name);
    if getter in s.members then Invoke(s.members[getter])
    else if name in s.members then Invoke(s.members[name])
    else NoSuchMethod
  }

  /** `getFieldValue(name)`: every reflection failure becomes `null`. */
  function GetFieldValue(s: Subject, name: string): (v: Value)
    requires |name| >= 1
    ensures !v.Null? ==> ExtractFieldValue(s, name) == Extracted(v)
    ensures ExtractFieldValue(s, name).NoSuchMethod? || ExtractFieldValue(s, name).InvocationTarget? ==> v.Null?
  {
    match ExtractFieldValue(s, name)
    case Extracted(v) => v
    case NoSuchMethod => Null
    case InvocationTarget => Null
  }

  /** A getter that exists is used, whatever it returns. */
  lemma ResolvesThroughGetter(s: Subject, name: string, v: Value)
    requires |name| >= 1
    requires GetterName(name) in s.members && s.members[GetterName(name)] == Returns(v)
    ensures GetFieldValue(s, name) == v
  {
  }

  /** A getter that throws gives `null`, and the exact-name member is never tried. */
  lemma ThrowingGetterHasNoFallback(s: Subject, name: string)
    requires |name| >= 1
    requires GetterName(name) in s.members && s.members[GetterName(name)] == Throws
    ensures ExtractFieldValue(s, name) == InvocationTarget
    ensures GetFieldValue(s, name) == Null
  {
  }

  /** Without a getter, the member named exactly `name` is used (record-style accessors). */
  lemma ResolvesThroughAccessor(s: Subject, name: string, v: Value)
    requires |name| >= 1
    requires GetterName(name) !in s.members
    requires name in s.members && s.members[name] == Returns(v)
    ensures GetFieldValue(s, name) == v
  {
  }

  /**
   * Without a getter, an exact-name accessor that throws also gives
   * `InvocationTargetException`, and so `null`.
   */
  lemma ThrowingAccessorIsNull(s: Subject, name: string)
    requires |name| >= 1
    requires GetterName(name) !in s.members
    requires name in s.members && s.members[name] == Throws
    ensures ExtractFieldValue(s, name) == InvocationTarget
    ensures GetFieldValue(s, name) == Null
  {
  }

  /** With neither member, resolution fails and the field reads as `null`. */
  lemma UnresolvedIsNull(s: Subject, name: string)
    requires |name| >= 1
    requires GetterName(name) !in s.members && name !in s.members
    ensures ExtractFieldValue(s, name) == NoSuchMethod
    ensures GetFieldValue(s, name) == Null
  {
  }

  /**
   * When the getter exists, the exact-name member has no influence at all:
   * adding, replacing, making it throw or removing it leaves the resolved
   * value as it was.
   */
  lemma GetterShadowsAccessor(s: Subject, name: string, o: Outcome)
    requires |name| >= 1
    requires GetterName(name) in s.members
    ensures GetFieldValue(Subject(s.members[name := o]), name) == GetFieldValue(s, name)
    ensures GetFieldValue(Subject(s.members - {name}), name) == GetFieldValue(s, name)
  {
    var g := GetterName(name);
    assert s.members[name := o][g] == s.members[g];
    assert g in s.members - {name} && (s.members - {name})[g] == s.members[g];
  }

  /**
   * A failed lookup and a field that genuinely holds `null` are the same to
   * the caller: both subjects below read `name` as `null`, although only the
   * second one has a `getName` accessor.
   */
  lemma LookupFailureLooksLikeNull()
    ensures var missing := Subject(map[]);
      var present := Subject(map["getName" := Returns(Null)]);
      ExtractFieldValue(missing, "name") != ExtractFieldValue(present, "name")
      && GetFieldValue(missing, "name") == GetFieldValue(present, "name") == Null
  {
    assert GetterName("name") == "getName";
  }
}
