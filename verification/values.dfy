/**
 * The Java values the validation engine handles: nullable strings, the
 * dynamic values a validator receives, the subject whose fields are read
 * through zero-argument accessors, and Java's decimal rendering of integers.
 */
module Values {

  /** A Java reference that may be null: `None` stands for `null`. */
  datatype Option<+T> = None | Some(value: T)

  /** A nullable `java.lang.String`. */
  type JString = Option<string>

  /** The error map: field name to message, both nullable as in a `HashMap<String, String>`. */
  type ErrorMap = map<JString, JString>

  /**
   * A dynamic Java value as a validator sees it: `null`, a `String`, an
   * `Integer`, or any other object, represented by what its `toString()` gives.
   */
  datatype Value = Null | Str(s: string) | Num(n: int) | Other(text: string)

  /** What calling one zero-argument accessor of the subject does. */
  datatype Outcome = Returns(result: Value) | Throws

  /**
   * The subject handed to the engine at construction, seen only through the
   * public zero-argument methods its class exposes, by name.
   */
  datatype Subject = Subject(members: map<string, Outcome>)

  /** The character of a decimal digit. */
  function Digit(d: nat): (c: char)
    requires d < 10
    ensures '0' <= c <= '9' && c as int - '0' as int == d
  {
    ('0' as int + d) as char
  }

  predicate IsDigits(s: string) {
    forall i :: 0 <= i < |s| ==> '0' <= s[i] <= '9'
  }

  /** Decimal digits of a natural number, most significant first, no leading zeros. */
  function NatDigits(n: nat): (s: string)
    ensures |s| >= 1 && IsDigits(s)
    ensures |s| > 1 ==> s[0] != '0'
    decreases n
  {
    if n < 10 then [Digit(n)] else NatDigits(n / 10) + [Digit(n % 10)]
  }

  /** The number a string of decimal digits denotes. */
  function DigitsValue(s: string): (n: nat)
    requires IsDigits(s)
    decreases |s|
  {
    if s == [] then 0
    else DigitsValue(s[..|s| - 1]) * 10 + (s[|s| - 1] as int - '0' as int)
  }

  /** Reading the digits back gives the number: `NatDigits` loses nothing. */
  lemma {:induction false} DigitsRoundTrip(n: nat)
    ensures DigitsValue(NatDigits(n)) == n
    decreases n
  {
    if n >= 10 {
      var s := NatDigits(n);
      DigitsRoundTrip(n / 10);
      assert s[..|s| - 1] == NatDigits(n / 10);
    }
  }

  /** `Integer.toString(n)`: a minus sign for negatives, then the digits of `|n|`. */
  function IntToString(n: int): (s: string)
    ensures |s| >= 1
    ensures n < 0 <==> s[0] == '-'
    ensures var d := if n < 0 then s[1..] else s; IsDigits(d) && (|d| > 1 ==> d[0] != '0')
  {
    if n < 0 then "-" + NatDigits(-n) else NatDigits(n)
  }

  /** `Integer.parseInt` restricted to what `IntToString` produces. */
  function ParseInt(s: string): int
    requires |s| >= 1
    requires if s[0] == '-' then IsDigits(s[1..]) else IsDigits(s)
  {
    if s[0] == '-' then -(DigitsValue(s[1..]) as int) else DigitsValue(s)
  }

  /** Parsing the rendering gives the integer back: the decimal rendering is unambiguous. */
  lemma IntToStringRoundTrip(n: int)
    ensures var s := IntToString(n);
      (if s[0] == '-' then IsDigits(s[1..]) else IsDigits(s)) && ParseInt(s) == n
  {
    var s := IntToString(n);
    if n < 0 {
      assert s[1..] == NatDigits(-n);
      DigitsRoundTrip(-n);
    } else {
      DigitsRoundTrip(n);
    }
  }

  /**
   * `value.toString()` for a non-null value: a string is itself, an
   * `Integer` is its decimal rendering, which parses back to the number.
   */
  function Show(v: Value): (s: string)
    requires !v.Null?
    ensures v.Str? ==> s == v.s
    ensures v.Other? ==> s == v.text
    ensures v.Num? ==> s == IntToString(v.n) && ParseInt(s) == v.n
  {
    match v
    case Str(s) => s
    case Num(n) => IntToStringRoundTrip(n); IntToString(n)
    case Other(text) => text
  }

  /** A character outside the Basic Multilingual Plane, which UTF-16 stores as a surrogate pair. */
  predicate Supplementary(c: char) {
    c as int >= 0x1_0000
  }

  /**
   * `String.length()`: the number of UTF-16 code units, one per character of
   * the Basic Multilingual Plane and two per supplementary character.
   */
  function Utf16Length(s: string): (n: nat)
    ensures |s| <= n <= 2 * |s|
    ensures n == |s| <==> forall i :: 0 <= i < |s| ==> !Supplementary(s[i])
    decreases |s|
  {
    if s == [] then 0
    else
      var init := s[..|s| - 1];
      assert forall i :: 0 <= i < |init| ==> init[i] == s[i];
      Utf16Length(init) + if Supplementary(s[|s| - 1]) then 2 else 1
  }

  /** The UTF-16 length of a concatenation is the sum of the lengths. */
  lemma {:induction false} Utf16LengthAppend(a: string, b: string)
    ensures Utf16Length(a + b) == Utf16Length(a) + Utf16Length(b)
    decreases |b|
  {
    if b != [] {
      var init := b[..|b| - 1];
      assert (a + b)[..|a + b| - 1] == a + init;
      Utf16LengthAppend(a, init);
    } else {
      assert a + b == a;
    }
  }
}
