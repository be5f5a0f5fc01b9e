/**
 * The request values the controllers and form requests read, and the few PHP operations on them
 * whose outcome the core depends on: loose `in_array`, truthiness of a query string, and
 * `$request->boolean()`.
 */
module Php {
  import opened Wrappers
  import opened Roles

  /** One decoded request value. */
  datatype Value = Str(s: string) | Int(i: int) | Bool(b: bool) | Null

  /** The request input: field name to value. A key that is absent was not submitted. */
  type Input = map<string, Value>

  /** The two kinds of operand the core compares with PHP's loose `==`: strings and enum cases. */
  datatype Operand = Text(s: string) | Case(role: UserRole)

  /**
   * PHP 8 loose equality on these operands. Two strings are equal when they are the same string
   * (every string the core compares against is non-numeric, so numeric-string comparison never
   * comes into play); two enum cases when they are the same case; an enum case is never loosely
   * equal to a string, since an enum has no string conversion.
   */
  predicate LooseEquals(a: Operand, b: Operand) {
    match (a, b)
    case (Text(x), Text(y)) => x == y
    case (Case(x), Case(y)) => x == y
    case _ => false
  }

  /** `in_array($needle, $haystack)` without the strict flag. */
  predicate InArray(needle: Operand, haystack: seq<Operand>) {
    exists i :: 0 <= i < |haystack| && LooseEquals(needle, haystack[i])
  }

  /** The haystack `[UserRole::SUPER_MANAGER->value, UserRole::ADMIN->value]` of plain strings. */
  function PrivilegedValues(): seq<Operand> {
    [Text(SuperManager.Value()), Text(Admin.Value())]
  }

  /** Comparing a role's backing string against the privileged values finds exactly the privileged roles. */
  lemma ValueInPrivilegedValues(r: UserRole)
    ensures InArray(Text(r.Value()), PrivilegedValues()) <==> IsPrivileged(r)
  {
    if IsPrivileged(r) {
      assert LooseEquals(Text(r.Value()), PrivilegedValues()[if r == SuperManager then 0 else 1]);
    }
  }

  /** Comparing the enum case itself against those strings never finds anything. */
  lemma CaseNeverInPrivilegedValues(r: UserRole)
    ensures !InArray(Case(r), PrivilegedValues())
  {
  }

  /** PHP truthiness of a string: everything except "" and "0". */
  predicate Truthy(s: string) {
    s != "" && s != "0"
  }

  /** The strings `filter_var(..., FILTER_VALIDATE_BOOLEAN)` reads as true. */
  const TrueStrings: set<string> := {"1", "true", "on", "yes"}

  /**
   * `$request->boolean($key, $default)`: the default when the key is absent, otherwise the value
   * read by `filter_var` with `FILTER_VALIDATE_BOOLEAN`.
   */
  function RequestBoolean(v: Option<Value>, default: bool): (b: bool)
    ensures v.None? ==> b == default
    ensures v.Some? && v.value.Bool? ==> b == v.value.b
    ensures v.Some? && v.value.Int? ==> (b <==> v.value.i == 1)
    ensures v.Some? && v.value.Str? ==> (b <==> v.value.s in TrueStrings)
    ensures v.Some? && v.value.Null? ==> !b
  {
    match v
    case None => default
    case Some(Bool(x)) => x
    case Some(Int(i)) => i == 1
    case Some(Str(s)) => s in TrueStrings
    case Some(Null) => false
  }

  /**
   * Input as it reaches a form request after Laravel's `ConvertEmptyStringsToNull` middleware:
   * no field holds the empty string.
   */
  ghost predicate Normalized(input: Input) {
    forall k :: k in input ==> input[k] != Str("")
  }
}
