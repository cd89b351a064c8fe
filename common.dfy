/** Values shared by every part of the dashboard model: optional values, the
    shape of a reply from the hosted backend, JavaScript's treatment of the
    empty string as "falsy", and `Math.round` of a non-negative ratio. */
module Common {

  /** `T | null` and `T | undefined` alike. */
  datatype Option<+T> = None | Some(value: T)

  /** The reply to a `select` against the hosted backend: either the rows
      (which the backend may itself report as `null`) or an error. */
  datatype Query<+T> = Answer(data: T) | Failed

  /** JavaScript truthiness of an optional string: `null`, `undefined` and
      `""` are falsy, every other string is truthy. */
  predicate Truthy(o: Option<string>)
  {
    o.Some? && o.value != ""
  }

  /** `x || null` (and `x || undefined`) for an optional string: a falsy
      value becomes absent, a truthy one is kept as it is. */
  function OrNull(o: Option<string>): (r: Option<string>)
    ensures r.Some? <==> Truthy(o)
    ensures r.Some? ==> r == o
    ensures r != Some("")
  {
    if Truthy(o) then o else None
  }

  /** `s || undefined` for a string that is always present (a form field). */
  function NonEmpty(s: string): (r: Option<string>)
    ensures r.None? <==> s == ""
    ensures r.Some? ==> r.value == s
  {
    if s == "" then None else Some(s)
  }

  /** A value that already went through `s || undefined` is left alone by a
      second `|| null`: the form and the hook normalise the same way. */
  lemma OrNullAfterNonEmpty(s: string)
    ensures OrNull(NonEmpty(s)) == NonEmpty(s)
  {
  }

  /** `Math.round(a / b)` for an integer numerator and a positive integer
      denominator: the integer nearest to a/b, halves rounded up. */
  function RoundDiv(a: int, b: int): (r: int)
    requires b > 0
    ensures 2 * b * r - b <= 2 * a < 2 * b * r + b
  {
    (2 * a + b) / (2 * b)
  }

  /** `whole > 0 ? Math.round((part / whole) * 100) : 0`, the completion
      percentage used by the reports page and the micro-goal dialog. */
  function Percent(part: nat, whole: nat): (r: int)
    ensures whole == 0 ==> r == 0
    ensures part <= whole ==> 0 <= r <= 100
    ensures whole > 0 ==> 2 * whole * r - whole <= 200 * part < 2 * whole * r + whole
    ensures part == 0 ==> r == 0
    ensures part == whole > 0 ==> r == 100
  {
    if whole > 0 then
      PercentBounds(part, whole);
      RoundDiv(100 * part, whole)
    else 0
  }

  lemma PercentBounds(part: nat, whole: nat)
    requires whole > 0
    ensures 0 <= RoundDiv(100 * part, whole)
    ensures part <= whole ==> RoundDiv(100 * part, whole) <= 100
    ensures part == 0 ==> RoundDiv(100 * part, whole) == 0
    ensures part == whole ==> RoundDiv(100 * part, whole) == 100
  {
    var r := RoundDiv(100 * part, whole);
    // 0 <= 200 * part < whole * (2 * r + 1), so 2 * r + 1 is positive
    assert whole * (2 * r + 1) > 0;
    PositiveFactor(whole, 2 * r + 1);
    if part <= whole {
      // whole * (2 * r - 1) <= 200 * part <= 200 * whole, so 2 * r - 1 <= 200
      assert whole * (2 * r - 1) <= whole * 200;
      BoundedFactor(whole, 2 * r - 1, 200);
    }
    if part == 0 {
      // whole * (2 * r - 1) <= 0, so 2 * r - 1 <= 0
      assert whole * (2 * r - 1) <= whole * 0;
      BoundedFactor(whole, 2 * r - 1, 0);
    }
    if part == whole {
      // whole * 200 < whole * (2 * r + 1), so 200 < 2 * r + 1
      assert whole * 200 < whole * (2 * r + 1);
      LessFactor(whole, 200, 2 * r + 1);
    }
  }

  lemma LessFactor(x: int, y: int, z: int)
    requires x > 0 && x * y < x * z
    ensures y < z
  {
  }

  lemma PositiveFactor(x: int, y: int)
    requires x > 0 && x * y > 0
    ensures y > 0
  {
  }

  lemma BoundedFactor(x: int, y: int, z: int)
    requires x > 0 && x * y <= x * z
    ensures y <= z
  {
  }
}
