/**
 * JavaScript values as they appear in delivery records: the id (compared with
 * `===` and rendered with `String`) and the nullable sort position.
 */
module Values {
  import opened Text

  datatype Option<T> = None | Some(value: T)

  /** A computation that either produced a value or threw an `Error` with a message. */
  datatype Outcome<T> = Success(value: T) | Failure(message: string)

  /**
   * A delivery id as a JavaScript value. Ids from the source application's API
   * are usually numbers but may be strings ("101-A"); a missing property reads
   * as `undefined`. Equality of `JsId` values is JavaScript's `===`.
   */
  datatype JsId = Num(n: int) | Str(s: string) | Null | Undefined

  /** `String(id)`. */
  function IdString(id: JsId): string {
    match id
    case Num(n) => if n >= 0 then DecimalString(n) else "-" + DecimalString(-n)
    case Str(s) => s
    case Null => "null"
    case Undefined => "undefined"
  }

  /** A number interpolated into a template string, `${n}`. */
  function NumText(n: int): string {
    IdString(Num(n))
  }

  /** A string is the canonical decimal rendering of some non-negative integer. */
  predicate IsCanonicalDecimal(s: string) {
    AllDigits(s) && DecimalString(ParseDecimal(s)) == s
  }

  /**
   * The integer property key that `obj[id]` reaches on an object whose keys
   * were set from integers (`obj[k] = v` stores under `String(k)`): present
   * exactly when `String(id)` is the rendering of some non-negative integer.
   */
  function RouteKey(id: JsId): (r: Option<nat>)
    ensures r.Some? ==> IdString(id) == DecimalString(r.value)
    ensures forall k: nat :: IdString(id) == DecimalString(k) ==> r == Some(k)
  {
    match id
    case Num(n) =>
      if n >= 0 then
        assert forall k: nat :: DecimalString(n) == DecimalString(k) ==> n == k by {
          forall k: nat | DecimalString(n) == DecimalString(k) ensures n == k {
            DecimalStringInjective(n, k);
          }
        }
        Some(n)
      else
        assert forall k: nat :: IdString(id) != DecimalString(k) by {
          forall k: nat ensures IdString(id) != DecimalString(k) {
            assert IdString(id)[0] == '-';
          }
        }
        None
    case Str(s) =>
      if IsCanonicalDecimal(s) then
        assert forall k: nat :: s == DecimalString(k) ==> ParseDecimal(s) == k by {
          forall k: nat | s == DecimalString(k) ensures ParseDecimal(s) == k {
            ParseDecimalString(k);
          }
        }
        Some(ParseDecimal(s))
      else
        assert forall k: nat :: s != DecimalString(k) by {
          forall k: nat | s == DecimalString(k) ensures false {
            ParseDecimalString(k);
          }
        }
        None
    case Null =>
      assert forall k: nat :: "null" != DecimalString(k) by {
        forall k: nat ensures "null" != DecimalString(k) {
          assert !IsDigit("null"[0]);
        }
      }
      None
    case Undefined =>
      assert forall k: nat :: "undefined" != DecimalString(k) by {
        forall k: nat ensures "undefined" != DecimalString(k) {
          assert !IsDigit("undefined"[0]);
        }
      }
      None
  }

  /** A record's `sortOrder`: `null`, absent (`undefined`), or a number. */
  datatype SortOrder = NullOrder | UndefinedOrder | Order(position: int)
}
