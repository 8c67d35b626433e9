/**
  JavaScript values as the route-planning frontend sees them: numbers that may
  be NaN, values that may be absent, and the truthiness tests (`x || 0`,
  `if (x)`) the pages apply to them.
*/
module Values {

  datatype Option<+T> = None | Some(value: T)

  /** A JavaScript (or Python float) number. Infinities are not modelled. */
  datatype Number = Num(v: real) | NaN

  /** JavaScript truthiness of a number: 0 and NaN are falsy. */
  predicate Truthy(n: Number) {
    n.Num? && n.v != 0.0
  }

  /** Truthiness of a property that may be `undefined`. */
  predicate Present(o: Option<Number>) {
    o.Some? && Truthy(o.value)
  }

  /** `o || 0`: the value itself when truthy, otherwise the number 0. */
  function OrZero(o: Option<Number>): Number {
    if Present(o) then o.value else Num(0.0)
  }

  /** `m?.[k]`: the entry stored under `k`, or `undefined`. */
  function Get<K, V>(m: map<K, V>, k: K): Option<V> {
    if k in m then Some(m[k]) else None
  }

  /** `OrZero` is idempotent: a value already defaulted to 0 stays what it is. */
  lemma OrZeroIdempotent(o: Option<Number>)
    ensures OrZero(Some(OrZero(o))) == OrZero(o)
  {
  }
}
