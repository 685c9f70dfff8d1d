/** Values shared by every handler of the storefront and lottery API. */
module Common {

  datatype Option<+T> = None | Some(value: T)

  /** The result of JavaScript's `Number(...)` on a request value: NaN, or a
      finite value. Ids are whole numbers and money is counted in cents. */
  datatype Num = NaN | Finite(v: int)

  /** JavaScript truthiness of a number (`!x` is false): not NaN and not 0. */
  predicate Truthy(n: Num) {
    n.Finite? && n.v != 0
  }

  /** JavaScript truthiness of an optional text field: present and not "". */
  predicate TruthyText(s: Option<string>) {
    s.Some? && s.value != ""
  }

  /** The guard the handlers share for ids and amounts: `x <= 0 || isNaN(x)` rejects. */
  predicate Positive(n: Num) {
    n.Finite? && n.v > 0
  }

  /** An HTTP reply: a status code, with a JSON body on success. */
  datatype Reply<+T> = Success(status: int, body: T) | Failure(status: int)

  /** `Math.max(0, x)` */
  function MaxZero(x: int): (r: int)
    ensures r >= 0 && r >= x
    ensures r == 0 || r == x
  {
    if x < 0 then 0 else x
  }
}
