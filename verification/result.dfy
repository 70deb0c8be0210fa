/**
 * The tagged success/failure record of `src/types/Result.ts`: an `Ok` shape
 * carrying `ok = true` and a value, and an `Err` shape carrying `ok = false`
 * and an error. The `ok` flag is the discriminant.
 */
module Results {

  datatype Result<+T, +E> = Ok(value: T) | Err(error: E) {

    /** The `ok` field of the record. */
    predicate ok() {
      Ok?
    }
  }

  /** `Ok(v)` carries `ok = true` and the given value. */
  lemma OkShape<T, E>(v: T)
    ensures Result<T, E>.Ok(v).ok()
    ensures Result<T, E>.Ok(v).value == v
  {
  }

  /** `Err(e)` carries `ok = false` and the given error. */
  lemma ErrShape<T, E>(e: E)
    ensures !Result<T, E>.Err(e).ok()
    ensures Result<T, E>.Err(e).error == e
  {
  }

  /** The `ok` flag alone tells the two shapes apart: a result is `Ok` iff `ok` holds. */
  lemma OkDiscriminates<T, E>(r: Result<T, E>)
    ensures r.ok() <==> r.Ok?
    ensures !r.ok() <==> r.Err?
    ensures r.ok() ==> r == Ok(r.value)
    ensures !r.ok() ==> r == Err(r.error)
  {
  }

  /** No `Ok` value equals an `Err` value. */
  lemma OkIsNeverErr<T, E>(v: T, e: E)
    ensures Result<T, E>.Ok(v) != Result<T, E>.Err(e)
  {
  }
}
