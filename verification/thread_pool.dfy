/**
 * The configuration accessors of `ThreadPool`
 * (`src/modules/threads/ThreadPool.ts`): the constructor's defaults and the
 * guarded `size` and `file` getter/setters. The CPU count (`cpus().length`)
 * is a parameter. The worker threads, their queue and `spawn` are not part of
 * this model: `spawn` has an empty body.
 */
module ThreadPool {
  import opened Js

  /** The `ThreadPoolOptions` fields the constructor reads; `size` is a number or the string `"auto"`. */
  datatype PoolOptions = PoolOptions(size: JsValue, file: JsValue)

  /** The stored size and execution file path; `file` stays `undefined` without options. */
  datatype Pool = Pool(size: JsValue, file: JsValue)

  /** `??`: the left value unless it is `undefined` or `null`. */
  function Coalesce(v: JsValue, fallback: JsValue): (r: JsValue)
    ensures (v.Undefined? || v.Null?) ==> r == fallback
    ensures !(v.Undefined? || v.Null?) ==> r == v
  {
    if v.Undefined? || v.Null? then fallback else v
  }

  /**
   * `new ThreadPool(options)`: the size is `options.size`, or the CPU count
   * when that is missing or `null` (so `"auto"` and `0` are kept as given);
   * the file is `options.file`.
   */
  function New(options: Option<PoolOptions>, cpuCount: nat): (p: Pool)
    ensures options.None? ==> p == Pool(Number(cpuCount), Undefined)
    ensures options.Some? ==> p.file == options.value.file
    ensures options.Some? && (options.value.size.Undefined? || options.value.size.Null?) ==> p.size == Number(cpuCount)
    ensures options.Some? && !(options.value.size.Undefined? || options.value.size.Null?) ==> p.size == options.value.size
  {
    var o := options.GetOr(PoolOptions(Undefined, Undefined));
    Pool(Coalesce(o.size, Number(cpuCount)), o.file)
  }

  /** `size(n)` stores `n` only when it is a positive number. */
  predicate AcceptsSize(n: JsValue) {
    n.Number? && n.n > 0
  }

  /** `size(n)`: the new pool, and the size it reports (the stored one, after the update). */
  function Size(p: Pool, n: JsValue): (r: (Pool, JsValue))
    ensures r.0.file == p.file
    ensures AcceptsSize(n) ==> r.0.size == n
    ensures !AcceptsSize(n) ==> r.0 == p
    ensures r.1 == r.0.size
  {
    var size := if AcceptsSize(n) then n else p.size;
    (p.(size := size), size)
  }

  /** `file(path)`: the new pool, and the path it reports (the stored one, after the update). */
  function File(p: Pool, path: JsValue): (r: (Pool, JsValue))
    ensures r.0.size == p.size
    ensures path.Str? ==> r.0.file == path
    ensures !path.Str? ==> r.0 == p
    ensures r.1 == r.0.file
  {
    var file := if path.Str? then path else p.file;
    (p.(file := file), file)
  }

  /** Reading the size back after setting a positive one returns it; setting the same size twice changes nothing more. */
  lemma SizeSetThenGet(p: Pool, n: int)
    requires n > 0
    ensures Size(Size(p, Number(n)).0, Undefined).1 == Number(n)
    ensures Size(Size(p, Number(n)).0, Number(n)) == Size(p, Number(n))
  {
  }

  /** A zero, negative or non-numeric size is ignored, whatever was stored before. */
  lemma SizeIgnoresInvalid(p: Pool, n: JsValue)
    requires !n.Number? || n.n <= 0
    ensures Size(p, n) == (p, p.size)
  {
  }

  /** The size and file accessors are independent: they commute. */
  lemma SizeFileCommute(p: Pool, n: JsValue, path: JsValue)
    ensures File(Size(p, n).0, path).0 == Size(File(p, path).0, n).0
  {
  }

  /** A pool built with `"auto"` reports `"auto"` until a positive number replaces it. */
  lemma AutoKeptUntilReplaced(file: JsValue, cpuCount: nat, n: JsValue)
    ensures New(Some(PoolOptions(Str("auto"), file)), cpuCount).size == Str("auto")
    ensures Size(New(Some(PoolOptions(Str("auto"), file)), cpuCount), n).1 == (if AcceptsSize(n) then n else Str("auto"))
  {
  }
}
