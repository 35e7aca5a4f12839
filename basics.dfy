/** Values shared by the scanner and the grading scripts: optional fields, the shape of
    an HTTP answer from the data API, and the HTTP status codes the code tests. */
module Basics {

  /** A field that a JSON record may or may not carry. */
  datatype Option<+T> = None | Some(value: T) {
    function GetOr(default: T): T {
      match this
      case Some(v) => v
      case None => default
    }
  }

  /** One HTTP answer: its status code and, when it parsed, its JSON array. */
  datatype Response<R> = Response(status: int, batch: seq<R>)

  /** The outcome of a paginator: the records gathered, or an exception that
      escaped from it (the caller gets nothing back). */
  datatype Fetched<R> = Fetched(records: seq<R>) | Raised

  /** The records gathered so far, ahead of the outcome of the rest. */
  function Prepend<R>(done: seq<R>, rest: Fetched<R>): Fetched<R> {
    match rest
    case Fetched(later) => Fetched(done + later)
    case Raised => Raised
  }

  const OK: int := 200
  const TOO_MANY_REQUESTS: int := 429

  /** What a feed answers for a page past its last one: an empty array. */
  function EmptyPage<R>(): Response<R> {
    Response(OK, [])
  }

  function Pow2(k: nat): (p: nat)
    ensures p >= 1
  {
    if k == 0 then 1 else 2 * Pow2(k - 1)
  }

  function Pow10(k: nat): (p: nat)
    ensures p >= 1
  {
    if k == 0 then 1 else 10 * Pow10(k - 1)
  }

  /** The decimal number k / 10^n, a value that round(_, n) leaves unchanged. */
  function Decimal(k: int, n: nat): real {
    k as real / Pow10(n) as real
  }
}
