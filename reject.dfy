/** `Reject`: a predicate gate in front of the downstream handler. */
module Reject {
  import opened Http

  /** Answers `badStatus` with its status text unless `f(r)` holds; otherwise `next` answers. */
  function Reject(badStatus: int, f: Request -> bool): Middleware {
    (next: Handler) => (r: Request) =>
      if !f(r) then ErrorResponse(StatusText(badStatus), badStatus) else next(r)
  }

  /** A refused request gets `badStatus` and its text, and `next` does not run. */
  lemma RejectRefuses(badStatus: int, f: Request -> bool, next1: Handler, next2: Handler, r: Request)
    requires !f(r)
    ensures Reject(badStatus, f)(next1)(r).code == badStatus
    ensures Reject(badStatus, f)(next1)(r).body == Ascii(StatusText(badStatus) + "\n")
    ensures Reject(badStatus, f)(next1)(r) == Reject(badStatus, f)(next2)(r)
  {
  }

  /** An accepted request is answered by `next` alone; `Reject` writes nothing itself. */
  lemma RejectAccepts(badStatus: int, f: Request -> bool, next: Handler, r: Request)
    requires f(r)
    ensures Reject(badStatus, f)(next)(r) == next(r)
  {
  }
}
