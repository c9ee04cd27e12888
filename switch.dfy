/** `Switch` and its constant-predicate instance `Debug`. */
module Switch {
  import opened Http

  /** Runs `next` when `f(r)` holds and `h` otherwise, with the same request. */
  function Switch(f: Request -> bool, h: Handler): Middleware {
    (next: Handler) => (r: Request) => if f(r) then next(r) else h(r)
  }

  /** When `f(r)` holds the response is `next`'s, whatever `h` is: `h` does not run. */
  lemma SwitchRunsNext(f: Request -> bool, h1: Handler, h2: Handler, next: Handler, r: Request)
    requires f(r)
    ensures Switch(f, h1)(next)(r) == next(r)
    ensures Switch(f, h1)(next)(r) == Switch(f, h2)(next)(r)
  {
  }

  /** When `f(r)` fails the response is `h`'s, whatever `next` is: `next` does not run. */
  lemma SwitchRunsAlternate(f: Request -> bool, h: Handler, next1: Handler, next2: Handler, r: Request)
    requires !f(r)
    ensures Switch(f, h)(next1)(r) == h(r)
    ensures Switch(f, h)(next1)(r) == Switch(f, h)(next2)(r)
  {
  }

  /** `Debug(b)`: `Switch` on the constant `b`, with the not-found handler as the alternative. */
  function Debug(b: bool): Middleware {
    Switch(_ => b, NotFoundHandler())
  }

  /** `Debug(false)` answers 404 "404 page not found" and never runs `next`. */
  lemma DebugOff(next: Handler, r: Request)
    ensures Debug(false)(next)(r) == ErrorResponse("404 page not found", 404)
    ensures Debug(false)(next)(r).code == 404
  {
  }

  /** `Debug(true)` is transparent. */
  lemma DebugOn(next: Handler, r: Request)
    ensures Debug(true)(next)(r) == next(r)
  {
  }
}
