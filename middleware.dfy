/**
 * `Use`: one middleware made of several, the first one listed outermost.
 * The model is generic in the handler type, so it speaks of any wrapping.
 */
module Middleware {

  /** The right fold: `Chain([m1, ..., mn], h) == m1(m2(... mn(h) ...))`. */
  function Chain<H>(middlewares: seq<H -> H>, h: H): H {
    if |middlewares| == 0 then h else middlewares[0](Chain(middlewares[1..], h))
  }

  /**
   * The loop of `Use(middlewares...)(next)`: it wraps `next` in the last
   * middleware first and in the first one last.
   */
  method Use<H>(middlewares: seq<H -> H>, next: H) returns (h: H)
    ensures h == Chain(middlewares, next)
  {
    h := next;
    var i := 0;
    while i < |middlewares|
      invariant 0 <= i <= |middlewares|
      invariant h == Chain(middlewares[|middlewares| - i..], next)
    {
      var n := |middlewares| - 1 - i;
      assert middlewares[n..][1..] == middlewares[|middlewares| - i..];
      h := middlewares[n](h);
      i := i + 1;
    }
  }

  /** With no middlewares, `Use()` hands back the handler itself. */
  lemma ChainEmpty<H>(h: H)
    ensures Chain([], h) == h
  {
  }

  /** `Use(m)(h)` is `m(h)`. */
  lemma ChainSingle<H>(m: H -> H, h: H)
    ensures Chain([m], h) == m(h)
  {
  }

  /** Composition splits at any point: `Use(xs ++ ys)(h) == Use(xs)(Use(ys)(h))`. */
  lemma {:induction false} ChainAppend<H>(xs: seq<H -> H>, ys: seq<H -> H>, h: H)
    ensures Chain(xs + ys, h) == Chain(xs, Chain(ys, h))
  {
    if |xs| > 0 {
      assert (xs + ys)[1..] == xs[1..] + ys;
      ChainAppend(xs[1..], ys, h);
    } else {
      assert xs + ys == ys;
    }
  }

  /** A middleware that records its name on the way in. */
  function Enter(name: string): seq<string> -> seq<string> {
    trace => [name] + trace
  }

  /**
   * Each listed middleware is applied exactly once and the first one listed
   * runs first: wrapping a handler that records nothing in the recording
   * middlewares of `names` gives back `names` in order.
   */
  lemma {:induction false} ChainOrder(names: seq<string>)
    ensures Chain(seq(|names|, i requires 0 <= i < |names| => Enter(names[i])), []) == names
  {
    var ms := seq(|names|, i requires 0 <= i < |names| => Enter(names[i]));
    if |names| > 0 {
      var rest := seq(|names| - 1, i requires 0 <= i < |names| - 1 => Enter(names[1..][i]));
      assert ms[1..] == rest;
      ChainOrder(names[1..]);
      assert Chain(ms, []) == [names[0]] + names[1..];
    }
  }
}
