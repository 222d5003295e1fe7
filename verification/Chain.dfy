/** Chaining middleware around a handler: the first middleware is outermost. */
module Chain {

  /** The handler that results when the first middleware wraps the rest. */
  function Wrapped<H>(middleware: seq<H -> H>, handler: H): H {
    if middleware == [] then handler else middleware[0](Wrapped(middleware[1..], handler))
  }

  method ChainHandlers<H>(handler: H, middleware: seq<H -> H>) returns (chained: H)
    ensures chained == Wrapped(middleware, handler)
  {
    chained := handler;
    var i := |middleware| - 1;
    while i >= 0
      invariant -1 <= i < |middleware|
      invariant chained == Wrapped(middleware[i + 1..], handler)
    {
      assert middleware[i..][1..] == middleware[i + 1..];
      chained := middleware[i](chained);
      i := i - 1;
    }
    assert middleware[0..] == middleware;
  }

  datatype Moment = Before(name: string) | Within(name: string) | After(name: string)

  /** Middleware that marks the moments before and after what it wraps; a handler is its moments. */
  function Marking(name: string): seq<Moment> -> seq<Moment> {
    (inner: seq<Moment>) => [Before(name)] + inner + [After(name)]
  }

  function MarkingAll(names: seq<string>): (r: seq<seq<Moment> -> seq<Moment>>)
    ensures |r| == |names|
  {
    seq(|names|, i requires 0 <= i < |names| => Marking(names[i]))
  }

  /** The moments of a chained call: in through the middleware in order, out in reverse order. */
  lemma {:induction false} FirstIsOutermost(names: seq<string>, inner: seq<Moment>)
    ensures var n, trace := |names|, Wrapped(MarkingAll(names), inner);
            && |trace| == n + |inner| + n
            && (forall i :: 0 <= i < n ==> trace[i] == Before(names[i]) && trace[|trace| - 1 - i] == After(names[i]))
            && trace[n..n + |inner|] == inner
  {
    if names != [] {
      var rest := Wrapped(MarkingAll(names[1..]), inner);
      FirstIsOutermost(names[1..], inner);
      assert MarkingAll(names)[1..] == MarkingAll(names[1..]);
      var trace := Wrapped(MarkingAll(names), inner);
      assert trace == [Before(names[0])] + rest + [After(names[0])];
      forall i | 0 <= i < |names| ensures trace[i] == Before(names[i]) && trace[|trace| - 1 - i] == After(names[i]) {
        if i > 0 {
          assert names[i] == names[1..][i - 1];
          assert rest[i - 1] == Before(names[i]) && rest[|rest| - 1 - (i - 1)] == After(names[i]);
        }
      }
      assert trace[|names|..|names| + |inner|] == rest[|names| - 1..|names| - 1 + |inner|];
    }
  }
}
