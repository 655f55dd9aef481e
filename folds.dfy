/**
 * A step function applied once per element of a list, first to last: the
 * shape of the `setattr` loops that apply an update body to a row.
 */
module Folds {

  function Fold<T, F>(init: T, items: seq<F>, step: (T, F) -> T): T
    decreases |items|
  {
    if |items| == 0 then init else step(Fold(init, items[..|items| - 1], step), items[|items| - 1])
  }

  /** Running the loop over `xs + ys` is running it over `xs`, then over `ys`. */
  lemma {:induction false} FoldAppend<T, F>(init: T, xs: seq<F>, ys: seq<F>, step: (T, F) -> T)
    ensures Fold(init, xs + ys, step) == Fold(Fold(init, xs, step), ys, step)
    decreases |ys|
  {
    if |ys| == 0 {
      assert xs + ys == xs;
    } else {
      var n := |ys| - 1;
      assert (xs + ys)[..|xs + ys| - 1] == xs + ys[..n];
      assert (xs + ys)[|xs + ys| - 1] == ys[n];
      FoldAppend(init, xs, ys[..n], step);
    }
  }
}
