/** Folds of an operation about which only its algebraic laws are known. */
module Folds {
  /** The last two operands may trade places. */
  ghost predicate Exchanges<T(!new)>(op: (T, T) -> T) {
    forall a, b, c :: op(op(a, b), c) == op(op(a, c), b)
  }

  ghost predicate Associates<T(!new)>(op: (T, T) -> T, unit: T) {
    && (forall a :: op(a, unit) == a)
    && (forall a, b, c :: op(op(a, b), c) == op(a, op(b, c)))
  }

  ghost function Fold<T>(op: (T, T) -> T, unit: T, items: seq<T>): T {
    if items == [] then unit else op(Fold(op, unit, items[..|items| - 1]), items[|items| - 1])
  }

  lemma FoldSnoc<T>(op: (T, T) -> T, unit: T, items: seq<T>, last: T)
    ensures Fold(op, unit, items + [last]) == op(Fold(op, unit, items), last)
  {
    assert (items + [last])[..|items|] == items;
  }

  lemma {:induction false} FoldUnits<T(!new)>(op: (T, T) -> T, unit: T, items: seq<T>)
    requires Associates(op, unit) && forall i :: 0 <= i < |items| ==> items[i] == unit
    ensures Fold(op, unit, items) == unit
  {
    if items != [] {
      FoldUnits(op, unit, items[..|items| - 1]);
    }
  }

  lemma {:induction false} FoldConcat<T(!new)>(op: (T, T) -> T, unit: T, a: seq<T>, b: seq<T>)
    requires Associates(op, unit)
    ensures Fold(op, unit, a + b) == op(Fold(op, unit, a), Fold(op, unit, b))
  {
    if b == [] {
      assert a + b == a;
    } else {
      var init, last := b[..|b| - 1], b[|b| - 1];
      FoldConcat(op, unit, a, init);
      assert a + b == (a + init) + [last];
      FoldSnoc(op, unit, a + init, last);
    }
  }

  /** Any one item may be taken out and folded in last. */
  lemma {:induction false} FoldRemove<T(!new)>(op: (T, T) -> T, unit: T, items: seq<T>, m: int)
    requires Exchanges(op) && 0 <= m < |items|
    ensures Fold(op, unit, items) == op(Fold(op, unit, items[..m] + items[m + 1..]), items[m])
  {
    var n := |items| - 1;
    var init, last := items[..n], items[n];
    if m == n {
      assert items[..m] + items[m + 1..] == init;
    } else {
      var fewer := init[..m] + init[m + 1..];
      FoldRemove(op, unit, init, m);
      assert items[..m] + items[m + 1..] == fewer + [last];
      FoldSnoc(op, unit, fewer, last);
    }
  }
}
