/** Byte totals over the containers whose contents are charged to the capacity ledger. */
module Sums {
  function Total<T>(xs: seq<T>, size: T -> nat): nat {
    if xs == [] then 0 else size(xs[0]) + Total(xs[1..], size)
  }

  lemma TotalNil<T>(size: T -> nat)
    ensures Total([], size) == 0
  {
  }

  lemma {:induction false} TotalConcat<T>(xs: seq<T>, ys: seq<T>, size: T -> nat)
    ensures Total(xs + ys, size) == Total(xs, size) + Total(ys, size)
  {
    if xs == [] {
      assert xs + ys == ys;
    } else {
      assert (xs + ys)[1..] == xs[1..] + ys;
      TotalConcat(xs[1..], ys, size);
    }
  }

  lemma TotalPush<T>(xs: seq<T>, x: T, size: T -> nat)
    ensures Total(xs + [x], size) == Total(xs, size) + size(x)
  {
    TotalConcat(xs, [x], size);
  }

  lemma {:induction false} TotalCovers<T>(xs: seq<T>, i: nat, size: T -> nat)
    requires i < |xs|
    ensures size(xs[i]) <= Total(xs, size)
  {
    if i > 0 {
      TotalCovers(xs[1..], i - 1, size);
    }
  }

  lemma {:induction false} TotalCoversTwo<T>(xs: seq<T>, i: nat, j: nat, size: T -> nat)
    requires i < j < |xs|
    ensures size(xs[i]) + size(xs[j]) <= Total(xs, size)
  {
    if i > 0 {
      TotalCoversTwo(xs[1..], i - 1, j - 1, size);
    } else {
      TotalCovers(xs[1..], j - 1, size);
    }
  }

  /** The sum over the entries of `m` whose key is below `bound`. */
  function TableTotal<T>(m: map<nat, T>, size: T -> nat, bound: nat): nat {
    if bound == 0 then 0
    else TableTotal(m, size, bound - 1) + if bound - 1 in m then size(m[bound - 1]) else 0
  }

  function EntrySize<T>(m: map<nat, T>, size: T -> nat, k: nat): nat {
    if k in m then size(m[k]) else 0
  }

  /** Changing the entry of one key changes the total by exactly that entry. */
  lemma {:induction false} TableTotalChange<T>(m: map<nat, T>, n: map<nat, T>, size: T -> nat, bound: nat, k: nat)
    requires forall j | j != k :: (j in m <==> j in n) && (j in m ==> m[j] == n[j])
    ensures k < bound ==>
              TableTotal(n, size, bound) + EntrySize(m, size, k) == TableTotal(m, size, bound) + EntrySize(n, size, k)
    ensures bound <= k ==> TableTotal(n, size, bound) == TableTotal(m, size, bound)
  {
    if bound > 0 {
      TableTotalChange(m, n, size, bound - 1, k);
    }
  }

  lemma {:induction false} TableTotalCovers<T>(m: map<nat, T>, size: T -> nat, bound: nat, k: nat)
    requires k in m && k < bound
    ensures size(m[k]) <= TableTotal(m, size, bound)
  {
    if k < bound - 1 {
      TableTotalCovers(m, size, bound - 1, k);
    }
  }

  lemma {:induction false} TableTotalEmpty<T>(m: map<nat, T>, size: T -> nat, bound: nat)
    requires m == map[]
    ensures TableTotal(m, size, bound) == 0
  {
    if bound > 0 {
      TableTotalEmpty(m, size, bound - 1);
    }
  }

  /** A new entry at the next free key adds its own size. */
  lemma TableTotalNew<T>(m: map<nat, T>, x: T, size: T -> nat, k: nat)
    requires k !in m
    ensures TableTotal(m[k := x], size, k + 1) == TableTotal(m, size, k) + size(x)
  {
    TableTotalChange(m, m[k := x], size, k, k);
  }
}
