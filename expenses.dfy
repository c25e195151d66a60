/**
 * The expense list both components reduce: `expenses.filter(p)` followed by
 * `.reduce((sum, e) => sum + e.amount, 0)`. Amounts are whole yen.
 * `SumWhere` is an independent reference definition of "the sum of the
 * amounts of the expenses satisfying p"; `FilterReduce` proves the two agree.
 */
module Expenses {
  import opened Dates

  /** Only the fields the aggregations read; `date` is the expense's calendar day. */
  datatype Expense = Expense(date: Date, amount: int)

  /** `es.filter(p)`: the expenses satisfying `p`, in their original order. */
  function Filter(es: seq<Expense>, p: Expense -> bool): (r: seq<Expense>)
    ensures |r| <= |es|
    ensures forall e :: e in r <==> e in es && p(e)
    ensures forall e :: multiset(r)[e] == if p(e) then multiset(es)[e] else 0
  {
    if es == [] then []
    else
      assert es == [es[0]] + es[1..];
      if p(es[0]) then [es[0]] + Filter(es[1..], p)
      else Filter(es[1..], p)
  }

  /** The predicate every expense satisfies. */
  function AnyExpense(): Expense -> bool
  {
    (e: Expense) => true
  }

  /** `es.reduce((sum, e) => sum + e.amount, acc)`: a left fold from the accumulator, giving it plus every amount. */
  function Reduce(acc: int, es: seq<Expense>): (total: int)
    ensures total == acc + SumWhere(es, AnyExpense())
    decreases |es|
  {
    if es == [] then acc else Reduce(acc + es[0].amount, es[1..])
  }

  /** Reference definition: the total of the amounts of the expenses satisfying `p`. */
  function SumWhere(es: seq<Expense>, p: Expense -> bool): int
  {
    if es == [] then 0
    else (if p(es[0]) then es[0].amount else 0) + SumWhere(es[1..], p)
  }

  /** Filter-then-reduce from `acc` is `acc` plus the reference total. */
  lemma {:induction false} FilterReduce(acc: int, es: seq<Expense>, p: Expense -> bool)
    ensures Reduce(acc, Filter(es, p)) == acc + SumWhere(es, p)
    decreases |es|
  {
    if es != [] {
      if p(es[0]) {
        var rest := Filter(es[1..], p);
        assert ([es[0]] + rest)[1..] == rest;
        FilterReduce(acc + es[0].amount, es[1..], p);
      } else {
        FilterReduce(acc, es[1..], p);
      }
    }
  }

  lemma {:induction false} SumWhereConcat(a: seq<Expense>, b: seq<Expense>, p: Expense -> bool)
    ensures SumWhere(a + b, p) == SumWhere(a, p) + SumWhere(b, p)
  {
    if a != [] {
      assert (a + b)[0] == a[0];
      assert (a + b)[1..] == a[1..] + b;
      SumWhereConcat(a[1..], b, p);
    } else {
      assert a + b == b;
    }
  }

  /** Expenses that do not satisfy `p` contribute nothing. */
  lemma {:induction false} SumWhereNoMatch(es: seq<Expense>, p: Expense -> bool)
    requires forall e :: e in es ==> !p(e)
    ensures SumWhere(es, p) == 0
  {
    if es != [] {
      assert es[0] in es;
      assert forall e :: e in es[1..] ==> e in es;
      SumWhereNoMatch(es[1..], p);
    }
  }

  /** With non-negative amounts the total is non-negative and covers every matching expense. */
  lemma {:induction false} SumWhereBounds(es: seq<Expense>, p: Expense -> bool)
    requires forall e :: e in es ==> e.amount >= 0
    ensures SumWhere(es, p) >= 0
    ensures forall e :: e in es && p(e) ==> SumWhere(es, p) >= e.amount
  {
    if es != [] {
      assert es[0] in es;
      assert forall e :: e in es[1..] ==> e in es;
      SumWhereBounds(es[1..], p);
      forall e | e in es && p(e) ensures SumWhere(es, p) >= e.amount {
        if e != es[0] {
          assert e in es[1..];
        }
      }
    }
  }

  /** With non-negative amounts the total is positive iff some matching expense has a positive amount. */
  lemma {:induction false} SumWherePositive(es: seq<Expense>, p: Expense -> bool)
    requires forall e :: e in es ==> e.amount >= 0
    ensures SumWhere(es, p) > 0 <==> exists e :: e in es && p(e) && e.amount > 0
  {
    SumWhereBounds(es, p);
    if es != [] {
      assert es[0] in es;
      assert forall e :: e in es[1..] ==> e in es;
      SumWherePositive(es[1..], p);
      if SumWhere(es, p) > 0 && !(p(es[0]) && es[0].amount > 0) {
        var e :| e in es[1..] && p(e) && e.amount > 0;
        assert e in es;
      }
      if exists e :: e in es && p(e) && e.amount > 0 {
        var e :| e in es && p(e) && e.amount > 0;
        if e != es[0] {
          assert e in es[1..];
        }
      }
    }
  }

  /** Taking one expense out of the list takes its contribution out of the total. */
  lemma SumWhereRemove(b: seq<Expense>, i: nat, p: Expense -> bool)
    requires i < |b|
    ensures SumWhere(b, p) == (if p(b[i]) then b[i].amount else 0) + SumWhere(b[..i] + b[i + 1..], p)
  {
    assert b == b[..i] + [b[i]] + b[i + 1..];
    SumWhereConcat(b[..i] + [b[i]], b[i + 1..], p);
    SumWhereConcat(b[..i], [b[i]], p);
    SumWhereConcat(b[..i], b[i + 1..], p);
  }

  lemma MultisetRemove(b: seq<Expense>, i: nat)
    requires i < |b|
    ensures multiset(b[..i] + b[i + 1..]) == multiset(b) - multiset{b[i]}
  {
    assert b == b[..i] + [b[i]] + b[i + 1..];
    assert multiset(b) == multiset(b[..i]) + multiset{b[i]} + multiset(b[i + 1..]);
  }

  /** Removing the first element of `a` and a copy of it from `b` keeps the two lists permutations of each other. */
  lemma PermutationTail(a: seq<Expense>, b: seq<Expense>, i: nat)
    requires multiset(a) == multiset(b) && a != [] && i < |b| && b[i] == a[0]
    ensures multiset(a[1..]) == multiset(b[..i] + b[i + 1..])
  {
    calc {
      multiset(a[1..]);
    == { assert a == [a[0]] + a[1..]; }
      multiset(a) - multiset{a[0]};
    ==
      multiset(b) - multiset{b[i]};
    == { MultisetRemove(b, i); }
      multiset(b[..i] + b[i + 1..]);
    }
  }

  /** The total does not depend on the order of the list. */
  lemma {:induction false} SumWherePermutation(a: seq<Expense>, b: seq<Expense>, p: Expense -> bool)
    requires multiset(a) == multiset(b)
    ensures SumWhere(a, p) == SumWhere(b, p)
    decreases |a|
  {
    if a == [] {
      assert |b| == |multiset(b)| == 0;
    } else {
      var x := a[0];
      assert x in multiset(b);
      var i :| 0 <= i < |b| && b[i] == x;
      PermutationTail(a, b, i);
      SumWherePermutation(a[1..], b[..i] + b[i + 1..], p);
      SumWhereRemove(b, i, p);
    }
  }
}
