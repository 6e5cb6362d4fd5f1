/**
  The expense table as the analytics services query it. A queryset becomes a
  sequence of rows in query order, a `filter(...)` a sequence filter that keeps
  that order, and `values('category__name').annotate(...)` the list of distinct
  category names in the order they first occur. Amounts are exact decimals.
*/
module Ledger {
  import opened Dates
  import opened Statistics

  /** One `Expense` row; the category is identified by its (unique) name. */
  datatype Expense = Expense(id: int, user: int, category: string, amount: real, date: Date)

  predicate NoDuplicates<T(==)>(xs: seq<T>) {
    forall i, j :: 0 <= i < j < |xs| ==> xs[i] != xs[j]
  }

  /** `Expense.objects.filter(user=user, transaction_date__gte=start)`. */
  function Since(ledger: seq<Expense>, user: int, start: Date): (r: seq<Expense>)
    ensures |r| <= |ledger|
    ensures forall e :: e in r <==> e in ledger && e.user == user && LessEq(start, e.date)
  {
    if ledger == [] then []
    else
      var rest := Since(ledger[..|ledger| - 1], user, start);
      var e := ledger[|ledger| - 1];
      assert ledger == ledger[..|ledger| - 1] + [e];
      if e.user == user && LessEq(start, e.date) then rest + [e] else rest
  }

  /** `Expense.objects.filter(user=user, transaction_date__gte=lo, transaction_date__lte=hi)`. */
  function Between(ledger: seq<Expense>, user: int, lo: Date, hi: Date): (r: seq<Expense>)
    ensures |r| <= |ledger|
    ensures forall e :: e in r <==> e in ledger && e.user == user && LessEq(lo, e.date) && LessEq(e.date, hi)
  {
    if ledger == [] then []
    else
      var rest := Between(ledger[..|ledger| - 1], user, lo, hi);
      var e := ledger[|ledger| - 1];
      assert ledger == ledger[..|ledger| - 1] + [e];
      if e.user == user && LessEq(lo, e.date) && LessEq(e.date, hi) then rest + [e] else rest
  }

  /** `expenses.filter(category=c)`. */
  function InCategory(es: seq<Expense>, c: string): (r: seq<Expense>)
    ensures |r| <= |es|
    ensures forall e :: e in r <==> e in es && e.category == c
  {
    if es == [] then []
    else
      var rest := InCategory(es[..|es| - 1], c);
      var e := es[|es| - 1];
      assert es == es[..|es| - 1] + [e];
      if e.category == c then rest + [e] else rest
  }

  /** How often each row occurs in `Since`: as often as in the ledger when it matches
      the filter, never otherwise. */
  lemma {:induction false} SinceCounts(ledger: seq<Expense>, user: int, start: Date)
    ensures forall e ::
      multiset(Since(ledger, user, start))[e] ==
        (if e.user == user && LessEq(start, e.date) then multiset(ledger)[e] else 0)
    decreases |ledger|
  {
    if ledger != [] {
      var front := ledger[..|ledger| - 1];
      SinceCounts(front, user, start);
      assert ledger == front + [ledger[|ledger| - 1]];
    }
  }

  /** How often each row occurs in `Between`. */
  lemma {:induction false} BetweenCounts(ledger: seq<Expense>, user: int, lo: Date, hi: Date)
    ensures forall e ::
      multiset(Between(ledger, user, lo, hi))[e] ==
        (if e.user == user && LessEq(lo, e.date) && LessEq(e.date, hi) then multiset(ledger)[e] else 0)
    decreases |ledger|
  {
    if ledger != [] {
      var front := ledger[..|ledger| - 1];
      BetweenCounts(front, user, lo, hi);
      assert ledger == front + [ledger[|ledger| - 1]];
    }
  }

  /** How often each row occurs in `InCategory`. */
  lemma {:induction false} InCategoryCounts(es: seq<Expense>, c: string)
    ensures forall e :: multiset(InCategory(es, c))[e] == if e.category == c then multiset(es)[e] else 0
    decreases |es|
  {
    if es != [] {
      var front := es[..|es| - 1];
      InCategoryCounts(front, c);
      assert es == front + [es[|es| - 1]];
    }
  }

  /** `values_list('amount', flat=True)`. */
  function Amounts(es: seq<Expense>): (r: seq<real>)
    ensures |r| == |es|
    ensures forall i :: 0 <= i < |es| ==> r[i] == es[i].amount
  {
    if es == [] then [] else [es[0].amount] + Amounts(es[1..])
  }

  /** `aggregate(total=Sum('amount'))['total'] or 0`: an empty set totals 0. */
  function Total(es: seq<Expense>): real {
    Sum(Amounts(es))
  }

  /** `Avg('amount')` over a non-empty set of expenses: the value whose `|es|` copies
      add up to the total. */
  function Average(es: seq<Expense>): (avg: real)
    requires |es| > 0
    ensures avg * (|es| as real) == Total(es)
  {
    Quotient(Total(es), |es|)
  }

  function Quotient(total: real, n: nat): (r: real)
    requires n > 0
    ensures r * (n as real) == total
  {
    total / (n as real)
  }

  /** The distinct category names of `es`, each once, in order of first occurrence. */
  function Categories(es: seq<Expense>): (r: seq<string>)
    ensures NoDuplicates(r)
    ensures forall c :: c in r <==> exists e :: e in es && e.category == c
  {
    if es == [] then []
    else
      var rest := Categories(es[..|es| - 1]);
      var e := es[|es| - 1];
      assert es == es[..|es| - 1] + [e];
      if e.category in rest then rest else rest + [e.category]
  }

  /** A category listed by `Categories` has at least one expense, so its average exists. */
  lemma CategoryNonEmpty(es: seq<Expense>, c: string)
    requires c in Categories(es)
    ensures |InCategory(es, c)| > 0
  {
    var e :| e in es && e.category == c;
    assert e in InCategory(es, c);
  }

  /** The expenses of `es` are exactly the union of its per-category groups, and
      the per-category totals add up to the total. */
  lemma {:induction false} TotalByCategory(es: seq<Expense>, cs: seq<string>)
    requires NoDuplicates(cs)
    requires forall e :: e in es ==> e.category in cs
    ensures Total(es) == CategorySum(es, cs)
    decreases |cs|
  {
    if cs == [] {
      assert es == [];
    } else {
      var c := cs[|cs| - 1];
      var front := cs[..|cs| - 1];
      assert cs == front + [c];
      var (inside, outside) := (InCategory(es, c), Outside(es, c));
      TotalSplit(es, c);
      forall e | e in outside ensures e.category in front {
        assert e.category != c && e.category in cs;
      }
      assert NoDuplicates(front);
      TotalByCategory(outside, front);
      CategorySumOutside(es, c, front);
    }
  }

  /** Sum of the totals of categories `cs` within `es`. */
  function CategorySum(es: seq<Expense>, cs: seq<string>): real {
    if cs == [] then 0.0
    else CategorySum(es, cs[..|cs| - 1]) + Total(InCategory(es, cs[|cs| - 1]))
  }

  /** The rows of `es` outside category `c`. */
  function Outside(es: seq<Expense>, c: string): (r: seq<Expense>)
    ensures forall e :: e in r <==> e in es && e.category != c
  {
    if es == [] then []
    else
      var rest := Outside(es[..|es| - 1], c);
      var e := es[|es| - 1];
      assert es == es[..|es| - 1] + [e];
      if e.category != c then rest + [e] else rest
  }

  /** How often each row occurs in `Outside`. */
  lemma {:induction false} OutsideCounts(es: seq<Expense>, c: string)
    ensures forall e :: multiset(Outside(es, c))[e] == if e.category != c then multiset(es)[e] else 0
    decreases |es|
  {
    if es != [] {
      var front := es[..|es| - 1];
      OutsideCounts(front, c);
      assert es == front + [es[|es| - 1]];
    }
  }

  lemma {:induction false} SumAppend(xs: seq<real>, ys: seq<real>)
    ensures Sum(xs + ys) == Sum(xs) + Sum(ys)
    decreases |xs|
  {
    if xs != [] {
      SumAppend(xs[1..], ys);
      assert (xs + ys)[1..] == xs[1..] + ys;
    } else {
      assert xs + ys == ys;
    }
  }

  lemma {:induction false} TotalAppend(es: seq<Expense>, e: Expense)
    ensures Total(es + [e]) == Total(es) + e.amount
  {
    assert Amounts(es + [e]) == Amounts(es) + [e.amount];
    SumAppend(Amounts(es), [e.amount]);
  }

  /** Splitting on one category divides the total between the two parts. */
  lemma {:induction false} TotalSplit(es: seq<Expense>, c: string)
    ensures Total(es) == Total(InCategory(es, c)) + Total(Outside(es, c))
    decreases |es|
  {
    if es != [] {
      var front := es[..|es| - 1];
      var e := es[|es| - 1];
      assert es == front + [e];
      TotalSplit(front, c);
      TotalAppend(front, e);
      if e.category == c {
        TotalAppend(InCategory(front, c), e);
      } else {
        TotalAppend(Outside(front, c), e);
      }
    }
  }

  /** Categories other than `c` see the same group inside `Outside(es, c)` as inside `es`. */
  lemma {:induction false} CategorySumOutside(es: seq<Expense>, c: string, cs: seq<string>)
    requires c !in cs
    ensures CategorySum(Outside(es, c), cs) + Total(InCategory(es, c)) == CategorySum(es, cs + [c])
    decreases |cs|
  {
    assert (cs + [c])[..|cs|] == cs;
    SameGroups(es, c, cs);
  }

  lemma {:induction false} SameGroups(es: seq<Expense>, c: string, cs: seq<string>)
    requires c !in cs
    ensures CategorySum(Outside(es, c), cs) == CategorySum(es, cs)
    decreases |cs|
  {
    if cs != [] {
      var d := cs[|cs| - 1];
      SameGroups(es, c, cs[..|cs| - 1]);
      InCategoryOutside(es, c, d);
    }
  }

  lemma {:induction false} InCategoryOutside(es: seq<Expense>, c: string, d: string)
    requires c != d
    ensures InCategory(Outside(es, c), d) == InCategory(es, d)
    decreases |es|
  {
    if es != [] {
      var front := es[..|es| - 1];
      var e := es[|es| - 1];
      assert es == front + [e];
      InCategoryOutside(front, c, d);
    }
  }
}
