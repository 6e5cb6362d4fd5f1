/**
  `AIInsightsService.get_quick_insights`: a summary of the current month's
  spending (every expense dated on or after the first of the month), its
  change against the prior-month window, the top category and the average
  expense.
*/
module Insights {
  import opened Dates
  import opened Statistics
  import opened Ledger
  import opened Wrappers

  datatype QuickInsights = QuickInsights(
    totalSpentThisMonth: real,
    changeFromLastMonth: real,
    topCategory: Option<string>,
    topCategoryAmount: real,
    expenseCount: nat,
    averageExpense: real)

  /** The `total` of one row of `values('category__name').annotate(total=Sum('amount'))`. */
  function CategoryTotal(es: seq<Expense>, c: string): real {
    Total(InCategory(es, c))
  }

  /** `order_by('-total').first()` over the categories `cs`: a category with the largest
      total, the earliest one in `cs` among equal totals. */
  function TopAmong(es: seq<Expense>, cs: seq<string>): (top: string)
    requires |cs| > 0
    ensures top in cs
    ensures forall c :: c in cs ==> CategoryTotal(es, c) <= CategoryTotal(es, top)
  {
    if |cs| == 1 then cs[0]
    else
      var best := TopAmong(es, cs[..|cs| - 1]);
      var last := cs[|cs| - 1];
      assert cs == cs[..|cs| - 1] + [last];
      if CategoryTotal(es, last) > CategoryTotal(es, best) then last else best
  }

  /** `((total - last_total) / last_total) * 100` when the prior total is positive, else 0. */
  function ChangePercent(total: real, lastTotal: real): (r: real)
    ensures lastTotal <= 0.0 ==> r == 0.0
    ensures lastTotal > 0.0 ==> r * lastTotal == (total - lastTotal) * 100.0
  {
    if lastTotal > 0.0 then ((total - lastTotal) / lastTotal) * 100.0 else 0.0
  }

  function MaxOne(n: nat): (r: nat)
    ensures r >= 1 && r >= n && (n > 0 ==> r == n)
  {
    if n > 1 then n else 1
  }

  /** `total / max(count, 1)`: the mean expense, and 0 when there is none. */
  function AverageExpense(total: real, count: nat): (r: real)
    ensures r * (MaxOne(count) as real) == total
  {
    total / (MaxOne(count) as real)
  }

  /** The current month: `filter(user=user, transaction_date__gte=month_start)`, with no upper bound. */
  function CurrentMonth(ledger: seq<Expense>, user: int, today: Date): seq<Expense>
    requires Valid(today)
  {
    Since(ledger, user, MonthStart(today))
  }

  /** The prior-month window, from `PriorMonthStart` to `PriorMonthEnd` inclusive. */
  function PriorMonth(ledger: seq<Expense>, user: int, today: Date): seq<Expense>
    requires Valid(today)
  {
    Between(ledger, user, PriorMonthStart(today), PriorMonthEnd(today))
  }

  function GetQuickInsights(ledger: seq<Expense>, user: int, today: Date): (r: QuickInsights)
    requires Valid(today)
    ensures var current := CurrentMonth(ledger, user, today);
      r.expenseCount == |current| && r.totalSpentThisMonth == Total(current)
    ensures r.changeFromLastMonth == ChangePercent(r.totalSpentThisMonth, Total(PriorMonth(ledger, user, today)))
    ensures r.averageExpense == AverageExpense(r.totalSpentThisMonth, r.expenseCount)
    ensures r.expenseCount == 0 ==>
      r.totalSpentThisMonth == 0.0 && r.averageExpense == 0.0 && r.topCategory == None && r.topCategoryAmount == 0.0
    ensures r.expenseCount > 0 ==> r.topCategory.Some?
    ensures var current := CurrentMonth(ledger, user, today);
      r.topCategory.Some? ==>
        (exists e :: e in current && e.category == r.topCategory.value) &&
        r.topCategoryAmount == CategoryTotal(current, r.topCategory.value) &&
        (forall e :: e in current ==> CategoryTotal(current, e.category) <= r.topCategoryAmount)
  {
    var current := CurrentMonth(ledger, user, today);
    var total := Total(current);
    var lastTotal := Total(PriorMonth(ledger, user, today));
    var cats := Categories(current);
    var count := |current|;
    var average := AverageExpense(total, count);
    if cats == [] then
      assert current == [];
      QuickInsights(total, ChangePercent(total, lastTotal), None, 0.0, count, average)
    else
      var top := TopAmong(current, cats);
      assert current != [];
      QuickInsights(total, ChangePercent(total, lastTotal), Some(top), CategoryTotal(current, top), count, average)
  }

  /** The average expense never exceeds the top category's total when amounts are
      non-negative and there is at least one expense: the top category holds at least
      its share `total / k` for `k` categories, and `k <= count`. */
  lemma TopCategoryAtLeastAverage(ledger: seq<Expense>, user: int, today: Date)
    requires Valid(today)
    requires forall e :: e in CurrentMonth(ledger, user, today) ==> e.amount >= 0.0
    requires |CurrentMonth(ledger, user, today)| > 0
    ensures var r := GetQuickInsights(ledger, user, today);
      r.averageExpense <= r.topCategoryAmount
  {
    var current := CurrentMonth(ledger, user, today);
    var r := GetQuickInsights(ledger, user, today);
    var cats := Categories(current);
    var amount := CategoryTotal(current, r.topCategory.value);
    TotalByCategory(current, cats);
    CategorySumAtMost(current, cats, amount);
    CategoriesAtMostRows(current);
    NonNegativeTotal(InCategory(current, r.topCategory.value));
    TimesMonotone(|cats|, |current|, amount);
    AverageAtMost(Total(current), |current|, amount);
  }

  /** `n * b` as `n` repeated additions of `b`. */
  function Times(n: nat, b: real): real {
    if n == 0 then 0.0 else Times(n - 1, b) + b
  }

  lemma {:induction false} TimesIsProduct(n: nat, b: real)
    ensures Times(n, b) == (n as real) * b
  {
    if n > 0 {
      TimesIsProduct(n - 1, b);
      assert ((n - 1) as real) * b + b == (n as real) * b;
    }
  }

  lemma {:induction false} TimesMonotone(k: nat, n: nat, b: real)
    requires k <= n && b >= 0.0
    ensures Times(k, b) <= Times(n, b)
    decreases n
  {
    if k < n {
      TimesMonotone(k, n - 1, b);
    }
  }

  /** With `total <= n * bound` and `n > 0`, the mean `total / n` is at most `bound`. */
  lemma AverageAtMost(total: real, n: nat, bound: real)
    requires n > 0 && total <= Times(n, bound)
    ensures AverageExpense(total, n) <= bound
  {
    TimesIsProduct(n, bound);
  }

  lemma {:induction false} CategorySumAtMost(es: seq<Expense>, cs: seq<string>, bound: real)
    requires forall c :: c in cs ==> CategoryTotal(es, c) <= bound
    ensures CategorySum(es, cs) <= Times(|cs|, bound)
    decreases |cs|
  {
    if cs != [] {
      assert cs[|cs| - 1] in cs;
      CategorySumAtMost(es, cs[..|cs| - 1], bound);
    }
  }

  lemma {:induction false} CategoriesAtMostRows(es: seq<Expense>)
    ensures |Categories(es)| <= |es|
    decreases |es|
  {
    if es != [] {
      CategoriesAtMostRows(es[..|es| - 1]);
    }
  }

  lemma {:induction false} NonNegativeTotal(es: seq<Expense>)
    requires forall e :: e in es ==> e.amount >= 0.0
    ensures Total(es) >= 0.0
    decreases |es|
  {
    if es != [] {
      assert Amounts(es)[1..] == Amounts(es[1..]);
      NonNegativeTotal(es[1..]);
    }
  }
}
