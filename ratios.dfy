/**
  The read-only progress properties of budgets and investment goals:
  `Budget.remaining`/`percentage_used`, `BudgetCategory.remaining`/
  `percentage_used` and `Goal.progress_percent`. Amounts are exact decimals
  (`real`). Each property is a guarded percentage: a share times 100 when the
  whole is positive, else 0, with no clamp at either end. Records are values,
  so reading a property changes no field.
*/
module Ratios {

  datatype Budget = Budget(amount: real, spent: real)

  datatype BudgetCategory = BudgetCategory(categoryName: string, allocatedAmount: real, spentAmount: real)

  datatype Goal = Goal(targetAmount: real, currentAmount: real)

  /** `(part / whole) * 100` when `whole > 0`, otherwise 0 without dividing. */
  function PercentOf(part: real, whole: real): (p: real)
    ensures whole > 0.0 ==> p * whole == part * 100.0
    ensures whole <= 0.0 ==> p == 0.0
  {
    if whole > 0.0 then (part / whole) * 100.0 else 0.0
  }

  /** Against a positive whole the percentage reaches 100 exactly when the part reaches the
      whole, is exactly 100 when they are equal, and exceeds 100 past it: there is no clamp. */
  lemma PercentOfHundred(part: real, whole: real)
    requires whole > 0.0
    ensures PercentOf(part, whole) >= 100.0 <==> part >= whole
    ensures PercentOf(part, whole) == 100.0 <==> part == whole
    ensures PercentOf(part, whole) > 100.0 <==> part > whole
    ensures PercentOf(part, whole) < 0.0 <==> part < 0.0
  {
    var p := PercentOf(part, whole);
    assert p * whole == part * 100.0;
    if p >= 100.0 { MulMonotone(p, 100.0, whole); }
    if part >= whole { MulMonotoneBack(p, 100.0, whole); }
    if p > 100.0 { MulStrict(p, 100.0, whole); }
    if part > whole { MulStrictBack(p, 100.0, whole); }
    if p < 0.0 { MulStrict(0.0, p, whole); }
    if part < 0.0 { MulStrictBack(0.0, p, whole); }
  }

  /** Over the same positive whole, a larger part gives a larger percentage. */
  lemma PercentOfMonotone(a: real, b: real, whole: real)
    requires whole > 0.0 && a <= b
    ensures PercentOf(a, whole) <= PercentOf(b, whole)
  {
    var pa, pb := PercentOf(a, whole), PercentOf(b, whole);
    assert pa * whole <= pb * whole;
    if pa > pb { MulStrict(pa, pb, whole); }
  }

  lemma MulMonotone(x: real, y: real, w: real)
    requires w > 0.0 && x >= y
    ensures x * w >= y * w
  {
  }

  lemma MulMonotoneBack(x: real, y: real, w: real)
    requires w > 0.0 && x * w >= y * w
    ensures x >= y
  {
    if x < y { MulStrict(y, x, w); }
  }

  lemma MulStrict(x: real, y: real, w: real)
    requires w > 0.0 && x > y
    ensures x * w > y * w
  {
  }

  lemma MulStrictBack(x: real, y: real, w: real)
    requires w > 0.0 && x * w > y * w
    ensures x > y
  {
    if x <= y { MulMonotone(y, x, w); }
  }

  /** `Budget.remaining`: what is left of the amount, negative once overspent. */
  function BudgetRemaining(b: Budget): (r: real)
    ensures r + b.spent == b.amount
    ensures r < 0.0 <==> b.spent > b.amount
  {
    b.amount - b.spent
  }

  /** `Budget.percentage_used`: the spent share of a positive amount in percent, else 0. */
  function BudgetPercentageUsed(b: Budget): (p: real)
    ensures b.amount > 0.0 ==> p * b.amount == b.spent * 100.0
    ensures b.amount <= 0.0 ==> p == 0.0
  {
    PercentOf(b.spent, b.amount)
  }

  /** `remaining` and `percentage_used` agree: for a positive amount, nothing is left
      exactly when at least 100% is used, and the budget is overspent exactly past 100%. */
  lemma BudgetRemainingAgrees(b: Budget)
    requires b.amount > 0.0
    ensures BudgetRemaining(b) <= 0.0 <==> BudgetPercentageUsed(b) >= 100.0
    ensures BudgetRemaining(b) < 0.0 <==> BudgetPercentageUsed(b) > 100.0
  {
    PercentOfHundred(b.spent, b.amount);
  }

  /** `BudgetCategory.remaining`: what is left of the allocation. */
  function CategoryRemaining(c: BudgetCategory): (r: real)
    ensures r + c.spentAmount == c.allocatedAmount
    ensures r < 0.0 <==> c.spentAmount > c.allocatedAmount
  {
    c.allocatedAmount - c.spentAmount
  }

  /** `BudgetCategory.percentage_used`: the same guarded formula over the allocation. */
  function CategoryPercentageUsed(c: BudgetCategory): (p: real)
    ensures c.allocatedAmount > 0.0 ==> p * c.allocatedAmount == c.spentAmount * 100.0
    ensures c.allocatedAmount <= 0.0 ==> p == 0.0
  {
    PercentOf(c.spentAmount, c.allocatedAmount)
  }

  lemma CategoryRemainingAgrees(c: BudgetCategory)
    requires c.allocatedAmount > 0.0
    ensures CategoryRemaining(c) <= 0.0 <==> CategoryPercentageUsed(c) >= 100.0
    ensures CategoryRemaining(c) < 0.0 <==> CategoryPercentageUsed(c) > 100.0
  {
    PercentOfHundred(c.spentAmount, c.allocatedAmount);
  }

  /** `Goal.progress_percent`: the current share of a positive target in percent, else 0. */
  function GoalProgressPercent(g: Goal): (p: real)
    ensures g.targetAmount > 0.0 ==> p * g.targetAmount == g.currentAmount * 100.0
    ensures g.targetAmount <= 0.0 ==> p == 0.0
  {
    PercentOf(g.currentAmount, g.targetAmount)
  }

  /** Progress is unclamped: exactly 100 when the target is met, above 100 once it is
      passed, and it grows with the current amount. */
  lemma GoalProgressUnclamped(g: Goal, more: real)
    requires g.targetAmount > 0.0 && more >= g.currentAmount
    ensures GoalProgressPercent(g) == 100.0 <==> g.currentAmount == g.targetAmount
    ensures GoalProgressPercent(g) > 100.0 <==> g.currentAmount > g.targetAmount
    ensures GoalProgressPercent(g) <= GoalProgressPercent(g.(currentAmount := more))
  {
    PercentOfHundred(g.currentAmount, g.targetAmount);
    PercentOfMonotone(g.currentAmount, more, g.targetAmount);
  }
}
