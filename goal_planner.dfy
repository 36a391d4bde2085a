/**
 * The arithmetic of `goal_savings_plan`: the monthly amount needed to buy an
 * item within a number of months, and how much must be saved on top of the
 * current monthly savings.
 */
module GoalPlanner {
  import opened Wrappers

  /** `item_price / months_to_save` with `months_to_save == 0` raises. */
  datatype PlanError = DivisionByZero

  datatype Goal = Goal(perMonth: real, extraNeeded: real)

  /** The amount each month must contribute; `months` is an `int`, the price a float. */
  function PerMonth(price: real, months: int): real
    requires months != 0
  {
    price / (months as real)
  }

  /** `max(0, savings_each_month - savings)`. */
  function ExtraNeeded(perMonth: real, savings: real): real
  {
    if perMonth - savings > 0.0 then perMonth - savings else 0.0
  }

  /** The whole calculation, with the division by zero as an error value. */
  function Plan(price: real, months: int, savings: real): (r: Result<Goal, PlanError>)
    ensures r.Failure? <==> months == 0
    ensures r.Success? ==> r.value.perMonth * (months as real) == price
    ensures r.Success? ==> r.value.extraNeeded >= 0.0
    ensures r.Success? ==> savings + r.value.extraNeeded >= r.value.perMonth
    ensures r.Success? ==> (r.value.extraNeeded == 0.0 <==> savings >= r.value.perMonth)
  {
    if months == 0 then Failure(DivisionByZero)
    else
      var perMonth := PerMonth(price, months);
      Success(Goal(perMonth, ExtraNeeded(perMonth, savings)))
  }

  /** The extra amount is the least non-negative top-up that reaches the monthly amount. */
  lemma ExtraNeededIsLeast(perMonth: real, savings: real, topUp: real)
    requires topUp >= 0.0 && savings + topUp >= perMonth
    ensures ExtraNeeded(perMonth, savings) <= topUp
  {
  }

  /** More savings never calls for a larger extra amount. */
  lemma ExtraNeededMonotone(price: real, months: int, lower: real, higher: real)
    requires months != 0 && lower <= higher
    ensures Plan(price, months, higher).value.extraNeeded <= Plan(price, months, lower).value.extraNeeded
  {
  }
}
