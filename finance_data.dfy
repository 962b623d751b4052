/**
 * The financial profile the intake forms build and the Advisory and Summary
 * pages read: six optional sections. Income and expenses are objects from
 * field key to amount (standard keys first, then custom keys), loans and
 * investments are objects from key to record, and personal details and
 * insurance are fixed records.
 */
module FinanceData {
  import opened Js

  datatype Personal = Personal(fullName: string, email: string, age: JsNum, occupation: string, dependents: JsNum)

  datatype Loan = Loan(totalAmount: real, pendingYears: real, emiPerMonth: real)

  datatype Cover = Cover(coverage: real, premiumPerMonth: real)

  datatype Insurance = Insurance(health: Cover, life: Cover, vehicle: Cover)

  /** Real estate carries a monthly income, every other investment a monthly contribution. */
  datatype Investment = Investment(value: real, monthlyContribution: Option<real>, monthlyIncome: Option<real>)

  datatype Data = Data(
    personal: Option<Personal>,
    income: Option<Obj<real>>,
    expenses: Option<Obj<real>>,
    loans: Option<Obj<Loan>>,
    insurance: Option<Insurance>,
    investments: Option<Obj<Investment>>)

  /** `{}`: no section filled in. */
  const Empty: Data := Data(None, None, None, None, None, None)

  /** `section?.[key] || 0` for an amount section. */
  function Amount(section: Option<Obj<real>>, key: string): (a: real)
    ensures section.None? ==> a == 0.0
    ensures section.Some? && Get(section.value, key).Some? ==> a == Get(section.value, key).value
    ensures section.Some? && !HasKey(section.value, key) ==> a == 0.0
  {
    match section
    case None => 0.0
    case Some(o) => Get(o, key).GetOr(0.0)
  }

  /** The entries of an optional object, `Object.values(section || {})`. */
  function EntriesOf<V>(section: Option<Obj<V>>): Obj<V> {
    match section
    case None => []
    case Some(o) => o
  }
}
