/** The accrual calculators of Entities/Bank.cs (CalculateThePercentageOnDebitAccount,
    CalculateThePercentageOnDepositAccount, CalculateTheLoanOnCreditAccount)
    and the daily change they make to an account's pending value. They read
    only the policy and the balance, so they are stated on values. */
module DailyAccrual {
  import opened Common
  import opened Accounts
  import opened Conditions

  /** Bank.DaysInYear. Bank.HundredPercent is declared but never used. */
  const DaysInYear: real := 365.0

  /** A day's interest on a debit balance: the rate is divided by the days in
      a year only. */
  function DebitInterest(pol: Policy, cash: real): real {
    cash * (pol.debitInterest / DaysInYear)
  }

  /** A day's interest on a deposit balance at the rate of its tier; the
      lookup throws when no key lies above the balance. */
  function DepositInterest(pol: Policy, cash: real): Result<real> {
    match TierRate(pol.depositTable, cash)
    case Err(e) => Err(e)
    case Ok(rate) => Ok(cash * (rate / DaysInYear))
  }

  /** The loan of a credit account: nothing while the balance is positive,
      otherwise the balance less the current limit, less a day's commission. */
  function CreditLoan(pol: Policy, cash: real): real {
    if cash > 0.0 then 0.0 else (cash - pol.creditLimit) - pol.loanCommission / DaysInYear
  }

  /** The amount UpdateAllOnOneDay adds to an account's pending value: the
      loan is subtracted for a credit account, the interest added otherwise. */
  function Accrual(pol: Policy, v: Variant, cash: real): Result<real> {
    match v
    case Credit(_) => Ok(-CreditLoan(pol, cash))
    case Debit => Ok(DebitInterest(pol, cash))
    case Deposit(_) => DepositInterest(pol, cash)
  }

  /** The accrual fails only for a deposit whose balance is at or above every
      key of the table, and then with the error Enumerable.First throws. */
  lemma AccrualFailure(pol: Policy, v: Variant, cash: real)
    ensures Accrual(pol, v, cash).Err? <==>
            v.Deposit? && forall i :: 0 <= i < |pol.depositTable| ==> pol.depositTable[i].0 <= cash
    ensures Accrual(pol, v, cash).Err? ==> Accrual(pol, v, cash).error == NoMatchingElement
  {
  }

  /** Non-negative rates on a non-negative balance never produce a negative
      interest. */
  lemma InterestNotNegative(pol: Policy, v: Variant, cash: real)
    requires pol.debitInterest >= 0.0 && cash >= 0.0
    requires forall i :: 0 <= i < |pol.depositTable| ==> pol.depositTable[i].1 >= 0.0
    requires !v.Credit? && Accrual(pol, v, cash).Ok?
    ensures Accrual(pol, v, cash).value >= 0.0
  {
    if v.Deposit? {
      var rate := TierRate(pol.depositTable, cash).value;
      assert rate >= 0.0;
      assert rate / DaysInYear >= 0.0;
    } else {
      assert pol.debitInterest / DaysInYear >= 0.0;
    }
  }

  /** With the non-negative limit and commission the policy enforces, and the
      non-negative balance every credit account keeps, the credit accrual
      never lowers the pending value: a positive balance accrues nothing and
      a zero balance accrues the limit plus a day's commission. So no loan is
      ever charged. */
  lemma CreditAccrualNeverCharges(pol: Policy, t: real, cash: real)
    requires pol.creditLimit >= 0.0 && pol.loanCommission >= 0.0 && cash >= 0.0
    ensures Accrual(pol, Credit(t), cash).Ok?
    ensures Accrual(pol, Credit(t), cash).value >= 0.0
    ensures cash > 0.0 ==> Accrual(pol, Credit(t), cash).value == 0.0
    ensures cash == 0.0 ==> Accrual(pol, Credit(t), cash).value == pol.creditLimit + pol.loanCommission / DaysInYear
  {
  }

  /** A whole year of daily debit interest on an unchanged balance is the
      balance times the rate as written: a rate of 5 multiplies the balance by
      5, because the percentage constant is not applied. */
  lemma DebitYear(pol: Policy, cash: real)
    ensures DaysInYear * DebitInterest(pol, cash) == cash * pol.debitInterest
  {
  }

  /** The test's policy table: a deposit of 50000 accrues at the rate of the
      100000 tier; one of 1000000 or more stops the daily pass. */
  lemma TestTableAccrual(pol: Policy, closing: int)
    requires pol.depositTable == TestTable
    ensures Accrual(pol, Deposit(closing), 50000.0) == Ok(50000.0 * (4.0 / DaysInYear))
    ensures Accrual(pol, Deposit(closing), 1000000.0) == Err(NoMatchingElement)
  {
    TestTableLookups();
  }
}
