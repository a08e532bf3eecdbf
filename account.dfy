/** AccountUtils: the account hierarchy. The abstract Account and its three
    subclasses become one class whose constant `variant` says which subclass
    it is and carries what that subclass fixes at construction (the closing
    date of a deposit, the threshold of a credit account). */
module Accounts {
  import opened Common

  datatype Variant = Debit | Deposit(closingDate: int) | Credit(threshold: real)

  /** The concrete class, as the source's typeof comparisons see it. */
  datatype AccountType = DebitAccount | DepositAccount | CreditAccount

  function TypeOf(v: Variant): AccountType {
    match v
    case Debit => DebitAccount
    case Deposit(_) => DepositAccount
    case Credit(_) => CreditAccount
  }

  /** The minimum amount each subclass's ValidateMoney accepts: 0 for debit
      and deposit accounts, the limit snapshot for credit accounts. */
  function Floor(v: Variant): real {
    match v
    case Debit => 0.0
    case Deposit(_) => 0.0
    case Credit(t) => t
  }

  /** ValidateMoney of the subclass. */
  predicate ValidateMoney(v: Variant, x: real) {
    x >= Floor(v)
  }

  /** AdditionalValidate: a no-op except for a deposit that has not reached
      its closing date. */
  function AdditionalValidate(v: Variant, now: int): Outcome {
    if v.Deposit? && now < v.closingDate then Fail(ClosingDateNotArrived) else Pass
  }

  /** WithdrawMoney on values: the new balance, or the exception thrown.
      The extra guard runs first, then the amount check, then the check of
      the resulting balance. */
  function Withdraw(v: Variant, now: int, cash: real, amount: real): Result<real> {
    if AdditionalValidate(v, now).Fail? then Err(ClosingDateNotArrived)
    else if !ValidateMoney(v, amount) then Err(ValueNotValid)
    else if !ValidateMoney(v, cash - amount) then Err(ValueNotValid)
    else Ok(cash - amount)
  }

  /** TopUpAccount on values: only the amount is validated. */
  function TopUp(v: Variant, cash: real, amount: real): Result<real> {
    if !ValidateMoney(v, amount) then Err(ValueNotValid) else Ok(cash + amount)
  }

  /** The outcome a method reports for a value-level result. */
  function OutcomeOf(r: Result<real>): Outcome {
    if r.Ok? then Pass else Fail(r.error)
  }

  /** The balance after an attempt: the new balance, or the old one when the
      attempt threw. */
  function Settled(r: Result<real>, before: real): real {
    if r.Ok? then r.value else before
  }

  // ---------------------------------------------------------------------
  // Properties of the floor rules

  /** A successful withdrawal lowers the balance by exactly the amount, and it
      succeeds exactly when the guard, the amount and the new balance pass. */
  lemma WithdrawalMeaning(v: Variant, now: int, cash: real, amount: real)
    ensures Withdraw(v, now, cash, amount).Ok? <==>
            AdditionalValidate(v, now).Pass? && amount >= Floor(v) && cash - amount >= Floor(v)
    ensures Withdraw(v, now, cash, amount).Ok? ==> Withdraw(v, now, cash, amount).value == cash - amount
  {
  }

  /** The guard is checked before anything else: while it fails, every
      amount is refused with the maturity error. */
  lemma GuardFirst(v: Variant, now: int, cash: real, amount: real)
    requires AdditionalValidate(v, now).Fail?
    ensures Withdraw(v, now, cash, amount) == Err(ClosingDateNotArrived)
  {
  }

  /** A top-up never looks at the balance: whether it succeeds depends only
      on the amount, and it raises the balance by exactly that amount. */
  lemma TopUpIgnoresBalance(v: Variant, cash1: real, cash2: real, amount: real)
    ensures TopUp(v, cash1, amount).Ok? <==> TopUp(v, cash2, amount).Ok?
    ensures TopUp(v, cash1, amount).Ok? ==> TopUp(v, cash1, amount).value == cash1 + amount
  {
  }

  /** Round trip: a top-up of an amount just withdrawn succeeds (the amount
      already passed the same check) and restores the balance. */
  lemma WithdrawThenTopUp(v: Variant, now: int, cash: real, amount: real)
    requires Withdraw(v, now, cash, amount).Ok?
    ensures TopUp(v, Withdraw(v, now, cash, amount).value, amount) == Ok(cash)
  {
  }

  /** Debit: ValidateMoney is "x >= 0", and a withdrawal succeeds exactly for
      0 <= amount <= cash, at any time. */
  lemma DebitRules(now: int, cash: real, amount: real, x: real)
    ensures ValidateMoney(Debit, x) <==> x >= 0.0
    ensures Withdraw(Debit, now, cash, amount).Ok? <==> 0.0 <= amount <= cash
  {
  }

  /** Deposit before its closing date: every withdrawal is refused. */
  lemma DepositLocked(closing: int, now: int, cash: real, amount: real)
    requires now < closing
    ensures Withdraw(Deposit(closing), now, cash, amount) == Err(ClosingDateNotArrived)
  {
  }

  /** Deposit on or after its closing date: it behaves like a debit account. */
  lemma DepositMatured(closing: int, now: int, cash: real, amount: real)
    requires now >= closing
    ensures Withdraw(Deposit(closing), now, cash, amount).Ok? <==> 0.0 <= amount <= cash
  {
  }

  /** The maturity guard does not block a top-up. */
  lemma DepositTopUpAnyTime(closing: int, cash: real, amount: real)
    ensures TopUp(Deposit(closing), cash, amount).Ok? <==> amount >= 0.0
  {
  }

  /** Credit: both the amount and the new balance must reach the threshold. */
  lemma CreditRules(t: real, now: int, cash: real, amount: real, x: real)
    ensures ValidateMoney(Credit(t), x) <==> x >= t
    ensures Withdraw(Credit(t), now, cash, amount).Ok? <==> amount >= t && cash - amount >= t
  {
  }

  /** Credit: a positive top-up below the threshold is refused. */
  lemma CreditSmallTopUpRefused(t: real, cash: real, amount: real)
    requires 0.0 < amount < t
    ensures TopUp(Credit(t), cash, amount) == Err(ValueNotValid)
  {
  }

  /** The floor is an invariant: when it is not negative and the balance is at
      or above it, every successful withdrawal and top-up keeps it there. */
  lemma FloorPreserved(v: Variant, now: int, cash: real, amount: real)
    requires Floor(v) >= 0.0 && cash >= Floor(v)
    ensures Withdraw(v, now, cash, amount).Ok? ==> Withdraw(v, now, cash, amount).value >= Floor(v)
    ensures TopUp(v, cash, amount).Ok? ==> TopUp(v, cash, amount).value >= Floor(v)
  {
  }

  // ---------------------------------------------------------------------
  // The account object

  class Account {
    const id: nat
    const variant: Variant
    var cash: real
    /** DepositAccount.CurrentTime; the other variants have no clock and keep 0. */
    var currentTime: int

    constructor Make(id: nat, variant: Variant, cash: real, currentTime: int)
      ensures this.id == id && this.variant == variant
      ensures this.cash == cash && this.currentTime == currentTime
    {
      this.id := id;
      this.variant := variant;
      this.cash := cash;
      this.currentTime := currentTime;
    }

    /** The DebitAccount constructor: a negative opening balance is refused;
        otherwise the account takes a new identifier. */
    static method NewDebit(cash: real, guids: GuidSource) returns (r: Result<Account>)
      requires guids.Valid()
      modifies guids`next, guids`drawn
      ensures guids.Valid()
      ensures r.Err? <==> cash < 0.0
      ensures r.Err? ==> r.error == ValueNotValid && guids.drawn == old(guids.drawn)
      ensures r.Ok? ==> fresh(r.value) && r.value.variant == Debit && r.value.cash == cash
                        && r.value.id !in old(guids.drawn) && guids.drawn == old(guids.drawn) + {r.value.id}
    {
      if !ValidateMoney(Debit, cash) {
        return Err(ValueNotValid);
      }
      var id := guids.NewGuid();
      var a := new Account.Make(id, Debit, cash, 0);
      r := Ok(a);
    }

    /** The DepositAccount constructor: the balance is checked first, then the
        dates (opening on the closing date itself is allowed), and only then
        is a new identifier taken. */
    static method NewDeposit(now: int, closingDate: int, cash: real, guids: GuidSource) returns (r: Result<Account>)
      requires guids.Valid()
      modifies guids`next, guids`drawn
      ensures guids.Valid()
      ensures cash < 0.0 ==> r == Err(ValueNotValid)
      ensures cash >= 0.0 && now > closingDate ==> r == Err(InvalidClosingDate)
      ensures r.Ok? <==> cash >= 0.0 && now <= closingDate
      ensures r.Err? ==> guids.drawn == old(guids.drawn)
      ensures r.Ok? ==> fresh(r.value) && r.value.variant == Deposit(closingDate)
                        && r.value.cash == cash && r.value.currentTime == now
                        && r.value.id !in old(guids.drawn) && guids.drawn == old(guids.drawn) + {r.value.id}
    {
      if !ValidateMoney(Deposit(closingDate), cash) {
        return Err(ValueNotValid);
      }
      if now > closingDate {
        return Err(InvalidClosingDate);
      }
      var id := guids.NewGuid();
      var a := new Account.Make(id, Deposit(closingDate), cash, now);
      r := Ok(a);
    }

    /** The CreditAccount constructor: the threshold is fixed from `limit`
        before the opening balance is checked against it; an accepted account
        takes a new identifier. */
    static method NewCredit(cash: real, limit: real, guids: GuidSource) returns (r: Result<Account>)
      requires guids.Valid()
      modifies guids`next, guids`drawn
      ensures guids.Valid()
      ensures r.Err? <==> cash < limit
      ensures r.Err? ==> r.error == ValueNotValid && guids.drawn == old(guids.drawn)
      ensures r.Ok? ==> fresh(r.value) && r.value.variant == Credit(limit) && r.value.cash == cash
                        && r.value.id !in old(guids.drawn) && guids.drawn == old(guids.drawn) + {r.value.id}
    {
      if !ValidateMoney(Credit(limit), cash) {
        return Err(ValueNotValid);
      }
      var id := guids.NewGuid();
      var a := new Account.Make(id, Credit(limit), cash, 0);
      r := Ok(a);
    }

    method WithdrawMoney(amount: real) returns (o: Outcome)
      modifies this`cash
      ensures o == OutcomeOf(Withdraw(variant, currentTime, old(cash), amount))
      ensures cash == Settled(Withdraw(variant, currentTime, old(cash), amount), old(cash))
    {
      o := AdditionalValidate(variant, currentTime);
      if o.Fail? {
        return;
      }
      if !ValidateMoney(variant, amount) || !ValidateMoney(variant, cash - amount) {
        return Fail(ValueNotValid);
      }
      cash := cash - amount;
      o := Pass;
    }

    method TopUpAccount(amount: real) returns (o: Outcome)
      modifies this`cash
      ensures o == OutcomeOf(TopUp(variant, old(cash), amount))
      ensures cash == Settled(TopUp(variant, old(cash), amount), old(cash))
    {
      if !ValidateMoney(variant, amount) {
        return Fail(ValueNotValid);
      }
      cash := cash + amount;
      o := Pass;
    }

    /** TransferMoney is WithdrawMoney under another name. */
    method TransferMoney(amount: real) returns (o: Outcome)
      modifies this`cash
      ensures o == OutcomeOf(Withdraw(variant, currentTime, old(cash), amount))
      ensures cash == Settled(Withdraw(variant, currentTime, old(cash), amount), old(cash))
    {
      o := WithdrawMoney(amount);
    }

    /** Only a deposit keeps a clock; for the other variants this is the base
        class's empty method. */
    method UpdateCurrentDate(now: int)
      modifies this`currentTime
      ensures currentTime == (if variant.Deposit? then now else old(currentTime))
    {
      if variant.Deposit? {
        currentTime := now;
      }
    }
  }
}
