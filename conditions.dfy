/** Entities/BankConditions.cs: a bank's policy. Every numeric field must be
    non-negative; the deposit interest table maps balance thresholds to rates
    and is read in the dictionary's enumeration order. */
module Conditions {
  import opened Common

  /** A Dictionary<decimal, decimal>: its entries in enumeration order. */
  type RateTable = seq<(real, real)>

  /** What the dictionary type itself guarantees: no key occurs twice. */
  predicate KeysDistinct(t: RateTable) {
    forall i, j :: 0 <= i < j < |t| ==> t[i].0 != t[j].0
  }

  /** BankConditions.ValidateMoney */
  predicate ValidateMoney(x: real) {
    x >= 0.0
  }

  /** BankConditions.ValidationCheck */
  function ValidationCheck(x: real): (o: Outcome)
    ensures o.Pass? <==> x >= 0.0
    ensures o.Fail? ==> o.error == ValueNotValid
  {
    if ValidateMoney(x) then Pass else Fail(ValueNotValid)
  }

  /** DictionaryValidation: the table is refused only when some entry has a
      negative key AND a negative value (the source joins the two tests with
      "and"). */
  function DictionaryValidation(t: RateTable): (o: Outcome)
    ensures o.Fail? <==> exists i :: 0 <= i < |t| && t[i].0 < 0.0 && t[i].1 < 0.0
    ensures o.Fail? ==> o.error == ValueNotValid
  {
    if t == [] then Pass
    else if !ValidateMoney(t[0].1) && !ValidateMoney(t[0].0) then Fail(ValueNotValid)
    else
      var rest := DictionaryValidation(t[1..]);
      assert forall i :: 1 <= i < |t| ==> t[i] == t[1..][i - 1];
      rest
  }

  /** An entry with a negative key but a non-negative rate (or the reverse)
      passes the validation. */
  lemma HalfNegativeEntriesPass(k: real, v: real)
    requires k < 0.0 <= v
    ensures DictionaryValidation([(k, v)]) == Pass
    ensures DictionaryValidation([(v, k)]) == Pass
  {
  }

  /** GetInterestOnAmountForDeposit on values: the rate of the first key, in
      enumeration order, that is strictly greater than the balance; failing
      (Enumerable.First throws) when there is none. */
  function TierRate(t: RateTable, cash: real): (r: Result<real>)
    ensures r.Err? <==> forall i :: 0 <= i < |t| ==> t[i].0 <= cash
    ensures r.Err? ==> r.error == NoMatchingElement
    ensures r.Ok? ==> exists i :: 0 <= i < |t| && cash < t[i].0 && r.value == t[i].1
                                  && forall j :: 0 <= j < i ==> t[j].0 <= cash
  {
    if t == [] then Err(NoMatchingElement)
    else if cash < t[0].0 then Ok(t[0].1)
    else
      var rest := TierRate(t[1..], cash);
      assert forall i :: 1 <= i < |t| ==> t[i] == t[1..][i - 1];
      if rest.Ok? then
        ghost var i :| 0 <= i < |t[1..]| && cash < t[1..][i].0 && rest.value == t[1..][i].1
                       && forall j :: 0 <= j < i ==> t[1..][j].0 <= cash;
        assert 0 <= i + 1 < |t| && cash < t[i + 1].0 && rest.value == t[i + 1].1;
        rest
      else rest
  }

  predicate AscendingKeys(t: RateTable) {
    forall i, j :: 0 <= i < j < |t| ==> t[i].0 < t[j].0
  }

  /** With keys in ascending order, the first key above the balance is the
      smallest key above it. */
  lemma AscendingPicksSmallestKeyAbove(t: RateTable, cash: real)
    requires AscendingKeys(t)
    requires TierRate(t, cash).Ok?
    ensures exists i :: 0 <= i < |t| && cash < t[i].0 && TierRate(t, cash).value == t[i].1
                        && forall j :: 0 <= j < |t| && cash < t[j].0 ==> t[i].0 <= t[j].0
  {
    var i :| 0 <= i < |t| && cash < t[i].0 && TierRate(t, cash).value == t[i].1
             && forall j :: 0 <= j < i ==> t[j].0 <= cash;
  }

  /** The table of the repository's test, in its insertion order. */
  const TestTable: RateTable := [(50000.0, 3.0), (100000.0, 4.0), (1000000.0, 5.0)]

  /** A balance equal to a key falls into the next tier; a balance at or above
      the largest key has no rate. */
  lemma TestTableLookups()
    ensures TierRate(TestTable, 49999.0) == Ok(3.0)
    ensures TierRate(TestTable, 50000.0) == Ok(4.0)
    ensures TierRate(TestTable, 1000000.0) == Err(NoMatchingElement)
  {
    assert TestTable[1..] == [(100000.0, 4.0), (1000000.0, 5.0)];
    assert TestTable[1..][1..] == [(1000000.0, 5.0)];
  }

  /** The policy as a value, as the accrual formulas read it. */
  datatype Policy = Policy(creditLimit: real, loanCommission: real, debitInterest: real,
                           maxAmountForDoubtfulAccounts: real, depositTable: RateTable)

  class BankConditions {
    var creditLimit: real
    var loanCommission: real
    var interestOnDebitBalance: real
    var maxAmountForDoubtfulAccounts: real
    var depositTable: RateTable

    constructor Make(depositTable: RateTable, creditLimit: real, loanCommission: real,
                     interestOnDebitBalance: real, maxAmountForDoubtfulAccounts: real)
      ensures this.depositTable == depositTable && this.creditLimit == creditLimit
      ensures this.loanCommission == loanCommission && this.interestOnDebitBalance == interestOnDebitBalance
      ensures this.maxAmountForDoubtfulAccounts == maxAmountForDoubtfulAccounts
    {
      this.depositTable := depositTable;
      this.creditLimit := creditLimit;
      this.loanCommission := loanCommission;
      this.interestOnDebitBalance := interestOnDebitBalance;
      this.maxAmountForDoubtfulAccounts := maxAmountForDoubtfulAccounts;
    }

    /** The public constructor: the table is validated first, then the four
        numbers; any failure throws before an object exists. */
    static method Create(depositTable: RateTable, creditLimit: real, loanCommission: real,
                         interestOnDebitBalance: real, maxAmountForDoubtfulAccounts: real)
      returns (r: Result<BankConditions>)
      requires KeysDistinct(depositTable)
      ensures r.Ok? <==> DictionaryValidation(depositTable).Pass? && creditLimit >= 0.0
                         && loanCommission >= 0.0 && interestOnDebitBalance >= 0.0
                         && maxAmountForDoubtfulAccounts >= 0.0
      ensures r.Err? ==> r.error == ValueNotValid
      ensures r.Ok? ==> fresh(r.value) && r.value.Valid()
      ensures r.Ok? ==> r.value.Snapshot() == Policy(creditLimit, loanCommission, interestOnDebitBalance,
                                                      maxAmountForDoubtfulAccounts, depositTable)
    {
      var tableCheck := DictionaryValidation(depositTable);
      if tableCheck.Fail? {
        return Err(tableCheck.error);
      }
      if !ValidateMoney(creditLimit) || !ValidateMoney(loanCommission)
         || !ValidateMoney(interestOnDebitBalance) || !ValidateMoney(maxAmountForDoubtfulAccounts) {
        return Err(ValueNotValid);
      }
      var c := new BankConditions.Make(depositTable, creditLimit, loanCommission,
                                       interestOnDebitBalance, maxAmountForDoubtfulAccounts);
      r := Ok(c);
    }

    /** Every field passed the validation that guards it. */
    ghost predicate Valid()
      reads this
    {
      creditLimit >= 0.0 && loanCommission >= 0.0 && interestOnDebitBalance >= 0.0
      && maxAmountForDoubtfulAccounts >= 0.0
      && DictionaryValidation(depositTable).Pass? && KeysDistinct(depositTable)
    }

    function Snapshot(): Policy
      reads this
    {
      Policy(creditLimit, loanCommission, interestOnDebitBalance, maxAmountForDoubtfulAccounts, depositTable)
    }

    method ChangeCreditLimit(newValue: real) returns (o: Outcome)
      modifies this`creditLimit
      ensures o == ValidationCheck(newValue)
      ensures creditLimit == if o.Pass? then newValue else old(creditLimit)
      ensures old(Valid()) ==> Valid()
    {
      o := ValidationCheck(newValue);
      if o.Pass? {
        creditLimit := newValue;
      }
    }

    method ChangeLoanComission(newValue: real) returns (o: Outcome)
      modifies this`loanCommission
      ensures o == ValidationCheck(newValue)
      ensures loanCommission == if o.Pass? then newValue else old(loanCommission)
      ensures old(Valid()) ==> Valid()
    {
      o := ValidationCheck(newValue);
      if o.Pass? {
        loanCommission := newValue;
      }
    }

    method ChangeInterestOnDebitBalance(newValue: real) returns (o: Outcome)
      modifies this`interestOnDebitBalance
      ensures o == ValidationCheck(newValue)
      ensures interestOnDebitBalance == if o.Pass? then newValue else old(interestOnDebitBalance)
      ensures old(Valid()) ==> Valid()
    {
      o := ValidationCheck(newValue);
      if o.Pass? {
        interestOnDebitBalance := newValue;
      }
    }

    /** The whole table is replaced, and only after it passes validation. */
    method ChangeInterestOnDepositBalance(newTable: RateTable) returns (o: Outcome)
      requires KeysDistinct(newTable)
      modifies this`depositTable
      ensures o == DictionaryValidation(newTable)
      ensures depositTable == if o.Pass? then newTable else old(depositTable)
      ensures old(Valid()) ==> Valid()
    {
      o := DictionaryValidation(newTable);
      if o.Pass? {
        depositTable := newTable;
      }
    }

    function GetInterestOnAmountForDeposit(cash: real): Result<real>
      reads this
    {
      TierRate(depositTable, cash)
    }
  }
}
