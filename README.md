# Banks: a verified model of an in-memory multi-bank ledger

This project models the ledger of `Lab4/Banks` in Dafny and proves what its
operations do.

A central bank keeps a registry of banks and a calendar. Each bank owns three
things:

- **Client groups.** One group per client. A group maps each of the client's
  accounts to the accrual waiting to be applied to it.
- **A transaction log.**
- **An observer list.**

Accounts come in three kinds, and each kind has a floor rule:

- **Debit:** the balance must stay at or above 0.
- **Deposit:** also at or above 0, and withdrawals are locked until the
  closing date.
- **Credit:** at or above the bank's credit limit as it was when the account
  was opened.

A bank supports these operations:

- Open accounts for clients.
- Replenish, withdraw and transfer money, logging a record for each movement.
- Cancel a logged operation.
- Run a daily pass: deposit clocks move to the bank's date, and every account
  accrues interest or a loan into its pending value.
- Apply the pending values to the balances (the monthly charge).
- Notify the attached clients who hold an account of an affected kind when its
  policy changes.

The central bank advances the date. It runs every bank's daily pass once per
day, then runs the monthly charge when the elapsed time calls for it.

## Modules

The modules follow the source's files:

| module | file | models |
|---|---|---|
| `Common` | `common.dfy` | the error kinds, the `Result`/`Outcome` wrappers, `List.Remove`, the identifier generator behind `Guid.NewGuid` |
| `Passports` | `passport.dfy` | Models/PassportNumber.cs |
| `Clients` | `client.dfy` | Entities/Client.cs |
| `Transactions` | `transactions.dfy` | TransactionUtils |
| `Accounts` | `account.dfy` | AccountUtils |
| `Conditions` | `conditions.dfy` | Entities/BankConditions.cs |
| `Holdings` | `client_accounts.dfy` | Entities/ClientAccounts.cs |
| `DailyAccrual` | `accrual.dfy` | the three accrual calculators of Entities/Bank.cs |
| `BankGroups` | `groups.dfy` | the loops and queries of Entities/Bank.cs over the list of client groups |
| `Banks` | `bank.dfy` | Entities/Bank.cs |
| `Registry` | `central_bank.dfy` | Services/CentralBank.cs |

### How the source's types are represented

**Objects whose fields change in place are classes.** These are `Account`,
`ClientAccounts`, `BankConditions`, `Client`, `ClientBuilder`, `Bank` and
`CentralBank`.

- Each method states what it returns or throws, and how the state it may
  modify changes. The registry's `UpdateDate` states less than that; what it
  leaves unstated is listed under Left out.
- The three account subclasses are one class. A constant `variant` field
  records which subclass the account is. It also carries what that subclass
  fixes at construction: a deposit's closing date, or a credit account's
  threshold.
- Constructors that can throw are static methods returning a `Result`.

**Immutable records are datatypes.** These are the transactions and the
passport number.

**An exception is a `Fail` outcome carrying an error kind.** An operation
that throws midway keeps the changes made before the throw, exactly as the
source does.

**Other encodings:**

- Money is `real`.
- Dates are whole days, as `int`.
- Identifiers (`Guid`) are `nat`. They come from one generator,
  `Common.GuidSource`, which the registry, every bank and every account
  constructor share. It records every identifier it has handed out and never
  hands out one of them again. So a new identifier differs from that of every
  bank, account and transaction created before it, including those since
  closed or disbanded.
- A dictionary is the sequence of its entries in enumeration order. A group's
  dictionary becomes two parallel sequences: accounts and pending values.
- Each bank's accounts are owned by their group: no account object is in two
  groups, and no group is in two banks. This is stated in `Bank.Valid` and
  `Registry.Registered` and preserved by every operation.
- Every identifier a bank holds was handed out by the generator
  (`Bank.Drawn`). No account identifier was taken in by two registered banks
  (`Registry.Minted`, part of the registry's `Valid`). So an account held by
  one registered bank is unknown to every other (`Registry.ForeignAccountNotFound`).

## Where the model follows the code rather than the intent

- **Verified clients.** A group counts as verified when its client has *no*
  passport number (`ClientAccounts.CheckVerification`). So the cap on
  withdrawals (`MaxAmountForDoubtfulAccounts`) applies to clients who do have
  a passport.
- **Rate tables.** `DictionaryValidation` refuses a rate table only when one
  entry has both a negative key and a negative rate.
- **Transaction id on replenishment.** `MakeReplenishmentOperation` throws
  when no transaction id is passed. Any caller that passes an id can
  replenish. In this repository only the transfer calls it, with the id the
  transfer drew.
- **Cancellation.** `CancellationOfOperation` removes records from the log
  while iterating a lazy filter of that same log. As a result:
  - Only the first record with the identifier is reversed and removed.
  - The call then fails with `CollectionModified`.
  - For a transfer, only the withdrawal leg is undone.

  The model states exactly this. It makes no claim that both legs are
  reversed.
- **Monthly trigger.** It fires when the elapsed days modulo 30 are at least
  1. On whole days that means every advance except one that lands on a
  multiple of 30.
- **Interest rates.** The debit and deposit rates are divided by 365 only.
  `HundredPercent` is never applied, so a rate of 5 multiplies a balance by 5
  over a year.
- **Credit loans.** The loan formula subtracts the loan from the pending
  value. A credit balance can never fall below its non-negative threshold, so
  the formula only ever adds to the pending value.
- **Group lookup.** `FindClientAccounts(Client)` compares passport values. So
  all clients without a passport share one group at a bank.

## Model

| member | source | states |
|---|---|---|
| Common.GuidSource.NewGuid | Lab4/Banks/AccountUtils/DebitAccount.cs:11 | Guid.NewGuid: the identifier handed out differs from every one handed out before, and is recorded as handed out |
| Common.RemoveFirst | Lab4/Banks/Entities/Bank.cs:147 | List.Remove: a list without the element is unchanged; otherwise exactly the first occurrence is cut out, the rest keeping its order |
| Common.RemoveFirstDropsOne | Lab4/Banks/Entities/Bank.cs:147 | removing an element present takes exactly one copy of it out of the list's multiset |
| Common.RemoveLastAdded | Lab4/Banks/Services/CentralBank.cs:43-65 | appending an element not yet present and then removing it gives the list back |
| Passports.ValidationCheck | Lab4/Banks/Models/PassportNumber.cs:18-21 | definition: the decimal string of the number has exactly 10 characters; its meaning is stated by NonNegativeValidRange, NegativeValidRange and ZeroIsInvalid |
| Passports.DecimalLengthExceeds | Lab4/Banks/Models/PassportNumber.cs:18-21 | a number has more than k decimal digits exactly when it reaches 10^k |
| Passports.NewPassportNumber | Lab4/Banks/Models/PassportNumber.cs:9-14 | the constructor succeeds exactly when the number is valid, keeps the number as its Id, and otherwise throws InvalidPassport |
| Passports.NonNegativeValidRange | Lab4/Banks/Models/PassportNumber.cs:18-21 | a non-negative number is valid exactly when 1000000000 <= n <= 9999999999 (ten characters) |
| Passports.NegativeValidRange | Lab4/Banks/Models/PassportNumber.cs:18-21 | a negative number is valid exactly when it has nine digits, the minus sign being the tenth character |
| Passports.ZeroIsInvalid | Lab4/Banks/Models/PassportNumber.cs:20 | 0 is not a valid passport number and its constructor throws |
| Clients.BuildCheck | Lab4/Banks/Entities/Client.cs:84-85 | passes exactly when both name and surname contain a non-white-space character; otherwise DataNotSpecified |
| Clients.Client.constructor | Lab4/Banks/Entities/Client.cs:9-15 | the client carries exactly the given name, surname, address and passport |
| Clients.Client.Id | Lab4/Banks/Entities/Client.cs:22 | the observer identity is present exactly when the client has a passport number, and is that number |
| Clients.Client.ChangeAddress | Lab4/Banks/Entities/Client.cs:24-28 | any address is accepted and replaces only the address |
| Clients.Client.ChangePassportNumber | Lab4/Banks/Entities/Client.cs:30-34 | the passport number is replaced, and nothing else changes |
| Clients.ClientBuilder.constructor | Lab4/Banks/Entities/Client.cs:48-52 | a new builder has an empty name and surname and no address or passport |
| Clients.ClientBuilder.AddName | Lab4/Banks/Entities/Client.cs:54-59 | sets only the name, without validation, and returns the same builder |
| Clients.ClientBuilder.AddSurname | Lab4/Banks/Entities/Client.cs:61-66 | sets only the surname, without validation, and returns the same builder |
| Clients.ClientBuilder.AddAddress | Lab4/Banks/Entities/Client.cs:68-73 | sets only the address, without validation, and returns the same builder |
| Clients.ClientBuilder.AddPassportNumber | Lab4/Banks/Entities/Client.cs:75-80 | a valid number is stored and the same builder returned; an invalid one throws InvalidPassport and leaves the builder as it was |
| Clients.ClientBuilder.Build | Lab4/Banks/Entities/Client.cs:82-87 | fails with DataNotSpecified exactly when the name or the surname is blank; otherwise returns a new client carrying exactly the builder's four fields |
| Clients.BuildWithoutNames | Lab4/Banks/Entities/Client.cs:48-52 | building from a fresh builder fails, because the name and surname start empty |
| Clients.RequiredClientDataIsNotSpecified | Lab4/Banks.Test/BanksTest.cs:17-28 | the test's builder chain without a surname fails with DataNotSpecified |
| Transactions.ValidateTransactionAmount | Lab4/Banks/TransactionUtils/ReplenishmentTransaction.cs:26-30 | passes exactly for amounts >= 0 (zero included); otherwise ValueNotValid; it has no other effect |
| Transactions.NewTransaction | Lab4/Banks/TransactionUtils/ReplenishmentTransaction.cs:8-20 | succeeds exactly for a non-negative amount; stores the account id, bank id and amount as given, and the supplied transaction id or else the one Guid.NewGuid supplies |
| Transactions.NewTransferTransaction | Lab4/Banks/TransactionUtils/TransferTransaction.cs:8-20 | succeeds exactly for a non-negative amount and then stores both account ids, both bank ids and the amount as given |
| Transactions.ZeroAmountAccepted | Lab4/Banks/TransactionUtils/TransferTransaction.cs:27-31 | a zero amount is accepted by both records despite the "greater than zero" message; a negative one is refused |
| Transactions.IndexOfTransaction | Lab4/Banks/Entities/Bank.cs:71 | the first log position carrying the identifier, or none exactly when no record carries it |
| Accounts.ValidateMoney | Lab4/Banks/AccountUtils/DebitAccount.cs:14-17 | definition: an amount passes when it is at least the variant's floor (the same override in DepositAccount.cs:30-33 and, with the threshold, CreditAccount.cs:14-17); stated by DebitRules and CreditRules |
| Accounts.AdditionalValidate | Lab4/Banks/AccountUtils/DepositAccount.cs:35-39 | definition: only a deposit before its closing date fails, with ClosingDateNotArrived; stated by GuardFirst, DepositLocked and DepositMatured |
| Accounts.Withdraw | Lab4/Banks/AccountUtils/Account.cs:10-16 | definition: WithdrawMoney on values, the guard, then the amount, then the remainder; stated by WithdrawalMeaning, GuardFirst and FloorPreserved |
| Accounts.TopUp | Lab4/Banks/AccountUtils/Account.cs:18-22 | definition: TopUpAccount on values, validating only the amount; stated by TopUpIgnoresBalance and WithdrawThenTopUp |
| Accounts.WithdrawalMeaning | Lab4/Banks/AccountUtils/Account.cs:10-16 | a withdrawal succeeds exactly when the extra guard, the amount and the resulting balance pass, and then lowers the balance by exactly the amount |
| Accounts.GuardFirst | Lab4/Banks/AccountUtils/Account.cs:12 | while the extra guard throws, every withdrawal fails with the maturity error, before any amount check |
| Accounts.TopUpIgnoresBalance | Lab4/Banks/AccountUtils/Account.cs:18-22 | whether a top-up succeeds does not depend on the balance, and a success raises the balance by exactly the amount |
| Accounts.WithdrawThenTopUp | Lab4/Banks/AccountUtils/Account.cs:13-21 | after a successful withdrawal, a top-up of the same amount succeeds and restores the balance |
| Accounts.DebitRules | Lab4/Banks/AccountUtils/DebitAccount.cs:14-17 | ValidateMoney is x >= 0, and a debit withdrawal succeeds exactly for 0 <= amount <= balance, at any time |
| Accounts.DepositLocked | Lab4/Banks/AccountUtils/DepositAccount.cs:35-39 | before its closing date a deposit refuses every withdrawal with ClosingDateNotArrived |
| Accounts.DepositMatured | Lab4/Banks/AccountUtils/DepositAccount.cs:30-39 | on or after its closing date a deposit withdrawal succeeds exactly for 0 <= amount <= balance |
| Accounts.DepositTopUpAnyTime | Lab4/Banks/AccountUtils/Account.cs:18-22 | the maturity guard never blocks a top-up: a deposit accepts exactly the non-negative amounts |
| Accounts.CreditRules | Lab4/Banks/AccountUtils/CreditAccount.cs:14-17 | ValidateMoney is x >= threshold, and a withdrawal needs both amount >= threshold and balance - amount >= threshold |
| Accounts.CreditSmallTopUpRefused | Lab4/Banks/AccountUtils/CreditAccount.cs:14-17 | a positive top-up below the threshold is refused |
| Accounts.FloorPreserved | Lab4/Banks/AccountUtils/Account.cs:10-22 | with a non-negative floor, a balance at or above the floor stays there after every successful withdrawal and top-up |
| Accounts.Account.NewDebit | Lab4/Banks/AccountUtils/DebitAccount.cs:7-12 | refuses exactly a negative opening balance, drawing nothing; otherwise a new debit account with that balance, under an identifier the generator hands out then |
| Accounts.Account.NewDeposit | Lab4/Banks/AccountUtils/DepositAccount.cs:8-19 | refuses a negative balance first, then an opening time after the closing date (equal dates allowed), drawing nothing; otherwise a new deposit opened at that time, under a newly handed-out identifier |
| Accounts.Account.NewCredit | Lab4/Banks/AccountUtils/CreditAccount.cs:6-12 | the threshold is fixed from the limit before the balance is checked, so exactly a balance below the limit is refused, drawing nothing; otherwise a newly handed-out identifier |
| Accounts.Account.WithdrawMoney | Lab4/Banks/AccountUtils/Account.cs:10-16 | reports the withdrawal's outcome and leaves the new balance on success, the old balance on any failure |
| Accounts.Account.TopUpAccount | Lab4/Banks/AccountUtils/Account.cs:18-22 | reports the top-up's outcome and leaves the new balance on success, the old balance on failure |
| Accounts.Account.TransferMoney | Lab4/Banks/AccountUtils/Account.cs:24-27 | behaves exactly as WithdrawMoney |
| Accounts.Account.UpdateCurrentDate | Lab4/Banks/AccountUtils/DepositAccount.cs:24-28 | a deposit takes the given time; any other account keeps its clock (the base method is empty) |
| Conditions.ValidateMoney | Lab4/Banks/Entities/BankConditions.cs:72-75 | definition: a value passes when it is at least 0; stated by ValidationCheck and DictionaryValidation |
| Conditions.ValidationCheck | Lab4/Banks/Entities/BankConditions.cs:66-75 | passes exactly for values >= 0; otherwise ValueNotValid |
| Conditions.DictionaryValidation | Lab4/Banks/Entities/BankConditions.cs:59-64 | refuses a table exactly when some entry has both a negative key and a negative rate |
| Conditions.HalfNegativeEntriesPass | Lab4/Banks/Entities/BankConditions.cs:62 | an entry with only its key, or only its rate, negative passes validation |
| Conditions.TierRate | Lab4/Banks/Entities/BankConditions.cs:54-57 | the rate of the first key in enumeration order strictly above the balance; NoMatchingElement exactly when no key lies above it |
| Conditions.AscendingPicksSmallestKeyAbove | Lab4/Banks/Entities/BankConditions.cs:56 | with ascending keys the rate found is that of the smallest key above the balance |
| Conditions.TestTableLookups | Lab4/Banks.Test/BanksTest.cs:38 | on the test's table, 49999 gets rate 3, 50000 gets rate 4, and 1000000 has no rate |
| Conditions.BankConditions.GetInterestOnAmountForDeposit | Lab4/Banks/Entities/BankConditions.cs:54-57 | definition: TierRate on the policy's current table; stated by TierRate's contract and AscendingPicksSmallestKeyAbove |
| Conditions.BankConditions.Create | Lab4/Banks/Entities/BankConditions.cs:9-22 | succeeds exactly when the table passes validation and the four numbers are non-negative; the new policy holds exactly the given values |
| Conditions.BankConditions.ChangeCreditLimit | Lab4/Banks/Entities/BankConditions.cs:30-34 | a negative value throws and changes nothing; otherwise only the credit limit is replaced; validity is kept |
| Conditions.BankConditions.ChangeLoanComission | Lab4/Banks/Entities/BankConditions.cs:36-40 | a negative value throws and changes nothing; otherwise only the loan commission is replaced; validity is kept |
| Conditions.BankConditions.ChangeInterestOnDebitBalance | Lab4/Banks/Entities/BankConditions.cs:42-46 | a negative value throws and changes nothing; otherwise only the debit interest is replaced; validity is kept |
| Conditions.BankConditions.ChangeInterestOnDepositBalance | Lab4/Banks/Entities/BankConditions.cs:48-52 | the whole table is replaced only when it passes validation; otherwise nothing changes; validity is kept |
| Holdings.IndexOfId | Lab4/Banks/Entities/ClientAccounts.cs:47 | the first position holding the identifier, or none exactly when no account has it |
| Holdings.IndexOfHeld | Lab4/Banks/Entities/ClientAccounts.cs:47 | with distinct identifiers, an account's identifier is found at that account's own position |
| Holdings.FirstRefusedTopUpMeaning | Lab4/Banks/Entities/ClientAccounts.cs:26-27 | every entry before the first refused pending value is accepted by its account, and that one is refused |
| Holdings.ClientAccounts.constructor | Lab4/Banks/Entities/ClientAccounts.cs:11-18 | given a dictionary (one value per key, no key twice), the group is well formed, holds the given entries and client, and its verification flag is fixed from the client as it is then |
| Holdings.ClientAccounts.CheckVerification | Lab4/Banks/Entities/ClientAccounts.cs:39-42 | "verified" holds exactly when the client has no passport number |
| Holdings.ClientAccounts.FindAccount | Lab4/Banks/Entities/ClientAccounts.cs:44-48 | finds a held account with the identifier exactly when one exists |
| Holdings.ClientAccounts.OpenAccount | Lab4/Banks/Entities/ClientAccounts.cs:50-56 | a held identifier is refused with AccountAlreadyExists and nothing changes; otherwise the account is appended with pending value 0, all other entries unchanged |
| Holdings.ClientAccounts.CloseAccount | Lab4/Banks/Entities/ClientAccounts.cs:58-64 | an identifier not held is refused with AccountNotFound; otherwise that very object's entry is removed (nothing when only another object shares the identifier) |
| Holdings.ClientAccounts.ChangeComissionOrLoan | Lab4/Banks/Entities/ClientAccounts.cs:30-37 | an account not held is refused with AccountNotFound; otherwise only that account's pending value is replaced, the accounts untouched |
| Holdings.ClientAccounts.ChargeInterestAndDeductCommission | Lab4/Banks/Entities/ClientAccounts.cs:24-28 | each account is topped up by its pending value in order until the first refused one; earlier ones stay credited, later ones untouched; the pending values are not reset |
| DailyAccrual.DebitInterest | Lab4/Banks/Entities/Bank.cs:84-88 | definition: a day's debit interest, the balance times the rate over 365; stated by DebitYear and InterestNotNegative |
| DailyAccrual.DepositInterest | Lab4/Banks/Entities/Bank.cs:90-94 | definition: a day's deposit interest at the tier rate, failing when the lookup throws; stated by AccrualFailure, InterestNotNegative and TestTableAccrual |
| DailyAccrual.CreditLoan | Lab4/Banks/Entities/Bank.cs:96-102 | definition: nothing for a positive balance, otherwise balance less limit less a day's commission; stated by CreditAccrualNeverCharges |
| DailyAccrual.Accrual | Lab4/Banks/Entities/Bank.cs:117-124 | definition: the type dispatch of UpdateAllOnOneDay, the loan subtracted for credit, the interest added otherwise; stated by AccrualFailure, InterestNotNegative and CreditAccrualNeverCharges |
| DailyAccrual.AccrualFailure | Lab4/Banks/Entities/Bank.cs:90-94 | the day's accrual fails exactly for a deposit whose balance is at or above every key of the table, with NoMatchingElement |
| DailyAccrual.InterestNotNegative | Lab4/Banks/Entities/Bank.cs:84-94 | non-negative rates on a non-negative balance never give negative debit or deposit interest |
| DailyAccrual.CreditAccrualNeverCharges | Lab4/Banks/Entities/Bank.cs:96-102 | under a valid policy, a credit account with a non-negative balance never has its pending value lowered: nothing when positive, limit plus a day's commission at zero |
| DailyAccrual.DebitYear | Lab4/Banks/Entities/Bank.cs:84-88 | 365 days of interest on an unchanged balance equal the balance times the rate, with no percentage applied |
| DailyAccrual.TestTableAccrual | Lab4/Banks/Entities/Bank.cs:90-94 | on the test's table a deposit of 50000 accrues at rate 4 per year, and one of 1000000 makes the lookup throw |
| BankGroups.GroupOfAccount | Lab4/Banks/Entities/Bank.cs:209-212 | the first group holding the identifier, or none exactly when no group holds it |
| BankGroups.GroupOfClient | Lab4/Banks/Entities/Bank.cs:236-240 | the first group whose client has an equal passport number (both absent counts as equal), or none exactly when there is none |
| BankGroups.AreAccountsOfThisTypeInClientAccounts | Lab4/Banks/Entities/Bank.cs:179-184 | holds exactly when the group has an account of that concrete class |
| BankGroups.Matching | Lab4/Banks/Entities/Bank.cs:189 | definition: the attached observers the inner Where yields for one group, in list order; stated by MatchingMeaning and MatchingObservers |
| BankGroups.Notified | Lab4/Banks/Entities/Bank.cs:186-192 | definition: the SelectMany over the groups of their matching observers; stated by NotifiedMeaning and NotifiedStep |
| BankGroups.MatchingMeaning | Lab4/Banks/Entities/Bank.cs:189 | a group's observers are exactly the attached observers with its client's passport number, when it holds an account of the kind |
| BankGroups.MatchingObservers | Lab4/Banks/Entities/Bank.cs:189 | the inner filter, run over the observers in order, yields the group's matching observers |
| BankGroups.NotifiedMeaning | Lab4/Banks/Entities/Bank.cs:186-192 | the notified observers are exactly the attached ones sharing a passport number with the client of some group holding an account of the kind |
| BankGroups.NotifiedStep | Lab4/Banks/Entities/Bank.cs:189 | one more group appends that group's matching observers after the earlier ones |
| BankGroups.NotifyGroup | Lab4/Banks/Entities/Bank.cs:189-191 | one turn of the notification loop extends the observers notified to one more group |
| BankGroups.NotifyGroups | Lab4/Banks/Entities/Bank.cs:189-191 | the notification loop notifies, group after group, every matching observer |
| BankGroups.FirstAccrualFailureMeaning | Lab4/Banks/Entities/Bank.cs:117-125 | every account before a group's first failing accrual accrues, and that one fails |
| BankGroups.FirstFailingGroupAt | Lab4/Banks/Entities/Bank.cs:114-126 | the first failing group is the one after a run of groups that accrue in full |
| BankGroups.UpdateDepositClocks | Lab4/Banks/Entities/Bank.cs:106-107 | every deposit of the group takes the time; every other account keeps its clock |
| BankGroups.AdvanceDeposits | Lab4/Banks/Entities/Bank.cs:104-108 | every deposit of every group takes the time; every other account keeps its clock |
| BankGroups.AccrueGroup | Lab4/Banks/Entities/Bank.cs:117-125 | each entry's pending value gains its day's accrual, computed from the balance, until the first deposit above every tier throws; later entries keep theirs |
| BankGroups.AccruedAt | Lab4/Banks/Entities/Bank.cs:114-126 | a pass stopped at group p, after full accrual in the groups before it, is the state Accrued describes and p is the first failing group |
| BankGroups.AccrueGroupAt | Lab4/Banks/Entities/Bank.cs:114-126 | one turn of the outer loop accrues group p and leaves every other group's pending values and every group's accounts as they were |
| BankGroups.AccrueGroups | Lab4/Banks/Entities/Bank.cs:114-126 | the groups accrue in order, the first throwing deposit ending the pass; succeeds exactly when no group fails; exactly the entries before the failure changed |
| BankGroups.PassDay | Lab4/Banks/Entities/Bank.cs:113-126 | every deposit takes the time, then the groups accrue in order until the first failure |
| BankGroups.FirstFailingChargeAt | Lab4/Banks/Entities/Bank.cs:129-132 | the first refusing group is the one after a run of groups credited in full |
| BankGroups.ChargeGroupAmong | Lab4/Banks/Entities/Bank.cs:131 | one group's monthly charge credits its own accounts only; every other group's balances are unchanged |
| BankGroups.ChargeGroups | Lab4/Banks/Entities/Bank.cs:129-132 | each group applies its pending values in order until the first refusal; exactly the balances before it are credited |
| BankGroups.FirstObserver | Lab4/Banks/Entities/Bank.cs:233 | the first attached observer with an equal passport number, present exactly when one exists |
| Banks.Bank.constructor | Lab4/Banks/Entities/Bank.cs:16-24 | a new bank has the given policy, an identifier the generator hands out then, no groups, observers or records, and is at day 0 |
| Banks.Bank.IsAccountExists | Lab4/Banks/Entities/Bank.cs:223-228 | passes exactly when some group holds the identifier; otherwise AccountNotFound |
| Banks.Bank.FindAccountById | Lab4/Banks/Entities/Bank.cs:242-246 | a held account with the identifier, present exactly when one is held |
| Banks.Bank.FindClientAccounts | Lab4/Banks/Entities/Bank.cs:209-212 | a group holding the identifier, present exactly when one is held |
| Banks.Bank.FindClientByAccount | Lab4/Banks/Entities/Bank.cs:214-221 | the client of a group holding the identifier, present exactly when one is held |
| Banks.Bank.FindClientAccountsOfClient | Lab4/Banks/Entities/Bank.cs:236-240 | a group whose client has an equal passport number, present exactly when one exists |
| Banks.Bank.FindObserver | Lab4/Banks/Entities/Bank.cs:230-234 | an absent identity throws NullArgument; otherwise an attached observer with that passport number, present exactly when one is attached |
| Banks.Bank.OpenNewAccount | Lab4/Banks/Entities/Bank.cs:248-262 | the client's group is found by passport number; it refuses a held identifier with nothing changed; otherwise the account joins it with pending 0, or a new group holding only it is appended, and the bank has taken its identifier in |
| Banks.Bank.OpenInNewGroup | Lab4/Banks/Entities/Bank.cs:253-257 | a client without a group gets a new group, appended last, holding only the account with pending 0 |
| Banks.Bank.OpenInGroup | Lab4/Banks/Entities/Bank.cs:258-261 | a client's existing group gains the account unless it already holds the identifier |
| Banks.Bank.OpenNewCreditAccount | Lab4/Banks/Entities/Bank.cs:264-271 | fails with nothing changed and nothing drawn exactly for a negative amount or one below the current credit limit; otherwise a new credit account, with that limit as its threshold and an identifier no bank, account or transaction had before, is opened for the client |
| Banks.Bank.OpenNewDebitAccount | Lab4/Banks/Entities/Bank.cs:273-280 | fails with nothing changed and nothing drawn exactly for a negative amount; otherwise a new debit account, under a newly handed-out identifier, is opened for the client |
| Banks.Bank.OpenNewDepositAccount | Lab4/Banks/Entities/Bank.cs:282-290 | a negative amount, then a closing date before the bank's time, fail with nothing changed and nothing drawn; otherwise a deposit opened at the bank's time, under a newly handed-out identifier |
| Banks.Bank.MakeReplenishmentOperation | Lab4/Banks/Entities/Bank.cs:33-42 | a missing transaction id, a negative amount, an account not held, a refused top-up fail in that order with nothing changed; on success the balance rises by the amount and one record with the given id is appended |
| Banks.Bank.MakeWithdrawalOperation | Lab4/Banks/Entities/Bank.cs:44-57 | a negative amount, an account not held, an unverified group over the cap and a refused withdrawal fail in that order with nothing changed; on success the balance falls by the amount and one record is appended, carrying the given id or else a newly handed-out one |
| Banks.Bank.LogWithdrawal | Lab4/Banks/Entities/Bank.cs:55-56 | appends exactly one withdrawal record, under the given id (nothing drawn) or under one the generator hands out then |
| Banks.Bank.MakeTransferOperation | Lab4/Banks/Entities/Bank.cs:59-66 | one identifier is drawn first, different from every one handed out before; a failed withdrawal leg changes nothing else; otherwise it is applied and logged under that id, then the replenishment leg; if that fails the withdrawal stays applied and logged |
| Banks.Bank.TransferLegs | Lab4/Banks/Entities/Bank.cs:64-65 | the two legs under one given id, drawing nothing: the withdrawal first, then the replenishment only when the withdrawal passed |
| Banks.Bank.ReplenishmentLeg | Lab4/Banks/Entities/Bank.cs:65 | the transfer's second leg: fails for an account not held or a refused amount; otherwise credits it and logs the record |
| Banks.Bank.CancellationOfOperation | Lab4/Banks/Entities/Bank.cs:68-82 | no record with the id: nothing happens; its account not held or the reversal refused: that error, log unchanged; otherwise the first such record is reversed and removed, then CollectionModified |
| Banks.Bank.Reverse | Lab4/Banks/Entities/Bank.cs:76-79 | a replenishment is undone by WithdrawMoney, a withdrawal by TopUpAccount, with that call's outcome and balance |
| Banks.Bank.UpdateDaysInDepositAccounts | Lab4/Banks/Entities/Bank.cs:104-108 | every deposit of every group takes the bank's time; every other account keeps its clock |
| Banks.Bank.AccrueAll | Lab4/Banks/Entities/Bank.cs:113-126 | the day's pass at a time: deposits take it, then the groups accrue in order until the first failure |
| Banks.Bank.UpdateAllOnOneDay | Lab4/Banks/Entities/Bank.cs:110-127 | the clock moves one day forward and every deposit takes the new time; the groups accrue in order, exactly the entries before the first failure gaining their day's accrual; the pass fails with NoMatchingElement exactly when some group's accrual fails |
| Banks.Bank.ChargeInterestAndDeductCommission | Lab4/Banks/Entities/Bank.cs:129-132 | every group applies its pending values, in order, until the first refusal |
| Banks.Bank.Attach | Lab4/Banks/Entities/Bank.cs:134-140 | an observer without an identity throws; one with an identity already attached changes nothing; any other is appended |
| Banks.Bank.Detach | Lab4/Banks/Entities/Bank.cs:142-148 | no identity throws NullArgument, an unknown one ObserverNotFound, both with nothing changed; otherwise the first occurrence of that very object is removed |
| Banks.Bank.DropObserver | Lab4/Banks/Entities/Bank.cs:147 | the observer list loses the first occurrence of the object |
| Banks.Bank.AttachThenDetach | Lab4/Banks/Entities/Bank.cs:134-148 | attaching an observer with a new identity and detaching it gives the observer list back |
| Banks.Bank.NotifyAll | Lab4/Banks/Entities/Bank.cs:174-177 | every attached observer is notified, in order |
| Banks.Bank.NotifySpecifiedObservers | Lab4/Banks/Entities/Bank.cs:186-192 | the observers notified are those NotifiedMeaning characterises, group after group |
| Banks.Bank.NotifyObserversWithCreditAccounts | Lab4/Banks/Entities/Bank.cs:194-197 | notifies the observers of groups holding a credit account |
| Banks.Bank.NotifyObserversWithDebitAccounts | Lab4/Banks/Entities/Bank.cs:199-202 | notifies the observers of groups holding a debit account |
| Banks.Bank.NotifyObserversWithDepositAccounts | Lab4/Banks/Entities/Bank.cs:204-207 | notifies the observers of groups holding a deposit account |
| Banks.Bank.ChangeCreditLimit | Lab4/Banks/Entities/Bank.cs:150-154 | a negative limit throws before anyone is notified; otherwise only the limit changes (existing credit thresholds stay) and credit holders are notified |
| Banks.Bank.ChangeLoanComission | Lab4/Banks/Entities/Bank.cs:156-160 | a negative commission throws before anyone is notified; otherwise only it changes and credit holders are notified |
| Banks.Bank.ChangeInterestOnDebitBalance | Lab4/Banks/Entities/Bank.cs:162-166 | a negative rate throws before anyone is notified; otherwise only it changes and debit holders are notified |
| Banks.Bank.ChangeInterestOnDepositBalance | Lab4/Banks/Entities/Bank.cs:168-172 | a refused table throws before anyone is notified; otherwise the table is replaced and deposit holders are notified |
| Registry.MonthlyChargeDue | Lab4/Banks/Services/CentralBank.cs:73 | definition: the elapsed days modulo DaysInMonth reach OneMonth; stated by MonthlyChargeRule |
| Registry.MonthlyChargeRule | Lab4/Banks/Services/CentralBank.cs:73 | on whole days the trigger fires exactly when the elapsed days are not a multiple of 30 |
| Registry.IndexOfBank | Lab4/Banks/Services/CentralBank.cs:34 | the first registered position with the identifier, or none exactly when no bank has it |
| Registry.RegisteredWithout | Lab4/Banks/Services/CentralBank.cs:59-65 | removing a bank from a well-kept list keeps it well kept |
| Registry.RegisteredWith | Lab4/Banks/Services/CentralBank.cs:48 | appending a consistent bank with a new identifier and groups of its own keeps the list well kept |
| Registry.RemovedKept | Lab4/Banks/Services/CentralBank.cs:64 | List.Remove keeps the list well kept and the identifiers apart, whether or not it finds the bank |
| Registry.MintedWithout | Lab4/Banks/Services/CentralBank.cs:59-65 | removing a bank keeps every identifier taken in by at most one bank |
| Registry.MintedWith | Lab4/Banks/Services/CentralBank.cs:43-49 | appending a bank that draws from the same generator and shares no identifier keeps the identifiers apart |
| Registry.MintedGrown | Lab4/Banks/Entities/Bank.cs:20 | handing out more identifiers keeps every bank's identifiers drawn and apart |
| Registry.MintedKept | Lab4/Banks/Services/CentralBank.cs:67-75 | a pass that changes no group, account list or generator keeps the identifiers apart |
| Registry.OpeningKeepsMinted | Lab4/Banks/Entities/Bank.cs:248-290 | an account opened at one registered bank under a newly handed-out identifier keeps every identifier taken in by at most one bank |
| Registry.ForeignAccountNotFound | Lab4/Banks/Entities/Bank.cs:223-228 | an account held by one registered bank is not held by any other, whose IsAccountExists throws AccountNotFound |
| Registry.DayOfBank | Lab4/Banks/Services/CentralBank.cs:72 | a bank's daily pass moves its clock one day and fails exactly when its accrual fails |
| Registry.DayAtBank | Lab4/Banks/Services/CentralBank.cs:72 | one bank's daily pass leaves every bank's accrual condition as it was |
| Registry.DayLeavingOthers | Lab4/Banks/Services/CentralBank.cs:72 | one bank's daily pass touches no other bank |
| Registry.DayForBank | Lab4/Banks/Services/CentralBank.cs:72 | one bank's daily pass keeps the list well kept and moves only that bank's clock |
| Registry.DailyPass | Lab4/Banks/Services/CentralBank.cs:72 | the banks' daily passes in order: fails exactly when some bank's accrual fails; on success every clock moved one day |
| Registry.DaysPass | Lab4/Banks/Services/CentralBank.cs:71-72 | one daily pass per day: succeeds exactly when there are no days or every bank accrues; then every clock moved by the days |
| Registry.DaysPassKeepingCash | Lab4/Banks/Services/CentralBank.cs:71-72 | the days' passes leave every balance as it was, and the identifiers apart |
| Registry.ChargeOfBank | Lab4/Banks/Services/CentralBank.cs:74 | a bank's monthly charge succeeds exactly when none of its pending values is refused |
| Registry.ChargeForBank | Lab4/Banks/Services/CentralBank.cs:74 | one bank's monthly charge keeps the list well kept and every bank's charge condition |
| Registry.MonthlyCharge | Lab4/Banks/Services/CentralBank.cs:74 | the banks' monthly charges in order: succeeds exactly when every bank's pending values are accepted |
| Registry.ChargeIfDue | Lab4/Banks/Services/CentralBank.cs:73-74 | the monthly charge runs only when due; otherwise nothing changes; the clocks never move and the identifiers stay apart |
| Registry.AdvanceAll | Lab4/Banks/Services/CentralBank.cs:71-74 | the days' passes then, when due, the monthly charge, as Advanced describes the clocks, balances and outcome |
| Registry.CentralBank.constructor | Lab4/Banks/Services/CentralBank.cs:13-18 | the registry starts and stands at the same date (one reading of the clock), with no banks and the given generator |
| Registry.CentralBank.FindBankById | Lab4/Banks/Services/CentralBank.cs:31-35 | a registered bank with the identifier, present exactly when one is registered |
| Registry.CentralBank.GetBankById | Lab4/Banks/Services/CentralBank.cs:37-41 | a registered bank with the identifier; NoMatchingElement exactly when none is registered |
| Registry.CentralBank.LookupsAgree | Lab4/Banks/Services/CentralBank.cs:31-41 | the two lookups succeed together and return the same bank |
| Registry.CentralBank.FindRegistered | Lab4/Banks/Services/CentralBank.cs:31-35 | every registered bank is found by its own identifier |
| Registry.CentralBank.RegisterNewBank | Lab4/Banks/Services/CentralBank.cs:43-49 | a registered identifier is refused with BankAlreadyExists and nothing changed; otherwise the bank is appended, the identifiers staying apart |
| Registry.NewListedBank | Lab4/Banks/Services/CentralBank.cs:54 | the new bank's identifier is handed out then and differs from every registered bank's; it holds nothing, so the list with it appended is well kept and its identifiers apart |
| Registry.CentralBank.RegisterNewBankWithConditions | Lab4/Banks/Services/CentralBank.cs:51-57 | a new empty bank with the policy, under an identifier no bank registered now or disbanded before carries, is appended and returned |
| Registry.CentralBank.DisbandBank | Lab4/Banks/Services/CentralBank.cs:59-65 | an unregistered identifier is refused with BankNotFound and nothing changed; otherwise the first occurrence of that very object is removed |
| Registry.CentralBank.RegisterThenDisband | Lab4/Banks/Services/CentralBank.cs:43-65 | registering a new bank and then disbanding it gives the list back |
| Registry.CentralBank.PassBanks | Lab4/Banks/Services/CentralBank.cs:71-74 | the passes of UpdateDate over the registered banks, as Advanced describes them |
| Registry.CentralBank.UpdateDate | Lab4/Banks/Services/CentralBank.cs:67-75 | a negative count throws with nothing changed; otherwise the date moves by the days, every bank's clock moves by them unless a daily pass throws (then on the first day), and balances change only through the monthly charge when the trigger fires |
| Registry.CentralBank.MoveDate | Lab4/Banks/Services/CentralBank.cs:70 | the calendar moves forward by the days and nothing the banks hold changes |
| Registry.Singleton.constructor | Lab4/Banks/Services/CentralBank.cs:11 | there is no instance yet |
| Registry.Singleton.GetInstance | Lab4/Banks/Services/CentralBank.cs:24-29 | the first call creates an empty registry at the current date, drawing from the given generator; every later call returns that same one |
| Registry.Singleton.GetInstanceTwice | Lab4/Banks/Services/CentralBank.cs:24-29 | two calls return the same registry |

## Left out

- I/O and clocks.
  - The console program (Banks.Console) is not part of this model.
  - `DateTime.Now` is a parameter of the registry's constructor and of
    `GetInstance`.
  - `Guid.NewGuid` is the counter of `Common.GuidSource`: each call hands
    out the next number. That a random Guid never repeats is taken as given,
    and the counter makes it hold by construction. The generator is an
    explicit object passed to the registry, the bank constructor and the
    account constructors.
- Exception classes. The exception factories of Tools are one error datatype,
  and the messages are dropped. `ArgumentNullException` appears only where a
  null can really reach the check:
  - the missing transaction id;
  - the missing observer identity.

  Object references in Dafny are never null.
- Time and decimals.
  - Dates are whole days. The fractional days `UpdateDate` accepts, and the
    floating-point `TotalDays` it compares, are not modelled.
    `UpdateDate(days)` takes an integer count.
  - Money is exact `real` arithmetic. Decimal rounding of the `/365`
    divisions and the 28-digit range of `decimal` are not modelled.
- Passport numbers. `decimal.ToString()` is the
  digit count of an integer plus a minus sign. Numbers with a fractional part
  (whose string form includes the decimal part) are not modelled, and neither
  are culture-specific formats.
- WithdrawalTransaction's file is not shown. It is modelled as the twin of
  ReplenishmentTransaction, tagged `Withdrawal`.
- Observers are clients. The model compares them by passport value, where the
  source compares `IObserverId` references with `==` in
  NotifySpecifiedObservers. `HaveBeenNotified` does nothing, so the notify
  methods return the observers notified, in order.
- Banks.Bank.OpenNewAccount: requires an account object the bank does not
  hold yet, whose identifier the generator handed out. The three open methods
  only ever pass a new one. Passing an object already held (which the source
  would put in two groups), or an account held by another bank, is not
  modelled.
- Registry.CentralBank.RegisterNewBank: requires that the new bank's groups
  belong to no other registered bank, that it draws from the registry's
  generator, and that it took in no account identifier another registered
  bank took in. The source cannot share groups between banks, because each
  bank creates its own. Its Guids never repeat, so two banks cannot share an
  account identifier unless an account object is passed to both.
- Registry.OpeningKeepsMinted: an account is opened through the bank, not the
  registry, so the registry's `Valid` is not re-established by the open
  methods themselves. The lemma states that the open methods' postconditions
  keep `Registry.Minted` for a registered bank.
- Conditions.BankConditions.Create and ChangeInterestOnDepositBalance: the
  source keeps the caller's Dictionary object itself. A later change the
  caller makes to that dictionary changes the bank's rates without validation
  and without notifying anyone. The model stores the entries as a sequence
  value, a copy, so that aliasing is not modelled.
- Dictionary enumeration order.
  - A group's dictionary is the sequence of its entries in insertion order.
  - .NET reuses a removed entry's slot for the next addition, which can put
    an account opened after a close elsewhere in the enumeration order. The
    model appends it last.
  - Overwriting a pending value during the daily `foreach` is taken not to
    invalidate the enumerator, as in .NET Core 3.0 and later.
- Registry.CentralBank.UpdateDate: does not state every result of a pass.
  - It never states the pending values or the deposit clocks, even after
    every daily pass succeeds. Banks.Bank.UpdateAllOnOneDay states them for
    one bank and one day, but the registry's loop does not carry those
    statements across days and banks.
  - After a daily pass that throws, the banks' clocks are not stated either.
  - After a monthly charge, the new balances are not stated per account.
    Banks.Bank.ChargeInterestAndDeductCommission states them for one bank.
- Registry.DayOfBank: keeps only the clock step and the accrual outcome of one bank's daily pass, not its pending values or deposit clocks. The reason is the one given for UpdateDate above.
- Registry.DayAtBank: states the clocks and the accrual outcome of the chosen bank, not its pending values or deposit clocks. The reason is the one given for UpdateDate above.
- Registry.DayLeavingOthers: states the other banks unchanged, but not the chosen bank's pending values or deposit clocks. The reason is the one given for UpdateDate above.
- Registry.DayForBank: states the list, the clocks and the accrual outcome, not the pending values or deposit clocks. The reason is the one given for UpdateDate above.
- Registry.DailyPass: states the outcome and the day's clocks, not the pending values or deposit clocks each bank's pass produces. The reason is the one given for UpdateDate above.
- Registry.DaysPass: states the outcome and the clocks over the days, not the pending values accumulated across days or the deposit clocks. The reason is the one given for UpdateDate above.
- Registry.DaysPassKeepingCash: states that balances are unchanged, not the pending values or deposit clocks. The reason is the one given for UpdateDate above.
- Registry.ChargeOfBank: states the charge outcome of one bank, not each account's new balance. The reason is the one given for UpdateDate above.
- Registry.ChargeForBank: states the outcome and the kept charge conditions, not each account's new balance. The reason is the one given for UpdateDate above.
- Registry.MonthlyCharge: states that it passes exactly when every bank's charge passes, not the balances afterwards. The reason is the one given for UpdateDate above.
- Registry.ChargeIfDue: when the charge is due, states its outcome, not the new balances per account. The reason is the one given for UpdateDate above.
- Registry.AdvanceAll: states the outcomes, the clocks and when cash is unchanged, not the pending values, deposit clocks or charged balances. The reason is the one given for UpdateDate above.
- Registry.CentralBank.PassBanks: states what AdvanceAll states, so the same pending values, deposit clocks and charged balances stay unstated. The reason is the one given for UpdateDate above.
- Registry.CentralBank.UpdateDate: the date is written after the passes
  instead of before them. No pass reads the registry's date, so the final
  state is the same.
- The `ValidationCheck` methods of Bank and CentralBank are the same check
  as that of BankConditions. The model uses Conditions.ValidationCheck for
  all three.
- The static `instance` field is the `instance` field of an explicit
  `Singleton` object.
