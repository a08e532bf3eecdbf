/** Entities/Bank.cs: one bank. It owns the client groups (one ClientAccounts
    per client), the transaction log and the observer list, and runs the
    operations on accounts, the daily accrual and the notifications. */
module Banks {
  import opened Common
  import opened Passports
  import opened Clients
  import opened Transactions
  import opened Accounts
  import opened Conditions
  import opened Holdings
  import opened DailyAccrual
  import opened BankGroups


  class Bank {
    const bankId: nat
    const conditions: BankConditions
    /** The process-wide generator behind Guid.NewGuid. */
    const guids: GuidSource
    var groups: seq<ClientAccounts>
    var observers: seq<Client>
    var transactions: seq<Transaction>
    /** CurrentTime: never assigned by the constructor, so it starts at the
        default date, day 0. */
    var currentTime: int
    /** The position of the group each held account belongs to: bookkeeping
        through which Valid states that no account is in two groups. */
    ghost var owner: map<Account, nat>
    /** The identifiers of every account the bank has taken in: each one
        came from the generator, and Valid states that every held account
        carries one of them. */
    ghost var accountIds: set<nat>

    /** The bank takes a new identifier from the generator. Every policy
        object the program can build passed its validation. */
    constructor (conditions: BankConditions, guids: GuidSource)
      requires conditions.Valid() && guids.Valid()
      modifies guids`next, guids`drawn
      ensures Valid() && Drawn() && accountIds == {}
      ensures this.conditions == conditions && this.guids == guids
      ensures bankId !in old(guids.drawn) && guids.drawn == old(guids.drawn) + {bankId}
      ensures groups == [] && observers == [] && transactions == [] && currentTime == 0
    {
      var id := guids.NewGuid();
      bankId := id;
      this.conditions := conditions;
      this.guids := guids;
      groups := [];
      observers := [];
      transactions := [];
      currentTime := 0;
      owner := map[];
      accountIds := {};
    }

    /** The policy is valid; the groups are distinct objects, each
        consistent, and no account object belongs to two groups. */
    ghost predicate Valid()
      reads this`groups, this`owner, groups, conditions
    {
      && conditions.Valid()
      && (forall p, q :: 0 <= p < q < |groups| ==> groups[p] != groups[q])
      && (forall p :: 0 <= p < |groups| ==> groups[p].Valid())
      && (forall p, i :: 0 <= p < |groups| && 0 <= i < |groups[p].accounts| ==>
            groups[p].accounts[i] in owner && owner[groups[p].accounts[i]] == p)
    }

    /** No account of one group is an account of another. */
    lemma SeparateGroups()
      requires Valid()
      ensures forall p, q, i :: 0 <= p < |groups| && 0 <= q < |groups| && q != p && 0 <= i < |groups[q].accounts| ==>
                groups[q].accounts[i] !in groups[p].accounts
    {
      forall p, q, i | 0 <= p < |groups| && 0 <= q < |groups| && q != p && 0 <= i < |groups[q].accounts|
        ensures groups[q].accounts[i] !in groups[p].accounts
      {
        assert forall j :: 0 <= j < |groups[p].accounts| ==> owner[groups[p].accounts[j]] != owner[groups[q].accounts[i]];
      }
    }

    /** Some group holds an account with the identifier. */
    predicate Holds(id: nat)
      reads this`groups, (set g | g in groups)`accounts
    {
      exists p, i :: 0 <= p < |groups| && 0 <= i < |groups[p].accounts| && groups[p].accounts[i].id == id
    }

    /** The bank's identifier and those of the accounts it took in came from
        the generator, and every held account carries one of the latter. */
    ghost predicate Drawn()
      reads this`groups, this`accountIds, (set g | g in groups)`accounts, guids
    {
      && guids.Valid() && bankId in guids.drawn && accountIds <= guids.drawn
      && forall p, i :: 0 <= p < |groups| && 0 <= i < |groups[p].accounts| ==> groups[p].accounts[i].id in accountIds
    }

    /** IsAccountExists: fails exactly when no group holds the identifier. */
    function IsAccountExists(account: Account): (o: Outcome)
      reads this`groups, (set g | g in groups)`accounts
      ensures o.Pass? <==> Holds(account.id)
      ensures o.Fail? ==> o.error == AccountNotFound
    {
      if GroupOfAccount(groups, account.id).Some? then Pass else Fail(AccountNotFound)
    }

    /** FindAccountById: the first held account with the identifier. */
    function FindAccountById(id: nat): (r: Option<Account>)
      reads this`groups, (set g | g in groups)`accounts
      ensures r.Some? <==> Holds(id)
      ensures r.Some? ==> r.value.id == id && r.value in AccountsOf(groups)
    {
      var p := GroupOfAccount(groups, id);
      if p.None? then None
      else Some(groups[p.value].accounts[IndexOfId(groups[p.value].accounts, id).value])
    }

    /** FindClientAccounts(Account): the first group holding the identifier. */
    function FindClientAccounts(account: Account): (r: Option<ClientAccounts>)
      reads this`groups, (set g | g in groups)`accounts
      ensures r.Some? <==> Holds(account.id)
      ensures r.Some? ==> r.value in groups && r.value.FindAccount(account.id).Some?
    {
      var p := GroupOfAccount(groups, account.id);
      if p.None? then None else Some(groups[p.value])
    }

    /** FindClientByAccount: the client of that group. */
    function FindClientByAccount(account: Account): (r: Option<Client>)
      reads this`groups, (set g | g in groups)`accounts
      ensures r.Some? <==> Holds(account.id)
      ensures r.Some? ==> exists p :: 0 <= p < |groups| && groups[p].client == r.value
                                     && groups[p].FindAccount(account.id).Some?
    {
      var p := GroupOfAccount(groups, account.id);
      if p.None? then None else Some(groups[p.value].client)
    }

    /** FindClientAccounts(Client): the first group whose client has an equal
        passport number (or, like the client, none). */
    function FindClientAccountsOfClient(client: Client): (r: Option<ClientAccounts>)
      reads this`groups, (set g | g in groups :: g.client)`passport, client`passport
      ensures r.Some? <==> exists p :: 0 <= p < |groups| && groups[p].client.passport == client.passport
      ensures r.Some? ==> r.value in groups && r.value.client.passport == client.passport
    {
      var p := GroupOfClient(groups, client.passport);
      if p.None? then None else Some(groups[p.value])
    }

    /** FindObserver: an absent identifier throws; otherwise the first attached
        observer with an equal passport number. */
    function FindObserver(id: Option<PassportNumber>): (r: Result<Option<Client>>)
      reads this, (set o | o in observers)`passport
      ensures r.Err? <==> id.None?
      ensures r.Err? ==> r.error == NullArgument
      ensures r.Ok? ==> (r.value.Some? <==> exists j :: 0 <= j < |observers| && observers[j].passport == id)
      ensures r.Ok? && r.value.Some? ==> r.value.value in observers && r.value.value.passport == id
    {
      if id.None? then Err(NullArgument)
      else Ok(FirstObserver(observers, id))
    }

    /** The identifier was handed out by this call, recorded by the generator
        and taken in by the bank. It was not handed out before, so no account
        held anywhere, at this bank or another, carries it. */
    twostate predicate NewId(id: nat)
      reads this`groups, this`accountIds, (set g | g in groups)`accounts, guids
    {
      && id !in old(guids.drawn) && !old(Holds(id))
      && guids.drawn == old(guids.drawn) + {id} && accountIds == old(accountIds) + {id}
    }

    /** No group and no pending value changed. */
    twostate predicate GroupsUnchanged()
      reads this, groups
    {
      && groups == old(groups)
      && forall p :: 0 <= p < |groups| ==>
           groups[p].accounts == old(groups[p].accounts) && groups[p].pending == old(groups[p].pending)
    }

    /** The account was added to the client's group with pending value 0, or,
        when the client had no group, a new group holding only it was added
        after the others; nothing else changed. */
    twostate predicate Opened(client: Client, new a: Account)
      reads this, groups, client
    {
      var p := old(GroupOfClient(groups, client.passport));
      if p.Some? then
        && groups == old(groups)
        && groups[p.value].accounts == old(groups[p.value].accounts) + [a]
        && groups[p.value].pending == old(groups[p.value].pending) + [0.0]
        && forall q :: 0 <= q < |groups| && q != p.value ==>
             groups[q].accounts == old(groups[q].accounts) && groups[q].pending == old(groups[q].pending)
      else
        && |groups| == |old(groups)| + 1
        && groups[..|old(groups)|] == old(groups)
        && (forall q :: 0 <= q < |old(groups)| ==>
              groups[q].accounts == old(groups[q].accounts) && groups[q].pending == old(groups[q].pending))
        && var g := groups[|old(groups)|];
           fresh(g) && g.client == client && g.accounts == [a] && g.pending == [0.0]
           && g.verified == client.passport.None?
    }

    /** OpenNewAccount, for an account object the bank does not hold yet,
        whose identifier the generator handed out. The client's group is
        found by passport number; a group holding the identifier refuses it. */
    method OpenNewAccount(client: Client, newAccount: Account) returns (o: Outcome)
      requires Valid() && Drawn()
      requires newAccount !in AccountsOf(groups) && newAccount.id in guids.drawn
      modifies this`groups, this`owner, this`accountIds, (set g | g in groups)`accounts, (set g | g in groups)`pending
      ensures Valid() && Drawn()
      ensures var p := old(GroupOfClient(groups, client.passport));
              o.Fail? <==> p.Some? && old(groups[p.value].FindAccount(newAccount.id)).Some?
      ensures o.Fail? ==> o.error == AccountAlreadyExists && GroupsUnchanged() && accountIds == old(accountIds)
      ensures o.Pass? ==> Opened(client, newAccount) && accountIds == old(accountIds) + {newAccount.id}
    {
      var p := GroupOfClient(groups, client.passport);
      if p.None? {
        o := OpenInNewGroup(client, newAccount);
      } else {
        o := OpenInGroup(client, newAccount, p.value);
      }
    }

    /** A client without a group gets a new group holding only the account. */
    method OpenInNewGroup(client: Client, newAccount: Account) returns (o: Outcome)
      requires Valid() && newAccount !in AccountsOf(groups)
      requires GroupOfClient(groups, client.passport).None?
      modifies this`groups, this`owner, this`accountIds
      ensures Valid() && o == Pass && Opened(client, newAccount) && accountIds == old(accountIds) + {newAccount.id}
    {
      var g := new ClientAccounts([newAccount], [0.0], client);
      groups := groups + [g];
      owner := owner[newAccount := |groups| - 1];
      accountIds := accountIds + {newAccount.id};
      o := Pass;
      OpenedKeepsValid(client, newAccount);
    }

    /** A client with a group has the account added to it, unless the group
        already holds the identifier. */
    method OpenInGroup(client: Client, newAccount: Account, p: nat) returns (o: Outcome)
      requires Valid() && newAccount !in AccountsOf(groups)
      requires GroupOfClient(groups, client.passport) == Some(p)
      modifies this`owner, this`accountIds, {groups[p]}`accounts, {groups[p]}`pending
      ensures Valid()
      ensures o.Fail? <==> old(groups[p].FindAccount(newAccount.id)).Some?
      ensures o.Fail? ==> o.error == AccountAlreadyExists && GroupsUnchanged() && accountIds == old(accountIds)
      ensures o.Pass? ==> Opened(client, newAccount) && accountIds == old(accountIds) + {newAccount.id}
    {
      o := groups[p].OpenAccount(newAccount);
      assert forall q :: 0 <= q < |groups| && q != p ==> groups[q] != groups[p];
      if o.Pass? {
        owner := owner[newAccount := p];
        accountIds := accountIds + {newAccount.id};
        OpenedKeepsValid(client, newAccount);
      }
    }

    /** Adding an account object the bank did not hold, as Opened describes,
        keeps the bank consistent. */
    twostate lemma OpenedKeepsValid(client: Client, new a: Account)
      requires old(Valid()) && old(a !in AccountsOf(groups)) && unchanged(conditions)
      requires Opened(client, a)
      requires var p := old(GroupOfClient(groups, client.passport));
               owner == old(owner)[a := if p.Some? then p.value else |old(groups)|]
      requires forall q :: 0 <= q < |groups| ==> groups[q].Valid()
      ensures Valid()
    {
      var p := old(GroupOfClient(groups, client.passport));
      var n := |old(groups)|;
      forall q, i | 0 <= q < |groups| && 0 <= i < |groups[q].accounts|
        ensures groups[q].accounts[i] in owner && owner[groups[q].accounts[i]] == q
      {
        if p.None? && q == n {
        } else if p.Some? && q == p.value && i == |old(groups[q].accounts)| {
        } else {
          assert groups[q].accounts[i] == old(groups[q].accounts[i]);
          assert old(groups[q].accounts[i]) in old(AccountsOf(groups));
        }
      }
      if p.None? {
        assert forall q :: 0 <= q < n ==> groups[q] == old(groups[q]);
      }
    }

    /** OpenNewCreditAccount: the amount is validated, then the account takes
        the current credit limit as its threshold. */
    method OpenNewCreditAccount(client: Client, cash: real) returns (r: Result<Account>)
      requires Valid() && Drawn()
      modifies this`groups, this`owner, this`accountIds, (set g | g in groups)`accounts, (set g | g in groups)`pending, guids`next, guids`drawn
      ensures Valid() && Drawn()
      ensures r.Err? <==> cash < 0.0 || cash < conditions.creditLimit
      ensures r.Err? ==> r.error == ValueNotValid && GroupsUnchanged() && guids.drawn == old(guids.drawn) && accountIds == old(accountIds)
      ensures r.Ok? ==> fresh(r.value) && r.value.variant == Credit(conditions.creditLimit) && r.value.cash == cash
                        && NewId(r.value.id) && Opened(client, r.value)
    {
      var check := Conditions.ValidationCheck(cash);
      if check.Fail? {
        return Err(check.error);
      }
      r := Account.NewCredit(cash, conditions.creditLimit, guids);
      if r.Err? {
        return;
      }
      assert GroupOfClient(groups, client.passport) == old(GroupOfClient(groups, client.passport));
      var added := OpenNewAccount(client, r.value);
    }

    /** OpenNewDebitAccount */
    method OpenNewDebitAccount(client: Client, cash: real) returns (r: Result<Account>)
      requires Valid() && Drawn()
      modifies this`groups, this`owner, this`accountIds, (set g | g in groups)`accounts, (set g | g in groups)`pending, guids`next, guids`drawn
      ensures Valid() && Drawn()
      ensures r.Err? <==> cash < 0.0
      ensures r.Err? ==> r.error == ValueNotValid && GroupsUnchanged() && guids.drawn == old(guids.drawn) && accountIds == old(accountIds)
      ensures r.Ok? ==> fresh(r.value) && r.value.variant == Debit && r.value.cash == cash
                        && NewId(r.value.id) && Opened(client, r.value)
    {
      var check := Conditions.ValidationCheck(cash);
      if check.Fail? {
        return Err(check.error);
      }
      r := Account.NewDebit(cash, guids);
      assert r.Ok? && r.value !in AccountsOf(groups);
      assert GroupOfClient(groups, client.passport) == old(GroupOfClient(groups, client.passport));
      var added := OpenNewAccount(client, r.value);
    }

    /** OpenNewDepositAccount: the account opens at the bank's current time,
        which must not be after the closing date. */
    method OpenNewDepositAccount(client: Client, closingDate: int, cash: real) returns (r: Result<Account>)
      requires Valid() && Drawn()
      modifies this`groups, this`owner, this`accountIds, (set g | g in groups)`accounts, (set g | g in groups)`pending, guids`next, guids`drawn
      ensures Valid() && Drawn()
      ensures r.Err? <==> cash < 0.0 || currentTime > closingDate
      ensures cash < 0.0 ==> r == Err(ValueNotValid)
      ensures cash >= 0.0 && currentTime > closingDate ==> r == Err(InvalidClosingDate)
      ensures r.Err? ==> GroupsUnchanged() && guids.drawn == old(guids.drawn) && accountIds == old(accountIds)
      ensures r.Ok? ==> fresh(r.value) && r.value.variant == Deposit(closingDate) && r.value.currentTime == currentTime
                        && r.value.cash == cash && NewId(r.value.id) && Opened(client, r.value)
    {
      var check := Conditions.ValidationCheck(cash);
      if check.Fail? {
        return Err(check.error);
      }
      r := Account.NewDeposit(currentTime, closingDate, cash, guids);
      if r.Err? {
        return;
      }
      assert GroupOfClient(groups, client.passport) == old(GroupOfClient(groups, client.passport));
      var added := OpenNewAccount(client, r.value);
    }

    // -------------------------------------------------------------------
    // Money movements

    /** What MakeReplenishmentOperation reports, from the state before it:
        a missing transaction id throws first, then the amount, then a
        missing account, then the account's own top-up check. */
    function ReplenishmentOutcome(account: Account, amount: real, transactionId: Option<nat>): Outcome
      reads this`groups, (set g | g in groups)`accounts, account`cash
    {
      if transactionId.None? then Fail(NullArgument)
      else if Conditions.ValidationCheck(amount).Fail? then Fail(ValueNotValid)
      else if IsAccountExists(account).Fail? then Fail(AccountNotFound)
      else OutcomeOf(TopUp(account.variant, account.cash, amount))
    }

    /** What MakeWithdrawalOperation reports, from the state before it: the
        amount, then a missing account, then the cap on unverified groups
        (the group is the first one holding the identifier), then the
        account's own checks. */
    function WithdrawalOutcome(account: Account, amount: real): Outcome
      reads this`groups, (set g | g in groups)`accounts, conditions`maxAmountForDoubtfulAccounts
      reads account`cash, account`currentTime
    {
      if Conditions.ValidationCheck(amount).Fail? then Fail(ValueNotValid)
      else
        match GroupOfAccount(groups, account.id)
        case None => Fail(AccountNotFound)
        case Some(p) =>
          if !groups[p].verified && conditions.maxAmountForDoubtfulAccounts < amount then Fail(UnverifiedOverLimit)
          else OutcomeOf(Withdraw(account.variant, account.currentTime, account.cash, amount))
    }

    /** MakeReplenishmentOperation: on success the balance rises by the amount
        and exactly one replenishment record with the given id is logged; on
        failure nothing changes. The account object is the caller's: only its
        identifier is looked up. */
    method MakeReplenishmentOperation(account: Account, amount: real, bankId: nat, transactionId: Option<nat>)
      returns (o: Outcome)
      requires Valid()
      modifies account`cash, this`transactions
      ensures Valid()
      ensures o == old(ReplenishmentOutcome(account, amount, transactionId))
      ensures account.cash == if o.Pass? then old(account.cash) + amount else old(account.cash)
      ensures transactions == if o.Pass? then old(transactions) + [Transaction(Replenishment, transactionId.value, account.id, bankId, amount)]
                              else old(transactions)
    {
      if transactionId.None? {
        return Fail(NullArgument);
      }
      o := Conditions.ValidationCheck(amount);
      if o.Fail? {
        return;
      }
      o := IsAccountExists(account);
      if o.Fail? {
        return;
      }
      o := account.TopUpAccount(amount);
      if o.Fail? {
        return;
      }
      var record := NewTransaction(Replenishment, account.id, bankId, amount, transactionId, 0);
      transactions := transactions + [record.value];
    }

    /** One record appended to the log: of the kind, account, bank and
        amount given, carrying the given transaction id or, when none is
        given, a new one from the generator. */
    twostate predicate LoggedOne(kind: Kind, accountId: nat, bankId: nat, amount: real, transactionId: Option<nat>)
      reads this`transactions, guids
    {
      if transactionId.Some? then
        && transactions == old(transactions) + [Transaction(kind, transactionId.value, accountId, bankId, amount)]
        && guids.drawn == old(guids.drawn)
      else
        && |transactions| == |old(transactions)| + 1
        && var id := transactions[|old(transactions)|].transactionId;
           && transactions == old(transactions) + [Transaction(kind, id, accountId, bankId, amount)]
           && id !in old(guids.drawn) && guids.drawn == old(guids.drawn) + {id}
    }

    /** MakeWithdrawalOperation: on success the balance falls by the amount
        and one withdrawal record is logged, carrying the given id or a new
        one (the record's constructor draws it only when none is given); on
        failure nothing changes. */
    method MakeWithdrawalOperation(account: Account, amount: real, bankId: nat, transactionId: Option<nat>)
      returns (o: Outcome)
      requires Valid() && Drawn()
      modifies account`cash, this`transactions, guids`next, guids`drawn
      ensures Valid() && Drawn()
      ensures o == old(WithdrawalOutcome(account, amount))
      ensures account.cash == if o.Pass? then old(account.cash) - amount else old(account.cash)
      ensures o.Pass? ==> LoggedOne(Withdrawal, account.id, bankId, amount, transactionId)
      ensures o.Fail? ==> transactions == old(transactions) && guids.drawn == old(guids.drawn)
    {
      o := Conditions.ValidationCheck(amount);
      if o.Fail? {
        return;
      }
      o := IsAccountExists(account);
      if o.Fail? {
        return;
      }
      var group := FindClientAccounts(account);
      if !group.value.verified && conditions.maxAmountForDoubtfulAccounts < amount {
        return Fail(UnverifiedOverLimit);
      }
      o := account.WithdrawMoney(amount);
      if o.Fail? {
        return;
      }
      LogWithdrawal(account.id, amount, bankId, transactionId);
    }

    /** The WithdrawalTransaction constructor, whose amount has passed, and
        the append to the log: a new identifier is drawn only when none is
        given. */
    method LogWithdrawal(accountId: nat, amount: real, bankId: nat, transactionId: Option<nat>)
      requires Drawn() && amount >= 0.0
      modifies this`transactions, guids`next, guids`drawn
      ensures Drawn()
      ensures LoggedOne(Withdrawal, accountId, bankId, amount, transactionId)
    {
      var freshId := 0;
      if transactionId.None? {
        freshId := guids.NewGuid();
      }
      var record := NewTransaction(Withdrawal, accountId, bankId, amount, transactionId, freshId);
      transactions := transactions + [record.value];
    }

    /** MakeTransferOperation: a new identifier is drawn first; the withdrawal
        leg runs and is logged, then the replenishment leg, both under that
        identifier. A failed withdrawal leg changes nothing else; a failed
        replenishment leg leaves the withdrawal applied and logged. The two
        accounts may be the same. `id` is the identifier drawn. */
    method MakeTransferOperation(bankIdFrom: nat, bankIdTo: nat, accountFrom: Account, accountTo: Account, amount: real)
      returns (o: Outcome, ghost id: nat)
      requires Valid() && Drawn()
      modifies accountFrom`cash, accountTo`cash, this`transactions, guids`next, guids`drawn
      ensures Valid() && Drawn()
      ensures id !in old(guids.drawn) && guids.drawn == old(guids.drawn) + {id}
      ensures var first := old(WithdrawalOutcome(accountFrom, amount));
              first.Fail? ==> o == first && transactions == old(transactions)
                              && accountFrom.cash == old(accountFrom.cash) && accountTo.cash == old(accountTo.cash)
      ensures var first := old(WithdrawalOutcome(accountFrom, amount));
              first.Pass? ==>
                && o == (if !Holds(accountTo.id) then Fail(AccountNotFound)
                         else if !Accounts.ValidateMoney(accountTo.variant, amount) then Fail(ValueNotValid)
                         else Pass)
                && transactions == old(transactions) + [Transaction(Withdrawal, id, accountFrom.id, bankIdFrom, amount)]
                                   + (if o.Pass? then [Transaction(Replenishment, id, accountTo.id, bankIdTo, amount)] else [])
                && (accountFrom != accountTo ==> accountFrom.cash == old(accountFrom.cash) - amount)
                && accountTo.cash == old(accountTo.cash) - (if accountFrom == accountTo then amount else 0.0)
                                     + (if o.Pass? then amount else 0.0)
    {
      var transactionId := guids.NewGuid();
      id := transactionId;
      assert Drawn() && WithdrawalOutcome(accountFrom, amount) == old(WithdrawalOutcome(accountFrom, amount));
      o := TransferLegs(bankIdFrom, bankIdTo, accountFrom, accountTo, amount, transactionId);
    }

    /** The two legs of a transfer, both logged under the transaction id the
        transfer drew. */
    method TransferLegs(bankIdFrom: nat, bankIdTo: nat, accountFrom: Account, accountTo: Account, amount: real, id: nat)
      returns (o: Outcome)
      requires Valid() && Drawn()
      modifies accountFrom`cash, accountTo`cash, this`transactions, guids`next, guids`drawn
      ensures Valid() && Drawn() && guids.drawn == old(guids.drawn)
      ensures var first := old(WithdrawalOutcome(accountFrom, amount));
              first.Fail? ==> o == first && transactions == old(transactions)
                              && accountFrom.cash == old(accountFrom.cash) && accountTo.cash == old(accountTo.cash)
      ensures var first := old(WithdrawalOutcome(accountFrom, amount));
              first.Pass? ==>
                && o == (if !Holds(accountTo.id) then Fail(AccountNotFound)
                         else if !Accounts.ValidateMoney(accountTo.variant, amount) then Fail(ValueNotValid)
                         else Pass)
                && transactions == old(transactions) + [Transaction(Withdrawal, id, accountFrom.id, bankIdFrom, amount)]
                                   + (if o.Pass? then [Transaction(Replenishment, id, accountTo.id, bankIdTo, amount)] else [])
                && (accountFrom != accountTo ==> accountFrom.cash == old(accountFrom.cash) - amount)
                && accountTo.cash == old(accountTo.cash) - (if accountFrom == accountTo then amount else 0.0)
                                     + (if o.Pass? then amount else 0.0)
    {
      o := MakeWithdrawalOperation(accountFrom, amount, bankIdFrom, Some(id));
      if o.Fail? {
        return;
      }
      o := ReplenishmentLeg(accountTo, amount, bankIdTo, id);
    }

    /** The replenishment leg of a transfer, whose amount the withdrawal leg
        has already accepted. */
    method ReplenishmentLeg(account: Account, amount: real, bankId: nat, id: nat) returns (o: Outcome)
      requires Valid() && Conditions.ValidationCheck(amount).Pass?
      modifies account`cash, this`transactions
      ensures Valid()
      ensures o == if !Holds(account.id) then Fail(AccountNotFound)
                   else if !Accounts.ValidateMoney(account.variant, amount) then Fail(ValueNotValid)
                   else Pass
      ensures account.cash == old(account.cash) + (if o.Pass? then amount else 0.0)
      ensures transactions == old(transactions) + (if o.Pass? then [Transaction(Replenishment, id, account.id, bankId, amount)] else [])
    {
      o := MakeReplenishmentOperation(account, amount, bankId, Some(id));
    }

    // -------------------------------------------------------------------
    // Cancellation

    /** The account CancellationOfOperation changes: the one the first record
        with the identifier names, when the bank holds it. */
    ghost function CancelTarget(transactionId: nat): set<Account>
      reads this`groups, this`transactions, (set g | g in groups)`accounts
    {
      match IndexOfTransaction(transactions, transactionId)
      case None => {}
      case Some(k) =>
        match FindAccountById(transactions[k].accountId)
        case None => {}
        case Some(a) => {a}
    }

    /** Undoing one record on its account: a replenishment is taken back with
        WithdrawMoney (so every withdrawal check applies), a withdrawal is
        given back with TopUpAccount (so no cap applies). */
    function Reversal(t: Transaction, a: Account): Result<real>
      reads a`cash, a`currentTime
    {
      match t.kind
      case Replenishment => Withdraw(a.variant, a.currentTime, a.cash, t.amount)
      case Withdrawal => TopUp(a.variant, a.cash, t.amount)
    }

    /** CancellationOfOperation as written. The loop runs over a lazy filter
        of the log and removes from the log inside its body, so the enumerator
        throws as soon as it moves on after the first removal: only the first
        record with the identifier is reversed and removed, and the call then
        fails. With no such record nothing happens; a record whose account is
        not held, or a reversal the account refuses, fails with nothing
        changed. */
    method CancellationOfOperation(transactionId: nat) returns (o: Outcome)
      requires Valid()
      modifies this`transactions, CancelTarget(transactionId)`cash
      ensures Valid()
      ensures var k := old(IndexOfTransaction(transactions, transactionId));
              k.None? ==> o == Pass && transactions == old(transactions)
      ensures var k := old(IndexOfTransaction(transactions, transactionId));
              k.Some? && old(FindAccountById(transactions[k.value].accountId)).None? ==>
                o == Fail(AccountNotFound) && transactions == old(transactions)
      ensures var k := old(IndexOfTransaction(transactions, transactionId));
              k.Some? && old(FindAccountById(transactions[k.value].accountId)).Some? ==>
                var t := old(transactions[k.value]);
                var a := old(FindAccountById(t.accountId)).value;
                var rev := old(Reversal(t, a));
                && a.cash == Settled(rev, old(a.cash))
                && (rev.Err? ==> o == Fail(rev.error) && transactions == old(transactions))
                && (rev.Ok? ==> o == Fail(CollectionModified)
                                && transactions == old(transactions[..k.value] + transactions[k.value + 1..]))
    {
      var k := IndexOfTransaction(transactions, transactionId);
      if k.None? {
        return Pass;
      }
      var t := transactions[k.value];
      var account := FindAccountById(t.accountId);
      if account.None? {
        return Fail(AccountNotFound);
      }
      var a := account.value;
      assert CancelTarget(transactionId) == {a};
      o := Reverse(t, a);
      if o.Fail? {
        return;
      }
      transactions := transactions[..k.value] + transactions[k.value + 1..];
      o := Fail(CollectionModified);
    }

    /** The opposite operation of a record on its account, guarded as the
        account guards it: a withdrawal for a replenishment, a top-up for a
        withdrawal. */
    method Reverse(t: Transaction, a: Account) returns (o: Outcome)
      modifies a`cash
      ensures a.cash == Settled(old(Reversal(t, a)), old(a.cash))
      ensures old(Reversal(t, a)).Err? ==> o == Fail(old(Reversal(t, a)).error)
      ensures old(Reversal(t, a)).Ok? ==> o == Pass
    {
      if t.kind == Replenishment {
        o := a.WithdrawMoney(t.amount);
      } else {
        o := a.TopUpAccount(t.amount);
      }
    }

    // -------------------------------------------------------------------
    // The daily pass and the monthly charge

    /** UpdateDaysInDepositAccounts: every deposit account of every group
        takes the bank's time. */
    method UpdateDaysInDepositAccounts()
      requires Valid()
      modifies AccountsOf(groups)`currentTime
      ensures DepositsAt(groups, old(Clocks(groups)), currentTime)
    {
      SeparateGroups();
      AdvanceDeposits(groups, currentTime, AccountsOf(groups));
    }

    /** The day's pass at time `now`: every deposit account takes that
        time, then every entry of every group accrues, group after group,
        until a deposit above every tier throws. */
    method AccrueAll(now: int) returns (o: Outcome)
      requires Valid()
      modifies AccountsOf(groups)`currentTime, (set g | g in groups)`pending
      ensures Valid() && groups == old(groups)
      ensures DepositsAt(groups, old(Clocks(groups)), now)
      ensures o.Pass? <==> FirstFailingGroup(conditions.Snapshot(), groups) == |groups|
      ensures o.Fail? ==> o.error == NoMatchingElement
      ensures Accrued(conditions.Snapshot(), groups, old(Pendings(groups)))
    {
      label T:
      SeparateGroups();
      o := PassDay(conditions.Snapshot(), groups, now, AccountsOf(groups));
      PendingKeepsValid@T();
    }

    /** UpdateAllOnOneDay: the clock moves one day forward and the day's pass
        runs at the new time: every deposit takes it, then every entry accrues
        as Accrued states, up to the first group whose accrual throws. */
    method UpdateAllOnOneDay() returns (o: Outcome)
      requires Valid()
      modifies this`currentTime, AccountsOf(groups)`currentTime, (set g | g in groups)`pending
      ensures Valid() && groups == old(groups)
      ensures currentTime == old(currentTime) + 1
      ensures DepositsAt(groups, old(Clocks(groups)), currentTime)
      ensures o.Pass? <==> FirstFailingGroup(conditions.Snapshot(), groups) == |groups|
      ensures o.Fail? ==> o.error == NoMatchingElement
      ensures Accrued(conditions.Snapshot(), groups, old(Pendings(groups)))
    {
      o := AccrueAll(currentTime + 1);
      currentTime := currentTime + 1;
    }

    /** Pending values of unchanged length keep the bank consistent. */
    twostate lemma PendingKeepsValid()
      requires old(Valid())
      requires groups == old(groups) && owner == old(owner) && unchanged(conditions)
      requires forall p :: 0 <= p < |groups| ==> groups[p].Valid() && groups[p].accounts == old(groups[p].accounts)
      ensures Valid()
    {
    }

    /** ChargeInterestAndDeductCommission: every group applies its pending
        values, group after group, until a top-up is refused. */
    method ChargeInterestAndDeductCommission() returns (o: Outcome)
      requires Valid()
      modifies AccountsOf(groups)`cash
      ensures Valid()
      ensures o.Pass? <==> FirstFailingCharge(groups) == |groups|
      ensures o.Fail? ==> o.error == ValueNotValid
      ensures Credited(groups)
    {
      SeparateGroups();
      o := ChargeGroups(groups, AccountsOf(groups));
      CashKeepsValid();
    }

    /** Valid reads no balance: a change of balances alone keeps it. */
    twostate lemma CashKeepsValid()
      requires old(Valid())
      requires unchanged(this, conditions) && unchanged(old(groups))
      ensures Valid()
    {
    }

    // -------------------------------------------------------------------
    // Observers and notifications

    /** Attach: an observer without an identity throws; one whose identity
        an attached observer already has is ignored; any other is appended. */
    method Attach(observer: Client) returns (o: Outcome)
      requires Valid()
      modifies this`observers
      ensures Valid()
      ensures o.Fail? <==> observer.passport.None?
      ensures o.Fail? ==> o.error == NullArgument && observers == old(observers)
      ensures o.Pass? && (exists j :: 0 <= j < |old(observers)| && old(observers)[j].passport == observer.passport) ==>
                observers == old(observers)
      ensures o.Pass? && (forall j :: 0 <= j < |old(observers)| ==> old(observers)[j].passport != observer.passport) ==>
                observers == old(observers) + [observer]
    {
      var found := FindObserver(observer.Id());
      if found.Err? {
        return Fail(found.error);
      }
      o := Pass;
      if found.value.None? {
        observers := observers + [observer];
      }
    }

    /** Detach: an observer without an identity throws, and so does one whose
        identity no attached observer has. Otherwise List.Remove drops the
        first occurrence of that very object, and nothing when only another
        object with the same identity is attached. */
    method Detach(observer: Client) returns (o: Outcome)
      requires Valid()
      modifies this`observers
      ensures Valid()
      ensures observer.passport.None? ==> o == Fail(NullArgument)
      ensures observer.passport.Some? ==>
                (o.Fail? <==> forall j :: 0 <= j < |old(observers)| ==> old(observers)[j].passport != observer.passport)
      ensures observer.passport.Some? && o.Fail? ==> o.error == ObserverNotFound
      ensures o.Fail? ==> observers == old(observers)
      ensures o.Pass? ==> observers == RemoveFirst(old(observers), observer)
    {
      var found := FindObserver(observer.Id());
      if found.Err? {
        return Fail(found.error);
      }
      if found.value.None? {
        return Fail(ObserverNotFound);
      }
      DropObserver(observer);
      o := Pass;
    }

    /** List.Remove on the observer list. */
    method DropObserver(observer: Client)
      requires Valid()
      modifies this`observers
      ensures Valid() && observers == RemoveFirst(old(observers), observer)
    {
      observers := RemoveFirst(observers, observer);
    }

    /** Attaching an observer whose identity is new and then detaching it
        gives the observer list back. */
    method AttachThenDetach(observer: Client) returns (o1: Outcome, o2: Outcome)
      requires Valid() && observer.passport.Some?
      requires forall j :: 0 <= j < |observers| ==> observers[j].passport != observer.passport
      modifies this`observers
      ensures Valid()
      ensures o1 == Pass && o2 == Pass && observers == old(observers)
    {
      ghost var before := observers;
      assert observer !in before;
      o1 := Attach(observer);
      assert observers == before + [observer];
      assert observers[|before|] == observer;
      o2 := Detach(observer);
      RemoveLastAdded(before, observer);
    }

    /** NotifyAll: HaveBeenNotified does nothing, so what the call does is
        the list of observers notified: every attached one, in order. */
    method NotifyAll() returns (notified: seq<Client>)
      ensures notified == observers
    {
      notified := [];
      var j := 0;
      while j < |observers|
        invariant 0 <= j <= |observers| && notified == observers[..j]
      {
        assert observers[..j + 1] == observers[..j] + [observers[j]];
        notified := notified + [observers[j]];
        j := j + 1;
      }
      assert observers[..j] == observers;
    }

    /** NotifySpecifiedObservers: group after group, every attached observer
        with the passport number of the group's client is notified, provided
        the group holds an account of the kind. The observers notified are
        returned in that order. */
    method NotifySpecifiedObservers(kind: AccountType) returns (notified: seq<Client>)
      ensures notified == Notified(groups, observers, kind)
    {
      notified := NotifyGroups(groups, observers, kind);
    }

    method NotifyObserversWithCreditAccounts() returns (notified: seq<Client>)
      ensures notified == Notified(groups, observers, CreditAccount)
    {
      notified := NotifySpecifiedObservers(CreditAccount);
    }

    method NotifyObserversWithDebitAccounts() returns (notified: seq<Client>)
      ensures notified == Notified(groups, observers, DebitAccount)
    {
      notified := NotifySpecifiedObservers(DebitAccount);
    }

    method NotifyObserversWithDepositAccounts() returns (notified: seq<Client>)
      ensures notified == Notified(groups, observers, DepositAccount)
    {
      notified := NotifySpecifiedObservers(DepositAccount);
    }

    /** ChangeCreditLimit: the policy's setter throws on a negative value
        before anyone is notified; otherwise the clients holding a credit
        account are notified. */
    method ChangeCreditLimit(newValue: real) returns (o: Outcome, notified: seq<Client>)
      requires Valid()
      modifies conditions`creditLimit
      ensures Valid()
      ensures o == Conditions.ValidationCheck(newValue)
      ensures conditions.creditLimit == if o.Pass? then newValue else old(conditions.creditLimit)
      ensures notified == if o.Pass? then Notified(groups, observers, CreditAccount) else []
    {
      notified := [];
      o := conditions.ChangeCreditLimit(newValue);
      if o.Fail? {
        return;
      }
      notified := NotifyObserversWithCreditAccounts();
    }

    method ChangeLoanComission(newValue: real) returns (o: Outcome, notified: seq<Client>)
      requires Valid()
      modifies conditions`loanCommission
      ensures Valid()
      ensures o == Conditions.ValidationCheck(newValue)
      ensures conditions.loanCommission == if o.Pass? then newValue else old(conditions.loanCommission)
      ensures notified == if o.Pass? then Notified(groups, observers, CreditAccount) else []
    {
      notified := [];
      o := conditions.ChangeLoanComission(newValue);
      if o.Fail? {
        return;
      }
      notified := NotifyObserversWithCreditAccounts();
    }

    method ChangeInterestOnDebitBalance(newValue: real) returns (o: Outcome, notified: seq<Client>)
      requires Valid()
      modifies conditions`interestOnDebitBalance
      ensures Valid()
      ensures o == Conditions.ValidationCheck(newValue)
      ensures conditions.interestOnDebitBalance == if o.Pass? then newValue else old(conditions.interestOnDebitBalance)
      ensures notified == if o.Pass? then Notified(groups, observers, DebitAccount) else []
    {
      notified := [];
      o := conditions.ChangeInterestOnDebitBalance(newValue);
      if o.Fail? {
        return;
      }
      notified := NotifyObserversWithDebitAccounts();
    }

    /** The new table is a dictionary, so its keys are distinct. */
    method ChangeInterestOnDepositBalance(newTable: RateTable) returns (o: Outcome, notified: seq<Client>)
      requires Valid() && KeysDistinct(newTable)
      modifies conditions`depositTable
      ensures Valid()
      ensures o == DictionaryValidation(newTable)
      ensures conditions.depositTable == if o.Pass? then newTable else old(conditions.depositTable)
      ensures notified == if o.Pass? then Notified(groups, observers, DepositAccount) else []
    {
      notified := [];
      o := conditions.ChangeInterestOnDepositBalance(newTable);
      if o.Fail? {
        return;
      }
      notified := NotifyObserversWithDepositAccounts();
    }
  }
}
