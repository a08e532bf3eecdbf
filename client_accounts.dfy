/** Entities/ClientAccounts.cs: one client's accounts at one bank, each with
    the accrual (interest or commission) waiting to be applied to it. The
    dictionary becomes two parallel sequences in enumeration order: the
    accounts and their pending values. */
module Holdings {
  import opened Common
  import opened Accounts
  import opened Clients

  /** No two accounts share an identifier. */
  predicate IdsDistinct(s: seq<Account>) {
    forall p, q :: 0 <= p < q < |s| ==> s[p].id != s[q].id
  }

  /** The position of the first account with the identifier (what
      FirstOrDefault(a => a.AccountId == id) finds). */
  function IndexOfId(s: seq<Account>, id: nat): (r: Option<nat>)
    ensures r.None? <==> forall k :: 0 <= k < |s| ==> s[k].id != id
    ensures r.Some? ==> r.value < |s| && s[r.value].id == id
    ensures r.Some? ==> forall k :: 0 <= k < r.value ==> s[k].id != id
  {
    if s == [] then None
    else if s[0].id == id then Some(0)
    else
      var rest := IndexOfId(s[1..], id);
      assert forall k :: 1 <= k < |s| ==> s[k] == s[1..][k - 1];
      if rest.Some? then Some(rest.value + 1) else None
  }

  /** With distinct identifiers, the position of an account is the position
      of its identifier. */
  lemma IndexOfHeld(s: seq<Account>, k: nat)
    requires IdsDistinct(s) && k < |s|
    ensures IndexOfId(s, s[k].id) == Some(k)
  {
  }

  /** The first position whose pending value the account's top-up check
      refuses, or |s| when every one passes. */
  function FirstRefusedTopUp(s: seq<Account>, pending: seq<real>): (n: nat)
    requires |pending| == |s|
    ensures n <= |s|
  {
    if s == [] then 0
    else if !ValidateMoney(s[0].variant, pending[0]) then 0
    else 1 + FirstRefusedTopUp(s[1..], pending[1..])
  }

  /** Every entry before the first refused one is accepted, and the refused
      one is refused. */
  lemma {:induction false} FirstRefusedTopUpMeaning(s: seq<Account>, pending: seq<real>)
    requires |pending| == |s|
    ensures forall k :: 0 <= k < FirstRefusedTopUp(s, pending) ==> ValidateMoney(s[k].variant, pending[k])
    ensures FirstRefusedTopUp(s, pending) < |s| ==> !ValidateMoney(s[FirstRefusedTopUp(s, pending)].variant, pending[FirstRefusedTopUp(s, pending)])
  {
    if s != [] && ValidateMoney(s[0].variant, pending[0]) {
      FirstRefusedTopUpMeaning(s[1..], pending[1..]);
      assert forall k :: 1 <= k < |s| ==> s[k] == s[1..][k - 1] && pending[k] == pending[1..][k - 1];
    }
  }

  class ClientAccounts {
    const client: Client
    /** AreAccountsVerified: computed once, at construction. */
    const verified: bool
    var accounts: seq<Account>
    var pending: seq<real>

    ghost predicate Valid()
      reads this`accounts, this`pending
    {
      |pending| == |accounts| && IdsDistinct(accounts)
    }

    /** The constructor takes the initial dictionary and the client, and
        fixes the verification flag from the client as it is now. A
        dictionary holds one value per key and no key twice. */
    constructor (accounts: seq<Account>, pending: seq<real>, client: Client)
      requires |pending| == |accounts| && IdsDistinct(accounts)
      ensures Valid()
      ensures this.accounts == accounts && this.pending == pending && this.client == client
      ensures verified == client.passport.None?
    {
      this.client := client;
      this.verified := client.passport.None?;
      this.accounts := accounts;
      this.pending := pending;
    }

    /** CheckVerification: "verified" means the client has NO passport number. */
    function CheckVerification(): (r: bool)
      reads client
      ensures r <==> client.Id().None?
    {
      client.passport == None
    }

    /** The held account with the identifier, if any. */
    function FindAccount(id: nat): (r: Option<Account>)
      reads this
      ensures r.Some? <==> exists k :: 0 <= k < |accounts| && accounts[k].id == id
      ensures r.Some? ==> r.value in accounts && r.value.id == id
    {
      var k := IndexOfId(accounts, id);
      if k.Some? then Some(accounts[k.value]) else None
    }

    /** An identifier already held is refused; otherwise the account is added
        with pending value 0 after the existing ones. */
    method OpenAccount(newAccount: Account) returns (o: Outcome)
      requires Valid()
      modifies this`accounts, this`pending
      ensures Valid()
      ensures o.Pass? <==> old(FindAccount(newAccount.id)).None?
      ensures o.Fail? ==> o.error == AccountAlreadyExists
      ensures o.Fail? ==> accounts == old(accounts) && pending == old(pending)
      ensures o.Pass? ==> accounts == old(accounts) + [newAccount] && pending == old(pending) + [0.0]
    {
      if FindAccount(newAccount.id).Some? {
        return Fail(AccountAlreadyExists);
      }
      accounts := accounts + [newAccount];
      pending := pending + [0.0];
      o := Pass;
    }

    /** An identifier not held is refused. Otherwise the dictionary's Remove
        runs with the account object as key: it removes that object's entry,
        and nothing when the caller's object only shares the identifier. */
    method CloseAccount(oldAccount: Account) returns (o: Outcome)
      requires Valid()
      modifies this`accounts, this`pending
      ensures Valid()
      ensures o.Fail? <==> old(FindAccount(oldAccount.id)).None?
      ensures o.Fail? ==> o.error == AccountNotFound
      ensures o.Fail? || oldAccount !in old(accounts) ==> accounts == old(accounts) && pending == old(pending)
      ensures o.Pass? && oldAccount in old(accounts) ==>
                var k := IndexOfId(old(accounts), oldAccount.id).value;
                accounts == old(accounts[..k] + accounts[k + 1..]) && pending == old(pending[..k] + pending[k + 1..])
    {
      var k := IndexOfId(accounts, oldAccount.id);
      if k.None? {
        return Fail(AccountNotFound);
      }
      o := Pass;
      if accounts[k.value] == oldAccount {
        ghost var before := accounts;
        accounts := accounts[..k.value] + accounts[k.value + 1..];
        pending := pending[..k.value] + pending[k.value + 1..];
        assert forall p :: 0 <= p < |accounts| ==> accounts[p] == (if p < k.value then before[p] else before[p + 1]);
      } else {
        assert oldAccount !in accounts by {
          if oldAccount in accounts {
            var p :| 0 <= p < |accounts| && accounts[p] == oldAccount;
            IndexOfHeld(accounts, p);
          }
        }
      }
    }

    /** An account not held (by identifier) is refused; otherwise only that
        account's pending value is overwritten. */
    method ChangeComissionOrLoan(account: Account, value: real) returns (o: Outcome)
      requires Valid()
      modifies this`pending
      ensures Valid()
      ensures o.Fail? <==> FindAccount(account.id).None?
      ensures o.Fail? ==> o.error == AccountNotFound && pending == old(pending)
      ensures o.Pass? ==> pending == old(pending)[IndexOfId(accounts, account.id).value := value]
    {
      var k := IndexOfId(accounts, account.id);
      if k.None? {
        return Fail(AccountNotFound);
      }
      pending := pending[k.value := value];
      o := Pass;
    }

    /** Every account is topped up by its pending value, in order. A pending
        value the account refuses (a negative one, or one below a credit
        threshold) stops the pass there: earlier accounts stay credited and
        later ones are untouched. The pending values are never reset. */
    method ChargeInterestAndDeductCommission() returns (o: Outcome)
      requires Valid()
      modifies accounts`cash
      ensures var n := FirstRefusedTopUp(accounts, pending);
              && (o.Pass? <==> n == |accounts|)
              && (o.Fail? ==> o.error == ValueNotValid)
              && forall k :: 0 <= k < |accounts| ==>
                   accounts[k].cash == old(accounts[k].cash) + (if k < n then pending[k] else 0.0)
    {
      ghost var n := FirstRefusedTopUp(accounts, pending);
      FirstRefusedTopUpMeaning(accounts, pending);
      var k := 0;
      while k < |accounts|
        invariant k <= n
        invariant forall j :: 0 <= j < k ==> accounts[j].cash == old(accounts[j].cash) + pending[j]
        invariant forall j :: k <= j < |accounts| ==> accounts[j].cash == old(accounts[j].cash)
      {
        o := accounts[k].TopUpAccount(pending[k]);
        if o.Fail? {
          return;
        }
        k := k + 1;
      }
      o := Pass;
    }
  }
}
