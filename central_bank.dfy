/** Services/CentralBank.cs: the registry of banks. It keeps the list of
    registered banks and the calendar, and drives the daily pass of every
    bank and, when the elapsed time calls for it, the monthly charge. Dates
    are whole days counted from an arbitrary origin. */
module Registry {
  import opened Common
  import opened Accounts
  import opened Conditions
  import opened Holdings
  import opened BankGroups
  import opened Banks

  /** DaysInMonth and OneMonth. */
  const DaysInMonth: nat := 30
  const OneMonth: nat := 1

  /** The monthly trigger: the elapsed days modulo a month reach one day. */
  predicate MonthlyChargeDue(elapsed: nat) {
    elapsed % DaysInMonth >= OneMonth
  }

  /** On whole days the trigger fires on every day count except the
      multiples of thirty: advancing to day 1 charges, advancing to day 30
      (a whole month) does not. */
  lemma MonthlyChargeRule(elapsed: nat)
    ensures MonthlyChargeDue(elapsed) <==> elapsed % 30 != 0
    ensures MonthlyChargeDue(elapsed + 1) || MonthlyChargeDue(elapsed + 2)
    ensures !MonthlyChargeDue(30 * elapsed)
  {
    assert (30 * elapsed) % 30 == 0;
  }

  /** The position of the first bank with the identifier. */
  function IndexOfBank(bs: seq<Bank>, id: nat): (r: Option<nat>)
    ensures r.None? <==> forall k :: 0 <= k < |bs| ==> bs[k].bankId != id
    ensures r.Some? ==> r.value < |bs| && bs[r.value].bankId == id
    ensures r.Some? ==> forall k :: 0 <= k < r.value ==> bs[k].bankId != id
  {
    if bs == [] then None
    else if bs[0].bankId == id then Some(0)
    else
      var rest := IndexOfBank(bs[1..], id);
      assert forall k :: 1 <= k < |bs| ==> bs[k] == bs[1..][k - 1];
      if rest.Some? then Some(rest.value + 1) else None
  }

  /** The client groups of every bank of the list. */
  ghost function GroupsOf(bs: seq<Bank>): set<ClientAccounts>
    reads (set b | b in bs)`groups
  {
    set i, p | 0 <= i < |bs| && 0 <= p < |bs[i].groups| :: bs[i].groups[p]
  }

  /** The accounts of every bank of the list. */
  ghost function AccountsIn(bs: seq<Bank>): set<Account>
    reads (set b | b in bs)`groups, GroupsOf(bs)`accounts
  {
    set i, p, k | 0 <= i < |bs| && 0 <= p < |bs[i].groups| && 0 <= k < |bs[i].groups[p].accounts|
      :: bs[i].groups[p].accounts[k]
  }

  /** What the registry keeps of its list: the identifiers are distinct,
      every bank is consistent, and no client group belongs to two banks
      (each bank creates its own groups as it opens accounts). */
  ghost predicate Registered(bs: seq<Bank>)
    reads (set b | b in bs)`groups, (set b | b in bs)`owner, GroupsOf(bs), (set b | b in bs :: b.conditions)
  {
    && (forall i, j :: 0 <= i < j < |bs| ==> bs[i].bankId != bs[j].bankId)
    && (forall i :: 0 <= i < |bs| ==> bs[i].Valid())
    && (forall i, j, p :: 0 <= i < |bs| && 0 <= j < |bs| && i != j && 0 <= p < |bs[i].groups| ==>
          bs[i].groups[p] !in bs[j].groups)
  }

  /** Every bank of the list draws from the generator `g`, which handed out
      its identifier and those of the accounts it took in (Bank.Drawn), and
      no identifier was taken in by two banks: each was drawn once. */
  ghost predicate Minted(bs: seq<Bank>, g: GuidSource)
    reads (set b | b in bs)`groups, (set b | b in bs)`accountIds, GroupsOf(bs)`accounts, g
  {
    && g.Valid()
    && (forall k :: 0 <= k < |bs| ==>
          && bs[k].guids == g
          && assert forall p | p in bs[k].groups :: p in GroupsOf(bs);
             bs[k].Drawn())
    && (forall i, j :: 0 <= i < |bs| && 0 <= j < |bs| && i != j ==> bs[i].accountIds !! bs[j].accountIds)
  }

  /** Minted depends only on the generator and the identifiers the banks
      took in. */
  twostate lemma MintedKept(bs: seq<Bank>, new g: GuidSource)
    requires old(allocated(g)) && old(Minted(bs, g)) && unchanged(g)
    requires unchanged((set b | b in bs)`groups, (set b | b in bs)`accountIds, old(GroupsOf(bs))`accounts)
    ensures Minted(bs, g)
  {
  }

  /** Opening an account at one bank of the list, under an identifier the
      generator has just handed out (Bank.NewId), keeps the identifiers
      apart: no other bank took that identifier in. */
  twostate lemma OpeningKeepsMinted(bs: seq<Bank>, new g: GuidSource, k: nat, id: nat)
    requires old(allocated(g)) && old(Minted(bs, g)) && k < |bs|
    requires g.Valid() && id !in old(g.drawn) && g.drawn == old(g.drawn) + {id}
    requires bs[k].Drawn() && bs[k].accountIds == old(bs[k].accountIds) + {id}
    requires forall j :: 0 <= j < |bs| && j != k ==> bs[j].accountIds == old(bs[j].accountIds) && bs[j].groups == old(bs[j].groups)
    requires forall j, p :: 0 <= j < |bs| && j != k && 0 <= p < |bs[j].groups| ==>
               bs[j].groups[p].accounts == old(bs[j].groups[p].accounts)
    ensures Minted(bs, g)
  {
  }

  /** An account one registered bank holds is unknown to every other: its
      IsAccountExists throws, so a replenishment, a withdrawal or the second
      leg of a transfer aimed there at a foreign account fails. */
  lemma ForeignAccountNotFound(bs: seq<Bank>, g: GuidSource, i: nat, j: nat, a: Account)
    requires Minted(bs, g) && i < |bs| && j < |bs| && i != j && bs[j].Holds(a.id)
    ensures !bs[i].Holds(a.id) && bs[i].IsAccountExists(a) == Fail(AccountNotFound)
  {
  }

  /** Dropping one bank keeps what the registry keeps of its list. */
  lemma {:induction false} RegisteredWithout(bs: seq<Bank>, k: nat)
    requires k < |bs| && Registered(bs)
    ensures Registered(bs[..k] + bs[k + 1..])
  {
    var rest := bs[..k] + bs[k + 1..];
    assert forall i :: 0 <= i < |rest| ==> rest[i] == if i < k then bs[i] else bs[i + 1];
  }

  /** Dropping one bank keeps the identifiers apart. */
  lemma {:induction false} MintedWithout(bs: seq<Bank>, g: GuidSource, k: nat)
    requires k < |bs| && Minted(bs, g)
    ensures Minted(bs[..k] + bs[k + 1..], g)
  {
    var rest := bs[..k] + bs[k + 1..];
    assert forall i :: 0 <= i < |rest| ==> rest[i] == if i < k then bs[i] else bs[i + 1];
    forall i | 0 <= i < |rest|
      ensures rest[i].guids == g && rest[i].Drawn()
    {
      assert rest[i] == bs[if i < k then i else i + 1];
    }
  }

  /** List.Remove keeps what the registry keeps of its list, and the
      identifiers apart, whether or not it finds the object. */
  lemma RemovedKept(bs: seq<Bank>, g: GuidSource, x: Bank)
    requires Registered(bs) && Minted(bs, g)
    ensures Registered(RemoveFirst(bs, x)) && Minted(RemoveFirst(bs, x), g)
  {
    var k := FirstIndex(bs, x);
    if k.Some? {
      RegisteredWithout(bs, k.value);
      MintedWithout(bs, g, k.value);
    }
  }

  /** Appending a bank that draws from the same generator and took in none
      of the identifiers the others took in keeps the identifiers apart. */
  lemma {:induction false} MintedWith(bs: seq<Bank>, g: GuidSource, b: Bank)
    requires Minted(bs, g) && b.guids == g && b.Drawn()
    requires forall j :: 0 <= j < |bs| ==> b.accountIds !! bs[j].accountIds
    ensures Minted(bs + [b], g)
  {
    var more := bs + [b];
    assert forall i :: 0 <= i < |more| ==> more[i] == if i < |bs| then bs[i] else b;
    forall i | 0 <= i < |more|
      ensures more[i].guids == g && more[i].Drawn()
    {
      assert more[i] == if i < |bs| then bs[i] else b;
    }
  }

  /** Handing out more identifiers keeps the identifiers apart: what each
      bank took in was drawn before and stays drawn. */
  twostate lemma MintedGrown(bs: seq<Bank>, new g: GuidSource)
    requires old(allocated(g)) && old(Minted(bs, g)) && g.Valid() && old(g.drawn) <= g.drawn
    requires forall k :: 0 <= k < |bs| ==> bs[k].accountIds == old(bs[k].accountIds) && bs[k].groups == old(bs[k].groups)
    requires forall k, p :: 0 <= k < |bs| && 0 <= p < |bs[k].groups| ==> bs[k].groups[p].accounts == old(bs[k].groups[p].accounts)
    ensures Minted(bs, g)
  {
  }

  /** Appending a consistent bank with a new identifier and groups of its
      own keeps what the registry keeps of its list. */
  lemma {:induction false} RegisteredWith(bs: seq<Bank>, b: Bank)
    requires Registered(bs) && b.Valid()
    requires forall j :: 0 <= j < |bs| ==> bs[j].bankId != b.bankId
    requires forall j, p :: 0 <= j < |bs| && 0 <= p < |b.groups| ==> b.groups[p] !in bs[j].groups
    requires forall j, p :: 0 <= j < |bs| && 0 <= p < |bs[j].groups| ==> bs[j].groups[p] !in b.groups
    ensures Registered(bs + [b])
  {
    var more := bs + [b];
    assert forall i :: 0 <= i < |more| ==> more[i] == if i < |bs| then bs[i] else b;
  }

  /** The daily pass of every group of the bank finds its rates: none of its
      deposit balances is at or above every tier of its policy. */
  ghost predicate Accrues(b: Bank)
    reads b`groups, b.conditions, (set g | g in b.groups)`accounts, AccountsOf(b.groups)`cash
  {
    FirstFailingGroup(b.conditions.Snapshot(), b.groups) == |b.groups|
  }

  /** Every bank of the list passes its daily accrual. */
  ghost predicate AllAccrue(bs: seq<Bank>)
    reads (set b | b in bs)`groups, (set b | b in bs :: b.conditions), GroupsOf(bs)`accounts, AccountsIn(bs)`cash
  {
    forall i :: 0 <= i < |bs| ==>
      assert forall g | g in bs[i].groups :: g in GroupsOf(bs);
      assert AccountsOf(bs[i].groups) <= AccountsIn(bs);
      Accrues(bs[i])
  }

  /** The monthly charge of every group of the bank goes through: no pending
      value is refused by its account. */
  ghost predicate Charges(b: Bank)
    reads b`groups, (set g | g in b.groups)`accounts, (set g | g in b.groups)`pending
  {
    && (forall p :: 0 <= p < |b.groups| ==> |b.groups[p].pending| == |b.groups[p].accounts|)
    && FirstFailingCharge(b.groups) == |b.groups|
  }

  /** Every bank of the list passes its monthly charge. */
  ghost predicate AllCharge(bs: seq<Bank>)
    reads (set b | b in bs)`groups, GroupsOf(bs)`accounts, GroupsOf(bs)`pending
  {
    forall i :: 0 <= i < |bs| ==>
      assert forall g | g in bs[i].groups :: g in GroupsOf(bs);
      Charges(bs[i])
  }

  /** Only the bank at position k changed, and of its groups at most the
      pending values: every other bank keeps its consistency. */
  twostate lemma OthersStayValid(bs: seq<Bank>, new k: nat)
    requires k < |bs| && old(Registered(bs)) && bs[k].Valid()
    requires forall i :: 0 <= i < |bs| ==>
               bs[i].groups == old(bs[i].groups) && bs[i].owner == old(bs[i].owner) && bs[i].accountIds == old(bs[i].accountIds)
    requires forall i :: 0 <= i < |bs| && i != k ==> unchanged(bs[i].groups) && unchanged(bs[i].conditions)
    ensures Registered(bs)
  {
    forall i | 0 <= i < |bs| && i != k
      ensures bs[i].Valid()
    {
      assert old(bs[i].Valid());
    }
  }

  /** The accrual condition reads only the groups, their accounts, the
      balances and the policy, none of which the daily pass changes. */
  twostate lemma AccrualConditionKept(bs: seq<Bank>, new afp: set<Account>)
    requires forall i :: 0 <= i < |bs| ==> old(AccountsOf(bs[i].groups)) <= afp
    requires forall i :: 0 <= i < |bs| ==> bs[i].groups == old(bs[i].groups) && unchanged(bs[i].conditions)
    requires forall i, p :: 0 <= i < |bs| && 0 <= p < |bs[i].groups| ==> bs[i].groups[p].accounts == old(bs[i].groups[p].accounts)
    requires forall a | a in afp && old(allocated(a)) :: a.cash == old(a.cash)
    ensures forall i :: 0 <= i < |bs| ==> Accrues(bs[i]) == old(Accrues(bs[i]))
  {
  }

  /** Bank.UpdateAllOnOneDay, with only what the registry needs of its
      contract. */
  method DayOfBank(b: Bank) returns (o: Outcome)
    requires b.Valid()
    modifies b`currentTime, AccountsOf(b.groups)`currentTime, (set g | g in b.groups)`pending
    ensures b.Valid() && b.groups == old(b.groups)
    ensures o.Pass? <==> Accrues(b)
    ensures o.Fail? ==> o.error == NoMatchingElement
    ensures b.currentTime == old(b.currentTime) + 1
  {
    o := b.UpdateAllOnOneDay();
  }

  /** One bank's UpdateAllOnOneDay, seen from the registry: the accrual
      condition of every bank is what it was. */
  method DayAtBank(bs: seq<Bank>, k: nat, ghost afp: set<Account>) returns (o: Outcome)
    requires k < |bs| && bs[k].Valid()
    requires forall i :: 0 <= i < |bs| ==> AccountsOf(bs[i].groups) <= afp
    modifies {bs[k]}`currentTime, AccountsOf(bs[k].groups)`currentTime, (set g: ClientAccounts | g in bs[k].groups)`pending
    ensures bs[k].Valid() && bs[k].groups == old(bs[k].groups)
    ensures o.Pass? <==> Accrues(bs[k])
    ensures o.Fail? ==> o.error == NoMatchingElement
    ensures bs[k].currentTime == old(bs[k].currentTime) + 1
    ensures forall i :: 0 <= i < |bs| ==> Accrues(bs[i]) == old(Accrues(bs[i]))
  {
    label L:
    o := DayOfBank(bs[k]);
    AccrualConditionKept@L(bs, afp);
  }

  /** One bank's UpdateAllOnOneDay, seen from the registry. */
  method DayForBank(bs: seq<Bank>, k: nat, ghost gfp: set<ClientAccounts>, ghost afp: set<Account>) returns (o: Outcome)
    requires k < |bs| && Registered(bs)
    requires forall p :: 0 <= p < |bs[k].groups| ==> bs[k].groups[p] in gfp
    requires forall i, p, j :: 0 <= i < |bs| && 0 <= p < |bs[i].groups| && 0 <= j < |bs[i].groups[p].accounts| ==>
               bs[i].groups[p].accounts[j] in afp
    modifies {bs[k]}`currentTime, afp`currentTime, gfp`pending
    ensures Registered(bs)
    ensures o.Pass? <==> Accrues(bs[k])
    ensures o.Fail? ==> o.error == NoMatchingElement
    ensures bs[k].currentTime == old(bs[k].currentTime) + 1
    ensures forall i :: 0 <= i < |bs| && i != k ==> bs[i].currentTime == old(bs[i].currentTime)
    ensures forall i :: 0 <= i < |bs| ==> Accrues(bs[i]) == old(Accrues(bs[i]))
  {
    assert forall i :: 0 <= i < |bs| && i != k ==> bs[i] != bs[k];
    assert forall i :: 0 <= i < |bs| ==> AccountsOf(bs[i].groups) <= afp;
    label L:
    o := DayLeavingOthers(bs, k, afp);
    OthersStayValid@L(bs, k);
  }

  /** One bank's UpdateAllOnOneDay touches nothing of the other banks. */
  method DayLeavingOthers(bs: seq<Bank>, k: nat, ghost afp: set<Account>) returns (o: Outcome)
    requires k < |bs| && bs[k].Valid()
    requires forall i :: 0 <= i < |bs| ==> AccountsOf(bs[i].groups) <= afp
    requires forall i :: 0 <= i < |bs| && i != k ==> bs[i] != bs[k]
    requires forall i, p :: 0 <= i < |bs| && i != k && 0 <= p < |bs[i].groups| ==> bs[i].groups[p] !in bs[k].groups
    modifies {bs[k]}`currentTime, AccountsOf(bs[k].groups)`currentTime, (set g: ClientAccounts | g in bs[k].groups)`pending
    ensures bs[k].Valid() && bs[k].groups == old(bs[k].groups)
    ensures o.Pass? <==> Accrues(bs[k])
    ensures o.Fail? ==> o.error == NoMatchingElement
    ensures bs[k].currentTime == old(bs[k].currentTime) + 1
    ensures forall i :: 0 <= i < |bs| ==> Accrues(bs[i]) == old(Accrues(bs[i]))
    ensures forall i :: 0 <= i < |bs| ==>
              bs[i].groups == old(bs[i].groups) && bs[i].owner == old(bs[i].owner) && bs[i].accountIds == old(bs[i].accountIds)
    ensures forall i :: 0 <= i < |bs| && i != k ==> bs[i].currentTime == old(bs[i].currentTime)
    ensures forall i :: 0 <= i < |bs| && i != k ==> unchanged(bs[i].groups) && unchanged(bs[i].conditions)
  {
    o := DayAtBank(bs, k, afp);
  }

  method DailyPass(bs: seq<Bank>, ghost gfp: set<ClientAccounts>, ghost afp: set<Account>) returns (o: Outcome)
    requires Registered(bs)
    requires forall i, p :: 0 <= i < |bs| && 0 <= p < |bs[i].groups| ==> bs[i].groups[p] in gfp
    requires forall i, p, j :: 0 <= i < |bs| && 0 <= p < |bs[i].groups| && 0 <= j < |bs[i].groups[p].accounts| ==>
               bs[i].groups[p].accounts[j] in afp
    modifies (set b | b in bs)`currentTime, afp`currentTime, gfp`pending
    ensures Registered(bs)
    ensures o.Pass? <==> old(AllAccrue(bs))
    ensures AllAccrue(bs) == old(AllAccrue(bs))
    ensures o.Fail? ==> o.error == NoMatchingElement
    ensures o.Pass? ==> forall i :: 0 <= i < |bs| ==> bs[i].currentTime == old(bs[i].currentTime) + 1
  {
    var k := 0;
    while k < |bs|
      invariant 0 <= k <= |bs| && Registered(bs)
      invariant forall i :: 0 <= i < |bs| ==> Accrues(bs[i]) == old(Accrues(bs[i]))
      invariant forall i :: 0 <= i < k ==> Accrues(bs[i])
      invariant forall i :: 0 <= i < |bs| ==> bs[i].currentTime == old(bs[i].currentTime) + (if i < k then 1 else 0)
    {
      o := DayForBank(bs, k, gfp, afp);
      if o.Fail? {
        return;
      }
      k := k + 1;
    }
    o := Pass;
  }

  /** The counting loop of UpdateDate: the daily pass of every bank, once
      per day, the first exception ending it. The accrual condition does not
      change from day to day, so the loop either completes or throws on its
      first day. */
  method DaysPass(bs: seq<Bank>, days: nat, ghost gfp: set<ClientAccounts>, ghost afp: set<Account>) returns (o: Outcome)
    requires Registered(bs)
    requires forall i, p :: 0 <= i < |bs| && 0 <= p < |bs[i].groups| ==> bs[i].groups[p] in gfp
    requires forall i, p, j :: 0 <= i < |bs| && 0 <= p < |bs[i].groups| && 0 <= j < |bs[i].groups[p].accounts| ==>
               bs[i].groups[p].accounts[j] in afp
    modifies (set b | b in bs)`currentTime, afp`currentTime, gfp`pending
    ensures Registered(bs)
    ensures o.Pass? <==> days == 0 || old(AllAccrue(bs))
    ensures o.Fail? ==> o.error == NoMatchingElement
    ensures o.Pass? ==> forall i :: 0 <= i < |bs| ==> bs[i].currentTime == old(bs[i].currentTime) + days
  {
    o := Pass;
    var d := 0;
    while d < days
      invariant 0 <= d <= days && Registered(bs) && o == Pass
      invariant AllAccrue(bs) == old(AllAccrue(bs))
      invariant d > 0 ==> AllAccrue(bs)
      invariant forall i :: 0 <= i < |bs| ==> bs[i].currentTime == old(bs[i].currentTime) + d
    {
      o := DailyPass(bs, gfp, afp);
      if o.Fail? {
        return;
      }
      d := d + 1;
    }
  }

  /** Bank.ChargeInterestAndDeductCommission, with only what the registry
      needs of its contract. */
  method ChargeOfBank(b: Bank) returns (o: Outcome)
    requires b.Valid()
    modifies AccountsOf(b.groups)`cash
    ensures b.Valid()
    ensures o.Pass? <==> Charges(b)
    ensures o.Fail? ==> o.error == ValueNotValid
  {
    o := b.ChargeInterestAndDeductCommission();
  }

  /** Only balances changed: the list stays well kept, and the charge
      condition, which reads no balance, is what it was. */
  twostate lemma CashChangesKept(bs: seq<Bank>)
    requires old(Registered(bs))
    requires forall i :: 0 <= i < |bs| ==> unchanged(bs[i], bs[i].conditions) && unchanged(bs[i].groups)
    ensures Registered(bs)
    ensures forall i :: 0 <= i < |bs| ==> Charges(bs[i]) == old(Charges(bs[i]))
  {
    forall i | 0 <= i < |bs|
      ensures bs[i].Valid()
    {
      assert old(bs[i].Valid());
    }
  }

  /** One bank's ChargeInterestAndDeductCommission, seen from the registry. */
  method ChargeForBank(bs: seq<Bank>, k: nat, ghost afp: set<Account>) returns (o: Outcome)
    requires k < |bs| && Registered(bs)
    requires forall p, j :: 0 <= p < |bs[k].groups| && 0 <= j < |bs[k].groups[p].accounts| ==> bs[k].groups[p].accounts[j] in afp
    modifies afp`cash
    ensures Registered(bs)
    ensures o.Pass? <==> Charges(bs[k])
    ensures o.Fail? ==> o.error == ValueNotValid
    ensures forall i :: 0 <= i < |bs| ==> Charges(bs[i]) == old(Charges(bs[i]))
  {
    assert AccountsOf(bs[k].groups) <= afp;
    label L:
    o := ChargeOfBank(bs[k]);
    CashChangesKept@L(bs);
  }

  /** _banksList.ForEach(b => b.ChargeInterestAndDeductCommission()): the
      banks in list order, the first refused top-up ending the pass. The
      charge reads the pending values, which it does not change, so every
      bank passes exactly when every bank's pending values are accepted. */
  method MonthlyCharge(bs: seq<Bank>, ghost afp: set<Account>) returns (o: Outcome)
    requires Registered(bs)
    requires forall i, p, j :: 0 <= i < |bs| && 0 <= p < |bs[i].groups| && 0 <= j < |bs[i].groups[p].accounts| ==>
               bs[i].groups[p].accounts[j] in afp
    modifies afp`cash
    ensures Registered(bs)
    ensures o.Pass? <==> AllCharge(bs)
    ensures o.Fail? ==> o.error == ValueNotValid
  {
    var k := 0;
    while k < |bs|
      invariant 0 <= k <= |bs| && Registered(bs)
      invariant forall i :: 0 <= i < |bs| ==> Charges(bs[i]) == old(Charges(bs[i]))
      invariant forall i :: 0 <= i < k ==> Charges(bs[i])
    {
      o := ChargeForBank(bs, k, afp);
      if o.Fail? {
        return;
      }
      k := k + 1;
    }
    o := Pass;
  }

  /** The days' passes leave every balance as it was. */
  method DaysPassKeepingCash(bs: seq<Bank>, days: nat, ghost gfp: set<ClientAccounts>, ghost afp: set<Account>,
                             ghost g: GuidSource)
    returns (o: Outcome)
    requires Registered(bs) && Minted(bs, g)
    requires forall i, p :: 0 <= i < |bs| && 0 <= p < |bs[i].groups| ==> bs[i].groups[p] in gfp
    requires forall i, p, j :: 0 <= i < |bs| && 0 <= p < |bs[i].groups| && 0 <= j < |bs[i].groups[p].accounts| ==>
               bs[i].groups[p].accounts[j] in afp
    modifies (set b | b in bs)`currentTime, afp`currentTime, gfp`pending
    ensures Registered(bs) && Minted(bs, g)
    ensures o.Pass? <==> days == 0 || old(AllAccrue(bs))
    ensures o.Fail? ==> o.error == NoMatchingElement
    ensures o.Pass? ==> forall i :: 0 <= i < |bs| ==> BankClocks(bs)[i] == old(BankClocks(bs))[i] + days
    ensures CashOf(afp) == old(CashOf(afp))
  {
    label Start:
    o := DaysPass(bs, days, gfp, afp);
    MintedKept@Start(bs, g);
  }

  /** The monthly charge of every bank when `due`; nothing otherwise. The
      clocks stay where they are. */
  method ChargeIfDue(bs: seq<Bank>, due: bool, ghost afp: set<Account>, ghost g: GuidSource) returns (o: Outcome)
    requires Registered(bs) && Minted(bs, g)
    requires forall i, p, j :: 0 <= i < |bs| && 0 <= p < |bs[i].groups| && 0 <= j < |bs[i].groups[p].accounts| ==>
               bs[i].groups[p].accounts[j] in afp
    modifies afp`cash
    ensures Registered(bs) && Minted(bs, g) && BankClocks(bs) == old(BankClocks(bs))
    ensures !due ==> o == Pass && CashOf(afp) == old(CashOf(afp))
    ensures due ==> (o.Pass? <==> AllCharge(bs)) && (o.Fail? ==> o.error == ValueNotValid)
  {
    o := Pass;
    if due {
      label Start:
      o := MonthlyCharge(bs, afp);
      MintedKept@Start(bs, g);
    }
  }

  /** Every bank's clock, in registration order. */
  ghost function BankClocks(bs: seq<Bank>): (r: seq<int>)
    reads (set b | b in bs)`currentTime
    ensures |r| == |bs| && forall i :: 0 <= i < |bs| ==> r[i] == bs[i].currentTime
  {
    if bs == [] then []
    else
      assert forall b | b in bs[1..] :: b in bs;
      [bs[0].currentTime] + BankClocks(bs[1..])
  }

  /** The balance of every account of the set. */
  ghost function CashOf(s: set<Account>): (r: map<Account, real>)
    reads s`cash
    ensures r.Keys == s && forall a | a in s :: r[a] == a.cash
  {
    map a | a in s :: a.cash
  }

  /** The snapshots a registry pass is stated on read only the banks'
      clocks and groups, the groups' accounts and pending values, and the
      balances: when none of those changes, none of the snapshots does. */
  twostate lemma SnapshotsKept(bs: seq<Bank>, new afp: set<Account>)
    requires old(allocated(afp)) && unchanged(set b | b in bs) && unchanged(old(GroupsOf(bs))) && unchanged(afp)
    ensures AllCharge(bs) == old(AllCharge(bs))
    ensures BankClocks(bs) == old(BankClocks(bs))
    ensures CashOf(afp) == old(CashOf(afp))
  {
  }

  /** What a registry pass of `days` days does, stated on snapshots: the
      clocks and balances before and after it, whether every bank's daily
      pass succeeds before it (`accrued`), whether every bank's monthly
      charge goes through after it (`charged`), and whether the monthly
      trigger fires (`due`). When a daily pass fails the pass stops with
      NoMatchingElement; otherwise every clock has moved by `days`, and the
      monthly charge has run when due. Balances change only through that
      charge. */
  ghost predicate Advanced(days: nat, due: bool, o: Outcome, accrued: bool, charged: bool,
                           clocks: seq<int>, clocksAfter: seq<int>,
                           cash: map<Account, real>, cashAfter: map<Account, real>)
  {
    && (days > 0 && !accrued ==> o == Fail(NoMatchingElement))
    && (days == 0 || accrued ==>
          && |clocksAfter| == |clocks|
          && (forall i :: 0 <= i < |clocks| ==> clocksAfter[i] == clocks[i] + days)
          && (!due ==> o == Pass)
          && (due ==> (o.Pass? <==> charged) && (o.Fail? ==> o.error == ValueNotValid)))
    && ((days > 0 && !accrued) || !due ==> cashAfter == cash)
  }

  /** The days' passes, then the monthly charge when it is due. */
  method AdvanceAll(bs: seq<Bank>, days: nat, due: bool, ghost gfp: set<ClientAccounts>, ghost afp: set<Account>,
                    ghost g: GuidSource)
    returns (o: Outcome)
    requires Registered(bs) && Minted(bs, g)
    requires forall i, p :: 0 <= i < |bs| && 0 <= p < |bs[i].groups| ==> bs[i].groups[p] in gfp
    requires forall i, p, j :: 0 <= i < |bs| && 0 <= p < |bs[i].groups| && 0 <= j < |bs[i].groups[p].accounts| ==>
               bs[i].groups[p].accounts[j] in afp
    modifies (set b | b in bs)`currentTime, afp`currentTime, gfp`pending, afp`cash
    ensures Registered(bs) && Minted(bs, g)
    ensures Advanced(days, due, o, old(AllAccrue(bs)), AllCharge(bs),
                     old(BankClocks(bs)), BankClocks(bs), old(CashOf(afp)), CashOf(afp))
  {
    o := DaysPassKeepingCash(bs, days, gfp, afp, g);
    if o.Fail? {
      return;
    }
    o := ChargeIfDue(bs, due, afp, g);
  }

  /** `new Bank(conditions)` for a registry holding `bs`: the new bank can
      be appended to the list, since its identifier is new and it holds
      nothing yet. */
  method NewListedBank(bs: seq<Bank>, conditions: BankConditions, g: GuidSource) returns (b: Bank)
    requires Registered(bs) && Minted(bs, g) && conditions.Valid()
    modifies g
    ensures fresh(b) && Registered(bs + [b]) && Minted(bs + [b], g)
    ensures b.conditions == conditions && b.guids == g
    ensures b.bankId !in old(g.drawn) && g.drawn == old(g.drawn) + {b.bankId}
    ensures forall k :: 0 <= k < |bs| ==> bs[k].bankId != b.bankId
    ensures b.groups == [] && b.observers == [] && b.transactions == [] && b.currentTime == 0
  {
    label Before:
    b := new Bank(conditions, g);
    assert Registered(bs);
    RegisteredWith(bs, b);
    MintedGrown@Before(bs, g);
    MintedWith(bs, g, b);
  }

  class CentralBank {
    const startDate: int
    var currentDate: int
    var banks: seq<Bank>
    /** The process-wide generator behind Guid.NewGuid. */
    const guids: GuidSource

    /** The protected constructor reads DateTime.Now twice, once per date. The
        model takes a single reading for both: the ticks between the two never
        change a whole-day count, and so never change the monthly trigger. */
    constructor (now: int, guids: GuidSource)
      requires guids.Valid()
      ensures Valid()
      ensures startDate == now && currentDate == now && banks == [] && this.guids == guids
    {
      startDate := now;
      currentDate := now;
      banks := [];
      this.guids := guids;
    }

    /** The calendar never runs backwards and the list is well kept. */
    ghost predicate Valid()
      reads this`banks, this`currentDate, (set b | b in banks)`groups, (set b | b in banks)`owner
      reads (set b | b in banks)`accountIds, GroupsOf(banks), (set b | b in banks :: b.conditions), guids
    {
      startDate <= currentDate && Listed()
    }

    /** The list is well kept, and every bank draws its identifiers from the
        one generator. */
    ghost predicate Listed()
      reads this`banks, (set b | b in banks)`groups, (set b | b in banks)`owner
      reads (set b | b in banks)`accountIds, GroupsOf(banks), (set b | b in banks :: b.conditions), guids
    {
      Registered(banks) && Minted(banks, guids)
    }

    /** FindBankById: the first registered bank with the identifier. */
    function FindBankById(bankId: nat): (r: Option<Bank>)
      reads this
      ensures r.Some? <==> exists k :: 0 <= k < |banks| && banks[k].bankId == bankId
      ensures r.Some? ==> r.value in banks && r.value.bankId == bankId
    {
      var k := IndexOfBank(banks, bankId);
      if k.Some? then Some(banks[k.value]) else None
    }

    /** GetBankById: as FindBankById, but an absent bank throws (First). */
    function GetBankById(bankId: nat): (r: Result<Bank>)
      reads this
      ensures r.Err? <==> forall k :: 0 <= k < |banks| ==> banks[k].bankId != bankId
      ensures r.Err? ==> r.error == NoMatchingElement
      ensures r.Ok? ==> r.value in banks && r.value.bankId == bankId
    {
      match FindBankById(bankId)
      case None => Err(NoMatchingElement)
      case Some(b) => Ok(b)
    }

    /** The two lookups agree wherever the bank exists. */
    lemma LookupsAgree(bankId: nat)
      ensures GetBankById(bankId).Ok? <==> FindBankById(bankId).Some?
      ensures GetBankById(bankId).Ok? ==> GetBankById(bankId).value == FindBankById(bankId).value
    {
    }

    /** With distinct identifiers, a registered bank is found by its own
        identifier. */
    lemma FindRegistered(k: nat)
      requires Valid() && k < |banks|
      ensures FindBankById(banks[k].bankId) == Some(banks[k])
    {
    }

    /** RegisterNewBank(Bank): a bank whose identifier is registered is
        refused; any other is appended. The bank draws from the same
        generator, and its groups and accounts are its own: none is a group
        of another registered bank, and no identifier it holds is held by
        one. */
    method RegisterNewBank(newBank: Bank) returns (o: Outcome)
      requires Valid() && newBank.Valid() && newBank.Drawn() && newBank.guids == guids
      requires forall j, p :: 0 <= j < |banks| && banks[j].bankId != newBank.bankId && 0 <= p < |newBank.groups| ==>
                 newBank.groups[p] !in banks[j].groups
      requires forall j :: 0 <= j < |banks| && banks[j].bankId != newBank.bankId ==> newBank.accountIds !! banks[j].accountIds
      modifies this`banks
      ensures Valid()
      ensures o.Fail? <==> old(FindBankById(newBank.bankId)).Some?
      ensures o.Fail? ==> o.error == BankAlreadyExists && banks == old(banks)
      ensures o.Pass? ==> banks == old(banks) + [newBank]
    {
      if FindBankById(newBank.bankId).Some? {
        return Fail(BankAlreadyExists);
      }
      MintedWith(banks, guids, newBank);
      banks := banks + [newBank];
      o := Pass;
    }

    /** RegisterNewBank(BankConditions): a new bank with the given policy,
        whose identifier the generator hands out, is appended and returned.
        Its identifier is new: no bank registered now or disbanded before
        carries it. */
    method RegisterNewBankWithConditions(conditions: BankConditions) returns (b: Bank)
      requires Valid() && conditions.Valid()
      modifies this`banks, guids
      ensures Valid()
      ensures fresh(b) && banks == old(banks) + [b]
      ensures b.conditions == conditions && b.guids == guids
      ensures b.bankId !in old(guids.drawn) && guids.drawn == old(guids.drawn) + {b.bankId}
      ensures forall k :: 0 <= k < |old(banks)| ==> old(banks)[k].bankId != b.bankId
      ensures b.groups == [] && b.observers == [] && b.transactions == [] && b.currentTime == 0
    {
      b := NewListedBank(banks, conditions, guids);
      banks := banks + [b];
    }

    /** DisbandBank: a bank whose identifier is not registered is refused;
        otherwise List.Remove drops that very object, and nothing when only
        another object with the same identifier is registered. */
    method DisbandBank(bank: Bank) returns (o: Outcome)
      requires Valid()
      modifies this`banks
      ensures Valid()
      ensures o.Fail? <==> old(FindBankById(bank.bankId)).None?
      ensures o.Fail? ==> o.error == BankNotFound && banks == old(banks)
      ensures o.Pass? ==> banks == RemoveFirst(old(banks), bank)
    {
      if FindBankById(bank.bankId).None? {
        return Fail(BankNotFound);
      }
      RemovedKept(banks, guids, bank);
      banks := RemoveFirst(banks, bank);
      o := Pass;
    }

    /** Registering a bank and then disbanding it gives the list back. */
    method RegisterThenDisband(newBank: Bank) returns (o1: Outcome, o2: Outcome)
      requires Valid() && newBank.Valid() && newBank.Drawn() && newBank.guids == guids && FindBankById(newBank.bankId).None?
      requires forall j, p :: 0 <= j < |banks| && 0 <= p < |newBank.groups| ==> newBank.groups[p] !in banks[j].groups
      requires forall j :: 0 <= j < |banks| ==> newBank.accountIds !! banks[j].accountIds
      modifies this`banks
      ensures Valid()
      ensures o1 == Pass && o2 == Pass && banks == old(banks)
    {
      ghost var before := banks;
      assert newBank !in before;
      o1 := RegisterNewBank(newBank);
      assert banks[|before|] == newBank;
      o2 := DisbandBank(newBank);
      RemoveLastAdded(before, newBank);
    }

    /** The passes of UpdateDate over the registered banks: the days' daily
        passes, then the monthly charge when `due`. */
    method PassBanks(days: nat, due: bool) returns (o: Outcome)
      requires Valid()
      modifies (set b | b in banks)`currentTime, GroupsOf(banks)`pending
      modifies AccountsIn(banks)`currentTime, AccountsIn(banks)`cash
      ensures Valid() && banks == old(banks)
      ensures Advanced(days, due, o, old(AllAccrue(banks)), AllCharge(banks),
                       old(BankClocks(banks)), BankClocks(banks),
                       old(CashOf(AccountsIn(banks))), CashOf(old(AccountsIn(banks))))
    {
      ghost var gfp, afp := GroupsOf(banks), AccountsIn(banks);
      o := AdvanceAll(banks, days, due, gfp, afp, guids);
    }

    /** UpdateDate: a negative count throws before anything changes.
        Otherwise every bank runs its daily pass once per day, then, when
        the trigger fires on the new elapsed time, every bank runs its
        monthly charge, and the date moves. A pass that throws ends the
        update: the daily pass throws exactly when some bank's accrual does
        not find its rates, which the passes themselves never change, so it
        then throws on the first day. Balances move only in the monthly
        charge. */
    method UpdateDate(days: int) returns (o: Outcome)
      requires Valid()
      modifies this`currentDate, (set b | b in banks)`currentTime, GroupsOf(banks)`pending
      modifies AccountsIn(banks)`currentTime, AccountsIn(banks)`cash
      ensures Valid()
      ensures days < 0 ==>
                && o == Fail(ValueNotValid) && currentDate == old(currentDate)
                && (forall i :: 0 <= i < |banks| ==> banks[i].currentTime == old(banks[i].currentTime))
                && (forall a | a in old(AccountsIn(banks)) :: a.cash == old(a.cash))
      ensures days >= 0 ==> currentDate == old(currentDate) + days
      ensures days >= 0 ==>
                Advanced(days, MonthlyChargeDue(old(currentDate) + days - startDate), o,
                         old(AllAccrue(banks)), AllCharge(banks),
                         old(BankClocks(banks)), BankClocks(banks),
                         old(CashOf(AccountsIn(banks))), CashOf(old(AccountsIn(banks))))
    {
      ghost var afp := AccountsIn(banks);
      o := Conditions.ValidationCheck(days as real);
      if o.Fail? {
        return;
      }
      var due := MonthlyChargeDue(currentDate + days - startDate);
      o := PassBanks(days, due);
      MoveDate(days, afp);
    }

    /** The calendar moves forward by the days; nothing the banks hold
        changes. */
    method MoveDate(days: nat, ghost afp: set<Account>)
      requires Valid()
      modifies this`currentDate
      ensures Valid() && banks == old(banks) && currentDate == old(currentDate) + days
      ensures AllCharge(banks) == old(AllCharge(banks)) && BankClocks(banks) == old(BankClocks(banks))
      ensures CashOf(afp) == old(CashOf(afp))
    {
      label Before:
      currentDate := currentDate + days;
      assert Listed();
      SnapshotsKept@Before(banks, afp);
    }
  }

  /** The static `instance` field and GetInstance: the first call creates
      the registry, every later call returns that same one. */
  class Singleton {
    var instance: CentralBank?

    constructor ()
      ensures instance == null
    {
      instance := null;
    }

    /** `guids` is the process's generator, which the registry created by the
        first call keeps. */
    method GetInstance(now: int, guids: GuidSource) returns (r: CentralBank)
      requires guids.Valid()
      modifies this`instance
      ensures old(instance) != null ==> r == old(instance)
      ensures old(instance) == null ==> fresh(r) && r.Valid() && r.banks == [] && r.startDate == now && r.guids == guids
      ensures instance == r
    {
      if instance == null {
        instance := new CentralBank(now, guids);
      }
      r := instance;
    }

    /** Two calls, whatever the clock says, return the same registry. */
    method GetInstanceTwice(now1: int, now2: int, guids: GuidSource) returns (r1: CentralBank, r2: CentralBank)
      requires guids.Valid()
      modifies this`instance
      ensures r1 == r2 && instance == r1
    {
      r1 := GetInstance(now1, guids);
      r2 := GetInstance(now2, guids);
    }
  }
}
