/** The queries and passes of Entities/Bank.cs that range over the list of
    client groups, stated on the list itself: lookups, the notification
    filter, and the group-after-group loops of the daily accrual and the
    monthly charge with what they leave behind. */
module BankGroups {
  import opened Common
  import opened Passports
  import opened Clients
  import opened Accounts
  import opened Conditions
  import opened Holdings
  import opened DailyAccrual

  /** Every account some group holds. */
  ghost function AccountsOf(gs: seq<ClientAccounts>): set<Account>
    reads (set g | g in gs)`accounts
  {
    set p, i | 0 <= p < |gs| && 0 <= i < |gs[p].accounts| :: gs[p].accounts[i]
  }

  /** The position of the first group holding an account with the identifier
      (the group FindClientAccounts(Account) and FindClientByAccount find). */
  function GroupOfAccount(gs: seq<ClientAccounts>, id: nat): (r: Option<nat>)
    reads (set g | g in gs)`accounts
    ensures r.None? <==> forall p :: 0 <= p < |gs| ==> IndexOfId(gs[p].accounts, id).None?
    ensures r.Some? ==> r.value < |gs| && IndexOfId(gs[r.value].accounts, id).Some?
    ensures r.Some? ==> forall p :: 0 <= p < r.value ==> IndexOfId(gs[p].accounts, id).None?
  {
    GroupOfAccountFrom(gs, id, 0)
  }

  /** The search of GroupOfAccount from position `from` on. */
  function GroupOfAccountFrom(gs: seq<ClientAccounts>, id: nat, from: nat): (r: Option<nat>)
    requires from <= |gs|
    reads (set g | g in gs)`accounts
    ensures r.None? <==> forall p :: from <= p < |gs| ==> IndexOfId(gs[p].accounts, id).None?
    ensures r.Some? ==> from <= r.value < |gs| && IndexOfId(gs[r.value].accounts, id).Some?
    ensures r.Some? ==> forall p :: from <= p < r.value ==> IndexOfId(gs[p].accounts, id).None?
    decreases |gs| - from
  {
    if from == |gs| then None
    else if IndexOfId(gs[from].accounts, id).Some? then Some(from)
    else GroupOfAccountFrom(gs, id, from + 1)
  }

  /** The position of the first group whose client has the passport number:
      the record equality of FindClientAccounts(Client), under which two
      clients without a passport are equal. */
  function GroupOfClient(gs: seq<ClientAccounts>, passport: Option<PassportNumber>): (r: Option<nat>)
    reads (set g | g in gs :: g.client)`passport
    ensures r.None? <==> forall p :: 0 <= p < |gs| ==> gs[p].client.passport != passport
    ensures r.Some? ==> r.value < |gs| && gs[r.value].client.passport == passport
    ensures r.Some? ==> forall p :: 0 <= p < r.value ==> gs[p].client.passport != passport
  {
    if gs == [] then None
    else if gs[0].client.passport == passport then Some(0)
    else
      var rest := GroupOfClient(gs[1..], passport);
      assert forall p :: 1 <= p < |gs| ==> gs[p] == gs[1..][p - 1];
      if rest.Some? then Some(rest.value + 1) else None
  }

  /** AreAccountsOfThisTypeInClientAccounts: the group holds an account of
      exactly that concrete class. */
  predicate HasKind(g: ClientAccounts, kind: AccountType)
    reads g`accounts
  {
    exists i :: 0 <= i < |g.accounts| && TypeOf(g.accounts[i].variant) == kind
  }

  /** The attached observers the inner Where of NotifySpecifiedObservers
      yields for one group, in list order. */
  function Matching(obs: seq<Client>, g: ClientAccounts, kind: AccountType): (r: seq<Client>)
    reads g`accounts, g.client`passport, (set o | o in obs)`passport
  {
    if obs == [] then []
    else
      var last := obs[|obs| - 1];
      Matching(obs[..|obs| - 1], g, kind) + (if last.passport == g.client.passport && HasKind(g, kind) then [last] else [])
  }

  /** The observers of a group are exactly the attached observers with the
      client's passport number, when the group holds an account of the kind. */
  lemma {:induction false} MatchingMeaning(obs: seq<Client>, g: ClientAccounts, kind: AccountType)
    ensures forall k :: 0 <= k < |Matching(obs, g, kind)| ==>
              Matching(obs, g, kind)[k] in obs && Matching(obs, g, kind)[k].passport == g.client.passport && HasKind(g, kind)
    ensures forall j :: 0 <= j < |obs| && obs[j].passport == g.client.passport && HasKind(g, kind) ==>
              obs[j] in Matching(obs, g, kind)
  {
    if obs != [] {
      var init, last := obs[..|obs| - 1], obs[|obs| - 1];
      MatchingMeaning(init, g, kind);
      var rest, tail := Matching(init, g, kind), if last.passport == g.client.passport && HasKind(g, kind) then [last] else [];
      assert Matching(obs, g, kind) == rest + tail;
      forall k | 0 <= k < |rest + tail|
        ensures (rest + tail)[k] in obs
      {
        if k < |rest| {
          assert (rest + tail)[k] == rest[k] && rest[k] in init;
        }
      }
      forall j | 0 <= j < |obs| - 1
        ensures obs[j] == init[j]
      {
      }
    }
  }

  /** AreAccountsOfThisTypeInClientAccounts: some account of the group is of
      the kind. */
  function AreAccountsOfThisTypeInClientAccounts(g: ClientAccounts, kind: AccountType): (r: bool)
    reads g`accounts
    ensures r <==> exists i :: 0 <= i < |g.accounts| && TypeOf(g.accounts[i].variant) == kind
  {
    HasKind(g, kind)
  }

  /** The inner Where of NotifySpecifiedObservers, run over the observers in
      order for one group. */
  method MatchingObservers(obs: seq<Client>, g: ClientAccounts, kind: AccountType) returns (r: seq<Client>)
    ensures r == Matching(obs, g, kind)
  {
    var relevant := AreAccountsOfThisTypeInClientAccounts(g, kind);
    r := [];
    var j := 0;
    while j < |obs|
      invariant 0 <= j <= |obs|
      invariant r == Matching(obs[..j], g, kind)
    {
      assert obs[..j + 1][..j] == obs[..j];
      if obs[j].passport == g.client.passport && relevant {
        r := r + [obs[j]];
      }
      j := j + 1;
    }
    assert obs[..j] == obs;
  }

  /** Every observer NotifySpecifiedObservers notifies, group after group
      (an observer matching several groups is notified once per group). */
  function Notified(gs: seq<ClientAccounts>, obs: seq<Client>, kind: AccountType): seq<Client>
    reads (set g | g in gs)`accounts, (set g | g in gs :: g.client)`passport, (set o | o in obs)`passport
  {
    if gs == [] then []
    else Notified(gs[..|gs| - 1], obs, kind) + Matching(obs, gs[|gs| - 1], kind)
  }

  /** Exactly the attached observers that share a passport number with the
      client of some group holding an account of the kind are notified. */
  lemma {:induction false} NotifiedMeaning(gs: seq<ClientAccounts>, obs: seq<Client>, kind: AccountType)
    ensures forall k :: 0 <= k < |Notified(gs, obs, kind)| ==>
              && Notified(gs, obs, kind)[k] in obs
              && exists p :: 0 <= p < |gs| && gs[p].client.passport == Notified(gs, obs, kind)[k].passport && HasKind(gs[p], kind)
    ensures forall j, p :: 0 <= j < |obs| && 0 <= p < |gs| && gs[p].client.passport == obs[j].passport && HasKind(gs[p], kind)
              ==> obs[j] in Notified(gs, obs, kind)
  {
    if gs != [] {
      var init, last := gs[..|gs| - 1], gs[|gs| - 1];
      NotifiedMeaning(init, obs, kind);
      MatchingMeaning(obs, last, kind);
      var rest: seq<Client>, tail: seq<Client> := Notified(init, obs, kind), Matching(obs, last, kind);
      assert Notified(gs, obs, kind) == rest + tail;
      assert forall p :: 0 <= p < |gs| - 1 ==> init[p] == gs[p];
      forall k | 0 <= k < |rest + tail|
        ensures exists p :: 0 <= p < |gs| && gs[p].client.passport == (rest + tail)[k].passport && HasKind(gs[p], kind)
      {
        if k < |rest| {
          assert rest[k] == Notified(init, obs, kind)[k];
          var p :| 0 <= p < |init| && init[p].client.passport == rest[k].passport && HasKind(init[p], kind);
          assert gs[p] == init[p];
        } else {
          assert tail[k - |rest|].passport == last.client.passport;
        }
      }
    }
  }

  /** The loop of NotifySpecifiedObservers over the groups, in order. */
  method NotifyGroups(gs: seq<ClientAccounts>, obs: seq<Client>, kind: AccountType) returns (notified: seq<Client>)
    ensures notified == Notified(gs, obs, kind)
  {
    notified := [];
    var p := 0;
    while p < |gs|
      invariant 0 <= p <= |gs|
      invariant notified == Notified(gs[..p], obs, kind)
    {
      notified := NotifyGroup(gs, p, obs, kind, notified);
      p := p + 1;
    }
    NotifiedWhole(gs, obs, kind);
  }

  /** One turn of that loop: the group's observers go after those of the
      groups before it. */
  method NotifyGroup(gs: seq<ClientAccounts>, p: nat, obs: seq<Client>, kind: AccountType, sofar: seq<Client>)
    returns (notified: seq<Client>)
    requires p < |gs| && sofar == Notified(gs[..p], obs, kind)
    ensures notified == Notified(gs[..p + 1], obs, kind)
  {
    var matching := MatchingObservers(obs, gs[p], kind);
    notified := sofar + matching;
    NotifiedStep(gs, p, obs, kind);
  }

  lemma NotifiedWhole(gs: seq<ClientAccounts>, obs: seq<Client>, kind: AccountType)
    ensures Notified(gs[..|gs|], obs, kind) == Notified(gs, obs, kind)
  {
    assert gs[..|gs|] == gs;
  }

  /** One more group adds that group's matching observers at the end. */
  lemma NotifiedStep(gs: seq<ClientAccounts>, p: nat, obs: seq<Client>, kind: AccountType)
    requires p < |gs|
    ensures Notified(gs[..p + 1], obs, kind) == Notified(gs[..p], obs, kind) + Matching(obs, gs[p], kind)
  {
    assert gs[..p + 1][..p] == gs[..p];
  }

  // ---------------------------------------------------------------------
  // The daily accrual

  /** The clock of every account of a sequence. */
  ghost function ClocksOf(s: seq<Account>): (r: seq<int>)
    reads (set a | a in s)`currentTime
    ensures |r| == |s|
  {
    if s == [] then [] else [s[0].currentTime] + ClocksOf(s[1..])
  }

  /** The clock of every account, group after group. */
  ghost function Clocks(gs: seq<ClientAccounts>): (r: seq<seq<int>>)
    reads (set g | g in gs)`accounts, AccountsOf(gs)`currentTime
    ensures |r| == |gs|
  {
    if gs == [] then []
    else
      assert AccountsOf(gs[1..]) <= AccountsOf(gs) by {
        forall a | a in AccountsOf(gs[1..]) ensures a in AccountsOf(gs) {
          var p, i :| 0 <= p < |gs[1..]| && 0 <= i < |gs[1..][p].accounts| && a == gs[1..][p].accounts[i];
          assert a == gs[p + 1].accounts[i];
        }
      }
      [ClocksOf(gs[0].accounts)] + Clocks(gs[1..])
  }

  lemma {:induction false} ClocksOfMeaning(s: seq<Account>)
    ensures forall i :: 0 <= i < |s| ==> ClocksOf(s)[i] == s[i].currentTime
  {
    if s != [] {
      ClocksOfMeaning(s[1..]);
      assert forall i :: 1 <= i < |s| ==> s[i] == s[1..][i - 1];
    }
  }

  /** Clocks lists, group by group, each account's clock. */
  lemma {:induction false} ClocksMeaning(gs: seq<ClientAccounts>)
    ensures forall p :: 0 <= p < |gs| ==> |Clocks(gs)[p]| == |gs[p].accounts|
    ensures forall p, i :: 0 <= p < |gs| && 0 <= i < |gs[p].accounts| ==> Clocks(gs)[p][i] == gs[p].accounts[i].currentTime
  {
    if gs != [] {
      ClocksOfMeaning(gs[0].accounts);
      ClocksMeaning(gs[1..]);
      assert forall p :: 1 <= p < |gs| ==> gs[p] == gs[1..][p - 1];
    }
  }

  /** Every deposit shows the time `now`; every other account still shows
      its clock in `before`. */
  predicate DepositsAt(gs: seq<ClientAccounts>, before: seq<seq<int>>, now: int)
    reads (set g | g in gs)`accounts, AccountsOf(gs)`currentTime
  {
    && |before| == |gs|
    && (forall p :: 0 <= p < |gs| ==> |before[p]| == |gs[p].accounts|)
    && forall p, i :: 0 <= p < |gs| && 0 <= i < |gs[p].accounts| ==>
         gs[p].accounts[i].currentTime == if gs[p].accounts[i].variant.Deposit? then now else before[p][i]
  }

  /** The first position whose accrual fails (a deposit above every tier),
      or |s| when every one succeeds. */
  function FirstAccrualFailure(pol: Policy, s: seq<Account>): (n: nat)
    reads (set a | a in s)`cash
    ensures n <= |s|
  {
    if s == [] then 0
    else if Accrual(pol, s[0].variant, s[0].cash).Err? then 0
    else 1 + FirstAccrualFailure(pol, s[1..])
  }

  /** Every accrual before the first failure succeeds, and that one fails. */
  lemma {:induction false} FirstAccrualFailureMeaning(pol: Policy, s: seq<Account>)
    ensures forall k :: 0 <= k < FirstAccrualFailure(pol, s) ==> Accrual(pol, s[k].variant, s[k].cash).Ok?
    ensures FirstAccrualFailure(pol, s) < |s| ==>
              Accrual(pol, s[FirstAccrualFailure(pol, s)].variant, s[FirstAccrualFailure(pol, s)].cash).Err?
  {
    if s != [] && Accrual(pol, s[0].variant, s[0].cash).Ok? {
      FirstAccrualFailureMeaning(pol, s[1..]);
      assert forall k :: 1 <= k < |s| ==> s[k] == s[1..][k - 1];
    }
  }

  /** The first group in which the accrual fails, or |gs|. */
  function FirstFailingGroup(pol: Policy, gs: seq<ClientAccounts>): (n: nat)
    reads (set g | g in gs)`accounts, AccountsOf(gs)`cash
    ensures n <= |gs|
  {
    if gs == [] then 0
    else if FirstAccrualFailure(pol, gs[0].accounts) < |gs[0].accounts| then 0
    else
      assert AccountsOf(gs[1..]) <= AccountsOf(gs) by {
        forall a | a in AccountsOf(gs[1..]) ensures a in AccountsOf(gs) {
          var p, i :| 0 <= p < |gs[1..]| && 0 <= i < |gs[1..][p].accounts| && a == gs[1..][p].accounts[i];
          assert a == gs[p + 1].accounts[i];
        }
      }
      1 + FirstFailingGroup(pol, gs[1..])
  }

  /** The first failing group is the one after a run of groups that accrue
      in full, when it fails, or the end when every group accrues. */
  lemma {:induction false} FirstFailingGroupAt(pol: Policy, gs: seq<ClientAccounts>, p: nat)
    requires p <= |gs|
    requires forall q :: 0 <= q < p ==> FirstAccrualFailure(pol, gs[q].accounts) == |gs[q].accounts|
    requires p < |gs| ==> FirstAccrualFailure(pol, gs[p].accounts) < |gs[p].accounts|
    ensures FirstFailingGroup(pol, gs) == p
  {
    if gs != [] && p > 0 {
      assert forall q :: 1 <= q < |gs| ==> gs[q] == gs[1..][q - 1];
      FirstFailingGroupAt(pol, gs[1..], p - 1);
    }
  }

  /** An account's pending value once the day's accrual has been added; a
      failing accrual adds nothing (and stops the pass). */
  function AfterAccrual(pol: Policy, a: Account, pending: real): real
    reads a`cash
  {
    var r := Accrual(pol, a.variant, a.cash);
    if r.Ok? then pending + r.value else pending
  }

  /** The pending values of every group, group after group. */
  ghost function Pendings(gs: seq<ClientAccounts>): (r: seq<seq<real>>)
    reads (set g | g in gs)`pending
    ensures |r| == |gs|
  {
    if gs == [] then [] else [gs[0].pending] + Pendings(gs[1..])
  }

  lemma {:induction false} PendingsMeaning(gs: seq<ClientAccounts>)
    ensures forall p :: 0 <= p < |gs| ==> Pendings(gs)[p] == gs[p].pending
  {
    if gs != [] {
      PendingsMeaning(gs[1..]);
      assert forall p :: 1 <= p < |gs| ==> gs[p] == gs[1..][p - 1];
    }
  }

  /** Against the pending values `before`, the day's accrual is added to
      each of the group's first `n` entries; the others keep their value. */
  predicate AccruedUpTo(pol: Policy, g: ClientAccounts, before: seq<real>, n: nat)
    reads g`accounts, g`pending, (set a | a in g.accounts)`cash
  {
    && |g.pending| == |g.accounts| == |before|
    && forall i :: 0 <= i < |g.accounts| ==>
         g.pending[i] == if i < n then AfterAccrual(pol, g.accounts[i], before[i]) else before[i]
  }

  /** How far the day's pass got in group `p`: through every entry of a
      group before the first failing group, up to the first failure in that
      group, and nowhere after it. */
  function Reach(pol: Policy, gs: seq<ClientAccounts>, p: nat): nat
    requires p < |gs|
    reads (set g | g in gs)`accounts, AccountsOf(gs)`cash
  {
    var stop := FirstFailingGroup(pol, gs);
    if p < stop then |gs[p].accounts|
    else if p == stop then
      assert forall a | a in gs[p].accounts :: a in AccountsOf(gs);
      FirstAccrualFailure(pol, gs[p].accounts)
    else 0
  }

  /** Against the pending values `before`, the day's accrual is added, entry
      by entry, at every position before the first failure in the first
      failing group; every other entry keeps its value. */
  predicate Accrued(pol: Policy, gs: seq<ClientAccounts>, before: seq<seq<real>>)
    reads (set g | g in gs)`accounts, (set g | g in gs)`pending, AccountsOf(gs)`cash
  {
    && |before| == |gs|
    && forall p :: 0 <= p < |gs| ==>
         assert forall a | a in gs[p].accounts :: a in AccountsOf(gs);
         AccruedUpTo(pol, gs[p], before[p], Reach(pol, gs, p))
  }

  /** The part of UpdateDaysInDepositAccounts for one group: each deposit
      account takes the time `now`; the others are not touched. */
  method UpdateDepositClocks(g: ClientAccounts, now: int)
    requires g.Valid()
    modifies g.accounts`currentTime
    ensures forall i :: 0 <= i < |g.accounts| ==>
              g.accounts[i].currentTime == if g.accounts[i].variant.Deposit? then now else old(g.accounts[i].currentTime)
  {
    var k := 0;
    while k < |g.accounts|
      invariant 0 <= k <= |g.accounts|
      invariant forall i :: 0 <= i < k ==>
                  g.accounts[i].currentTime == if g.accounts[i].variant.Deposit? then now else old(g.accounts[i].currentTime)
      invariant forall i :: k <= i < |g.accounts| ==> g.accounts[i].currentTime == old(g.accounts[i].currentTime)
    {
      var a := g.accounts[k];
      if a.variant.Deposit? {
        a.UpdateCurrentDate(now);
      }
      k := k + 1;
    }
  }

  /** The loop of UpdateDaysInDepositAccounts: every group in turn. */
  method AdvanceDeposits(gs: seq<ClientAccounts>, now: int, ghost footprint: set<Account>)
    requires forall p :: 0 <= p < |gs| ==> gs[p].Valid()
    requires forall p, q, i :: 0 <= p < |gs| && 0 <= q < |gs| && q != p && 0 <= i < |gs[q].accounts| ==>
               gs[q].accounts[i] !in gs[p].accounts
    requires forall p, i :: 0 <= p < |gs| && 0 <= i < |gs[p].accounts| ==> gs[p].accounts[i] in footprint
    modifies footprint`currentTime
    ensures DepositsAt(gs, old(Clocks(gs)), now)
  {
    ClocksMeaning(gs);
    var p := 0;
    while p < |gs|
      invariant 0 <= p <= |gs|
      invariant forall q, i :: 0 <= q < p && 0 <= i < |gs[q].accounts| ==>
                  gs[q].accounts[i].currentTime ==
                    if gs[q].accounts[i].variant.Deposit? then now else old(gs[q].accounts[i].currentTime)
      invariant forall q, i :: p <= q < |gs| && 0 <= i < |gs[q].accounts| ==>
                  gs[q].accounts[i].currentTime == old(gs[q].accounts[i].currentTime)
    {
      UpdateDepositClocks(gs[p], now);
      p := p + 1;
    }
  }

  /** The inner loop of UpdateAllOnOneDay for one group: each entry's pending
      value is replaced through ChangeComissionOrLoan by a new value computed
      from the entry's value before the pass, in order; a deposit above every
      tier throws there, leaving the earlier entries changed and the later
      ones not. */
  method AccrueGroup(pol: Policy, g: ClientAccounts) returns (o: Outcome)
    requires g.Valid()
    modifies g`pending
    ensures g.Valid()
    ensures o.Pass? <==> FirstAccrualFailure(pol, g.accounts) == |g.accounts|
    ensures o.Fail? ==> o.error == NoMatchingElement
    ensures AccruedUpTo(pol, g, old(g.pending), FirstAccrualFailure(pol, g.accounts))
  {
    ghost var n := FirstAccrualFailure(pol, g.accounts);
    ghost var before := g.pending;
    FirstAccrualFailureMeaning(pol, g.accounts);
    var k := 0;
    while k < |g.accounts|
      invariant 0 <= k <= n && |g.pending| == |before|
      invariant forall j :: 0 <= j < k ==> g.pending[j] == AfterAccrual(pol, g.accounts[j], before[j])
      invariant forall j :: k <= j < |g.accounts| ==> g.pending[j] == before[j]
    {
      var a := g.accounts[k];
      var value: real;
      match a.variant {
        case Credit(_) =>
          value := g.pending[k] - CreditLoan(pol, a.cash);
        case Debit =>
          value := g.pending[k] + DebitInterest(pol, a.cash);
        case Deposit(_) =>
          var interest := DepositInterest(pol, a.cash);
          if interest.Err? {
            return Fail(interest.error);
          }
          value := g.pending[k] + interest.value;
      }
      assert value == AfterAccrual(pol, a, before[k]);
      IndexOfHeld(g.accounts, k);
      o := g.ChangeComissionOrLoan(a, value);
      k := k + 1;
    }
    o := Pass;
  }

  /** What the groups look like once the pass has stopped at group `p` (the
      groups before it accrued in full, group `p` up to its failure, the later
      ones untouched) is what Accrued describes, and `p` is the first failing
      group. */
  lemma AccruedAt(pol: Policy, gs: seq<ClientAccounts>, before: seq<seq<real>>, p: nat)
    requires |before| == |gs| && p <= |gs|
    requires forall q :: 0 <= q < p ==> FirstAccrualFailure(pol, gs[q].accounts) == |gs[q].accounts|
    requires forall q :: 0 <= q < p ==> AccruedUpTo(pol, gs[q], before[q], |gs[q].accounts|)
    requires p < |gs| ==> FirstAccrualFailure(pol, gs[p].accounts) < |gs[p].accounts|
    requires p < |gs| ==> AccruedUpTo(pol, gs[p], before[p], FirstAccrualFailure(pol, gs[p].accounts))
    requires forall q :: p < q < |gs| ==> gs[q].pending == before[q] && |before[q]| == |gs[q].accounts|
    ensures FirstFailingGroup(pol, gs) == p
    ensures Accrued(pol, gs, before)
  {
    FirstFailingGroupAt(pol, gs, p);
  }

  /** One turn of the outer loop of UpdateAllOnOneDay: group `p` accrues,
      and the pending values of every other group stay as they were. */
  method AccrueGroupAt(pol: Policy, gs: seq<ClientAccounts>, ghost before: seq<seq<real>>, p: nat) returns (o: Outcome)
    requires p < |gs| == |before| && gs[p].Valid()
    requires forall q :: 0 <= q < |gs| && q != p ==> gs[q] != gs[p]
    requires forall q :: 0 <= q < p ==> gs[q].Valid() && FirstAccrualFailure(pol, gs[q].accounts) == |gs[q].accounts|
    requires forall q :: 0 <= q < p ==> AccruedUpTo(pol, gs[q], before[q], |gs[q].accounts|)
    requires forall q :: p <= q < |gs| ==> gs[q].pending == before[q] && |before[q]| == |gs[q].accounts|
    modifies {gs[p]}`pending
    ensures forall q :: 0 <= q < |gs| ==> gs[q].accounts == old(gs[q].accounts)
    ensures o.Fail? ==> o.error == NoMatchingElement && FirstFailingGroup(pol, gs) == p && Accrued(pol, gs, before)
    ensures o.Pass? ==>
              && (forall q :: 0 <= q < p + 1 ==> gs[q].Valid() && FirstAccrualFailure(pol, gs[q].accounts) == |gs[q].accounts|)
              && (forall q :: 0 <= q < p + 1 ==> AccruedUpTo(pol, gs[q], before[q], |gs[q].accounts|))
              && (forall q :: p + 1 <= q < |gs| ==> gs[q].pending == before[q] && |before[q]| == |gs[q].accounts|)
  {
    o := AccrueGroup(pol, gs[p]);
    if o.Fail? {
      AccruedAt(pol, gs, before, p);
    }
  }

  /** The outer loop of UpdateAllOnOneDay: the groups in order, stopping at
      the first one whose accrual throws. */
  method AccrueGroups(pol: Policy, gs: seq<ClientAccounts>) returns (o: Outcome)
    requires forall p :: 0 <= p < |gs| ==> gs[p].Valid()
    requires forall p, q :: 0 <= p < q < |gs| ==> gs[p] != gs[q]
    modifies (set g | g in gs)`pending
    ensures forall p :: 0 <= p < |gs| ==> gs[p].Valid() && gs[p].accounts == old(gs[p].accounts)
    ensures o.Pass? <==> FirstFailingGroup(pol, gs) == |gs|
    ensures o.Fail? ==> o.error == NoMatchingElement
    ensures Accrued(pol, gs, old(Pendings(gs)))
  {
    ghost var before := Pendings(gs);
    PendingsMeaning(gs);
    var p := 0;
    while p < |gs|
      invariant 0 <= p <= |gs|
      invariant forall q :: 0 <= q < p ==> gs[q].Valid() && FirstAccrualFailure(pol, gs[q].accounts) == |gs[q].accounts|
      invariant forall q :: 0 <= q < p ==> AccruedUpTo(pol, gs[q], before[q], |gs[q].accounts|)
      invariant forall q :: p <= q < |gs| ==> gs[q].pending == before[q] && |before[q]| == |gs[q].accounts|
    {
      o := AccrueGroupAt(pol, gs, before, p);
      if o.Fail? {
        return;
      }
      p := p + 1;
    }
    AccruedAt(pol, gs, before, p);
    o := Pass;
  }

  /** The day's pass of UpdateAllOnOneDay on the groups, once the bank's
      clock has moved to `now`: every deposit takes that time, then the
      entries accrue group after group until a deposit above every tier
      throws. */
  method PassDay(pol: Policy, gs: seq<ClientAccounts>, now: int, ghost footprint: set<Account>) returns (o: Outcome)
    requires forall p :: 0 <= p < |gs| ==> gs[p].Valid()
    requires forall p, q :: 0 <= p < q < |gs| ==> gs[p] != gs[q]
    requires forall p, q, i :: 0 <= p < |gs| && 0 <= q < |gs| && q != p && 0 <= i < |gs[q].accounts| ==>
               gs[q].accounts[i] !in gs[p].accounts
    requires forall p, i :: 0 <= p < |gs| && 0 <= i < |gs[p].accounts| ==> gs[p].accounts[i] in footprint
    modifies footprint`currentTime, (set g | g in gs)`pending
    ensures forall p :: 0 <= p < |gs| ==> gs[p].Valid() && gs[p].accounts == old(gs[p].accounts)
    ensures DepositsAt(gs, old(Clocks(gs)), now)
    ensures o.Pass? <==> FirstFailingGroup(pol, gs) == |gs|
    ensures o.Fail? ==> o.error == NoMatchingElement
    ensures Accrued(pol, gs, old(Pendings(gs)))
  {
    AdvanceDeposits(gs, now, footprint);
    o := AccrueGroups(pol, gs);
  }

  // ---------------------------------------------------------------------
  // The monthly charge

  /** The first group in which the monthly top-up fails, or |gs|. */
  function FirstFailingCharge(gs: seq<ClientAccounts>): (n: nat)
    reads (set g | g in gs)`accounts, (set g | g in gs)`pending
    requires forall p :: 0 <= p < |gs| ==> |gs[p].pending| == |gs[p].accounts|
    ensures n <= |gs|
  {
    if gs == [] then 0
    else if FirstRefusedTopUp(gs[0].accounts, gs[0].pending) < |gs[0].accounts| then 0
    else
      assert forall p :: 1 <= p < |gs| ==> gs[p] == gs[1..][p - 1];
      1 + FirstFailingCharge(gs[1..])
  }

  /** The first failing group is the one after a run of groups that are
      credited in full, when it refuses, or the end when none refuses. */
  lemma {:induction false} FirstFailingChargeAt(gs: seq<ClientAccounts>, p: nat)
    requires forall q :: 0 <= q < |gs| ==> |gs[q].pending| == |gs[q].accounts|
    requires p <= |gs|
    requires forall q :: 0 <= q < p ==> FirstRefusedTopUp(gs[q].accounts, gs[q].pending) == |gs[q].accounts|
    requires p < |gs| ==> FirstRefusedTopUp(gs[p].accounts, gs[p].pending) < |gs[p].accounts|
    ensures FirstFailingCharge(gs) == p
  {
    if gs != [] && p > 0 {
      assert forall q :: 1 <= q < |gs| ==> gs[q] == gs[1..][q - 1];
      FirstFailingChargeAt(gs[1..], p - 1);
    }
  }

  /** Each group's pending values are added to its balances at every
      position before the first refusal in the first refusing group; the
      other balances are unchanged. */
  twostate predicate Credited(gs: seq<ClientAccounts>)
    requires forall p :: 0 <= p < |gs| ==> |gs[p].pending| == |gs[p].accounts|
    requires forall p :: 0 <= p < |gs| ==> gs[p].accounts == old(gs[p].accounts)
    reads (set g | g in gs)`accounts, (set g | g in gs)`pending, AccountsOf(gs)`cash
  {
    var stop := FirstFailingCharge(gs);
    forall p, i :: 0 <= p < |gs| && 0 <= i < |gs[p].accounts| ==>
      gs[p].accounts[i].cash == old(gs[p].accounts[i].cash)
        + if p < stop || (p == stop && i < FirstRefusedTopUp(gs[p].accounts, gs[p].pending))
          then gs[p].pending[i] else 0.0
  }

  /** The monthly charge of one group leaves the balances of every other
      group as they were. */
  method ChargeGroupAmong(gs: seq<ClientAccounts>, p: nat) returns (o: Outcome)
    requires p < |gs| && gs[p].Valid()
    requires forall q, i :: 0 <= q < |gs| && q != p && 0 <= i < |gs[q].accounts| ==> gs[q].accounts[i] !in gs[p].accounts
    modifies (set a | a in gs[p].accounts)`cash
    ensures var n := FirstRefusedTopUp(gs[p].accounts, gs[p].pending);
            && (o.Pass? <==> n == |gs[p].accounts|)
            && (o.Fail? ==> o.error == ValueNotValid)
            && forall k :: 0 <= k < |gs[p].accounts| ==>
                 gs[p].accounts[k].cash == old(gs[p].accounts[k].cash) + (if k < n then gs[p].pending[k] else 0.0)
    ensures forall q, i :: 0 <= q < |gs| && q != p && 0 <= i < |gs[q].accounts| ==>
              gs[q].accounts[i].cash == old(gs[q].accounts[i].cash)
  {
    o := gs[p].ChargeInterestAndDeductCommission();
  }

  /** The loop of Bank.ChargeInterestAndDeductCommission: each group's own
      pass, in order, stopping at the first refusal. */
  method ChargeGroups(gs: seq<ClientAccounts>, ghost footprint: set<Account>) returns (o: Outcome)
    requires forall p :: 0 <= p < |gs| ==> gs[p].Valid()
    requires forall p, q, i :: 0 <= p < |gs| && 0 <= q < |gs| && q != p && 0 <= i < |gs[q].accounts| ==>
               gs[q].accounts[i] !in gs[p].accounts
    requires forall p, i :: 0 <= p < |gs| && 0 <= i < |gs[p].accounts| ==> gs[p].accounts[i] in footprint
    modifies footprint`cash
    ensures forall p :: 0 <= p < |gs| ==> |gs[p].pending| == |gs[p].accounts| && gs[p].accounts == old(gs[p].accounts)
    ensures o.Pass? <==> FirstFailingCharge(gs) == |gs|
    ensures o.Fail? ==> o.error == ValueNotValid
    ensures Credited(gs)
  {
    var p := 0;
    while p < |gs|
      invariant 0 <= p <= |gs|
      invariant forall q :: 0 <= q < p ==> FirstRefusedTopUp(gs[q].accounts, gs[q].pending) == |gs[q].accounts|
      invariant forall q, i :: 0 <= q < p && 0 <= i < |gs[q].accounts| ==>
                  gs[q].accounts[i].cash == old(gs[q].accounts[i].cash) + gs[q].pending[i]
      invariant forall q, i :: p <= q < |gs| && 0 <= i < |gs[q].accounts| ==>
                  gs[q].accounts[i].cash == old(gs[q].accounts[i].cash)
    {
      o := ChargeGroupAmong(gs, p);
      if o.Fail? {
        FirstFailingChargeAt(gs, p);
        return;
      }
      p := p + 1;
    }
    FirstFailingChargeAt(gs, p);
    o := Pass;
  }

  /** The first observer with the passport number. */
  function FirstObserver(obs: seq<Client>, id: Option<PassportNumber>): (r: Option<Client>)
    reads (set o | o in obs)`passport
    ensures r.Some? <==> exists j :: 0 <= j < |obs| && obs[j].passport == id
    ensures r.Some? ==> r.value in obs && r.value.passport == id
  {
    if obs == [] then None
    else if obs[0].passport == id then Some(obs[0])
    else
      var rest := FirstObserver(obs[1..], id);
      assert forall j :: 1 <= j < |obs| ==> obs[j] == obs[1..][j - 1];
      rest
  }
}
