/** TransactionUtils: the immutable records of money movements.
    ReplenishmentTransaction and its twin WithdrawalTransaction share one
    datatype, tagged by kind; TransferTransaction is a record of its own. */
module Transactions {
  import opened Common

  datatype Kind = Replenishment | Withdrawal

  /** ITransaction: the record a bank keeps in its log. All fields are fixed
      at construction. */
  datatype Transaction = Transaction(kind: Kind, transactionId: nat, accountId: nat, bankId: nat, amount: real)

  /** ValidateTransactionAmount: it only decides whether to throw. A zero
      amount passes, although the message speaks of "greater than zero". */
  function ValidateTransactionAmount(amount: real): (o: Outcome)
    ensures o.Pass? <==> amount >= 0.0
    ensures o.Fail? ==> o.error == ValueNotValid
  {
    if amount < 0.0 then Fail(ValueNotValid) else Pass
  }

  /** The constructor of ReplenishmentTransaction (kind Replenishment) and of
      WithdrawalTransaction (kind Withdrawal). `freshId` is the identifier
      Guid.NewGuid would supply when no transaction id is passed. */
  function NewTransaction(kind: Kind, accountId: nat, bankId: nat, amount: real,
                          transactionId: Option<nat>, freshId: nat): (r: Result<Transaction>)
    ensures r.Ok? <==> amount >= 0.0
    ensures r.Err? ==> r.error == ValueNotValid
    ensures r.Ok? ==> r.value.kind == kind && r.value.accountId == accountId
                      && r.value.bankId == bankId && r.value.amount == amount
    ensures r.Ok? && transactionId.Some? ==> r.value.transactionId == transactionId.value
    ensures r.Ok? && transactionId.None? ==> r.value.transactionId == freshId
  {
    if ValidateTransactionAmount(amount).Fail? then Err(ValueNotValid)
    else
      var id := if transactionId.Some? then transactionId.value else freshId;
      Ok(Transaction(kind, id, accountId, bankId, amount))
  }

  /** TransferTransaction: both ends of a transfer in one record. */
  datatype TransferTransaction = TransferTransaction(
    accountIdFrom: nat, bankIdFrom: nat, accountIdTo: nat, bankIdTo: nat, amount: real)

  function NewTransferTransaction(accountIdFrom: nat, bankIdFrom: nat, accountIdTo: nat, bankIdTo: nat,
                                  amount: real): (r: Result<TransferTransaction>)
    ensures r.Ok? <==> amount >= 0.0
    ensures r.Err? ==> r.error == ValueNotValid
    ensures r.Ok? ==> r.value == TransferTransaction(accountIdFrom, bankIdFrom, accountIdTo, bankIdTo, amount)
  {
    if ValidateTransactionAmount(amount).Fail? then Err(ValueNotValid)
    else Ok(TransferTransaction(accountIdFrom, bankIdFrom, accountIdTo, bankIdTo, amount))
  }

  /** A zero amount is accepted by both records and a negative one by neither. */
  lemma ZeroAmountAccepted(accountId: nat, bankId: nat, id: Option<nat>, freshId: nat)
    ensures NewTransaction(Replenishment, accountId, bankId, 0.0, id, freshId).Ok?
    ensures NewTransferTransaction(accountId, bankId, accountId, bankId, 0.0).Ok?
    ensures NewTransaction(Withdrawal, accountId, bankId, -1.0, id, freshId) == Err(ValueNotValid)
  {
  }

  /** The position of the first record in the log carrying the identifier
      (the first element the cancellation's Where yields). */
  function IndexOfTransaction(ts: seq<Transaction>, id: nat): (r: Option<nat>)
    ensures r.None? <==> forall k :: 0 <= k < |ts| ==> ts[k].transactionId != id
    ensures r.Some? ==> r.value < |ts| && ts[r.value].transactionId == id
    ensures r.Some? ==> forall k :: 0 <= k < r.value ==> ts[k].transactionId != id
  {
    if ts == [] then None
    else if ts[0].transactionId == id then Some(0)
    else
      var rest := IndexOfTransaction(ts[1..], id);
      assert forall k :: 1 <= k < |ts| ==> ts[k] == ts[1..][k - 1];
      if rest.Some? then Some(rest.value + 1) else None
  }
}
