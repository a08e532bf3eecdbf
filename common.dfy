/** Values shared by every part of the ledger: the error kinds the ledger raises,
    the result wrappers that carry them, and the identifier generator that
    stands in for Guid.NewGuid. */
module Common {

  /** One constructor per exception factory of the ledger (plus the .NET
      exceptions the ledger lets escape). */
  datatype Error =
    | ValueNotValid          // BanksException.ValueHasNotPassedValidation
    | ClosingDateNotArrived  // AccountException.AccountClosingDateHasNotArrived
    | InvalidClosingDate     // AccountException.InvalidAccountClosingDate
    | AccountNotFound        // AccountException.AccountNotFound, ClientAccountsException.AccountWasNotFound
    | AccountAlreadyExists   // ClientAccountsException.AccountAlreadyExists
    | UnverifiedOverLimit    // ClientAccountsException.UnverifiedClientTriesToWithdraOutOfLimit
    | ObserverNotFound       // BanksException.ObserverWasNotFound
    | BankNotFound           // CentralBankException.BankWasNotFound
    | BankAlreadyExists      // CentralBankException.BankAlreadyExists
    | DataNotSpecified       // ClientException.NecessaryDataIsNotSpecified
    | InvalidPassport        // the plain Exception thrown by the PassportNumber constructor
    | NullArgument           // ArgumentNullException
    | NoMatchingElement      // InvalidOperationException from Enumerable.First
    | CollectionModified     // InvalidOperationException from a list changed during enumeration

  datatype Option<+T> = None | Some(value: T)

  datatype Result<+T> = Ok(value: T) | Err(error: Error)

  /** The outcome of an operation that returns nothing: it either completes or throws. */
  datatype Outcome = Pass | Fail(error: Error)

  /** Guid.NewGuid: one generator for the whole process, which never hands
      out the same identifier twice. `drawn` records every identifier handed
      out so far; `next` is the one it will hand out next. */
  class GuidSource {
    var next: nat
    ghost var drawn: set<nat>

    /** Every identifier handed out lies below the next one. */
    ghost predicate Valid()
      reads this
    {
      forall g | g in drawn :: g < next
    }

    constructor ()
      ensures Valid() && drawn == {}
    {
      next := 0;
      drawn := {};
    }

    /** A new identifier, different from every one handed out before. */
    method NewGuid() returns (g: nat)
      requires Valid()
      modifies this`next, this`drawn
      ensures Valid()
      ensures g !in old(drawn) && drawn == old(drawn) + {g}
    {
      g := next;
      next := next + 1;
      drawn := drawn + {g};
    }
  }

  /** The position of the first element equal to `x`, if there is one. */
  function FirstIndex<T(==)>(s: seq<T>, x: T): (r: Option<nat>)
    ensures r.None? <==> x !in s
    ensures r.Some? ==> r.value < |s| && s[r.value] == x && x !in s[..r.value]
  {
    if s == [] then None
    else if s[0] == x then Some(0)
    else
      var rest := FirstIndex(s[1..], x);
      if rest.Some? then
        assert s[..rest.value + 1] == [s[0]] + s[1..][..rest.value];
        Some(rest.value + 1)
      else None
  }

  /** List.Remove: the first element equal to `x` is dropped; a list without
      one is left as it is. */
  function RemoveFirst<T(==)>(s: seq<T>, x: T): (r: seq<T>)
    ensures x !in s ==> r == s
    ensures x in s ==> var k := FirstIndex(s, x).value; r == s[..k] + s[k + 1..]
  {
    match FirstIndex(s, x)
    case None => s
    case Some(k) => s[..k] + s[k + 1..]
  }

  /** List.Remove of an element present drops exactly one occurrence of it. */
  lemma RemoveFirstDropsOne<T>(s: seq<T>, x: T)
    requires x in s
    ensures multiset(RemoveFirst(s, x)) == multiset(s) - multiset{x}
  {
    var k := FirstIndex(s, x).value;
    assert s == s[..k] + [x] + s[k + 1..];
  }

  /** Removing an element just appended, that was not there before, gives the
      list back. */
  lemma RemoveLastAdded<T>(s: seq<T>, x: T)
    requires x !in s
    ensures RemoveFirst(s + [x], x) == s
  {
    assert (s + [x])[..|s|] == s;
  }
}
