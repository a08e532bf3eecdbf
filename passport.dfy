/** Models/PassportNumber.cs: a passport number is valid when its decimal
    string form has exactly ten characters. */
module Passports {
  import opened Common

  const DigitsCount: nat := 10

  /** Number of decimal digits of n (the number 0 has one digit). */
  function DecimalLength(n: nat): (r: nat)
    ensures r >= 1
  {
    if n < 10 then 1 else 1 + DecimalLength(n / 10)
  }

  function Pow10(k: nat): (p: nat)
    ensures p >= 1
  {
    if k == 0 then 1 else 10 * Pow10(k - 1)
  }

  /** Length of the string that decimal.ToString() gives for an integral n:
      its digits, and a leading minus sign when n is negative. */
  function ToStringLength(n: int): nat {
    if n < 0 then 1 + DecimalLength(-n) else DecimalLength(n)
  }

  /** PassportNumber.ValidationCheck */
  predicate ValidationCheck(n: int) {
    ToStringLength(n) == DigitsCount
  }

  /** The record; `id` is the number it was built from. */
  datatype PassportNumber = PassportNumber(id: int)

  /** The validating constructor: it throws on an invalid number and otherwise
      keeps the number as given. */
  function NewPassportNumber(n: int): (r: Result<PassportNumber>)
    ensures r.Ok? <==> ValidationCheck(n)
    ensures r.Ok? ==> r.value.id == n
    ensures r.Err? ==> r.error == InvalidPassport
  {
    if ValidationCheck(n) then Ok(PassportNumber(n)) else Err(InvalidPassport)
  }

  /** A number has more than k digits (k >= 1) exactly when it reaches 10^k. */
  lemma {:induction false} DecimalLengthExceeds(n: nat, k: nat)
    requires k >= 1
    ensures DecimalLength(n) > k <==> n >= Pow10(k)
  {
    if n < 10 {
      assert Pow10(k) >= 10 by { PowAtLeastTen(k); }
    } else if k == 1 {
      assert DecimalLength(n) == 1 + DecimalLength(n / 10);
    } else {
      DecimalLengthExceeds(n / 10, k - 1);
      DivTenBound(n, Pow10(k - 1));
    }
  }

  lemma {:induction false} PowAtLeastTen(k: nat)
    requires k >= 1
    ensures Pow10(k) >= 10
  {
    if k > 1 { PowAtLeastTen(k - 1); }
  }

  lemma DivTenBound(n: nat, p: nat)
    ensures n / 10 >= p <==> n >= 10 * p
  {
  }

  /** For a non-negative number, validity means exactly ten digits:
      1000000000 <= n <= 9999999999. */
  lemma NonNegativeValidRange(n: nat)
    ensures ValidationCheck(n) <==> 1000000000 <= n <= 9999999999
  {
    DecimalLengthExceeds(n, 9);
    DecimalLengthExceeds(n, 10);
    assert Pow10(9) == 1000000000;
    assert Pow10(10) == 10000000000;
  }

  /** A negative number is valid when it has nine digits: the minus sign is
      the tenth character. */
  lemma NegativeValidRange(n: int)
    requires n < 0
    ensures ValidationCheck(n) <==> -999999999 <= n <= -100000000
  {
    DecimalLengthExceeds(-n, 8);
    DecimalLengthExceeds(-n, 9);
    assert Pow10(8) == 100000000;
    assert Pow10(9) == 1000000000;
  }

  /** 0 is not a valid passport number (it has one digit). */
  lemma ZeroIsInvalid()
    ensures !ValidationCheck(0)
    ensures NewPassportNumber(0) == Err(InvalidPassport)
  {
  }
}
