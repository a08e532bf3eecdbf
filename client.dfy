/** Entities/Client.cs: a bank client, built step by step by a ClientBuilder.
    The client is also an observer of banks; its observer identity is its
    passport number. */
module Clients {
  import opened Common
  import opened Passports

  /** char.IsWhiteSpace: the Unicode space, line and paragraph separators and
      the control characters U+0009..U+000D, U+0085. */
  predicate IsWhiteSpace(c: char) {
    ('\U{0009}' <= c <= '\U{000D}') || c == ' ' || c == '\U{0085}' || c == '\U{00A0}'
    || c == '\U{1680}' || ('\U{2000}' <= c <= '\U{200A}') || c == '\U{2028}' || c == '\U{2029}'
    || c == '\U{202F}' || c == '\U{205F}' || c == '\U{3000}'
  }

  /** string.IsNullOrWhiteSpace for a string that is present. */
  predicate IsNullOrWhiteSpace(s: string) {
    forall i :: 0 <= i < |s| ==> IsWhiteSpace(s[i])
  }

  /** The check Build makes before it creates a client. */
  function BuildCheck(name: string, surname: string): (o: Outcome)
    ensures o.Pass? <==> !IsNullOrWhiteSpace(name) && !IsNullOrWhiteSpace(surname)
    ensures o.Fail? ==> o.error == DataNotSpecified
  {
    if IsNullOrWhiteSpace(name) || IsNullOrWhiteSpace(surname) then Fail(DataNotSpecified) else Pass
  }

  class Client {
    const name: string
    const surname: string
    var address: Option<string>
    var passport: Option<PassportNumber>

    /** The private constructor Build calls. */
    constructor (name: string, surname: string, address: Option<string>, passport: Option<PassportNumber>)
      ensures this.name == name && this.surname == surname
      ensures this.address == address && this.passport == passport
    {
      this.name := name;
      this.surname := surname;
      this.address := address;
      this.passport := passport;
    }

    /** The observer identity: the passport number, absent when there is none. */
    function Id(): (r: Option<PassportNumber>)
      reads this
      ensures r.Some? <==> passport.Some?
      ensures r.Some? ==> r.value == passport.value
    {
      passport
    }

    /** Replaces the address (the blank check is discarded, so any string is taken). */
    method ChangeAddress(newAddress: string)
      modifies this`address
      ensures address == Some(newAddress)
    {
      address := Some(newAddress);
    }

    method ChangePassportNumber(newPassport: PassportNumber)
      modifies this`passport
      ensures passport == Some(newPassport)
    {
      passport := Some(newPassport);
    }
  }

  class ClientBuilder {
    var name: string
    var surname: string
    var address: Option<string>
    var passport: Option<PassportNumber>

    constructor ()
      ensures name == "" && surname == "" && address == None && passport == None
    {
      name := "";
      surname := "";
      address := None;
      passport := None;
    }

    /** Sets the name without validating it and returns the same builder. */
    method AddName(newName: string) returns (b: ClientBuilder)
      modifies this`name
      ensures b == this && name == newName
    {
      name := newName;
      b := this;
    }

    method AddSurname(newSurname: string) returns (b: ClientBuilder)
      modifies this`surname
      ensures b == this && surname == newSurname
    {
      surname := newSurname;
      b := this;
    }

    method AddAddress(newAddress: string) returns (b: ClientBuilder)
      modifies this`address
      ensures b == this && address == Some(newAddress)
    {
      address := Some(newAddress);
      b := this;
    }

    /** Builds the passport number first, so an invalid number throws and
        leaves the builder as it was. */
    method AddPassportNumber(n: int) returns (r: Result<ClientBuilder>)
      modifies this`passport
      ensures ValidationCheck(n) ==> r == Ok(this) && passport == Some(PassportNumber(n))
      ensures !ValidationCheck(n) ==> r == Err(InvalidPassport) && passport == old(passport)
    {
      var p := NewPassportNumber(n);
      if p.Err? {
        return Err(p.error);
      }
      passport := Some(p.value);
      r := Ok(this);
    }

    /** Fails unless both the name and the surname hold a non-blank character;
        otherwise creates a client carrying exactly the builder's fields. */
    method Build() returns (r: Result<Client>)
      ensures r.Err? <==> BuildCheck(name, surname).Fail?
      ensures r.Err? ==> r.error == DataNotSpecified
      ensures r.Ok? ==> fresh(r.value)
      ensures r.Ok? ==> r.value.name == name && r.value.surname == surname
      ensures r.Ok? ==> r.value.address == address && r.value.passport == passport
    {
      var check := BuildCheck(name, surname);
      if check.Fail? {
        return Err(check.error);
      }
      var c := new Client(name, surname, address, passport);
      r := Ok(c);
    }
  }

  /** The builder starts blank, so building before AddName and AddSurname fails. */
  method BuildWithoutNames() returns (r: Result<Client>)
    ensures r == Err(DataNotSpecified)
  {
    var b := new ClientBuilder();
    r := b.Build();
  }

  /** The scenario of the repository's test RequiredClientDataIsNotSpecified:
      an address, a passport and a name but no surname. */
  method RequiredClientDataIsNotSpecified() returns (r: Result<Client>)
    ensures r == Err(DataNotSpecified)
  {
    var b := new ClientBuilder();
    b := b.AddAddress("Lomonosova street, 9");
    NonNegativeValidRange(8888111111);
    var withPassport := b.AddPassportNumber(8888111111);
    b := withPassport.value;
    b := b.AddName("Alisa");
    r := b.Build();
  }
}
