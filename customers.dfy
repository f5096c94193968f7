/**
 * Customer, RegularCustomer and PremiumCustomer: one class with a kind.
 * Ids are "CUS" + `%03d` of a shared counter that file-loaded ids can raise.
 */
module Customers {
  import opened Errors
  import opened Text
  import opened Money
  import opened Counters

  datatype CustomerKind = Regular | Premium

  const NameMessage: string := "Customer name cannot be null or empty"
  const AgeMessage: string := "Customer age must be between 18 and 120"
  const ContactMessage: string := "Customer contact cannot be null or empty"
  const AddressMessage: string := "Customer address cannot be null or empty"

  function CustomerId(n: nat): string
  {
    PrefixedId("CUS", n)
  }

  /** The number in a "CUS<n>" id, when the rest parses as an integer. */
  function IdNumber(customerId: string): Option<int>
  {
    if StartsWith(customerId, "CUS") then ParseInt(customerId[3..]) else None
  }

  /**
   * A generated id carries the counter value it was made from; past the
   * 32-bit range its number no longer parses.
   */
  lemma IdNumberOfCustomerId(n: nat)
    ensures IdNumber(CustomerId(n)) == if n <= MaxInt then Some(n) else None
  {
    assert CustomerId(n)[3..] == Format3(n);
    ParseIntFormat3(n);
  }

  /**
   * Once the counter has been raised past a loaded id "CUS<n>", the next
   * generated id differs from it.
   */
  lemma NextIdAvoidsLoaded(loaded: string, counter: nat)
    requires IdNumber(loaded).Some? && IdNumber(loaded).value <= counter
    ensures CustomerId(counter + 1) != loaded
  {
    IdNumberOfCustomerId(counter + 1);
  }

  class Customer {
    const id: string
    const kind: CustomerKind
    var name: string
    var age: int
    var contact: string
    var address: string
    /** PremiumCustomer.minimumBalance; 0 until set. */
    var minimumBalance: Cents

    constructor Make(id: string, kind: CustomerKind, name: string, age: int, contact: string, address: string)
      ensures this.id == id && this.kind == kind && this.name == name && this.age == age
      ensures this.contact == contact && this.address == address && minimumBalance == 0
    {
      this.id := id;
      this.kind := kind;
      this.name := name;
      this.age := age;
      this.contact := contact;
      this.address := address;
      minimumBalance := 0;
    }

    /**
     * The validating constructor. Checks name, age, contact and address in
     * that order; only a customer that passes takes the next id, with the
     * text fields trimmed.
     */
    static method Create(kind: CustomerKind, name: string, age: int, contact: string, address: string,
                         ids: Counter)
      returns (r: Result<Customer>)
      modifies ids
      ensures IsBlank(name) ==> r == Err(IllegalArgument(NameMessage))
      ensures !IsBlank(name) && (age < 18 || age > 120) ==> r == Err(IllegalArgument(AgeMessage))
      ensures !IsBlank(name) && 18 <= age <= 120 && IsBlank(contact) ==> r == Err(IllegalArgument(ContactMessage))
      ensures !IsBlank(name) && 18 <= age <= 120 && !IsBlank(contact) && IsBlank(address) ==>
                r == Err(IllegalArgument(AddressMessage))
      ensures r.Ok? <==> !IsBlank(name) && 18 <= age <= 120 && !IsBlank(contact) && !IsBlank(address)
      ensures r.Err? ==> ids.value == old(ids.value)
      ensures r.Ok? ==> ids.value == old(ids.value) + 1 && fresh(r.value)
      ensures r.Ok? ==> r.value.id == CustomerId(ids.value) && r.value.kind == kind && r.value.age == age
      ensures r.Ok? ==> r.value.name == Trim(name) && r.value.contact == Trim(contact) && r.value.address == Trim(address)
      ensures r.Ok? ==> r.value.minimumBalance == 0
    {
      if IsBlank(name) {
        return Err(IllegalArgument(NameMessage));
      }
      if age < 18 || age > 120 {
        return Err(IllegalArgument(AgeMessage));
      }
      if IsBlank(contact) {
        return Err(IllegalArgument(ContactMessage));
      }
      if IsBlank(address) {
        return Err(IllegalArgument(AddressMessage));
      }
      var n := ids.Next();
      var c := new Customer.Make(CustomerId(n), kind, Trim(name), age, Trim(contact), Trim(address));
      r := Ok(c);
    }

    /**
     * The file-loading constructor: no validation, the given id is kept, and
     * the counter is raised to the id's number when it is "CUS<n>".
     */
    static method CreateFromFile(kind: CustomerKind, name: string, age: int, contact: string, address: string,
                                 customerId: string, ids: Counter)
      returns (c: Customer)
      modifies ids
      ensures fresh(c) && c.id == customerId && c.kind == kind && c.age == age
      ensures c.name == Trim(name) && c.contact == Trim(contact) && c.address == Trim(address)
      ensures IdNumber(customerId).Some? && IdNumber(customerId).value > old(ids.value) ==>
                ids.value == IdNumber(customerId).value
      ensures !(IdNumber(customerId).Some? && IdNumber(customerId).value > old(ids.value)) ==>
                ids.value == old(ids.value)
      ensures IdNumber(customerId).Some? ==> IdNumber(customerId).value <= ids.value
    {
      c := new Customer.Make(customerId, kind, Trim(name), age, Trim(contact), Trim(address));
      var number := IdNumber(customerId);
      if number.Some? {
        ids.RaiseTo(number.value);
      }
    }

    method SetName(name: string)
      modifies this
      ensures this.name == name && age == old(age) && contact == old(contact) && address == old(address)
      ensures minimumBalance == old(minimumBalance)
    {
      this.name := name;
    }

    method SetAge(age: int)
      modifies this
      ensures this.age == age && name == old(name) && contact == old(contact) && address == old(address)
      ensures minimumBalance == old(minimumBalance)
    {
      this.age := age;
    }

    method SetContact(contact: string)
      modifies this
      ensures this.contact == contact && name == old(name) && age == old(age) && address == old(address)
      ensures minimumBalance == old(minimumBalance)
    {
      this.contact := contact;
    }

    method SetAddress(address: string)
      modifies this
      ensures this.address == address && name == old(name) && age == old(age) && contact == old(contact)
      ensures minimumBalance == old(minimumBalance)
    {
      this.address := address;
    }

    /** getCustomerType. */
    function CustomerType(): (t: string)
      ensures t == "Premium" <==> kind == Premium
      ensures kind == Regular ==> t == "Regular"
    {
      if kind == Premium then "Premium" else "Regular"
    }

    /** PremiumCustomer.hasWaivedFees: premium customers never pay the monthly fee. */
    function HasWaivedFees(): (waived: bool)
      requires kind == Premium
      ensures waived
    {
      true
    }

    /** PremiumCustomer.setMinimumBalance: only a positive amount is stored. */
    method SetMinimumBalance(amount: Cents) returns (stored: bool)
      requires kind == Premium
      modifies this
      ensures stored <==> amount > 0
      ensures minimumBalance == if amount > 0 then amount else old(minimumBalance)
      ensures name == old(name) && age == old(age) && contact == old(contact) && address == old(address)
    {
      if amount > 0 {
        minimumBalance := amount;
        return true;
      }
      return false;
    }
  }
}
