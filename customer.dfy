/** A customer is one byte: the low nibble is the wait-time tolerance, the
    high nibble the id of the drink the customer wants. The byte-level
    functions below say what the getters read and what the setters write;
    the class `Customer` holds the byte and updates it in place. */
module Customers {

  /** Bits 0-3: wait-time tolerance. */
  const WaitTimeToleranceMask: bv8 := 0x0F
  /** Bits 4-7: desired drink id. */
  const DesiredDrinkIdMask: bv8 := 0xF0

  /** The two masks split the byte: they share no bit and together cover all eight. */
  lemma MasksPartitionByte()
    ensures WaitTimeToleranceMask & DesiredDrinkIdMask == 0
    ensures WaitTimeToleranceMask | DesiredDrinkIdMask == 0xFF
  {
  }

  /** What `wait_time` reads from the byte `b`: its low nibble. */
  function WaitTimeOf(b: bv8): (t: bv8)
    ensures t <= 15
    ensures t as int == b as int % 16
  {
    b & WaitTimeToleranceMask
  }

  /** What `desired_drink` reads from the byte `b`: its high nibble. */
  function DesiredDrinkOf(b: bv8): (d: bv8)
    ensures d <= 15
    ensures d as int == b as int / 16
  {
    (b & DesiredDrinkIdMask) >> 4
  }

  /** The byte `set_wait_time(time)` leaves: the low four bits of `time`
      replace the tolerance and the drink id stays. */
  function WithWaitTime(b: bv8, time: bv8): (r: bv8)
    ensures WaitTimeOf(r) == time & 0x0F
    ensures DesiredDrinkOf(r) == DesiredDrinkOf(b)
  {
    (b & !WaitTimeToleranceMask) | (time & 0x0F)
  }

  /** The byte `set_desired_drink(id)` leaves: the low four bits of `id`
      replace the drink id and the tolerance stays. */
  function WithDesiredDrink(b: bv8, id: bv8): (r: bv8)
    ensures DesiredDrinkOf(r) == id & 0x0F
    ensures WaitTimeOf(r) == WaitTimeOf(b)
  {
    (b & !DesiredDrinkIdMask) | ((id & 0x0F) << 4)
  }

  /** The byte is exactly its two fields put back together, so the fields
      determine the byte. */
  lemma ByteIsItsFields(b: bv8)
    ensures b == WaitTimeOf(b) | (DesiredDrinkOf(b) << 4)
  {
  }

  lemma FieldsDetermineByte(a: bv8, b: bv8)
    requires WaitTimeOf(a) == WaitTimeOf(b) && DesiredDrinkOf(a) == DesiredDrinkOf(b)
    ensures a == b
  {
    ByteIsItsFields(a);
    ByteIsItsFields(b);
  }

  /** Setting a field twice to the same value is setting it once. */
  lemma SettersIdempotent(b: bv8, time: bv8, id: bv8)
    ensures WithWaitTime(WithWaitTime(b, time), time) == WithWaitTime(b, time)
    ensures WithDesiredDrink(WithDesiredDrink(b, id), id) == WithDesiredDrink(b, id)
  {
    FieldsDetermineByte(WithWaitTime(WithWaitTime(b, time), time), WithWaitTime(b, time));
    FieldsDetermineByte(WithDesiredDrink(WithDesiredDrink(b, id), id), WithDesiredDrink(b, id));
  }

  /** The two setters touch disjoint bits, so their order does not matter. */
  lemma SettersCommute(b: bv8, time: bv8, id: bv8)
    ensures WithWaitTime(WithDesiredDrink(b, id), time) == WithDesiredDrink(WithWaitTime(b, time), id)
  {
    FieldsDetermineByte(WithWaitTime(WithDesiredDrink(b, id), time), WithDesiredDrink(WithWaitTime(b, time), id));
  }

  class Customer {
    var bits: bv8

    /** `Customer::new()`: the all-zero byte. */
    constructor ()
      ensures bits == 0
      ensures WaitTime() == 0 && DesiredDrink() == 0
    {
      bits := 0;
    }

    function WaitTime(): bv8
      reads this
    {
      WaitTimeOf(bits)
    }

    function DesiredDrink(): bv8
      reads this
    {
      DesiredDrinkOf(bits)
    }

    method SetWaitTime(time: bv8)
      modifies this
      ensures bits == WithWaitTime(old(bits), time)
      ensures WaitTime() == time & 0x0F
      ensures DesiredDrink() == old(DesiredDrink())
    {
      bits := (bits & !WaitTimeToleranceMask) | (time & 0x0F);
    }

    method SetDesiredDrink(id: bv8)
      modifies this
      ensures bits == WithDesiredDrink(old(bits), id)
      ensures DesiredDrink() == id & 0x0F
      ensures WaitTime() == old(WaitTime())
    {
      bits := (bits & !DesiredDrinkIdMask) | ((id & 0x0F) << 4);
    }
  }
}
