/** A player is one byte: bits 0-1 hold the level, bits 2-7 (the
    customers-served mask) hold the number of customers served. The player
    is created once and never changed, so it is a value here. */
module Players {

  /** Bits 0-1: level. */
  const LevelMask: bv8 := 0x03
  /** Bits 2-7: customers served, meant to count up to 63. */
  const CustomersServedMask: bv8 := 0xFC

  /** The two masks split the byte: they share no bit and together cover all eight. */
  lemma MasksPartitionByte()
    ensures LevelMask & CustomersServedMask == 0
    ensures LevelMask | CustomersServedMask == 0xFF
  {
  }

  datatype Player = Player(bits: bv8) {

    /** `level()`: the two low bits. */
    function Level(): (l: bv8)
      ensures l <= 3
      ensures l as int == bits as int % 4
    {
      bits & LevelMask
    }

    /** `customers_served()` as the code has it: the masked byte shifted
        right by 6, which keeps only bits 6-7 of the six-bit field. */
    function CustomersServedAsWritten(): (n: bv8)
      ensures n <= 3
      ensures n as int == bits as int / 64
    {
      (bits & CustomersServedMask) >> 6
    }

    /** `customers_served()` as the mask and its "up to 63" intend: the
        masked byte shifted right by 2, the width of the level field. */
    function CustomersServed(): (n: bv8)
      ensures n <= 63
      ensures n as int == bits as int / 4
    {
      (bits & CustomersServedMask) >> 2
    }
  }

  /** `Player::new()`: level 0, nobody served. */
  function NewPlayer(): (p: Player)
    ensures p.Level() == 0
    ensures p.CustomersServed() == 0 && p.CustomersServedAsWritten() == 0
  {
    Player(0)
  }

  /** The level depends on bits 0-1 only. */
  lemma LevelReadsLowBitsOnly(a: Player, b: Player)
    requires a.bits & 0x03 == b.bits & 0x03
    ensures a.Level() == b.Level()
  {
  }

  /** With the intended shift the two getters decode the byte completely:
      every level below 4 and every count below 64 can be stored and read back,
      and two players that read the same are the same byte. */
  lemma CustomersServedRoundTrip(level: bv8, served: bv8)
    requires level <= 3 && served <= 63
    ensures Player((served << 2) | level).Level() == level
    ensures Player((served << 2) | level).CustomersServed() == served
  {
  }

  lemma PlayerFieldsDetermineByte(a: Player, b: Player)
    requires a.Level() == b.Level() && a.CustomersServed() == b.CustomersServed()
    ensures a == b
  {
  }

  /** As written, a player who has served one customer (the count 1 stored
      in the customers-served field) reads as having served none, and a full
      field (63) reads as 3: two different bytes read the same. */
  lemma CustomersServedAsWrittenLosesCount()
    ensures Player(1 << 2).CustomersServedAsWritten() == 0
    ensures Player(1 << 2).CustomersServed() == 1
    ensures Player(0xFC).CustomersServedAsWritten() == 3
    ensures Player(0xFC).CustomersServed() == 63
    ensures Player(0).Level() == Player(1 << 2).Level()
    ensures Player(0).CustomersServedAsWritten() == Player(1 << 2).CustomersServedAsWritten()
  {
  }
}
