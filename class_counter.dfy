/** ClassCounter<T>: the two static counters a counted class T shares,
    held here by one object per counted class. Both are size_t, so both wrap
    around modulo 2^64. */
module ClassCounter {

  const SIZE_LIMIT: nat := 0x1_0000_0000_0000_0000

  type SizeT = x: int | 0 <= x < SIZE_LIMIT

  /** A size_t result of an unbounded computation. */
  function Wrap(x: int): (r: SizeT)
    ensures 0 <= x < SIZE_LIMIT ==> r == x
    ensures (r - x) % SIZE_LIMIT == 0
  {
    x % SIZE_LIMIT
  }

  class Counters {
    var count: SizeT     // m_count
    var howMany: SizeT   // m_how_many
    ghost var created: nat     // constructions so far
    ghost var destroyed: nat   // destructions so far
    ghost var atReset: int     // created - destroyed at the last reset (0 before any)

    /** howMany is constructions minus destructions, and count is the same
        since the last reset, both taken modulo 2^64. */
    ghost predicate Valid()
      reads this
    {
      howMany == Wrap(created - destroyed) && count == Wrap(created - destroyed - atReset)
    }

    /** The static initialisers: both counters start at 0. */
    constructor ()
      ensures Valid() && count == 0 && howMany == 0 && created == 0 && destroyed == 0
    {
      count, howMany := 0, 0;
      created, destroyed, atReset := 0, 0, 0;
    }

    /** The default and the copy constructor of a counted object: both
        counters go up by one. */
    method Construct()
      requires Valid()
      modifies this
      ensures Valid() && created == old(created) + 1 && destroyed == old(destroyed)
      ensures howMany == Wrap(old(howMany) + 1) && count == Wrap(old(count) + 1)
    {
      howMany := Wrap(howMany + 1);
      count := Wrap(count + 1);
      created := created + 1;
      WrapShift(old(created) - old(destroyed), 1);
      WrapShift(old(created) - old(destroyed) - atReset, 1);
    }

    /** The destructor of a counted object: both counters go down by one. */
    method Destruct()
      requires Valid()
      modifies this
      ensures Valid() && created == old(created) && destroyed == old(destroyed) + 1
      ensures howMany == Wrap(old(howMany) - 1) && count == Wrap(old(count) - 1)
    {
      howMany := Wrap(howMany - 1);
      count := Wrap(count - 1);
      destroyed := destroyed + 1;
      WrapShift(old(created) - old(destroyed), -1);
      WrapShift(old(created) - old(destroyed) - atReset, -1);
    }

    /** reset(): count goes back to 0; howMany is left as it is. */
    method Reset()
      requires Valid()
      modifies this
      ensures Valid() && count == 0 && howMany == old(howMany)
      ensures created == old(created) && destroyed == old(destroyed)
    {
      count := 0;
      atReset := created - destroyed;
    }

    /** count(): one less than m_count, in size_t, so 2^64 - 1 right after a
        reset. */
    function Count(): (c: SizeT)
      reads this
      ensures count > 0 ==> c + 1 == count
      ensures count == 0 ==> c == SIZE_LIMIT - 1
    {
      Wrap(count - 1)
    }

    /** howMany(): the instances alive, modulo 2^64. */
    function HowMany(): (h: SizeT)
      reads this
      ensures Valid() ==> h == Wrap(created - destroyed)
      ensures Valid() && destroyed <= created < destroyed + SIZE_LIMIT ==> h == created - destroyed
    {
      howMany
    }
  }

  /** Adding d before or after the wrap gives the same size_t. */
  lemma WrapShift(x: int, d: int)
    ensures Wrap(Wrap(x) + d) == Wrap(x + d)
  {
    var q := x / SIZE_LIMIT;
    assert x == q * SIZE_LIMIT + Wrap(x);
    assert x + d == q * SIZE_LIMIT + (Wrap(x) + d);
    ModuloShift(Wrap(x) + d, q);
  }

  /** Adding a multiple of 2^64 does not change the wrap. */
  lemma ModuloShift(y: int, q: int)
    ensures (q * SIZE_LIMIT + y) % SIZE_LIMIT == y % SIZE_LIMIT
  {
  }

  /** A construction undone by a destruction leaves both counters as they
      were. */
  lemma ConstructThenDestruct(count: SizeT, howMany: SizeT)
    ensures Wrap(Wrap(count + 1) - 1) == count && Wrap(Wrap(howMany + 1) - 1) == howMany
  {
    WrapShift(count + 1, -1);
    WrapShift(howMany + 1, -1);
  }
}
