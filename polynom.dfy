/** Polynom: a vector of coefficients that grows, filled with zeros, when a
    coefficient past its end is asked for. The coefficient values are left
    abstract: `zero` stands for 0.0. */
module Polynom {

  const UINT32_LIMIT: nat := 0x1_0000_0000

  type UInt32 = x: int | 0 <= x < UINT32_LIMIT

  /** n copies of zero. */
  function Zeros<T>(zero: T, n: nat): (z: seq<T>)
    ensures |z| == n && forall i :: 0 <= i < n ==> z[i] == zero
  {
    if n == 0 then [] else Zeros(zero, n - 1) + [zero]
  }

  /** How many zeros the mutable operator[] appends for index nth on a vector
      of `size` coefficients: the size is read into a uint32_t, and so is the
      count nth - s + 1. Away from the wrap, nothing is added for an index
      inside the vector, and just enough to reach nth otherwise. */
  function ZerosAdded(size: nat, nth: nat): (k: UInt32)
    ensures size < UINT32_LIMIT && nth < size ==> k == 0
    ensures size < UINT32_LIMIT && size <= nth && nth + 1 < UINT32_LIMIT ==> size + k == nth + 1
  {
    var s := size % UINT32_LIMIT;
    if nth >= s then (nth - s + 1) % UINT32_LIMIT else 0
  }

  /** The coefficients after the mutable operator[] at nth: the old ones,
      untouched, followed by zeros only. */
  function Grown<T>(coefs: seq<T>, zero: T, nth: nat): (g: seq<T>)
    ensures |coefs| <= |g| && g[..|coefs|] == coefs
    ensures forall i :: |coefs| <= i < |g| ==> g[i] == zero
  {
    coefs + Zeros(zero, ZerosAdded(|coefs|, nth))
  }

  /** Away from the uint32_t wrap, the mutable operator[] grows the vector to
      exactly nth + 1 coefficients when nth is past its end, keeps it as it is
      otherwise, never changes an existing coefficient, and the new ones are
      zero. */
  lemma GrownCoefficients<T>(coefs: seq<T>, zero: T, nth: nat)
    requires |coefs| < UINT32_LIMIT && nth + 1 < UINT32_LIMIT
    ensures var g := Grown(coefs, zero, nth);
            |g| == if nth < |coefs| then |coefs| else nth + 1
    ensures var g := Grown(coefs, zero, nth);
            g[..|coefs|] == coefs && forall i :: |coefs| <= i < |g| ==> g[i] == zero
    ensures nth < |Grown(coefs, zero, nth)|
  {
    var g := Grown(coefs, zero, nth);
    assert g[..|coefs|] == coefs;
  }

  /** Growing for an index already inside the vector changes nothing. */
  lemma GrownInside<T>(coefs: seq<T>, zero: T, nth: nat)
    requires nth < |coefs| < UINT32_LIMIT
    ensures Grown(coefs, zero, nth) == coefs
  {
    assert Zeros(zero, 0) == [];
  }

  /** Asking twice for the same index grows the vector once. */
  lemma GrownIdempotent<T>(coefs: seq<T>, zero: T, nth: nat)
    requires |coefs| < UINT32_LIMIT && nth + 1 < UINT32_LIMIT
    ensures Grown(Grown(coefs, zero, nth), zero, nth) == Grown(coefs, zero, nth)
  {
    GrownCoefficients(coefs, zero, nth);
    GrownInside(Grown(coefs, zero, nth), zero, nth);
  }

  class Polynom<T> {
    var coefs: seq<T>  // m_coefs
    const zero: T      // the 0.0 the vector is filled with

    /** Polynom(nth): exactly nth coefficients, all zero. */
    constructor (nth: nat, zero: T)
      ensures coefs == Zeros(zero, nth) && this.zero == zero
    {
      var c: seq<T> := [];
      var i: nat := nth;
      while i > 0
        invariant i <= nth && c == Zeros(zero, nth - i)
      {
        c := c + [zero];
        i := i - 1;
      }
      this.zero := zero;
      coefs := c;
    }

    /** degree(): the number of coefficients, as a uint32_t. */
    function Degree(): (d: UInt32)
      reads this
      ensures |coefs| < UINT32_LIMIT ==> d == |coefs|
      ensures d < |coefs| ==> |coefs| >= UINT32_LIMIT
    {
      |coefs| % UINT32_LIMIT
    }

    /** The mutable operator[]: appends the zeros ZerosAdded counts, one at a
        time, then gives the coefficient at nth. The access afterwards has no
        bounds check, so the caller must ask for an index the growth reaches. */
    method At(nth: nat) returns (c: T)
      requires nth < |Grown(coefs, zero, nth)|
      modifies this
      ensures coefs == Grown(old(coefs), zero, nth) && c == coefs[nth]
    {
      var s := |coefs| % UINT32_LIMIT;
      if nth >= s {
        var i: nat := (nth - s + 1) % UINT32_LIMIT;
        ghost var added := i;
        while i > 0
          invariant i <= added && coefs == old(coefs) + Zeros(zero, added - i)
        {
          coefs := coefs + [zero];
          i := i - 1;
        }
      }
      assert Zeros(zero, 0) == [] ==> old(coefs) + [] == old(coefs);
      c := coefs[nth];
    }

    /** Writing v through the reference the mutable operator[] gives. */
    method SetAt(nth: nat, v: T)
      requires nth < |Grown(coefs, zero, nth)|
      modifies this
      ensures coefs == Grown(old(coefs), zero, nth)[nth := v]
    {
      var _ := At(nth);
      coefs := coefs[nth := v];
    }

    /** The const operator[]: no growth and no bounds check. Inside the
        vector it reads what the mutable operator[] would give. */
    function Get(nth: nat): (c: T)
      reads this
      requires nth < |coefs|
      ensures c == Grown(coefs, zero, nth)[nth]
    {
      assert Grown(coefs, zero, nth)[..|coefs|] == coefs;
      coefs[nth]
    }
  }

  /** With a uint32_t wrap, the mutable operator[] as written on an empty
      vector appends nothing for index 2^32 - 1, so the access after it is
      out of range. */
  lemma AtWrapsAsWritten<T>(zero: T)
    ensures ZerosAdded(0, UINT32_LIMIT - 1) == 0
    ensures |Grown([], zero, UINT32_LIMIT - 1)| == 0
  {
  }
}
