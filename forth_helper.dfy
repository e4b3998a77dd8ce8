/** Sizes, alignment and byte-order macros, word-header flags and the stack
    macros shared by the Forth virtual machine (src/forth/ForthHelper.hpp). */
module ForthHelper {

  /** Cells hold unsigned values of their width; the arithmetic that
      overflows in the machine is reduced modulo 2^width explicitly. */
  type Cell32 = x: int | 0 <= x < 0x1_0000_0000
  type Cell16 = x: int | 0 <= x < 0x1_0000
  type Cell8 = x: int | 0 <= x < 0x100

  /** Capacity of each stack, in cells. */
  const STACK_SIZE: nat := 1024
  /** Bytes reserved below each stack to absorb underflows. */
  const STACK_UNDERFLOW_MARGIN: nat := 8
  /** Capacity of the dictionary, in bytes. */
  const DICTIONARY_SIZE: nat := 64 * 1024
  const CELL16_MAX_VALUE: nat := 65535

  /** Every dictionary address is reachable with a 16-bit cell. */
  lemma DictionaryAddressesFit()
    ensures DICTIONARY_SIZE - 1 <= CELL16_MAX_VALUE
  {
  }

  // ----------------------------------------------------------------
  // Alignment
  // ----------------------------------------------------------------

  /** NEXT_MULTIPLE_OF_4 on a 32-bit value: x + 3, wrapped to 32 bits, with
      its two low bits cleared (the mask ~3). That is the least multiple of 4
      not below x, or 0 once x + 3 wraps around. */
  function NextMultipleOf4(x: Cell32): (r: Cell32)
    ensures x <= 0xFFFF_FFFC ==> r % 4 == 0 && x <= r < x + 4
    ensures x > 0xFFFF_FFFC ==> r == 0
  {
    var y := (x + 3) % 0x1_0000_0000;
    y - y % 4
  }

  /** NEXT_MULTIPLE_OF_2 on a 32-bit value: x + 1, wrapped to 32 bits, with
      its low bit cleared. That is the least even value not below x, or 0
      once x + 1 wraps around. */
  function NextMultipleOf2(x: Cell32): (r: Cell32)
    ensures x < 0xFFFF_FFFF ==> r % 2 == 0 && x <= r < x + 2
    ensures x == 0xFFFF_FFFF ==> r == 0
  {
    var y := (x + 1) % 0x1_0000_0000;
    y - y % 2
  }

  /** No multiple of 4 lies between x and NEXT_MULTIPLE_OF_4(x). */
  lemma NextMultipleOf4IsLeast(x: Cell32, m: int)
    requires x <= 0xFFFF_FFFC && m % 4 == 0 && x <= m
    ensures NextMultipleOf4(x) <= m
  {
  }

  /** NEXT_MULTIPLE_OF_4 leaves aligned values alone. */
  lemma NextMultipleOf4Aligned(x: Cell32)
    requires x % 4 == 0
    ensures NextMultipleOf4(x) == x
  {
  }

  // ----------------------------------------------------------------
  // Byte order
  // ----------------------------------------------------------------

  /** Byte i of x, byte 0 being the least significant. */
  function ByteAt(x: bv32, i: bv32): bv32
    requires i < 4
  {
    (x >> (8 * i)) & 0xFF
  }

  /** SWAP32: reverses the order of the four bytes of x. */
  function Swap32(x: bv32): (r: bv32)
    ensures ByteAt(r, 0) == ByteAt(x, 3) && ByteAt(r, 1) == ByteAt(x, 2)
    ensures ByteAt(r, 2) == ByteAt(x, 1) && ByteAt(r, 3) == ByteAt(x, 0)
  {
    ((x & 0xFF) << 24) | ((x & 0xFF00) << 8) | ((x & 0xFF0000) >> 8) | ((x >> 24) & 0xFF)
  }

  /** SWAP16: exchanges the two low bytes of x and drops the others. */
  function Swap16(x: bv32): (r: bv32)
    ensures r <= 0xFFFF
    ensures ByteAt(r, 0) == ByteAt(x, 1) && ByteAt(r, 1) == ByteAt(x, 0)
  {
    ((x & 0xFF) << 8) | ((x & 0xFF00) >> 8)
  }

  lemma Swap32Involution(x: bv32)
    ensures Swap32(Swap32(x)) == x
  {
  }

  lemma Swap16Involution(x: bv32)
    requires x <= 0xFFFF
    ensures Swap16(Swap16(x)) == x
  {
  }

  // ----------------------------------------------------------------
  // Word header flags
  // ----------------------------------------------------------------

  const FLAG_PRECEDENCE: Cell8 := 0x80
  const FLAG_IMMEDIATE: Cell8 := 0x40
  const FLAG_SMUDGE: Cell8 := 0x20
  const MASK_FORTH_NAME_SIZE: Cell8 := 0x1F
  const MASK_FORTH_FLAGS: Cell8 := 0x7F

  // The header byte is a bit field; its masks are read here as the
  // digits of the byte in base 2.

  /** Length of the word name stored in the low five bits of a header byte
      (header & MASK_FORTH_NAME_SIZE). */
  function NameSize(header: Cell8): (n: nat)
    ensures n < 32
  {
    header % 0x20
  }

  /** header & FLAG_IMMEDIATE is set. */
  predicate IsImmediate(header: Cell8) {
    header / 0x40 % 2 == 1
  }

  /** header & FLAG_SMUDGE is set. */
  predicate IsSmudged(header: Cell8) {
    header / 0x20 % 2 == 1
  }

  /** The two flag tests are the masks FLAG_IMMEDIATE and FLAG_SMUDGE
      applied to the bits of the header. */
  lemma FlagMasks(header: Cell8)
    ensures IsImmediate(header) <==> (header as bv8) & 0x40 != 0
    ensures IsSmudged(header) <==> (header as bv8) & 0x20 != 0
  {
  }

  /** The byte with bits 5 to 7 set to q and name-length bits n. */
  lemma HeaderOf(q: nat, n: nat)
    requires q < 8 && n < 0x20
    ensures var h := 0x20 * q + n;
            h / 0x20 == q && h % 0x20 == n && h / 0x40 == q / 2 && h / 0x80 == q / 4
  {
  }

  /** header | FLAG_IMMEDIATE: the flags and the name length occupy separate
      bits, so setting IMMEDIATE alters neither the name length, nor SMUDGE,
      nor the precedence bit, and leaves an immediate header as it is. */
  function SetImmediate(header: Cell8): (r: Cell8)
    ensures IsImmediate(r) && (IsImmediate(header) ==> r == header)
    ensures NameSize(r) == NameSize(header) && IsSmudged(r) == IsSmudged(header)
    ensures r / 0x80 == header / 0x80
  {
    var q, n := header / 0x20, header % 0x20;
    HeaderOf(q, n);
    if q / 2 % 2 == 1 then header
    else
      HeaderOf(q + 2, n);
      header + 0x40
  }

  /** header ^ FLAG_SMUDGE: flips SMUDGE and alters neither the name
      length, nor IMMEDIATE, nor the precedence bit. */
  function ToggleSmudge(header: Cell8): (r: Cell8)
    ensures IsSmudged(r) == !IsSmudged(header)
    ensures NameSize(r) == NameSize(header) && IsImmediate(r) == IsImmediate(header)
    ensures r / 0x80 == header / 0x80
  {
    var q, n := header / 0x20, header % 0x20;
    HeaderOf(q, n);
    var q' := if q % 2 == 1 then q - 1 else q + 1;
    HeaderOf(q', n);
    0x20 * q' + n
  }

  /** The header byte of a new word, FLAG_PRECEDENCE | flags | len: the
      historical precedence bit, the flags given to the dictionary (which
      leave the name-length bits clear), and the name length. */
  function HeaderByte(flags: Cell8, len: nat): (h: Cell8)
    requires NameSize(flags) == 0 && len < 32
    ensures NameSize(h) == len
    ensures h >= FLAG_PRECEDENCE
    ensures IsImmediate(h) == IsImmediate(flags) && IsSmudged(h) == IsSmudged(flags)
  {
    (if flags >= FLAG_PRECEDENCE then flags else flags + FLAG_PRECEDENCE) + len
  }

  /** Toggling SMUDGE twice restores the byte. */
  lemma ToggleSmudgeTwice(h: Cell8)
    ensures ToggleSmudge(ToggleSmudge(h)) == h
  {
  }

  // ----------------------------------------------------------------
  // Interpreter state
  // ----------------------------------------------------------------

  datatype ForthState = Interprete | Compile | Comment {
    /** The enumerator's value, as the STATE word pushes it. */
    function Code(): (c: Cell32)
      ensures c == 0 <==> Interprete?
      ensures c == 1 <==> Compile?
      ensures c == 2 <==> Comment?
    {
      match this
      case Interprete => 0
      case Compile => 1
      case Comment => 2
    }
  }

  // ----------------------------------------------------------------
  // Stacks
  // ----------------------------------------------------------------

  /** A stack of 32-bit cells with its stack pointer, as the DPUSH/DDROP/
      DPOP/DPICK macros (and their A- and R- twins) use it. The pointer is the
      index of the first free cell. */
  class CellStack {
    const cells: array<Cell32>
    var sp: nat

    ghost predicate Valid()
      reads this
    {
      sp <= cells.Length
    }

    /** The cells from the bottom of the stack up to its top. */
    ghost function Contents(): seq<Cell32>
      reads this, cells
      requires Valid()
    {
      cells[..sp]
    }

    constructor (capacity: nat)
      ensures Valid() && fresh(cells) && cells.Length == capacity && Contents() == []
    {
      cells := new Cell32[capacity];
      sp := 0;
    }

    /** DPUSH(n): stores n above the top. */
    method Push(n: Cell32)
      requires Valid() && sp < cells.Length
      modifies this, cells
      ensures Valid() && Contents() == old(Contents()) + [n]
    {
      cells[sp] := n;
      sp := sp + 1;
    }

    /** DDROP() and DPOP(r): removes the top and yields it. */
    method Pop() returns (r: Cell32)
      requires Valid() && 0 < sp
      modifies this
      ensures Valid() && old(Contents()) == Contents() + [r]
    {
      sp := sp - 1;
      r := cells[sp];
    }

    /** Removes the cell n places below the top by copying each cell above
        it one place down, from that cell upwards, then dropping the top: the
        array step of the corrected ROLL (ForthMachine.Roll). */
    method Remove(n: nat)
      requires Valid() && n < sp
      modifies this, cells
      ensures Valid() && sp == old(sp) - 1
      ensures Contents() == old(Contents()[..sp - 1 - n] + Contents()[sp - n..])
    {
      var dst := sp - 1 - n;
      while dst < sp - 1
        invariant sp - 1 - n <= dst <= sp - 1 && sp == old(sp)
        invariant cells[..sp - 1 - n] == old(cells[..sp - 1 - n])
        invariant cells[sp - 1 - n..dst] == old(cells[sp - n..dst + 1])
        invariant cells[dst..] == old(cells[dst..])
        modifies cells
      {
        cells[dst] := cells[dst + 1];
        dst := dst + 1;
      }
      assert cells[..sp - 1] == cells[..sp - 1 - n] + cells[sp - 1 - n..sp - 1];
      sp := sp - 1;
    }

    /** DPICK(n): the cell n places below the top; DPICK(0) is the top. */
    function Pick(n: nat): (r: Cell32)
      reads this, cells
      requires Valid() && n < sp
      ensures r == Contents()[|Contents()| - 1 - n]
    {
      cells[sp - n - 1]
    }
  }
}
