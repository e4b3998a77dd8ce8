/** The abstract state of the Forth virtual machine and one transition per
    primitive behaviour, shared by the two snapshots of `Forth::execPrimitive`
    (src/SimForth/Forth/ForthPrimitives.cpp and src/forth/ForthPrimitives.cpp).

    The data stack is kept as the C++ code keeps it: the cells of the stack
    array (`ds`) plus the cached top-of-stack register (`tos`), so the stack a
    Forth program sees is `ds + [tos]`. Each function below is written in the
    order of the macro calls of its case (DPUSH, DPOP, RPUSH, ...) and its
    contract states the documented stack effect on that logical stack. */
module ForthMachine {
  import opened Wrappers
  import opened ForthHelper
  import opened DictionaryModel

  /** The exceptions a primitive can throw. */
  datatype ForthError =
    | UnknownPrimitive(id: Cell16)        // the id names no primitive
    | TruncatedStream                     // no word left in the input stream
    | UnknownWord(word: string)           // a word the dictionary does not hold
    | UnbalancedDefinition(word: string)  // `;` found a different stack depth than `:`
    | DictionaryFault(error: DictError)   // an access or entry the dictionary refused

  /** A dictionary address up to and including its end. */
  type Extent = x: nat | x <= DICTIONARY_SIZE

  /** What `:` remembers for `;`: the word being defined, the dictionary
      cursors and the stack depth before its header was added. */
  datatype ColonMark = ColonMark(word: string, last: Cell16, here: Extent, depth: nat)

  datatype Machine = Machine(
    ds: seq<Cell32>,       // the data stack array, bottom first
    tos: Cell32,           // the cached top of the data stack
    rs: seq<Cell32>,       // the return stack array, bottom first
    ip: Cell16,            // the instruction pointer
    state: ForthState,
    saved: ForthState,     // the single saved-state slot used by `(` and `)`
    dict: DictState,
    base: Cell32,          // the display base
    trace: bool,
    input: seq<string>,    // the words still to be read from the input stream
    colon: ColonMark)
  {
    predicate Valid() {
      |ds| <= STACK_SIZE && |rs| <= STACK_SIZE && dict.Valid()
    }

    /** The data stack as the Forth program sees it. */
    function Logical(): seq<Cell32> {
      ds + [tos]
    }

    /** Room for k more cells in the data stack array. */
    predicate Room(k: nat) {
      |ds| + k <= STACK_SIZE
    }
  }

  /** The outcome of one primitive: the state it leaves, and the exception
      it throws, if any. A throwing primitive leaves the effects it had
      already made before the throw. */
  datatype Transition = Transition(next: Machine, thrown: Option<ForthError>)

  function Ok(m: Machine): Transition {
    Transition(m, None)
  }

  function Throw(m: Machine, e: ForthError): Transition {
    Transition(m, Some(e))
  }

  // ----------------------------------------------------------------
  // Cell arithmetic as the C++ casts perform it
  // ----------------------------------------------------------------

  /** The 32-bit cell a C++ integer result is stored as: its value modulo
      2^32. */
  function Wrap(x: int): (r: Cell32)
    ensures 0 <= x < 0x1_0000_0000 ==> r == x
    ensures (r - x) % 0x1_0000_0000 == 0
  {
    x % 0x1_0000_0000
  }

  /** The 16-bit cell `m_ip += ...` leaves: the sum modulo 2^16. */
  function Wrap16(x: int): (r: Cell16)
    ensures 0 <= x < 0x1_0000 ==> r == x
    ensures (r - x) % 0x1_0000 == 0
  {
    x % 0x1_0000
  }

  /** `(int32_t) x`: the two's complement reading of a cell. */
  function Signed(x: Cell32): (r: int)
    ensures -0x8000_0000 <= r < 0x8000_0000
    ensures Wrap(r) == x
  {
    if x < 0x8000_0000 then x else x - 0x1_0000_0000
  }

  /** The flag `-1 * (a op b)` yields: all ones for true, zero for false. */
  function Flag(b: bool): (c: Cell32)
    ensures c == 0 || c == 0xFFFF_FFFF
    ensures c != 0 <==> b
  {
    if b then 0xFFFF_FFFF else 0
  }

  /** How a snapshot's BINARY_OP, LOGICAL_OP, MIN and MAX read cells: the
      SimForth snapshot casts the operands to int32_t, the older one leaves
      them uint32_t. */
  datatype Signedness = SignedCells | UnsignedCells {
    /** The integer a cell stands for under this reading. */
    function Value(x: Cell32): int {
      if SignedCells? then Signed(x) else x
    }
  }

  /** 2^n */
  function Pow2(n: nat): (r: nat)
    ensures r > 0
  {
    if n == 0 then 1 else 2 * Pow2(n - 1)
  }

  /** C++ integer division, which rounds the quotient toward zero: the
      remainder a - q * b is smaller than b in size and has the sign of a. */
  function TruncDiv(a: int, b: int): (q: int)
    requires b != 0
    ensures var r := a - q * b;
            (if r < 0 then -r else r) < (if b < 0 then -b else b) && (r == 0 || (r < 0) == (a < 0))
  {
    var A, B := (if a < 0 then -a else a), (if b < 0 then -b else b);
    var q0 := A / B;
    assert A == q0 * B + A % B && 0 <= A % B < B;
    var q := if (a < 0) != (b < 0) then -q0 else q0;
    assert q * b == if a < 0 then -(q0 * B) else q0 * B by {
      if b < 0 { assert q * b == -(q * B); }
    }
    q
  }

  datatype ArithOp = Plus | Minus | Times | Div | RShift | LShift | And | Or | Xor

  /** What the C++ leaves undefined is excluded: division by zero, the
      quotient INT_MIN / -1 that int32 cannot hold, and shift amounts outside
      0..31. */
  predicate ArithDefined(op: ArithOp, s: Signedness, a: Cell32, b: Cell32) {
    match op
    case Div => b != 0 && !(s.SignedCells? && a == 0x8000_0000 && b == 0xFFFF_FFFF)
    case RShift => b < 32
    case LShift => b < 32
    case _ => true
  }

  /** +, -, * and << on the integers themselves, before the store. */
  function IntOp(op: ArithOp, x: int, y: int): int
    requires op.Plus? || op.Minus? || op.Times? || (op.LShift? && 0 <= y)
  {
    match op
    case Plus => x + y
    case Minus => x - y
    case Times => x * y
    case LShift => x * Pow2(y)
  }

  /** &, | and ^ on the 32 bits of the cells. */
  function Bitwise(op: ArithOp, a: Cell32, b: Cell32): Cell32
    requires op.And? || op.Or? || op.Xor?
  {
    match op
    case And => (a as bv32 & b as bv32) as int
    case Or => (a as bv32 | b as bv32) as int
    case Xor => (a as bv32 ^ b as bv32) as int
  }

  lemma WrapShift(x: int, k: int)
    ensures Wrap(x + k * 0x1_0000_0000) == Wrap(x)
  {
  }

  /** The sum and the difference of the cells wrap to the same cell as
      those of their readings. */
  lemma SumAgrees(s: Signedness, a: Cell32, b: Cell32)
    ensures Wrap(a + b) == Wrap(s.Value(a) + s.Value(b))
    ensures Wrap(a - b) == Wrap(s.Value(a) - s.Value(b))
  {
    var x, y := s.Value(a), s.Value(b);
    var da := if a == x then 0 else 1;
    var db := if b == y then 0 else 1;
    assert a == x + da * 0x1_0000_0000 && b == y + db * 0x1_0000_0000;
    WrapShift(x + y, da + db);
    WrapShift(x - y, da - db);
  }

  /** So does their product. */
  lemma TimesAgrees(s: Signedness, a: Cell32, b: Cell32)
    ensures Wrap(a * b) == Wrap(s.Value(a) * s.Value(b))
  {
    var M := 0x1_0000_0000;
    var x, y := s.Value(a), s.Value(b);
    if a != x && b != y {
      assert a * b == x * y + (x + y + M) * M;
      WrapShift(x * y, x + y + M);
    } else if a != x {
      assert a * b == x * y + y * M;
      WrapShift(x * y, y);
    } else if b != y {
      assert a * b == x * y + x * M;
      WrapShift(x * y, x);
    }
  }

  /** And so does a cell times p. */
  lemma ScaleAgrees(s: Signedness, a: Cell32, p: nat)
    ensures Wrap(a * p) == Wrap(s.Value(a) * p)
  {
    var x := s.Value(a);
    if a != x {
      assert a * p == x * p + p * 0x1_0000_0000;
      WrapShift(x * p, p);
    }
  }

  /** `a op b` on the two readings of the cells, stored back in a cell.
      Addition, subtraction, multiplication and the left shift give the
      cell of the integer result on the snapshot's reading whichever reading
      is used, and the bitwise operations ignore it; division and the right
      shift (which copies the sign bit in for int32) depend on it. */
  function Arith(op: ArithOp, s: Signedness, a: Cell32, b: Cell32): (r: Cell32)
    requires ArithDefined(op, s, a, b)
    ensures op.Plus? || op.Minus? || op.Times? || op.LShift? ==> r == Wrap(IntOp(op, s.Value(a), s.Value(b)))
  {
    match op
    case Plus => SumAgrees(s, a, b); Wrap(a + b)
    case Minus => SumAgrees(s, a, b); Wrap(a - b)
    case Times => TimesAgrees(s, a, b); Wrap(a * b)
    case LShift => ScaleAgrees(s, a, Pow2(b)); Wrap(a * Pow2(b))
    case Div => Wrap(TruncDiv(s.Value(a), s.Value(b)))
    case RShift => Wrap(s.Value(a) / Pow2(b))
    case And | Or | Xor => Bitwise(op, a, b)
  }

  /** The order a reading puts on the 32 bits of the cells: unsigned
      compares the bits as they are; signed puts every cell with the top bit
      set (a negative int32_t) below every cell without it. */
  predicate CellBelow(s: Signedness, a: Cell32, b: Cell32) {
    if s.UnsignedCells? || (a < 0x8000_0000) == (b < 0x8000_0000) then a < b
    else b < 0x8000_0000
  }

  datatype CmpOp = GreaterEqual | LowerEqual | Greater | Lower | Equal | NotEqual

  /** `a op b` on the integers a reading gives the cells. */
  function Holds(op: CmpOp, s: Signedness, a: Cell32, b: Cell32): bool {
    var x, y := s.Value(a), s.Value(b);
    match op
    case GreaterEqual => x >= y
    case LowerEqual => x <= y
    case Greater => x > y
    case Lower => x < y
    case Equal => x == y
    case NotEqual => x != y
  }

  /** Equality does not depend on the reading, and each order comparison
      is the order the reading puts on the bits of the cells. */
  lemma HoldsOnCells(op: CmpOp, s: Signedness, a: Cell32, b: Cell32)
    ensures op.Equal? ==> (Holds(op, s, a, b) <==> a == b)
    ensures op.NotEqual? ==> (Holds(op, s, a, b) <==> a != b)
    ensures op.Lower? ==> Holds(op, s, a, b) == CellBelow(s, a, b)
    ensures op.Greater? ==> Holds(op, s, a, b) == CellBelow(s, b, a)
    ensures op.GreaterEqual? ==> Holds(op, s, a, b) == !CellBelow(s, a, b)
    ensures op.LowerEqual? ==> Holds(op, s, a, b) == !CellBelow(s, b, a)
  {
  }

  // ----------------------------------------------------------------
  // The stack macros on the machine
  // ----------------------------------------------------------------

  /** DPUSH(n): n goes into the stack array; the register is untouched. */
  function DPush(m: Machine, n: Cell32): (r: Machine)
    ensures r.Logical() == m.Logical()[..|m.ds|] + [n, m.tos]
    ensures r == m.(ds := r.ds)
  {
    m.(ds := m.ds + [n])
  }

  /** The cell DDROP() and DPOP() take from the stack array. */
  function DTop(m: Machine): Cell32
    requires |m.ds| >= 1
  {
    m.ds[|m.ds| - 1]
  }

  /** DDROP(): the stack array loses its top cell. */
  function DDrop(m: Machine): (r: Machine)
    requires |m.ds| >= 1
    ensures r.Logical() == m.Logical()[..|m.ds| - 1] + [m.tos]
    ensures r == m.(ds := r.ds)
  {
    m.(ds := m.ds[..|m.ds| - 1])
  }

  /** DPICK(n): the cell n places below the array top. */
  function DPick(m: Machine, n: nat): (c: Cell32)
    requires n < |m.ds|
    ensures c == m.Logical()[|m.Logical()| - 2 - n]
  {
    m.ds[|m.ds| - 1 - n]
  }

  function RPush(m: Machine, n: Cell32): Machine {
    m.(rs := m.rs + [n])
  }

  function RTop(m: Machine): Cell32
    requires |m.rs| >= 1
  {
    m.rs[|m.rs| - 1]
  }

  function RDrop(m: Machine): Machine
    requires |m.rs| >= 1
  {
    m.(rs := m.rs[..|m.rs| - 1])
  }

  /** `DPUSH(m_tos); m_tos = v;`: v becomes the new top of the logical stack. */
  function PushTos(m: Machine, v: Cell32): (r: Machine)
    requires m.Valid() && m.Room(1)
    ensures r.Valid()
    ensures r.Logical() == m.Logical() + [v]
    ensures r == m.(ds := r.ds, tos := r.tos)
  {
    DPush(m, m.tos).(tos := v)
  }

  /** `DPOP(m_tos);`: the logical stack loses its top. */
  function PopTos(m: Machine): (r: Machine)
    requires m.Valid() && |m.ds| >= 1
    ensures r.Valid()
    ensures r.Logical() == m.Logical()[..|m.Logical()| - 1]
    ensures r == m.(ds := r.ds, tos := r.tos)
  {
    DDrop(m).(tos := DTop(m))
  }

  /** Forth::nextWord and Forth::getWord: the next word of the input, or
      the truncated-stream exception when there is none. */
  function NextWord(m: Machine): (r: Result<(string, Machine), ForthError>)
    ensures r.Success? <==> |m.input| > 0
    ensures r.Success? ==> [r.value.0] + r.value.1.input == m.input
    ensures r.Success? ==> r.value.1 == m.(input := r.value.1.input)
    ensures r.Failure? ==> r.error == TruncatedStream
  {
    if |m.input| == 0 then Failure(TruncatedStream) else Success((m.input[0], m.(input := m.input[1..])))
  }

  // ----------------------------------------------------------------
  // Data stack words
  // ----------------------------------------------------------------

  /** DUP ( a -- a a ) */
  function Dup(m: Machine): (r: Machine)
    requires m.Valid() && m.Room(1)
    ensures r.Valid()
    ensures r.Logical() == m.Logical() + [m.tos]
    ensures r == m.(ds := r.ds, tos := r.tos)
  {
    DPush(m, m.tos)
  }

  /** ?DUP ( a -- a a ) when a is not zero, ( 0 -- 0 ) otherwise. */
  function QDup(m: Machine): (r: Machine)
    requires m.Valid() && (m.tos != 0 ==> m.Room(1))
    ensures r.Valid()
    ensures r.Logical() == if m.tos != 0 then m.Logical() + [m.tos] else m.Logical()
    ensures r == m.(ds := r.ds, tos := r.tos)
  {
    if m.tos != 0 then DPush(m, m.tos) else m
  }

  /** DROP ( a -- ) */
  function Drop(m: Machine): (r: Machine)
    requires m.Valid() && |m.ds| >= 1
    ensures r.Valid()
    ensures r.Logical() == m.Logical()[..|m.ds|]
    ensures r == m.(ds := r.ds, tos := r.tos)
  {
    PopTos(m)
  }

  /** 2DROP ( a b -- ) */
  function TwoDrop(m: Machine): (r: Machine)
    requires m.Valid() && |m.ds| >= 2
    ensures r.Valid()
    ensures r.Logical() == m.Logical()[..|m.ds| - 1]
    ensures r == m.(ds := r.ds, tos := r.tos)
  {
    PopTos(PopTos(m))
  }

  /** NIP as the SimForth snapshot writes it, `DPOP(m_tos1)`: ( a b -- b ). */
  function Nip(m: Machine): (r: Machine)
    requires m.Valid() && |m.ds| >= 1
    ensures r.Valid()
    ensures var L := m.Logical(); r.Logical() == L[..|L| - 2] + [L[|L| - 1]]
    ensures r == m.(ds := r.ds, tos := r.tos)
  {
    DDrop(m)
  }

  /** NIP as the older snapshot writes it, `DPOP(m_tos)`: ( a b -- a ), the
      same effect as DROP although its comment promises ( a b -- b ). */
  function NipAsWritten(m: Machine): (r: Machine)
    requires m.Valid() && |m.ds| >= 1
    ensures r.Valid()
    ensures var L := m.Logical(); r.Logical() == L[..|L| - 1]
    ensures r == m.(ds := r.ds, tos := r.tos)
  {
    PopTos(m)
  }

  /** SWAP ( a b -- b a ) */
  function Swap(m: Machine): (r: Machine)
    requires m.Valid() && |m.ds| >= 1
    ensures r.Valid()
    ensures var L := m.Logical(); var n := |L|; r.Logical() == L[..n - 2] + [L[n - 1], L[n - 2]]
    ensures r == m.(ds := r.ds, tos := r.tos)
  {
    var tos2 := m.tos;
    var m1 := PopTos(m);
    DPush(m1, tos2)
  }

  /** OVER ( a b -- a b a ) */
  function Over(m: Machine): (r: Machine)
    requires m.Valid() && |m.ds| >= 1 && m.Room(1)
    ensures r.Valid()
    ensures var L := m.Logical(); r.Logical() == L + [L[|L| - 2]]
    ensures r == m.(ds := r.ds, tos := r.tos)
  {
    var m1 := DPush(m, m.tos);
    m1.(tos := DPick(m1, 1))
  }

  /** ROT ( a b c -- b c a ) */
  function Rot(m: Machine): (r: Machine)
    requires m.Valid() && |m.ds| >= 2
    ensures r.Valid()
    ensures var L := m.Logical(); var n := |L|; r.Logical() == L[..n - 3] + [L[n - 2], L[n - 1], L[n - 3]]
    ensures r == m.(ds := r.ds, tos := r.tos)
  {
    var tos2 := DTop(m);
    var m1 := DDrop(m);
    var tos3 := DTop(m1);
    var m2 := DDrop(m1);
    DPush(DPush(m2, tos2), m.tos).(tos := tos3)
  }

  /** TUCK ( a b -- b a b ) */
  function Tuck(m: Machine): (r: Machine)
    requires m.Valid() && |m.ds| >= 1 && m.Room(1)
    ensures r.Valid()
    ensures var L := m.Logical(); var n := |L|; r.Logical() == L[..n - 2] + [L[n - 1], L[n - 2], L[n - 1]]
    ensures r == m.(ds := r.ds, tos := r.tos)
  {
    var tos2 := DTop(m);
    var m1 := DDrop(m);
    DPush(DPush(m1, m.tos), tos2)
  }

  /** 2DUP ( a b -- a b a b ) */
  function TwoDup(m: Machine): (r: Machine)
    requires m.Valid() && |m.ds| >= 1 && m.Room(2)
    ensures r.Valid()
    ensures var L := m.Logical(); var n := |L|; r.Logical() == L + [L[n - 2], L[n - 1]]
    ensures r == m.(ds := r.ds, tos := r.tos)
  {
    var m1 := DPush(m, m.tos);
    var tos2 := DPick(m1, 1);
    DPush(m1, tos2)
  }

  /** 2OVER ( a b c d -- a b c d a b ) */
  function TwoOver(m: Machine): (r: Machine)
    requires m.Valid() && |m.ds| >= 3 && m.Room(2)
    ensures r.Valid()
    ensures var L := m.Logical(); var n := |L|; r.Logical() == L + [L[n - 4], L[n - 3]]
    ensures r == m.(ds := r.ds, tos := r.tos)
  {
    var m1 := DPush(m, m.tos);
    var tos2 := DPick(m1, 3);
    var m2 := DPush(m1, tos2);
    m2.(tos := DPick(m2, 3))
  }

  /** 2SWAP as the SimForth snapshot writes it: ( a b c d -- c d a b ). */
  function TwoSwap(m: Machine): (r: Machine)
    requires m.Valid() && |m.ds| >= 3
    ensures r.Valid()
    ensures var L := m.Logical(); var n := |L|;
            r.Logical() == L[..n - 4] + [L[n - 2], L[n - 1], L[n - 4], L[n - 3]]
    ensures r == m.(ds := r.ds, tos := r.tos)
  {
    var tos1 := DTop(m);
    var m1 := DDrop(m);
    var tos2 := DTop(m1);
    var m2 := DDrop(m1);
    var tos3 := DTop(m2);
    var m3 := DDrop(m2);
    DPush(DPush(DPush(m3, tos1), m.tos), tos3).(tos := tos2)
  }

  /** 2SWAP as the older snapshot writes it: ( a b c d -- b a c d ), not
      the ( a b c d -- c d a b ) of its comment. */
  function TwoSwapAsWritten(m: Machine): (r: Machine)
    requires m.Valid() && |m.ds| >= 3
    ensures r.Valid()
    ensures var L := m.Logical(); var n := |L|;
            r.Logical() == L[..n - 4] + [L[n - 3], L[n - 4], L[n - 2], L[n - 1]]
    ensures r == m.(ds := r.ds, tos := r.tos)
  {
    var tos2 := DTop(m);
    var m1 := DDrop(m);
    var tos3 := DTop(m1);
    var m2 := DDrop(m1);
    var tos4 := DTop(m2);
    var m3 := DDrop(m2);
    DPush(DPush(DPush(m3, tos3), tos4), tos2)
  }

  /** PICK ( ... n -- x ): x is the cell n places below n itself, so that
      0 PICK is DUP of the item under n. */
  function Pick(m: Machine): (r: Machine)
    requires m.Valid() && (m.tos as int) < |m.ds|
    ensures r.Valid()
    ensures var L := m.Logical(); var n := |L|;
            r.Logical() == L[..n - 1] + [L[n - 2 - m.tos as int]]
    ensures r == m.(tos := r.tos)
  {
    m.(tos := DPick(m, m.tos as int))
  }

  /** ROLL ( xu ... x0 u -- xu-1 ... x0 xu ): the cells above xu move down
      by one and xu comes to the top; u itself is consumed. */
  function Roll(m: Machine): (r: Machine)
    requires m.Valid() && (m.tos as int) < |m.ds|
    ensures r.Valid()
    ensures var L := m.Logical(); var n := |L|; var u := m.tos as int;
            r.Logical() == L[..n - 2 - u] + L[n - 1 - u..n - 1] + [L[n - 2 - u]]
    ensures r == m.(ds := r.ds, tos := r.tos)
  {
    var k, u := |m.ds|, m.tos as int;
    m.(ds := m.ds[..k - 1 - u] + m.ds[k - u..], tos := m.ds[k - 1 - u])
  }

  /** ROLL as the SimForth snapshot writes it, with DPICK expanded as
      src/forth/ForthHelper.hpp:67 defines it, `(*(m_dsp - n - 1))`, without
      parentheses around n: `&DPICK(m_tos - 1)` is then `m_dsp - u - 2`, one
      cell below `&DPICK(m_tos)`. The loop runs u times with both pointers
      decremented, so each of the u cells from DPICK(u) downwards receives the
      cell just below it; then `++m_dsp` exposes the array slot above the old
      top, whose stale content is `stale`. The source pointer stays inside the
      array only while 2u + 1 cells are there. */
  function RollAsWritten(m: Machine, stale: Cell32): (r: Machine)
    requires m.Valid() && 2 * m.tos < |m.ds| && m.Room(1)
    ensures r.Valid()
    ensures var k, u := |m.ds|, m.tos as int;
            |r.ds| == k + 1 && r.ds[k] == stale &&
            (forall i :: 0 <= i < k - 2 * u ==> r.ds[i] == m.ds[i]) &&
            (forall i :: k - 2 * u <= i < k - u ==> r.ds[i] == m.ds[i - 1]) &&
            (forall i :: k - u <= i < k ==> r.ds[i] == m.ds[i])
    ensures r.tos == DPick(m, m.tos as int)
    ensures r == m.(ds := r.ds, tos := r.tos)
  {
    var k, u := |m.ds|, m.tos as int;
    var shifted := m.ds[..k - 2 * u] + m.ds[k - 2 * u - 1..k - u - 1] + m.ds[k - u..];
    m.(ds := shifted + [stale], tos := m.ds[k - 1 - u])
  }

  /** DEPTH ( -- n ): n is the number of cells on the logical stack before
      DEPTH ran, as the array holds them once the register is pushed. */
  function Depth(m: Machine): (r: Machine)
    requires m.Valid() && m.Room(1)
    ensures r.Valid()
    ensures r.Logical() == m.Logical() + [|m.Logical()| as Cell32]
    ensures r == m.(ds := r.ds, tos := r.tos)
  {
    var m1 := DPush(m, m.tos);
    m1.(tos := |m1.ds| as Cell32)
  }

  /** FALSE and TRUE assign the register before pushing it, so the previous
      top is overwritten and the flag appears twice: ( a -- f f ). */
  function PushFlagTwice(m: Machine, f: bool): (r: Machine)
    requires m.Valid() && m.Room(1)
    ensures r.Valid()
    ensures var L := m.Logical(); r.Logical() == L[..|L| - 1] + [Flag(f), Flag(f)]
    ensures r == m.(ds := r.ds, tos := r.tos)
  {
    var m1 := m.(tos := Flag(f));
    DPush(m1, m1.tos)
  }

  /** FALSE ( -- 0 ) and TRUE ( -- -1 ) as their names promise: the flag is
      pushed above the previous top. */
  function PushFlag(m: Machine, f: bool): (r: Machine)
    requires m.Valid() && m.Room(1)
    ensures r.Valid()
    ensures r.Logical() == m.Logical() + [Flag(f)]
    ensures r == m.(ds := r.ds, tos := r.tos)
  {
    PushTos(m, Flag(f))
  }

  // ----------------------------------------------------------------
  // Arithmetic and logic
  // ----------------------------------------------------------------

  /** BINARY_OP(op): pops a and sets the register to `a op tos`,
      ( a b -- a op b ). */
  function Binary(m: Machine, op: ArithOp, s: Signedness): (r: Machine)
    requires m.Valid() && |m.ds| >= 1 && ArithDefined(op, s, DTop(m), m.tos)
    ensures r.Valid()
    ensures var L := m.Logical(); var n := |L|;
            r.Logical() == L[..n - 2] + [Arith(op, s, L[n - 2], L[n - 1])]
    ensures r == m.(ds := r.ds, tos := r.tos)
  {
    var a := DTop(m);
    DDrop(m).(tos := Arith(op, s, a, m.tos))
  }

  /** LOGICAL_OP(op): pops a and sets the register to the flag of
      `a op tos`, ( a b -- flag ). */
  function Logical(m: Machine, op: CmpOp, s: Signedness): (r: Machine)
    requires m.Valid() && |m.ds| >= 1
    ensures r.Valid()
    ensures var L := m.Logical(); var n := |L|;
            r.Logical() == L[..n - 2] + [Flag(Holds(op, s, L[n - 2], L[n - 1]))]
    ensures r == m.(ds := r.ds, tos := r.tos)
  {
    var a := DTop(m);
    DDrop(m).(tos := Flag(Holds(op, s, a, m.tos)))
  }

  /** 0= pushes 0 then applies LOGICAL_OP(==): ( a -- flag ). */
  function ZeroEqual(m: Machine): (r: Machine)
    requires m.Valid() && m.Room(1)
    ensures r.Valid()
    ensures var L := m.Logical(); r.Logical() == L[..|L| - 1] + [Flag(m.tos == 0)]
    ensures r == m.(tos := r.tos)
  {
    Logical(DPush(m, 0), Equal, UnsignedCells)
  }

  /** MIN and MAX: pop a, keep a or the register by the reading's order;
      the register wins MIN only when strictly lower, MAX only when
      strictly greater. */
  function MinMax(m: Machine, max: bool, s: Signedness): (r: Machine)
    requires m.Valid() && |m.ds| >= 1
    ensures r.Valid()
    ensures var L := m.Logical(); var n := |L|; var a, b := L[n - 2], L[n - 1];
            r.Logical() == L[..n - 2] + [r.tos] &&
            (r.tos == a || r.tos == b) &&
            (if max then s.Value(r.tos) >= s.Value(a) && s.Value(r.tos) >= s.Value(b)
             else s.Value(r.tos) <= s.Value(a) && s.Value(r.tos) <= s.Value(b))
    ensures r == m.(ds := r.ds, tos := r.tos)
  {
    var tos1 := DTop(m);
    var m1 := DDrop(m);
    var keepTos := if max then s.Value(m.tos) > s.Value(tos1) else s.Value(m.tos) < s.Value(tos1);
    m1.(tos := if keepTos then m.tos else tos1)
  }

  /** 1+, 1-, 2+ and 2- (k = 1, -1, 2, -2): the register plus k, wrapping
      around at either end of the 32-bit range. */
  function AddToTos(m: Machine, k: int): (r: Machine)
    requires m.Valid() && -2 <= k <= 2
    ensures r.Valid()
    ensures r.tos == if m.tos + k < 0 then m.tos + k + 0x1_0000_0000
                     else if m.tos + k >= 0x1_0000_0000 then m.tos + k - 0x1_0000_0000
                     else m.tos + k
    ensures r == m.(tos := r.tos)
  {
    m.(tos := Wrap(m.tos + k))
  }

  /** NEGATE: the two's complement of the register. */
  function Negate(m: Machine): (r: Machine)
    requires m.Valid()
    ensures r.Valid()
    ensures (r.tos + m.tos) % 0x1_0000_0000 == 0
    ensures m.tos != 0x8000_0000 ==> Signed(r.tos) == -Signed(m.tos)
    ensures r == m.(tos := r.tos)
  {
    m.(tos := Wrap(-(m.tos as int)))
  }

  /** ABS: `std::abs((int32_t) tos)`, undefined for INT_MIN. */
  function Abs(m: Machine): (r: Machine)
    requires m.Valid() && m.tos != 0x8000_0000
    ensures r.Valid()
    ensures Signed(r.tos) >= 0
    ensures Signed(r.tos) == Signed(m.tos) || Signed(r.tos) == -Signed(m.tos)
    ensures r == m.(tos := r.tos)
  {
    m.(tos := if Signed(m.tos) < 0 then Wrap(-(m.tos as int)) else m.tos)
  }

  /** CELLS: the register times sizeof(Cell32), modulo 2^32. */
  function Cells(m: Machine): (r: Machine)
    requires m.Valid()
    ensures r.Valid()
    ensures (r.tos - 4 * m.tos) % 0x1_0000_0000 == 0
    ensures m.tos < 0x4000_0000 ==> r.tos == 4 * m.tos
    ensures r == m.(tos := r.tos)
  {
    m.(tos := Wrap(m.tos * 4))
  }

  /** changeDisplayBase(b): accepts a base in 2..36 and ignores, with a
      warning, any other. */
  function ChangeBase(m: Machine, b: Cell32): (r: Machine)
    requires m.Valid()
    ensures r.Valid()
    ensures r.base == if 2 <= b <= 36 then b else m.base
    ensures r == m.(base := r.base)
  {
    if 2 <= b <= 36 then m.(base := b) else m
  }

  // ----------------------------------------------------------------
  // Interpreter state
  // ----------------------------------------------------------------

  /** `(` saves the state and enters the comment state. */
  function LParen(m: Machine): (r: Machine)
    requires m.Valid()
    ensures r.Valid()
    ensures r == m.(saved := m.state, state := Comment)
  {
    m.(saved := m.state).(state := Comment)
  }

  /** `)` restores the saved state. */
  function RParen(m: Machine): (r: Machine)
    requires m.Valid()
    ensures r.Valid()
    ensures r == m.(state := m.saved)
  {
    m.(state := m.saved)
  }

  function SetState(m: Machine, s: ForthState): (r: Machine)
    requires m.Valid()
    ensures r.Valid() && r == m.(state := s)
  {
    m.(state := s)
  }

  // ----------------------------------------------------------------
  // Return stack
  // ----------------------------------------------------------------

  /** >R ( x -- ) ( R: -- x ) */
  function ToR(m: Machine): (r: Machine)
    requires m.Valid() && |m.ds| >= 1 && |m.rs| < STACK_SIZE
    ensures r.Valid()
    ensures r.Logical() == m.Logical()[..|m.ds|] && r.rs == m.rs + [m.tos]
    ensures r == m.(ds := r.ds, tos := r.tos, rs := r.rs)
  {
    PopTos(RPush(m, m.tos))
  }

  /** R> ( -- x ) ( R: x -- ) */
  function FromR(m: Machine): (r: Machine)
    requires m.Valid() && m.Room(1) && |m.rs| >= 1
    ensures r.Valid()
    ensures r.Logical() == m.Logical() + [RTop(m)] && r.rs == m.rs[..|m.rs| - 1]
    ensures r == m.(ds := r.ds, tos := r.tos, rs := r.rs)
  {
    var m1 := DPush(m, m.tos);
    RDrop(m1).(tos := RTop(m1))
  }

  /** 2>R ( x1 x2 -- ) ( R: -- x1 x2 ) */
  function TwoToR(m: Machine): (r: Machine)
    requires m.Valid() && |m.ds| >= 2 && |m.rs| + 2 <= STACK_SIZE
    ensures r.Valid()
    ensures var L := m.Logical(); var n := |L|;
            r.Logical() == L[..n - 2] && r.rs == m.rs + [L[n - 2], L[n - 1]]
    ensures r == m.(ds := r.ds, tos := r.tos, rs := r.rs)
  {
    var tos1 := DTop(m);
    var m1 := DDrop(m);
    PopTos(RPush(RPush(m1, tos1), m.tos))
  }

  /** 2R> ( -- x1 x2 ) ( R: x1 x2 -- ) */
  function TwoFromR(m: Machine): (r: Machine)
    requires m.Valid() && m.Room(2) && |m.rs| >= 2
    ensures r.Valid()
    ensures var R := m.rs; var k := |R|;
            r.Logical() == m.Logical() + [R[k - 2], R[k - 1]] && r.rs == R[..k - 2]
    ensures r == m.(ds := r.ds, tos := r.tos, rs := r.rs)
  {
    var m1 := DPush(m, m.tos);
    var m2 := RDrop(m1).(tos := RTop(m1));
    var tos1 := RTop(m2);
    DPush(RDrop(m2), tos1)
  }

  /** I and J: copy the return-stack cell n places below its top (I: 0,
      J: 2) onto the data stack; the return stack is not popped. */
  function RCopy(m: Machine, n: nat): (r: Machine)
    requires m.Valid() && m.Room(1) && n < |m.rs|
    ensures r.Valid()
    ensures r.Logical() == m.Logical() + [m.rs[|m.rs| - 1 - n]]
    ensures r == m.(ds := r.ds, tos := r.tos)
  {
    PushTos(m, m.rs[|m.rs| - 1 - n])
  }

  // ----------------------------------------------------------------
  // Instruction pointer
  // ----------------------------------------------------------------

  /** EXIT: the instruction pointer is popped from the return stack. */
  function Exit(m: Machine): (r: Machine)
    requires m.Valid() && |m.rs| >= 1
    ensures r.Valid()
    ensures (r.ip - RTop(m)) % 0x1_0000 == 0 && (RTop(m) < 0x1_0000 ==> r.ip == RTop(m))
    ensures r.rs == m.rs[..|m.rs| - 1]
    ensures r == m.(ip := r.ip, rs := r.rs)
  {
    RDrop(m).(ip := Wrap16(RTop(m)))
  }

  /** BRANCH: adds the offset stored after the opcode to the instruction
      pointer (the interpreter loop then adds 2 more). */
  function Branch(m: Machine): (r: Transition)
    requires m.Valid()
    ensures r.next.Valid()
    ensures r.thrown.None? <==> m.ip + 4 <= DICTIONARY_SIZE
    ensures r.thrown.None? ==> r.next == m.(ip := Wrap16(m.ip + Read16At(m.dict, m.ip + 2).value))
    ensures r.thrown.Some? ==> r == Throw(m, DictionaryFault(OutOfBoundDictionary))
  {
    match Read16At(m.dict, m.ip + 2)
    case Failure(e) => Throw(m, DictionaryFault(e))
    case Success(off) => Ok(m.(ip := Wrap16(m.ip + off)))
  }

  /** 0BRANCH: branches like BRANCH when the flag is 0, otherwise steps the
      instruction pointer over the offset; in both cases the flag is
      consumed. */
  function ZeroBranch(m: Machine): (r: Transition)
    requires m.Valid() && |m.ds| >= 1
    ensures r.next.Valid()
    ensures r.thrown.None? <==> m.tos != 0 || m.ip + 4 <= DICTIONARY_SIZE
    ensures r.thrown.None? ==> r.next.Logical() == m.Logical()[..|m.ds|]
    ensures r.thrown.None? ==>
              r.next.ip == Wrap16(m.ip + (if m.tos == 0 then Read16At(m.dict, m.ip + 2).value else 2))
    ensures r.thrown.None? ==> r.next == m.(ip := r.next.ip, ds := r.next.ds, tos := r.next.tos)
    ensures r.thrown.Some? ==> r == Throw(m, DictionaryFault(OutOfBoundDictionary))
  {
    if m.tos == 0 then
      match Read16At(m.dict, m.ip + 2)
      case Failure(e) => Throw(m, DictionaryFault(e))
      case Success(off) => Ok(PopTos(m.(ip := Wrap16(m.ip + off))))
    else
      Ok(PopTos(m.(ip := Wrap16(m.ip + 2))))
  }

  /** LITERAL16: pushes the 16-bit cell that follows the opcode, leaving the
      instruction pointer on that cell. A failing read leaves the register
      pushed and the pointer advanced. */
  function Literal16(m: Machine): (r: Transition)
    requires m.Valid() && m.Room(1)
    ensures r.next.Valid()
    ensures r.thrown.None? <==> Wrap16(m.ip + 2) + 2 <= DICTIONARY_SIZE
    ensures r.thrown.None? ==>
              r.next.Logical() == m.Logical() + [Read16At(m.dict, Wrap16(m.ip + 2)).value as Cell32]
    ensures r.next == m.(ds := r.next.ds, tos := r.next.tos, ip := Wrap16(m.ip + 2))
  {
    var m1 := DPush(m, m.tos).(ip := Wrap16(m.ip + 2));
    match Read16At(m1.dict, m1.ip)
    case Failure(e) => Throw(m1, DictionaryFault(e))
    case Success(v) => Ok(m1.(tos := v as Cell32))
  }

  /** LITERAL32: pushes the 32-bit cell that follows the opcode, leaving the
      instruction pointer two bytes before its end, so that the loop's own
      step of 2 resumes right after it. */
  function Literal32(m: Machine): (r: Transition)
    requires m.Valid() && m.Room(1)
    ensures r.next.Valid()
    ensures r.thrown.None? <==> Wrap16(m.ip + 2) + 4 <= DICTIONARY_SIZE
    ensures r.thrown.None? ==>
              r.next.Logical() == m.Logical() + [Read32At(m.dict, Wrap16(m.ip + 2)).value] &&
              r.next.ip == Wrap16(m.ip + 4)
    ensures r.thrown.Some? ==> r.next == m.(ds := m.ds + [m.tos], ip := Wrap16(m.ip + 2))
    ensures r.next == m.(ds := r.next.ds, tos := r.next.tos, ip := r.next.ip)
  {
    var m1 := DPush(m, m.tos).(ip := Wrap16(m.ip + 2));
    match Read32At(m1.dict, m1.ip)
    case Failure(e) => Throw(m1, DictionaryFault(e))
    case Success(v) => Ok(m1.(tos := v, ip := Wrap16(m1.ip + 2)))
  }

  /** (CREATE): pushes the address of the data field, 4 bytes after the
      instruction pointer. */
  function PCreate(m: Machine): (r: Machine)
    requires m.Valid() && m.Room(1)
    ensures r.Valid()
    ensures r.Logical() == m.Logical() + [(m.ip + 4) as Cell32]
    ensures r == m.(ds := r.ds, tos := r.tos)
  {
    PushTos(m, (m.ip + 4) as Cell32)
  }

  // ----------------------------------------------------------------
  // Dictionary words
  // ----------------------------------------------------------------

  /** HERE and LAST: push a dictionary cursor. */
  function PushCursor(m: Machine, last: bool): (r: Machine)
    requires m.Valid() && m.Room(1)
    ensures r.Valid()
    ensures r.Logical() == m.Logical() + [(if last then m.dict.last else m.dict.here) as Cell32]
    ensures r == m.(ds := r.ds, tos := r.tos)
  {
    PushTos(m, (if last then m.dict.last else m.dict.here) as Cell32)
  }

  /** ALLOT as the SimForth snapshot writes it: moves here by the signed
      register, then pops it. The pop does not happen when allot throws. */
  function Allot(m: Machine): (r: Transition)
    requires m.Valid() && |m.ds| >= 1
    ensures r.next.Valid()
    ensures r.thrown.None? <==> 0 <= m.dict.here + Signed(m.tos) <= DICTIONARY_SIZE
    ensures r.thrown.None? ==> r.next.dict == m.dict.(here := m.dict.here + Signed(m.tos))
    ensures r.thrown.None? ==> r.next.Logical() == m.Logical()[..|m.ds|]
    ensures r.thrown.Some? ==> r == Throw(m, DictionaryFault(OutOfBoundDictionary))
    ensures r.next == m.(dict := r.next.dict, ds := r.next.ds, tos := r.next.tos)
  {
    match DictionaryModel.Allot(m.dict, Signed(m.tos))
    case Failure(e) => Throw(m, DictionaryFault(e))
    case Success(d) => Ok(PopTos(m.(dict := d)))
  }

  /** ALLOT as the older snapshot writes it: the amount stays on the stack. */
  function AllotAsWritten(m: Machine): (r: Transition)
    requires m.Valid()
    ensures r.next.Valid()
    ensures r.thrown.None? <==> 0 <= m.dict.here + Signed(m.tos) <= DICTIONARY_SIZE
    ensures r.thrown.None? ==> r.next == m.(dict := m.dict.(here := m.dict.here + Signed(m.tos)))
    ensures r.thrown.Some? ==> r == Throw(m, DictionaryFault(OutOfBoundDictionary))
  {
    match DictionaryModel.Allot(m.dict, Signed(m.tos))
    case Failure(e) => Throw(m, DictionaryFault(e))
    case Success(d) => Ok(m.(dict := d))
  }

  /** The width of a cell that `,`, `S,`, `C,`, `!`, `S!` and `C!` store:
      the register is truncated to it. */
  datatype Width = W8 | W16 | W32 {
    function Bytes(v: Cell32): (s: seq<Cell8>)
      ensures |s| == Size()
    {
      match this
      case W8 => [v % 0x100]
      case W16 => Le16(v % 0x1_0000)
      case W32 => Le32(v)
    }

    function Size(): nat {
      match this
      case W8 => 1
      case W16 => 2
      case W32 => 4
    }
  }

  /** `,` `S,` `C,`: append the register at here, then pop it. */
  function Comma(m: Machine, w: Width): (r: Transition)
    requires m.Valid() && |m.ds| >= 1
    ensures r.next.Valid()
    ensures r.thrown.None? <==> m.dict.here + w.Size() <= DICTIONARY_SIZE
    ensures r.thrown.None? ==> r.next.dict.here == m.dict.here + w.Size() && r.next.dict.last == m.dict.last
    ensures r.thrown.None? ==> r.next.dict.bytes[m.dict.here..r.next.dict.here] == w.Bytes(m.tos)
    ensures r.thrown.None? ==> r.next.Logical() == m.Logical()[..|m.ds|]
    ensures r.thrown.Some? ==> r == Throw(m, DictionaryFault(OutOfBoundDictionary))
    ensures r.next == m.(dict := r.next.dict, ds := r.next.ds, tos := r.next.tos)
  {
    match Append(m.dict, w.Bytes(m.tos))
    case Failure(e) => Throw(m, DictionaryFault(e))
    case Success(d) => Ok(PopTos(m.(dict := d)))
  }

  /** `@` ( a-addr -- x ) */
  function Fetch(m: Machine): (r: Transition)
    requires m.Valid()
    ensures r.next.Valid()
    ensures r.thrown.None? <==> m.tos + 4 <= DICTIONARY_SIZE
    ensures r.thrown.None? ==> r.next == m.(tos := Read32At(m.dict, m.tos).value)
    ensures r.thrown.Some? ==> r == Throw(m, DictionaryFault(OutOfBoundDictionary))
  {
    match Read32At(m.dict, m.tos)
    case Failure(e) => Throw(m, DictionaryFault(e))
    case Success(v) => Ok(m.(tos := v))
  }

  /** `!` `S!` `C!` ( x a-addr -- ): writes x, truncated to the width, at
      a-addr. With `pop` false (the older snapshot's `!`) the address stays
      in the register. A failed write leaves x popped. */
  function Store(m: Machine, w: Width, pop: bool): (r: Transition)
    requires m.Valid() && |m.ds| >= 1 && (pop ==> |m.ds| >= 2)
    ensures r.next.Valid()
    ensures r.thrown.None? <==> m.tos + w.Size() <= DICTIONARY_SIZE
    ensures r.thrown.None? ==>
              r.next.dict == WriteAt(m.dict, m.tos, w.Bytes(DTop(m))).value
    ensures r.thrown.None? ==>
              r.next.Logical() == if pop then m.Logical()[..|m.ds| - 1] else m.ds[..|m.ds| - 1] + [m.tos]
    ensures r.thrown.Some? ==> r == Throw(DDrop(m), DictionaryFault(OutOfBoundDictionary))
    ensures r.next == m.(dict := r.next.dict, ds := r.next.ds, tos := r.next.tos)
  {
    var tos1 := DTop(m);
    var m1 := DDrop(m);
    match WriteAt(m1.dict, m.tos, w.Bytes(tos1))
    case Failure(e) => Throw(m1, DictionaryFault(e))
    case Success(d) => Ok(if pop then PopTos(m1.(dict := d)) else m1.(dict := d))
  }

  /** CMOVE ( src dst n -- ): copies n bytes from src to dst. A failed move
      leaves src and dst popped. */
  function CMove(m: Machine): (r: Transition)
    requires m.Valid() && |m.ds| >= 3
    ensures r.next.Valid()
    ensures var L := m.Logical(); var k := |L|; var src, dst, n := L[k - 3], L[k - 2], L[k - 1];
            (r.thrown.None? <==> src + n <= DICTIONARY_SIZE && dst + n <= DICTIONARY_SIZE) &&
            (r.thrown.None? ==>
               r.next.dict == Move(m.dict, dst, src, n).value && r.next.Logical() == L[..k - 3])
    ensures r.next.dict.here == m.dict.here && r.next.dict.last == m.dict.last
    ensures r.next == m.(dict := r.next.dict, ds := r.next.ds, tos := r.next.tos)
  {
    var tos2 := DTop(m);
    var m1 := DDrop(m);
    var tos1 := DTop(m1);
    var m2 := DDrop(m1);
    match Move(m2.dict, tos2, tos1, m.tos)
    case Failure(e) => Throw(m2, DictionaryFault(e))
    case Success(d) => Ok(PopTos(m2.(dict := d)))
  }

  /** IMMEDIATE: sets the immediate flag in the header byte at last, and
      changes no other byte. */
  function Immediate(m: Machine): (r: Machine)
    requires m.Valid()
    ensures r.Valid()
    ensures var l := m.dict.last;
            r.dict.bytes == m.dict.bytes[l := r.dict.bytes[l]] &&
            IsImmediate(r.dict.bytes[l]) && NameSize(r.dict.bytes[l]) == NameSize(m.dict.bytes[l]) &&
            IsSmudged(r.dict.bytes[l]) == IsSmudged(m.dict.bytes[l])
    ensures r == m.(dict := m.dict.(bytes := r.dict.bytes))
  {
    var l := m.dict.last;
    m.(dict := m.dict.(bytes := m.dict.bytes[l := SetImmediate(m.dict.bytes[l])]))
  }

  /** The token `:` gives a new word: the address just past the header
      byte, the name and the link field of its entry, in a 16-bit cell. */
  function ColonToken(here: nat, word: string): (t: Cell16)
    ensures |word| < 32 && here + |word| + 5 <= DICTIONARY_SIZE ==> here < t && t + 2 == here + |Entry(here, 0, 0, word, 0)|
  {
    Wrap16(here + |word| + 1 + 2)
  }

  /** The header part of `:` (`create` in the SimForth snapshot): reads the
      name, remembers last, here and the depth, then adds the entry. */
  function Create(m: Machine): (r: Transition)
    requires m.Valid()
    ensures r.next.Valid()
    ensures r.thrown.None? <==> |m.input| > 0 && |m.input[0]| < 32 && m.dict.here + |m.input[0]| + 5 <= DICTIONARY_SIZE
    ensures |m.input| == 0 ==> r == Throw(m, TruncatedStream)
    ensures |m.input| > 0 ==>
              r.next.input == m.input[1..] &&
              r.next.colon == ColonMark(m.input[0], m.dict.last, m.dict.here, |m.ds|)
    ensures r.thrown.None? ==> r.next.dict.last == m.dict.here && r.next.dict.here == m.dict.here + |m.input[0]| + 5
    ensures r.thrown.None? ==> Find(r.next.dict, m.input[0]) == Some((ColonToken(m.dict.here, m.input[0]), false))
    ensures r.next == m.(dict := r.next.dict, input := r.next.input, colon := r.next.colon)
  {
    match NextWord(m)
    case Failure(e) => Throw(m, e)
    case Success((word, m1)) =>
      var m2 := m1.(colon := ColonMark(word, m.dict.last, m.dict.here, |m.ds|));
      var token := ColonToken(m.dict.here, word);
      match Add(m2.dict, token, word, 0)
      case Failure(e) => Throw(m2, DictionaryFault(e))
      case Success(d) =>
        AddThenFind(m2.dict, token, word, 0);
        Ok(m2.(dict := d))
  }

  /** `:` creates the header and enters the compile state. */
  function Colon(m: Machine): (r: Transition)
    requires m.Valid()
    ensures r.next.Valid()
    ensures r.thrown == Create(m).thrown
    ensures r.thrown.None? ==> r.next == Create(m).next.(state := Compile)
    ensures r.thrown.Some? ==> r.next == Create(m).next
  {
    var t := Create(m);
    if t.thrown.Some? then t else Ok(t.next.(state := Compile))
  }

  /** `;` appends EXIT and returns to the interpret state. When the stack
      depth differs from the one `:` saw, it rolls last and here back to
      their values at `:` and throws for the word being defined. */
  function Semicolon(m: Machine, exitToken: Cell16): (r: Transition)
    requires m.Valid()
    ensures r.next.Valid()
    ensures m.dict.here + 2 > DICTIONARY_SIZE ==> r == Throw(m, DictionaryFault(OutOfBoundDictionary))
    ensures m.dict.here + 2 <= DICTIONARY_SIZE ==> r.next.state == Interprete
    ensures m.dict.here + 2 <= DICTIONARY_SIZE && m.colon.depth != |m.ds| ==>
              r.thrown == Some(UnbalancedDefinition(m.colon.word)) &&
              r.next.dict.last == m.colon.last && r.next.dict.here == m.colon.here
    ensures m.dict.here + 2 <= DICTIONARY_SIZE && m.colon.depth == |m.ds| ==>
              r.thrown.None? && r.next.dict == Append16(m.dict, exitToken).value
    ensures r.next == m.(dict := r.next.dict, state := r.next.state)
  {
    match Append16(m.dict, exitToken)
    case Failure(e) => Throw(m, DictionaryFault(e))
    case Success(d) =>
      var m1 := m.(dict := d, state := Interprete);
      if m.colon.depth != |m.ds| then
        Throw(m1.(dict := d.(last := m.colon.last, here := m.colon.here)), UnbalancedDefinition(m.colon.word))
      else Ok(m1)
  }

  /** Two tokens appended as the code of the word being created. */
  function AppendCode(m: Machine, first: Cell16, second: Cell16): (r: Transition)
    requires m.Valid()
    ensures r.next.Valid()
    ensures r.thrown.None? <==> m.dict.here + 4 <= DICTIONARY_SIZE
    ensures r.thrown.None? ==>
              r.next.dict.here == m.dict.here + 4 && r.next.dict.last == m.dict.last &&
              r.next.dict.bytes[..m.dict.here] == m.dict.bytes[..m.dict.here] &&
              Read16At(r.next.dict, m.dict.here) == Success(first) &&
              Read16At(r.next.dict, m.dict.here + 2) == Success(second)
    ensures r.thrown.Some? ==> r.thrown == Some(DictionaryFault(OutOfBoundDictionary))
    ensures r.next == m.(dict := r.next.dict)
  {
    match Append16(m.dict, first)
    case Failure(e) => Throw(m, DictionaryFault(e))
    case Success(d1) =>
      match Append16(d1, second)
      case Failure(e) => Throw(m.(dict := d1), DictionaryFault(e))
      case Success(d2) =>
        var h := m.dict.here;
        assert d2.bytes[..h] == d1.bytes[..h] by {
          assert d2.bytes[..d1.here] == d1.bytes[..d1.here];
        }
        assert d2.bytes[h] == d1.bytes[h] && d2.bytes[h + 1] == d1.bytes[h + 1] by {
          assert d2.bytes[..d1.here] == d1.bytes[..d1.here];
        }
        Ok(m.(dict := d2))
  }

  /** CREATE: a header followed by the code `(CREATE) EXIT`, so that the
      new word pushes the address just past its code. */
  function CreateWord(m: Machine, pcreateToken: Cell16, exitToken: Cell16): (r: Transition)
    requires m.Valid()
    ensures r.next.Valid()
    ensures Create(m).thrown.Some? ==> r == Create(m)
    ensures Create(m).thrown.None? ==> r == AppendCode(Create(m).next, pcreateToken, exitToken)
  {
    var t := Create(m);
    if t.thrown.Some? then t else AppendCode(t.next, pcreateToken, exitToken)
  }

  /** SMUDGE: toggles the hidden flag of the word named next; an unknown
      word is ignored with a warning. */
  function SmudgeWord(m: Machine): (r: Transition)
    requires m.Valid()
    ensures r.next.Valid()
    ensures |m.input| == 0 ==> r == Throw(m, TruncatedStream)
    ensures |m.input| > 0 ==> r == Ok(m.(input := m.input[1..], dict := DictionaryModel.Smudge(m.dict, m.input[0]).0))
  {
    match NextWord(m)
    case Failure(e) => Throw(m, e)
    case Success((word, m1)) => Ok(m1.(dict := DictionaryModel.Smudge(m1.dict, word).0))
  }

  /** The token `'` pushes for a word: its token when the dictionary finds
      it, 0 (with a warning) when it does not. */
  function TickToken(d: DictState, word: string): (t: Cell16)
    requires d.Valid()
    ensures Find(d, word).Some? ==> t == Find(d, word).value.0
    ensures Find(d, word).None? ==> t == 0
  {
    match Find(d, word)
    case Some((t, _)) => t
    case None => 0
  }

  /** `'` ( -- token ) reads the next word and pushes its token. */
  function Tick(m: Machine): (r: Transition)
    requires m.Valid() && m.Room(1)
    ensures r.next.Valid()
    ensures |m.input| == 0 ==> r == Throw(m, TruncatedStream)
    ensures |m.input| > 0 ==>
              r.thrown.None? && r.next.input == m.input[1..] &&
              r.next.Logical() == m.Logical() + [TickToken(m.dict, m.input[0]) as Cell32]
    ensures r.next == m.(ds := r.next.ds, tos := r.next.tos, input := r.next.input)
  {
    match NextWord(m)
    case Failure(e) => Throw(m, e)
    case Success((word, m1)) => Ok(PushTos(m1, TickToken(m1.dict, word) as Cell32))
  }

  /** COMPILE: steps over the next cell of the code and appends it to the
      dictionary. */
  function CompileNext(m: Machine): (r: Transition)
    requires m.Valid()
    ensures r.next.Valid()
    ensures r.next.ip == Wrap16(m.ip + 2)
    ensures r.thrown.None? <==> Wrap16(m.ip + 2) + 2 <= DICTIONARY_SIZE && m.dict.here + 2 <= DICTIONARY_SIZE
    ensures r.thrown.None? ==> r.next.dict == Append16(m.dict, Read16At(m.dict, Wrap16(m.ip + 2)).value).value
    ensures r.next == m.(ip := Wrap16(m.ip + 2), dict := r.next.dict)
  {
    var m1 := m.(ip := Wrap16(m.ip + 2));
    match Read16At(m1.dict, m1.ip)
    case Failure(e) => Throw(m1, DictionaryFault(e))
    case Success(v) =>
      match Append16(m1.dict, v)
      case Failure(e) => Throw(m1, DictionaryFault(e))
      case Success(d) => Ok(m1.(dict := d))
  }

  /** Appends a token to the dictionary, as `[COMPILE]` and POSTPONE do. */
  function AppendToken(m: Machine, token: Cell16): (r: Transition)
    requires m.Valid()
    ensures r.next.Valid()
    ensures r.thrown.None? <==> m.dict.here + 2 <= DICTIONARY_SIZE
    ensures r.thrown.None? ==> r == Ok(m.(dict := Append16(m.dict, token).value))
    ensures r.thrown.Some? ==> r == Throw(m, DictionaryFault(OutOfBoundDictionary))
  {
    match Append16(m.dict, token)
    case Failure(e) => Throw(m, DictionaryFault(e))
    case Success(d) => Ok(m.(dict := d))
  }

  /** `[COMPILE]`: appends the token of the next word, which must exist. */
  function ICompile(m: Machine): (r: Transition)
    requires m.Valid()
    ensures r.next.Valid()
    ensures |m.input| == 0 ==> r == Throw(m, TruncatedStream)
    ensures |m.input| > 0 && Find(m.dict, m.input[0]).None? ==>
              r == Throw(m.(input := m.input[1..]), UnknownWord(m.input[0]))
    ensures |m.input| > 0 && Find(m.dict, m.input[0]).Some? ==>
              r == AppendToken(m.(input := m.input[1..]), Find(m.dict, m.input[0]).value.0)
  {
    match NextWord(m)
    case Failure(e) => Throw(m, e)
    case Success((word, m1)) =>
      match Find(m1.dict, word)
      case None => Throw(m1, UnknownWord(word))
      case Some((token, _)) => AppendToken(m1, token)
  }

  /** POSTPONE: for an immediate word appends its token; otherwise does what
      COMPILE does. An unknown word throws. */
  function Postpone(m: Machine): (r: Transition)
    requires m.Valid()
    ensures r.next.Valid()
    ensures |m.input| == 0 ==> r == Throw(m, TruncatedStream)
    ensures |m.input| > 0 ==>
              var m1 := m.(input := m.input[1..]);
              r == match Find(m.dict, m.input[0])
                   case None => Throw(m1, UnknownWord(m.input[0]))
                   case Some((token, immediate)) => if immediate then AppendToken(m1, token) else CompileNext(m1)
  {
    match NextWord(m)
    case Failure(e) => Throw(m, e)
    case Success((word, m1)) =>
      match Find(m1.dict, word)
      case None => Throw(m1, UnknownWord(word))
      case Some((token, immediate)) => if immediate then AppendToken(m1, token) else CompileNext(m1)
  }
}
