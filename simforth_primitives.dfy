/** The primitives of the SimForth snapshot (src/SimForth/Forth/ForthPrimitives.cpp):
    their ids, one step of Forth::execPrimitive as a transition of the
    machine and the same step performed on the VM object. */
module SimForthPrimitives {
  import opened Wrappers
  import opened ForthHelper
  import opened DictionaryModel
  import opened ForthDictionary
  import opened ForthMachine
  import opened ForthVM

  /** A primitive: one case label of the switch. The labels come in six
      runs, in this order; each run is a datatype of its own. */
  datatype Prim =
    | Interp(interp: InterpWord)
    | Dict(dict: DictWord)
    | Flow(flow: FlowWord)
    | Stack(stack: StackWord)
    | Numbers(numbers: NumberWord)
    | Logic(logic: LogicWord)

  /** The interpreter and definition words. */
  datatype InterpWord =
    | Nop | LParenthesis | RParenthesis | Commentary | Colon | Semicolon | PCreate | Create
    | Builds | Does | Immediate | Include | State | TraceOn | TraceOff | Smudge
    | Tick | Compile | ICompile | Postpone | Abort | Execute | LBracket | RBracket

  /** The dictionary cursors, appends, reads and writes. */
  datatype DictWord =
    | Here | Last | Allot | Comma32 | Comma16 | Comma8 | Fetch | Store32
    | Store16 | Store8 | CMove

  /** The instruction pointer, the return stack, cell sizes and literals. */
  datatype FlowWord =
    | Exit | Branch | ZeroBranch | ToRStack | TwoToRStack | FromRStack | TwoFromRStack | I
    | J | Cell | Cells | Literal16 | Literal32

  /** The data stack words and the increments. */
  datatype StackWord =
    | OneMinus | OnePlus | TwoMinus | TwoPlus | Drop | Depth | Nip | Roll
    | Pick | Dup | QDup | Swap | Over | Rot | Tuck | TwoDup
    | TwoOver | TwoSwap | TwoDrop

  /** The display base and the arithmetic. */
  datatype NumberWord =
    | Binary | Octal | Hexadecimal | Decimal | GetBase | SetBase | Negate | Abs
    | Plus | Minus | Div | Times | RShift | LShift

  /** Flags, comparisons, bitwise operations, MIN, MAX and printing. */
  datatype LogicWord =
    | False | True | GreaterEqual | LowerEqual | Greater | Lower | Equal | ZeroEqual
    | NotEqual | And | Or | Xor | Min | Max | Disp | UDisp
    | CarriageReturn | DisplayDStack

  /** How many ids name a primitive. */
  const NUM_PRIMITIVES: nat := 99

  /** The 16-bit id of a primitive: its rank among the case labels. */
  function Token(p: Prim): (t: Cell16)
    ensures t < NUM_PRIMITIVES && Decode(t) == Some(p)
  {
    match p
    case Interp(w) => InterpWordRank(w)
    case Dict(w) => 24 + DictWordRank(w)
    case Flow(w) => 35 + FlowWordRank(w)
    case Stack(w) => 48 + StackWordRank(w)
    case Numbers(w) => 67 + NumberWordRank(w)
    case Logic(w) => 81 + LogicWordRank(w)
  }

  /** The primitive an id names; ids from NUM_PRIMITIVES on name none and
      reach the switch's default case. */
  function Decode(id: Cell16): (r: Option<Prim>)
    ensures r.Some? <==> id < NUM_PRIMITIVES
  {
    if id < 24 then Some(Interp(InterpWordAt(id)))
    else if id < 35 then Some(Dict(DictWordAt(id - 24)))
    else if id < 48 then Some(Flow(FlowWordAt(id - 35)))
    else if id < 67 then Some(Stack(StackWordAt(id - 48)))
    else if id < 81 then Some(Numbers(NumberWordAt(id - 67)))
    else if id < 99 then Some(Logic(LogicWordAt(id - 81)))
    else None
  }

  /** Decoding an id and taking the token of what it names gives the id
      back. */
  lemma TokenOfDecode(id: Cell16)
    requires id < NUM_PRIMITIVES
    ensures Token(Decode(id).value) == id
  {
    if id < 24 {
      InterpWordRankAt(id);
    } else if id < 35 {
      DictWordRankAt(id - 24);
    } else if id < 48 {
      FlowWordRankAt(id - 35);
    } else if id < 67 {
      StackWordRankAt(id - 48);
    } else if id < 81 {
      NumberWordRankAt(id - 67);
    } else if id < 99 {
      LogicWordRankAt(id - 81);
    }
  }

  function InterpWordRank(w: InterpWord): (k: nat)
    ensures k < 24 && InterpWordAt(k) == w
  {
    match w
    case Nop => 0
    case LParenthesis => 1
    case RParenthesis => 2
    case Commentary => 3
    case Colon => 4
    case Semicolon => 5
    case PCreate => 6
    case Create => 7
    case Builds => 8
    case Does => 9
    case Immediate => 10
    case Include => 11
    case State => 12
    case TraceOn => 13
    case TraceOff => 14
    case Smudge => 15
    case Tick => 16
    case Compile => 17
    case ICompile => 18
    case Postpone => 19
    case Abort => 20
    case Execute => 21
    case LBracket => 22
    case RBracket => 23
  }

  function InterpWordAt(k: nat): InterpWord
    requires k < 24
  {
    match k
    case 0 => InterpWord.Nop
    case 1 => InterpWord.LParenthesis
    case 2 => InterpWord.RParenthesis
    case 3 => InterpWord.Commentary
    case 4 => InterpWord.Colon
    case 5 => InterpWord.Semicolon
    case 6 => InterpWord.PCreate
    case 7 => InterpWord.Create
    case 8 => InterpWord.Builds
    case 9 => InterpWord.Does
    case 10 => InterpWord.Immediate
    case 11 => InterpWord.Include
    case 12 => InterpWord.State
    case 13 => InterpWord.TraceOn
    case 14 => InterpWord.TraceOff
    case 15 => InterpWord.Smudge
    case 16 => InterpWord.Tick
    case 17 => InterpWord.Compile
    case 18 => InterpWord.ICompile
    case 19 => InterpWord.Postpone
    case 20 => InterpWord.Abort
    case 21 => InterpWord.Execute
    case 22 => InterpWord.LBracket
    case _ => InterpWord.RBracket
  }

  lemma InterpWordRankAt(k: nat)
    requires k < 24
    ensures InterpWordRank(InterpWordAt(k)) == k
  {
  }

  function DictWordRank(w: DictWord): (k: nat)
    ensures k < 11 && DictWordAt(k) == w
  {
    match w
    case Here => 0
    case Last => 1
    case Allot => 2
    case Comma32 => 3
    case Comma16 => 4
    case Comma8 => 5
    case Fetch => 6
    case Store32 => 7
    case Store16 => 8
    case Store8 => 9
    case CMove => 10
  }

  function DictWordAt(k: nat): DictWord
    requires k < 11
  {
    match k
    case 0 => DictWord.Here
    case 1 => DictWord.Last
    case 2 => DictWord.Allot
    case 3 => DictWord.Comma32
    case 4 => DictWord.Comma16
    case 5 => DictWord.Comma8
    case 6 => DictWord.Fetch
    case 7 => DictWord.Store32
    case 8 => DictWord.Store16
    case 9 => DictWord.Store8
    case _ => DictWord.CMove
  }

  lemma DictWordRankAt(k: nat)
    requires k < 11
    ensures DictWordRank(DictWordAt(k)) == k
  {
  }

  function FlowWordRank(w: FlowWord): (k: nat)
    ensures k < 13 && FlowWordAt(k) == w
  {
    match w
    case Exit => 0
    case Branch => 1
    case ZeroBranch => 2
    case ToRStack => 3
    case TwoToRStack => 4
    case FromRStack => 5
    case TwoFromRStack => 6
    case I => 7
    case J => 8
    case Cell => 9
    case Cells => 10
    case Literal16 => 11
    case Literal32 => 12
  }

  function FlowWordAt(k: nat): FlowWord
    requires k < 13
  {
    match k
    case 0 => FlowWord.Exit
    case 1 => FlowWord.Branch
    case 2 => FlowWord.ZeroBranch
    case 3 => FlowWord.ToRStack
    case 4 => FlowWord.TwoToRStack
    case 5 => FlowWord.FromRStack
    case 6 => FlowWord.TwoFromRStack
    case 7 => FlowWord.I
    case 8 => FlowWord.J
    case 9 => FlowWord.Cell
    case 10 => FlowWord.Cells
    case 11 => FlowWord.Literal16
    case _ => FlowWord.Literal32
  }

  lemma FlowWordRankAt(k: nat)
    requires k < 13
    ensures FlowWordRank(FlowWordAt(k)) == k
  {
  }

  function StackWordRank(w: StackWord): (k: nat)
    ensures k < 19 && StackWordAt(k) == w
  {
    match w
    case OneMinus => 0
    case OnePlus => 1
    case TwoMinus => 2
    case TwoPlus => 3
    case Drop => 4
    case Depth => 5
    case Nip => 6
    case Roll => 7
    case Pick => 8
    case Dup => 9
    case QDup => 10
    case Swap => 11
    case Over => 12
    case Rot => 13
    case Tuck => 14
    case TwoDup => 15
    case TwoOver => 16
    case TwoSwap => 17
    case TwoDrop => 18
  }

  function StackWordAt(k: nat): StackWord
    requires k < 19
  {
    match k
    case 0 => StackWord.OneMinus
    case 1 => StackWord.OnePlus
    case 2 => StackWord.TwoMinus
    case 3 => StackWord.TwoPlus
    case 4 => StackWord.Drop
    case 5 => StackWord.Depth
    case 6 => StackWord.Nip
    case 7 => StackWord.Roll
    case 8 => StackWord.Pick
    case 9 => StackWord.Dup
    case 10 => StackWord.QDup
    case 11 => StackWord.Swap
    case 12 => StackWord.Over
    case 13 => StackWord.Rot
    case 14 => StackWord.Tuck
    case 15 => StackWord.TwoDup
    case 16 => StackWord.TwoOver
    case 17 => StackWord.TwoSwap
    case _ => StackWord.TwoDrop
  }

  lemma StackWordRankAt(k: nat)
    requires k < 19
    ensures StackWordRank(StackWordAt(k)) == k
  {
  }

  function NumberWordRank(w: NumberWord): (k: nat)
    ensures k < 14 && NumberWordAt(k) == w
  {
    match w
    case Binary => 0
    case Octal => 1
    case Hexadecimal => 2
    case Decimal => 3
    case GetBase => 4
    case SetBase => 5
    case Negate => 6
    case Abs => 7
    case Plus => 8
    case Minus => 9
    case Div => 10
    case Times => 11
    case RShift => 12
    case LShift => 13
  }

  function NumberWordAt(k: nat): NumberWord
    requires k < 14
  {
    match k
    case 0 => NumberWord.Binary
    case 1 => NumberWord.Octal
    case 2 => NumberWord.Hexadecimal
    case 3 => NumberWord.Decimal
    case 4 => NumberWord.GetBase
    case 5 => NumberWord.SetBase
    case 6 => NumberWord.Negate
    case 7 => NumberWord.Abs
    case 8 => NumberWord.Plus
    case 9 => NumberWord.Minus
    case 10 => NumberWord.Div
    case 11 => NumberWord.Times
    case 12 => NumberWord.RShift
    case _ => NumberWord.LShift
  }

  lemma NumberWordRankAt(k: nat)
    requires k < 14
    ensures NumberWordRank(NumberWordAt(k)) == k
  {
  }

  function LogicWordRank(w: LogicWord): (k: nat)
    ensures k < 18 && LogicWordAt(k) == w
  {
    match w
    case False => 0
    case True => 1
    case GreaterEqual => 2
    case LowerEqual => 3
    case Greater => 4
    case Lower => 5
    case Equal => 6
    case ZeroEqual => 7
    case NotEqual => 8
    case And => 9
    case Or => 10
    case Xor => 11
    case Min => 12
    case Max => 13
    case Disp => 14
    case UDisp => 15
    case CarriageReturn => 16
    case DisplayDStack => 17
  }

  function LogicWordAt(k: nat): LogicWord
    requires k < 18
  {
    match k
    case 0 => LogicWord.False
    case 1 => LogicWord.True
    case 2 => LogicWord.GreaterEqual
    case 3 => LogicWord.LowerEqual
    case 4 => LogicWord.Greater
    case 5 => LogicWord.Lower
    case 6 => LogicWord.Equal
    case 7 => LogicWord.ZeroEqual
    case 8 => LogicWord.NotEqual
    case 9 => LogicWord.And
    case 10 => LogicWord.Or
    case 11 => LogicWord.Xor
    case 12 => LogicWord.Min
    case 13 => LogicWord.Max
    case 14 => LogicWord.Disp
    case 15 => LogicWord.UDisp
    case 16 => LogicWord.CarriageReturn
    case _ => LogicWord.DisplayDStack
  }

  lemma LogicWordRankAt(k: nat)
    requires k < 18
    ensures LogicWordRank(LogicWordAt(k)) == k
  {
  }

  /** The primitives this model does not step: `\` skips the rest of the
      source line, INCLUDE interprets a file, ABORT and EXECUTE call back
      into the interpreter, and ROLL's `++m_dsp` exposes the array slot
      above the old top, a cell the machine does not hold (RollAsWritten
      takes it as a parameter). */
  predicate Modelled(p: Prim) {
    !(p.Interp? && (p.interp.Commentary? || p.interp.Include? || p.interp.Abort? || p.interp.Execute?)) &&
    !(p.Stack? && p.stack.Roll?)
  }

  /** What a primitive needs of the machine for the switch's code to be
      defined: enough cells in the stack arrays for its pops and picks,
      room for its pushes, and operands the C++ operators accept. */
  predicate Defined(m: Machine, p: Prim) {
    var d, r := |m.ds|, |m.rs|;
    match p
    case Interp(w) => (w.State? || w.Tick? || w.PCreate?) ==> m.Room(1)
    case Dict(w) =>
      (match w
        case Here | Last => m.Room(1)
        case Allot | Comma32 | Comma16 | Comma8 => d >= 1
        case Store32 | Store16 | Store8 => d >= 2
        case CMove => d >= 3
        case Fetch => true)
    case Flow(w) =>
      (match w
        case Cell | Literal16 | Literal32 => m.Room(1)
        case ZeroBranch => d >= 1
        case ToRStack => d >= 1 && r < STACK_SIZE
        case TwoToRStack => d >= 2 && r + 2 <= STACK_SIZE
        case FromRStack | I => m.Room(1) && r >= 1
        case TwoFromRStack => m.Room(2) && r >= 2
        case J => m.Room(1) && r >= 3
        case Exit => r >= 1
        case Branch | Cells => true)
    case Stack(w) =>
      (match w
        case Depth | Dup => m.Room(1)
        case QDup => m.tos != 0 ==> m.Room(1)
        case Drop | Nip | Swap => d >= 1
        case Over | Tuck => d >= 1 && m.Room(1)
        case TwoDup => d >= 1 && m.Room(2)
        case TwoOver => d >= 3 && m.Room(2)
        case Rot | TwoDrop => d >= 2
        case TwoSwap => d >= 3
        case Pick | Roll => (m.tos as int) < d
        case OneMinus | OnePlus | TwoMinus | TwoPlus => true)
    case Numbers(w) =>
      (match w
        case GetBase => m.Room(1)
        case Plus | Minus | Times => d >= 1
        case Div => d >= 1 && ArithDefined(ArithOp.Div, SignedCells, DTop(m), m.tos)
        case RShift => d >= 1 && ArithDefined(ArithOp.RShift, SignedCells, DTop(m), m.tos)
        case LShift => d >= 1 && ArithDefined(ArithOp.LShift, SignedCells, DTop(m), m.tos)
        case Abs => m.tos != 0x8000_0000
        case Binary | Octal | Hexadecimal | Decimal | SetBase | Negate => true)
    case Logic(w) =>
      (match w
        case False | True | ZeroEqual | DisplayDStack => m.Room(1)
        case CarriageReturn => true
        case _ => d >= 1)
  }

  /** One case of the switch, as a transition of the machine. */
  function Step(m: Machine, p: Prim): (r: Transition)
    requires m.Valid() && Modelled(p) && Defined(m, p)
    ensures r.next.Valid()
  {
    match p
    case Interp(w) => StepInterp(m, w)
    case Dict(w) => StepDict(m, w)
    case Flow(w) => StepFlow(m, w)
    case Stack(w) => Ok(StepStack(m, w))
    case Numbers(w) => Ok(StepNumbers(m, w))
    case Logic(w) => Ok(StepLogic(m, w))
  }

  function StepInterp(m: Machine, w: InterpWord): (r: Transition)
    requires m.Valid() && Modelled(Interp(w)) && Defined(m, Interp(w))
    ensures r.next.Valid()
  {
    match w
    case Nop => Ok(m)
    case LParenthesis => Ok(LParen(m))
    case RParenthesis => Ok(RParen(m))
    case Colon => ForthMachine.Colon(m)
    case Semicolon => ForthMachine.Semicolon(m, Token(Flow(FlowWord.Exit)))
    case PCreate => Ok(ForthMachine.PCreate(m))
    case Create => CreateWord(m, Token(Interp(InterpWord.PCreate)), Token(Flow(FlowWord.Exit)))
    case Builds => ForthMachine.Create(m)
    case Does => Ok(m)
    case Immediate => Ok(ForthMachine.Immediate(m))
    case State => Ok(PushTos(m, m.state.Code()))
    case TraceOn => Ok(m.(trace := true))
    case TraceOff => Ok(m.(trace := false))
    case Smudge => SmudgeWord(m)
    case Tick => ForthMachine.Tick(m)
    case Compile => CompileNext(m)
    case ICompile => ForthMachine.ICompile(m)
    case Postpone => ForthMachine.Postpone(m)
    case LBracket => Ok(SetState(m, Interprete))
    case RBracket => Ok(SetState(m, ForthState.Compile))
  }

  function StepDict(m: Machine, w: DictWord): (r: Transition)
    requires m.Valid() && Defined(m, Dict(w))
    ensures r.next.Valid()
  {
    match w
    case Here => Ok(PushCursor(m, false))
    case Last => Ok(PushCursor(m, true))
    case Allot => ForthMachine.Allot(m)
    case Comma32 => Comma(m, W32)
    case Comma16 => Comma(m, W16)
    case Comma8 => Comma(m, W8)
    case Fetch => ForthMachine.Fetch(m)
    case Store32 => Store(m, W32, true)
    case Store16 => Store(m, W16, true)
    case Store8 => Store(m, W8, true)
    case CMove => ForthMachine.CMove(m)
  }

  function StepFlow(m: Machine, w: FlowWord): (r: Transition)
    requires m.Valid() && Defined(m, Flow(w))
    ensures r.next.Valid()
  {
    match w
    case Exit => Ok(ForthMachine.Exit(m))
    case Branch => ForthMachine.Branch(m)
    case ZeroBranch => ForthMachine.ZeroBranch(m)
    case ToRStack => Ok(ToR(m))
    case TwoToRStack => Ok(TwoToR(m))
    case FromRStack => Ok(FromR(m))
    case TwoFromRStack => Ok(TwoFromR(m))
    case I => Ok(RCopy(m, 0))
    case J => Ok(RCopy(m, 2))
    case Cell => Ok(PushTos(m, 4))
    case Cells => Ok(ForthMachine.Cells(m))
    case Literal16 => ForthMachine.Literal16(m)
    case Literal32 => ForthMachine.Literal32(m)
  }

  /** The data stack words never throw. */
  function StepStack(m: Machine, w: StackWord): (r: Machine)
    requires m.Valid() && Defined(m, Stack(w)) && !w.Roll?
    ensures r.Valid()
  {
    match w
    case OneMinus => AddToTos(m, -1)
    case OnePlus => AddToTos(m, 1)
    case TwoMinus => AddToTos(m, -2)
    case TwoPlus => AddToTos(m, 2)
    case Drop => ForthMachine.Drop(m)
    case Depth => ForthMachine.Depth(m)
    case Nip => ForthMachine.Nip(m)
    case Pick => ForthMachine.Pick(m)
    case Dup => ForthMachine.Dup(m)
    case QDup => ForthMachine.QDup(m)
    case Swap => ForthMachine.Swap(m)
    case Over => ForthMachine.Over(m)
    case Rot => ForthMachine.Rot(m)
    case Tuck => ForthMachine.Tuck(m)
    case TwoDup => ForthMachine.TwoDup(m)
    case TwoOver => ForthMachine.TwoOver(m)
    case TwoSwap => ForthMachine.TwoSwap(m)
    case TwoDrop => ForthMachine.TwoDrop(m)
  }

  function StepNumbers(m: Machine, w: NumberWord): (r: Machine)
    requires m.Valid() && Defined(m, Numbers(w))
    ensures r.Valid()
  {
    match w
    case Binary => ChangeBase(m, 2)
    case Octal => ChangeBase(m, 8)
    case Hexadecimal => ChangeBase(m, 16)
    case Decimal => ChangeBase(m, 10)
    case GetBase => PushTos(m, m.base)
    case SetBase => ChangeBase(m, m.tos)
    case Negate => ForthMachine.Negate(m)
    case Abs => ForthMachine.Abs(m)
    case Plus => ForthMachine.Binary(m, ArithOp.Plus, SignedCells)
    case Minus => ForthMachine.Binary(m, ArithOp.Minus, SignedCells)
    case Div => ForthMachine.Binary(m, ArithOp.Div, SignedCells)
    case Times => ForthMachine.Binary(m, ArithOp.Times, SignedCells)
    case RShift => ForthMachine.Binary(m, ArithOp.RShift, SignedCells)
    case LShift => ForthMachine.Binary(m, ArithOp.LShift, SignedCells)
  }

  /** Printing is not modelled: `.` and `U.` only pop, CR and `.S` leave the
      machine as it was. */
  function StepLogic(m: Machine, w: LogicWord): (r: Machine)
    requires m.Valid() && Defined(m, Logic(w))
    ensures r.Valid()
  {
    match w
    case False => PushFlagTwice(m, false)
    case True => PushFlagTwice(m, true)
    case GreaterEqual => ForthMachine.Logical(m, CmpOp.GreaterEqual, SignedCells)
    case LowerEqual => ForthMachine.Logical(m, CmpOp.LowerEqual, SignedCells)
    case Greater => ForthMachine.Logical(m, CmpOp.Greater, SignedCells)
    case Lower => ForthMachine.Logical(m, CmpOp.Lower, SignedCells)
    case Equal => ForthMachine.Logical(m, CmpOp.Equal, SignedCells)
    case ZeroEqual => ForthMachine.ZeroEqual(m)
    case NotEqual => ForthMachine.Logical(m, CmpOp.NotEqual, SignedCells)
    case And => ForthMachine.Binary(m, ArithOp.And, SignedCells)
    case Or => ForthMachine.Binary(m, ArithOp.Or, SignedCells)
    case Xor => ForthMachine.Binary(m, ArithOp.Xor, SignedCells)
    case Min => MinMax(m, false, SignedCells)
    case Max => MinMax(m, true, SignedCells)
    case Disp => ForthMachine.Drop(m)
    case UDisp => ForthMachine.Drop(m)
    case CarriageReturn => m
    case DisplayDStack => m
  }

  /** An id the model can step from m: an unknown id, or a modelled
      primitive whose code is defined on m. */
  predicate Runnable(m: Machine, id: Cell16) {
    match Decode(id)
    case None => true
    case Some(p) => Modelled(p) && Defined(m, p)
  }

  /** Forth::execPrimitive(id) as a transition: an id outside the switch
      throws UnknownForthPrimitive and changes nothing. */
  function Exec(m: Machine, id: Cell16): (r: Transition)
    requires m.Valid() && Runnable(m, id)
    ensures r.next.Valid()
  {
    match Decode(id)
    case None => Throw(m, UnknownPrimitive(id))
    case Some(p) => Step(m, p)
  }

  /** Forth::execPrimitive on the VM object: each case performs the macro
      calls and register updates of its source case, in their order. */
  method ExecPrimitive(f: Forth, id: Cell16) returns (thrown: Option<ForthError>)
    requires f.Valid() && Runnable(f.Abs(), id)
    modifies f.Repr()
    ensures f.Valid()
    ensures var t := Exec(old(f.Abs()), id); f.Abs() == t.next && thrown == t.thrown
  {
    var p := Decode(id);
    if p.None? {
      return Some(UnknownPrimitive(id));
    }
    thrown := None;
    match p.value {
      case Interp(w) => thrown := ExecInterp(f, w);
      case Dict(w) => thrown := ExecDict(f, w);
      case Flow(w) => thrown := ExecFlow(f, w);
      case Stack(w) => ExecStack(f, w);
      case Numbers(w) => ExecNumbers(f, w);
      case Logic(w) => ExecLogic(f, w);
    }
  }

  method ExecInterp(f: Forth, w: InterpWord) returns (thrown: Option<ForthError>)
    requires f.Valid() && Modelled(Interp(w)) && Defined(f.Abs(), Interp(w))
    modifies f.Repr()
    ensures f.Valid()
    ensures var t := StepInterp(old(f.Abs()), w); f.Abs() == t.next && thrown == t.thrown
  {
    thrown := None;
    match w {
      case Nop =>
      case LParenthesis => f.LParen();
      case RParenthesis => f.RParen();
      case Colon => thrown := f.Colon();
      case Semicolon => thrown := f.Semicolon(Token(Flow(FlowWord.Exit)));
      case PCreate => f.PCreate();
      case Create => thrown := f.CreateWord(Token(Interp(InterpWord.PCreate)), Token(Flow(FlowWord.Exit)));
      case Builds => thrown := f.Create();
      case Does =>
      case Immediate => f.Immediate();
      case State => f.PushTos(f.state.Code());
      case TraceOn => f.SetTrace(true);
      case TraceOff => f.SetTrace(false);
      case Smudge => thrown := f.SmudgeWord();
      case Tick => thrown := f.Tick();
      case Compile => thrown := f.CompileNext();
      case ICompile => thrown := f.ICompile();
      case Postpone => thrown := f.Postpone();
      case LBracket => f.SetState(Interprete);
      case RBracket => f.SetState(ForthState.Compile);
    }
  }

  method ExecDict(f: Forth, w: DictWord) returns (thrown: Option<ForthError>)
    requires f.Valid() && Defined(f.Abs(), Dict(w))
    modifies f.Repr()
    ensures f.Valid()
    ensures var t := StepDict(old(f.Abs()), w); f.Abs() == t.next && thrown == t.thrown
  {
    thrown := None;
    match w {
      case Here => f.PushCursor(false);
      case Last => f.PushCursor(true);
      case Allot => thrown := f.Allot();
      case Comma32 => thrown := f.Comma(W32);
      case Comma16 => thrown := f.Comma(W16);
      case Comma8 => thrown := f.Comma(W8);
      case Fetch => thrown := f.Fetch();
      case Store32 => thrown := f.Store(W32, true);
      case Store16 => thrown := f.Store(W16, true);
      case Store8 => thrown := f.Store(W8, true);
      case CMove => thrown := f.CMove();
    }
  }

  method ExecFlow(f: Forth, w: FlowWord) returns (thrown: Option<ForthError>)
    requires f.Valid() && Defined(f.Abs(), Flow(w))
    modifies f.Repr()
    ensures f.Valid()
    ensures var t := StepFlow(old(f.Abs()), w); f.Abs() == t.next && thrown == t.thrown
  {
    thrown := None;
    match w {
      case Exit => f.Exit();
      case Branch => thrown := f.Branch();
      case ZeroBranch => thrown := f.ZeroBranch();
      case ToRStack => f.ToR();
      case TwoToRStack => f.TwoToR();
      case FromRStack => f.FromR();
      case TwoFromRStack => f.TwoFromR();
      case I => f.RCopy(0);
      case J => f.RCopy(2);
      case Cell => f.PushTos(4);
      case Cells => f.Cells();
      case Literal16 => thrown := f.Literal16();
      case Literal32 => thrown := f.Literal32();
    }
  }

  method ExecStack(f: Forth, w: StackWord)
    requires f.Valid() && Defined(f.Abs(), Stack(w)) && !w.Roll?
    modifies f.Repr()
    ensures f.Valid() && f.Abs() == StepStack(old(f.Abs()), w)
  {
    match w {
      case OneMinus => f.AddToTos(-1);
      case OnePlus => f.AddToTos(1);
      case TwoMinus => f.AddToTos(-2);
      case TwoPlus => f.AddToTos(2);
      case Drop => f.Drop();
      case Depth => f.Depth();
      case Nip => f.Nip();
      case Pick => f.Pick();
      case Dup => f.Dup();
      case QDup => f.QDup();
      case Swap => f.Swap();
      case Over => f.Over();
      case Rot => f.Rot();
      case Tuck => f.Tuck();
      case TwoDup => f.TwoDup();
      case TwoOver => f.TwoOver();
      case TwoSwap => f.TwoSwap();
      case TwoDrop => f.TwoDrop();
    }
  }

  method ExecNumbers(f: Forth, w: NumberWord)
    requires f.Valid() && Defined(f.Abs(), Numbers(w))
    modifies f.Repr()
    ensures f.Valid() && f.Abs() == StepNumbers(old(f.Abs()), w)
  {
    match w {
      case Binary => f.ChangeBase(2);
      case Octal => f.ChangeBase(8);
      case Hexadecimal => f.ChangeBase(16);
      case Decimal => f.ChangeBase(10);
      case GetBase => f.PushTos(f.base);
      case SetBase => f.ChangeBase(f.tos);
      case Negate => f.Negate();
      case Abs => f.Absolute();
      case Plus => f.Binary(ArithOp.Plus, SignedCells);
      case Minus => f.Binary(ArithOp.Minus, SignedCells);
      case Div => f.Binary(ArithOp.Div, SignedCells);
      case Times => f.Binary(ArithOp.Times, SignedCells);
      case RShift => f.Binary(ArithOp.RShift, SignedCells);
      case LShift => f.Binary(ArithOp.LShift, SignedCells);
    }
  }

  /** The flag-producing cases of StepLogic: FALSE, TRUE and the comparisons. */
  method ExecFlags(f: Forth, w: LogicWord)
    requires f.Valid() && Defined(f.Abs(), Logic(w))
    requires w.False? || w.True? || w.GreaterEqual? || w.LowerEqual? || w.Greater? || w.Lower? || w.Equal? || w.ZeroEqual? || w.NotEqual?
    modifies f.Repr()
    ensures f.Valid() && f.Abs() == StepLogic(old(f.Abs()), w)
  {
    match w {
      case False => f.PushFlagTwice(false);
      case True => f.PushFlagTwice(true);
      case GreaterEqual => f.Logical(CmpOp.GreaterEqual, SignedCells);
      case LowerEqual => f.Logical(CmpOp.LowerEqual, SignedCells);
      case Greater => f.Logical(CmpOp.Greater, SignedCells);
      case Lower => f.Logical(CmpOp.Lower, SignedCells);
      case Equal => f.Logical(CmpOp.Equal, SignedCells);
      case ZeroEqual => f.ZeroEqual();
      case NotEqual => f.Logical(CmpOp.NotEqual, SignedCells);
    }
  }

  method ExecLogic(f: Forth, w: LogicWord)
    requires f.Valid() && Defined(f.Abs(), Logic(w))
    modifies f.Repr()
    ensures f.Valid() && f.Abs() == StepLogic(old(f.Abs()), w)
  {
    match w {
      case False | True | GreaterEqual | LowerEqual | Greater | Lower | Equal | ZeroEqual | NotEqual =>
        ExecFlags(f, w);
      case And => f.Binary(ArithOp.And, SignedCells);
      case Or => f.Binary(ArithOp.Or, SignedCells);
      case Xor => f.Binary(ArithOp.Xor, SignedCells);
      case Min => f.MinMax(false, SignedCells);
      case Max => f.MinMax(true, SignedCells);
      case Disp => f.Drop();
      case UDisp => f.Drop();
      case CarriageReturn =>
      case DisplayDStack =>
        f.DPush(f.tos);
        f.PopTos();
    }
  }
}
