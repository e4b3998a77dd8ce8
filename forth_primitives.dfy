/** The primitives of the older snapshot (src/forth/ForthPrimitives.cpp):
    their ids, one step of Forth::execPrimitive as a transition of the
    machine and the same step performed on the VM object. This snapshot
    shares the machine, the stacks and the dictionary with the SimForth
    one; where its cases differ (NIP, 2SWAP, ALLOT, `!`, FALSE and
    TRUE, unsigned comparisons, `,` of 16 bits) the step uses the function that says what
    this code does. */
module ForthPrimitives {
  import opened Wrappers
  import opened ForthHelper
  import opened DictionaryModel
  import opened ForthDictionary
  import opened ForthMachine
  import opened ForthVM

  /** A primitive: one case label of the switch. The labels come in six
      runs, in this order; each run is a datatype of its own. */
  datatype Prim =
    | Interp(interp: InterpWord)
    | Dict(dict: DictWord)
    | Flow(flow: FlowWord)
    | Stack(stack: StackWord)
    | Numbers(numbers: NumberWord)
    | Logic(logic: LogicWord)

  /** The interpreter and definition words. */
  datatype InterpWord =
    | Nop | LParenthesis | RParenthesis | Commentary | Colon | Semicolon | Immediate | Include
    | Smudge | Tick | Compile | Execute | LBracket | RBracket

  /** The dictionary cursor, append, read and write. */
  datatype DictWord =
    | Here | Allot | Comma | Fetch | Store

  /** The instruction pointer, the return stack, cell sizes and literals. */
  datatype FlowWord =
    | Exit | Branch | ZeroBranch | ToRStack | TwoToRStack | FromRStack | TwoFromRStack | Cell
    | Cells | Literal16 | Literal32

  /** The data stack words and the increments. */
  datatype StackWord =
    | OneMinus | OnePlus | TwoMinus | TwoPlus | Drop | Depth | Nip | Pick
    | Dup | QDup | Swap | Over | Rot | Tuck | TwoDup | TwoOver
    | TwoSwap | TwoDrop

  /** The display base and the arithmetic. */
  datatype NumberWord =
    | Binary | Octal | Hexadecimal | Decimal | Base | Plus | Minus | Div
    | Times | RShift | LShift

  /** Flags, comparisons, bitwise operations, MIN, MAX and printing. */
  datatype LogicWord =
    | False | True | GreaterEqual | LowerEqual | Greater | Lower | Equal | ZeroEqual
    | NotEqual | And | Or | Xor | Min | Max | Disp | UDisp
    | CarriageReturn | DisplayDStack

  /** How many ids name a primitive. */
  const NUM_PRIMITIVES: nat := 77

  /** The 16-bit id of a primitive: its rank among the case labels. */
  function Token(p: Prim): (t: Cell16)
    ensures t < NUM_PRIMITIVES && Decode(t) == Some(p)
  {
    match p
    case Interp(w) => InterpWordRank(w)
    case Dict(w) => 14 + DictWordRank(w)
    case Flow(w) => 19 + FlowWordRank(w)
    case Stack(w) => 30 + StackWordRank(w)
    case Numbers(w) => 48 + NumberWordRank(w)
    case Logic(w) => 59 + LogicWordRank(w)
  }

  /** The primitive an id names; ids from NUM_PRIMITIVES on name none and
      reach the switch's default case. */
  function Decode(id: Cell16): (r: Option<Prim>)
    ensures r.Some? <==> id < NUM_PRIMITIVES
  {
    if id < 14 then Some(Interp(InterpWordAt(id)))
    else if id < 19 then Some(Dict(DictWordAt(id - 14)))
    else if id < 30 then Some(Flow(FlowWordAt(id - 19)))
    else if id < 48 then Some(Stack(StackWordAt(id - 30)))
    else if id < 59 then Some(Numbers(NumberWordAt(id - 48)))
    else if id < 77 then Some(Logic(LogicWordAt(id - 59)))
    else None
  }

  /** Decoding an id and taking the token of what it names gives the id
      back. */
  lemma TokenOfDecode(id: Cell16)
    requires id < NUM_PRIMITIVES
    ensures Token(Decode(id).value) == id
  {
    if id < 14 {
      InterpWordRankAt(id);
    } else if id < 19 {
      DictWordRankAt(id - 14);
    } else if id < 30 {
      FlowWordRankAt(id - 19);
    } else if id < 48 {
      StackWordRankAt(id - 30);
    } else if id < 59 {
      NumberWordRankAt(id - 48);
    } else if id < 77 {
      LogicWordRankAt(id - 59);
    }
  }

  function InterpWordRank(w: InterpWord): (k: nat)
    ensures k < 14 && InterpWordAt(k) == w
  {
    match w
    case Nop => 0
    case LParenthesis => 1
    case RParenthesis => 2
    case Commentary => 3
    case Colon => 4
    case Semicolon => 5
    case Immediate => 6
    case Include => 7
    case Smudge => 8
    case Tick => 9
    case Compile => 10
    case Execute => 11
    case LBracket => 12
    case RBracket => 13
  }

  function InterpWordAt(k: nat): InterpWord
    requires k < 14
  {
    match k
    case 0 => InterpWord.Nop
    case 1 => InterpWord.LParenthesis
    case 2 => InterpWord.RParenthesis
    case 3 => InterpWord.Commentary
    case 4 => InterpWord.Colon
    case 5 => InterpWord.Semicolon
    case 6 => InterpWord.Immediate
    case 7 => InterpWord.Include
    case 8 => InterpWord.Smudge
    case 9 => InterpWord.Tick
    case 10 => InterpWord.Compile
    case 11 => InterpWord.Execute
    case 12 => InterpWord.LBracket
    case _ => InterpWord.RBracket
  }

  lemma InterpWordRankAt(k: nat)
    requires k < 14
    ensures InterpWordRank(InterpWordAt(k)) == k
  {
  }

  function DictWordRank(w: DictWord): (k: nat)
    ensures k < 5 && DictWordAt(k) == w
  {
    match w
    case Here => 0
    case Allot => 1
    case Comma => 2
    case Fetch => 3
    case Store => 4
  }

  function DictWordAt(k: nat): DictWord
    requires k < 5
  {
    match k
    case 0 => DictWord.Here
    case 1 => DictWord.Allot
    case 2 => DictWord.Comma
    case 3 => DictWord.Fetch
    case _ => DictWord.Store
  }

  lemma DictWordRankAt(k: nat)
    requires k < 5
    ensures DictWordRank(DictWordAt(k)) == k
  {
  }

  function FlowWordRank(w: FlowWord): (k: nat)
    ensures k < 11 && FlowWordAt(k) == w
  {
    match w
    case Exit => 0
    case Branch => 1
    case ZeroBranch => 2
    case ToRStack => 3
    case TwoToRStack => 4
    case FromRStack => 5
    case TwoFromRStack => 6
    case Cell => 7
    case Cells => 8
    case Literal16 => 9
    case Literal32 => 10
  }

  function FlowWordAt(k: nat): FlowWord
    requires k < 11
  {
    match k
    case 0 => FlowWord.Exit
    case 1 => FlowWord.Branch
    case 2 => FlowWord.ZeroBranch
    case 3 => FlowWord.ToRStack
    case 4 => FlowWord.TwoToRStack
    case 5 => FlowWord.FromRStack
    case 6 => FlowWord.TwoFromRStack
    case 7 => FlowWord.Cell
    case 8 => FlowWord.Cells
    case 9 => FlowWord.Literal16
    case _ => FlowWord.Literal32
  }

  lemma FlowWordRankAt(k: nat)
    requires k < 11
    ensures FlowWordRank(FlowWordAt(k)) == k
  {
  }

  function StackWordRank(w: StackWord): (k: nat)
    ensures k < 18 && StackWordAt(k) == w
  {
    match w
    case OneMinus => 0
    case OnePlus => 1
    case TwoMinus => 2
    case TwoPlus => 3
    case Drop => 4
    case Depth => 5
    case Nip => 6
    case Pick => 7
    case Dup => 8
    case QDup => 9
    case Swap => 10
    case Over => 11
    case Rot => 12
    case Tuck => 13
    case TwoDup => 14
    case TwoOver => 15
    case TwoSwap => 16
    case TwoDrop => 17
  }

  function StackWordAt(k: nat): StackWord
    requires k < 18
  {
    match k
    case 0 => StackWord.OneMinus
    case 1 => StackWord.OnePlus
    case 2 => StackWord.TwoMinus
    case 3 => StackWord.TwoPlus
    case 4 => StackWord.Drop
    case 5 => StackWord.Depth
    case 6 => StackWord.Nip
    case 7 => StackWord.Pick
    case 8 => StackWord.Dup
    case 9 => StackWord.QDup
    case 10 => StackWord.Swap
    case 11 => StackWord.Over
    case 12 => StackWord.Rot
    case 13 => StackWord.Tuck
    case 14 => StackWord.TwoDup
    case 15 => StackWord.TwoOver
    case 16 => StackWord.TwoSwap
    case _ => StackWord.TwoDrop
  }

  lemma StackWordRankAt(k: nat)
    requires k < 18
    ensures StackWordRank(StackWordAt(k)) == k
  {
  }

  function NumberWordRank(w: NumberWord): (k: nat)
    ensures k < 11 && NumberWordAt(k) == w
  {
    match w
    case Binary => 0
    case Octal => 1
    case Hexadecimal => 2
    case Decimal => 3
    case Base => 4
    case Plus => 5
    case Minus => 6
    case Div => 7
    case Times => 8
    case RShift => 9
    case LShift => 10
  }

  function NumberWordAt(k: nat): NumberWord
    requires k < 11
  {
    match k
    case 0 => NumberWord.Binary
    case 1 => NumberWord.Octal
    case 2 => NumberWord.Hexadecimal
    case 3 => NumberWord.Decimal
    case 4 => NumberWord.Base
    case 5 => NumberWord.Plus
    case 6 => NumberWord.Minus
    case 7 => NumberWord.Div
    case 8 => NumberWord.Times
    case 9 => NumberWord.RShift
    case _ => NumberWord.LShift
  }

  lemma NumberWordRankAt(k: nat)
    requires k < 11
    ensures NumberWordRank(NumberWordAt(k)) == k
  {
  }

  function LogicWordRank(w: LogicWord): (k: nat)
    ensures k < 18 && LogicWordAt(k) == w
  {
    match w
    case False => 0
    case True => 1
    case GreaterEqual => 2
    case LowerEqual => 3
    case Greater => 4
    case Lower => 5
    case Equal => 6
    case ZeroEqual => 7
    case NotEqual => 8
    case And => 9
    case Or => 10
    case Xor => 11
    case Min => 12
    case Max => 13
    case Disp => 14
    case UDisp => 15
    case CarriageReturn => 16
    case DisplayDStack => 17
  }

  function LogicWordAt(k: nat): LogicWord
    requires k < 18
  {
    match k
    case 0 => LogicWord.False
    case 1 => LogicWord.True
    case 2 => LogicWord.GreaterEqual
    case 3 => LogicWord.LowerEqual
    case 4 => LogicWord.Greater
    case 5 => LogicWord.Lower
    case 6 => LogicWord.Equal
    case 7 => LogicWord.ZeroEqual
    case 8 => LogicWord.NotEqual
    case 9 => LogicWord.And
    case 10 => LogicWord.Or
    case 11 => LogicWord.Xor
    case 12 => LogicWord.Min
    case 13 => LogicWord.Max
    case 14 => LogicWord.Disp
    case 15 => LogicWord.UDisp
    case 16 => LogicWord.CarriageReturn
    case _ => LogicWord.DisplayDStack
  }

  lemma LogicWordRankAt(k: nat)
    requires k < 18
    ensures LogicWordRank(LogicWordAt(k)) == k
  {
  }


  /** The primitives this model does not step: `\` skips the rest of the
      source line, INCLUDE interprets a file and EXECUTE calls back into
      the interpreter. */
  predicate Modelled(p: Prim) {
    !(p.Interp? && (p.interp.Commentary? || p.interp.Include? || p.interp.Execute?))
  }

  /** What a primitive needs of the machine for the switch's code to be
      defined: enough cells in the stack arrays for its pops and picks,
      room for its pushes, and operands the C++ operators accept. */
  predicate Defined(m: Machine, p: Prim) {
    var d, r := |m.ds|, |m.rs|;
    match p
    case Interp(w) => w.Tick? ==> m.Room(1)
    case Dict(w) =>
      (match w
        case Here => m.Room(1)
        case Comma | Store => d >= 1
        case Allot | Fetch => true)
    case Flow(w) =>
      (match w
        case Cell | Literal16 | Literal32 => m.Room(1)
        case ZeroBranch => d >= 1
        case ToRStack => d >= 1 && r < STACK_SIZE
        case TwoToRStack => d >= 2 && r + 2 <= STACK_SIZE
        case FromRStack => m.Room(1) && r >= 1
        case TwoFromRStack => m.Room(2) && r >= 2
        case Exit => r >= 1
        case Branch | Cells => true)
    case Stack(w) =>
      (match w
        case Depth | Dup => m.Room(1)
        case QDup => m.tos != 0 ==> m.Room(1)
        case Drop | Nip | Swap => d >= 1
        case Over | Tuck => d >= 1 && m.Room(1)
        case TwoDup => d >= 1 && m.Room(2)
        case TwoOver => d >= 3 && m.Room(2)
        case Rot | TwoDrop => d >= 2
        case TwoSwap => d >= 3
        case Pick => (m.tos as int) < d
        case OneMinus | OnePlus | TwoMinus | TwoPlus => true)
    case Numbers(w) =>
      (match w
        case Plus | Minus | Times => d >= 1
        case Div => d >= 1 && ArithDefined(ArithOp.Div, UnsignedCells, DTop(m), m.tos)
        case RShift => d >= 1 && ArithDefined(ArithOp.RShift, UnsignedCells, DTop(m), m.tos)
        case LShift => d >= 1 && ArithDefined(ArithOp.LShift, UnsignedCells, DTop(m), m.tos)
        case Binary | Octal | Hexadecimal | Decimal | Base => true)
    case Logic(w) =>
      (match w
        case False | True | ZeroEqual | DisplayDStack => m.Room(1)
        case CarriageReturn => true
        case _ => d >= 1)
  }

  /** One case of the switch, as a transition of the machine. */
  function Step(m: Machine, p: Prim): (r: Transition)
    requires m.Valid() && Modelled(p) && Defined(m, p)
    ensures r.next.Valid()
  {
    match p
    case Interp(w) => StepInterp(m, w)
    case Dict(w) => StepDict(m, w)
    case Flow(w) => StepFlow(m, w)
    case Stack(w) => Ok(StepStack(m, w))
    case Numbers(w) => Ok(StepNumbers(m, w))
    case Logic(w) => Ok(StepLogic(m, w))
  }

  /** `:` builds the header itself here, with the token just past the flag
      byte, the name and the link; SMUDGE, `'` and COMPILE behave as in the
      SimForth snapshot. */
  function StepInterp(m: Machine, w: InterpWord): (r: Transition)
    requires m.Valid() && Modelled(Interp(w)) && Defined(m, Interp(w))
    ensures r.next.Valid()
  {
    match w
    case Nop => Ok(m)
    case LParenthesis => Ok(LParen(m))
    case RParenthesis => Ok(RParen(m))
    case Colon => ForthMachine.Colon(m)
    case Semicolon => ForthMachine.Semicolon(m, Token(Flow(FlowWord.Exit)))
    case Immediate => Ok(ForthMachine.Immediate(m))
    case Smudge => SmudgeWord(m)
    case Tick => ForthMachine.Tick(m)
    case Compile => CompileNext(m)
    case LBracket => Ok(SetState(m, Interprete))
    case RBracket => Ok(SetState(m, ForthState.Compile))
  }

  /** ALLOT keeps its amount on the stack, `,` appends 16 bits and `!`
      keeps the address in the register. */
  function StepDict(m: Machine, w: DictWord): (r: Transition)
    requires m.Valid() && Defined(m, Dict(w))
    ensures r.next.Valid()
  {
    match w
    case Here => Ok(PushCursor(m, false))
    case Allot => AllotAsWritten(m)
    case Comma => ForthMachine.Comma(m, W16)
    case Fetch => ForthMachine.Fetch(m)
    case Store => ForthMachine.Store(m, W32, false)
  }

  function StepFlow(m: Machine, w: FlowWord): (r: Transition)
    requires m.Valid() && Defined(m, Flow(w))
    ensures r.next.Valid()
  {
    match w
    case Exit => Ok(ForthMachine.Exit(m))
    case Branch => ForthMachine.Branch(m)
    case ZeroBranch => ForthMachine.ZeroBranch(m)
    case ToRStack => Ok(ToR(m))
    case TwoToRStack => Ok(TwoToR(m))
    case FromRStack => Ok(FromR(m))
    case TwoFromRStack => Ok(TwoFromR(m))
    case Cell => Ok(PushTos(m, 4))
    case Cells => Ok(ForthMachine.Cells(m))
    case Literal16 => ForthMachine.Literal16(m)
    case Literal32 => ForthMachine.Literal32(m)
  }

  /** The data stack words never throw; NIP and 2SWAP do what their code
      does, not what their comments say. */
  function StepStack(m: Machine, w: StackWord): (r: Machine)
    requires m.Valid() && Defined(m, Stack(w))
    ensures r.Valid()
  {
    match w
    case OneMinus => AddToTos(m, -1)
    case OnePlus => AddToTos(m, 1)
    case TwoMinus => AddToTos(m, -2)
    case TwoPlus => AddToTos(m, 2)
    case Drop => ForthMachine.Drop(m)
    case Depth => ForthMachine.Depth(m)
    case Nip => NipAsWritten(m)
    case Pick => ForthMachine.Pick(m)
    case Dup => ForthMachine.Dup(m)
    case QDup => ForthMachine.QDup(m)
    case Swap => ForthMachine.Swap(m)
    case Over => ForthMachine.Over(m)
    case Rot => ForthMachine.Rot(m)
    case Tuck => ForthMachine.Tuck(m)
    case TwoDup => ForthMachine.TwoDup(m)
    case TwoOver => ForthMachine.TwoOver(m)
    case TwoSwap => TwoSwapAsWritten(m)
    case TwoDrop => ForthMachine.TwoDrop(m)
  }

  /** The arithmetic of this snapshot reads the cells as unsigned. */
  function StepNumbers(m: Machine, w: NumberWord): (r: Machine)
    requires m.Valid() && Defined(m, Numbers(w))
    ensures r.Valid()
  {
    match w
    case Binary => ChangeBase(m, 2)
    case Octal => ChangeBase(m, 8)
    case Hexadecimal => ChangeBase(m, 16)
    case Decimal => ChangeBase(m, 10)
    case Base => ChangeBase(m, m.tos)
    case Plus => ForthMachine.Binary(m, ArithOp.Plus, UnsignedCells)
    case Minus => ForthMachine.Binary(m, ArithOp.Minus, UnsignedCells)
    case Div => ForthMachine.Binary(m, ArithOp.Div, UnsignedCells)
    case Times => ForthMachine.Binary(m, ArithOp.Times, UnsignedCells)
    case RShift => ForthMachine.Binary(m, ArithOp.RShift, UnsignedCells)
    case LShift => ForthMachine.Binary(m, ArithOp.LShift, UnsignedCells)
  }

  /** Comparisons, MIN and MAX read the cells as unsigned. Printing is not
      modelled: `.` and `U.` only pop, CR and `.S` leave the machine as it
      was. */
  function StepLogic(m: Machine, w: LogicWord): (r: Machine)
    requires m.Valid() && Defined(m, Logic(w))
    ensures r.Valid()
  {
    match w
    case False => PushFlagTwice(m, false)
    case True => PushFlagTwice(m, true)
    case GreaterEqual => ForthMachine.Logical(m, CmpOp.GreaterEqual, UnsignedCells)
    case LowerEqual => ForthMachine.Logical(m, CmpOp.LowerEqual, UnsignedCells)
    case Greater => ForthMachine.Logical(m, CmpOp.Greater, UnsignedCells)
    case Lower => ForthMachine.Logical(m, CmpOp.Lower, UnsignedCells)
    case Equal => ForthMachine.Logical(m, CmpOp.Equal, UnsignedCells)
    case ZeroEqual => ForthMachine.ZeroEqual(m)
    case NotEqual => ForthMachine.Logical(m, CmpOp.NotEqual, UnsignedCells)
    case And => ForthMachine.Binary(m, ArithOp.And, UnsignedCells)
    case Or => ForthMachine.Binary(m, ArithOp.Or, UnsignedCells)
    case Xor => ForthMachine.Binary(m, ArithOp.Xor, UnsignedCells)
    case Min => MinMax(m, false, UnsignedCells)
    case Max => MinMax(m, true, UnsignedCells)
    case Disp => ForthMachine.Drop(m)
    case UDisp => ForthMachine.Drop(m)
    case CarriageReturn => m
    case DisplayDStack => m
  }

  /** An id the model can step from m: an unknown id, or a modelled
      primitive whose code is defined on m. */
  predicate Runnable(m: Machine, id: Cell16) {
    match Decode(id)
    case None => true
    case Some(p) => Modelled(p) && Defined(m, p)
  }

  /** Forth::execPrimitive(id) as a transition: an id outside the switch
      throws UnknownForthPrimitive and changes nothing. */
  function Exec(m: Machine, id: Cell16): (r: Transition)
    requires m.Valid() && Runnable(m, id)
    ensures r.next.Valid()
  {
    match Decode(id)
    case None => Throw(m, UnknownPrimitive(id))
    case Some(p) => Step(m, p)
  }

  /** Forth::execPrimitive on the VM object: each case performs the macro
      calls and register updates of its source case, in their order. */
  method ExecPrimitive(f: Forth, id: Cell16) returns (thrown: Option<ForthError>)
    requires f.Valid() && Runnable(f.Abs(), id)
    modifies f.Repr()
    ensures f.Valid()
    ensures var t := Exec(old(f.Abs()), id); f.Abs() == t.next && thrown == t.thrown
  {
    var p := Decode(id);
    if p.None? {
      return Some(UnknownPrimitive(id));
    }
    thrown := None;
    match p.value {
      case Interp(w) => thrown := ExecInterp(f, w);
      case Dict(w) => thrown := ExecDict(f, w);
      case Flow(w) => thrown := ExecFlow(f, w);
      case Stack(w) => ExecStack(f, w);
      case Numbers(w) => ExecNumbers(f, w);
      case Logic(w) => ExecLogic(f, w);
    }
  }

  method ExecInterp(f: Forth, w: InterpWord) returns (thrown: Option<ForthError>)
    requires f.Valid() && Modelled(Interp(w)) && Defined(f.Abs(), Interp(w))
    modifies f.Repr()
    ensures f.Valid()
    ensures var t := StepInterp(old(f.Abs()), w); f.Abs() == t.next && thrown == t.thrown
  {
    thrown := None;
    match w {
      case Nop =>
      case LParenthesis => f.LParen();
      case RParenthesis => f.RParen();
      case Colon => thrown := f.Colon();
      case Semicolon => thrown := f.Semicolon(Token(Flow(FlowWord.Exit)));
      case Immediate => f.Immediate();
      case Smudge => thrown := f.SmudgeWord();
      case Tick => thrown := f.Tick();
      case Compile => thrown := f.CompileNext();
      case LBracket => f.SetState(Interprete);
      case RBracket => f.SetState(ForthState.Compile);
    }
  }

  method ExecDict(f: Forth, w: DictWord) returns (thrown: Option<ForthError>)
    requires f.Valid() && Defined(f.Abs(), Dict(w))
    modifies f.Repr()
    ensures f.Valid()
    ensures var t := StepDict(old(f.Abs()), w); f.Abs() == t.next && thrown == t.thrown
  {
    thrown := None;
    match w {
      case Here => f.PushCursor(false);
      case Allot => thrown := f.AllotAsWritten();
      case Comma => thrown := f.Comma(W16);
      case Fetch => thrown := f.Fetch();
      case Store => thrown := f.Store(W32, false);
    }
  }

  method ExecFlow(f: Forth, w: FlowWord) returns (thrown: Option<ForthError>)
    requires f.Valid() && Defined(f.Abs(), Flow(w))
    modifies f.Repr()
    ensures f.Valid()
    ensures var t := StepFlow(old(f.Abs()), w); f.Abs() == t.next && thrown == t.thrown
  {
    thrown := None;
    match w {
      case Exit => f.Exit();
      case Branch => thrown := f.Branch();
      case ZeroBranch => thrown := f.ZeroBranch();
      case ToRStack => f.ToR();
      case TwoToRStack => f.TwoToR();
      case FromRStack => f.FromR();
      case TwoFromRStack => f.TwoFromR();
      case Cell => f.PushTos(4);
      case Cells => f.Cells();
      case Literal16 => thrown := f.Literal16();
      case Literal32 => thrown := f.Literal32();
    }
  }

  method ExecStack(f: Forth, w: StackWord)
    requires f.Valid() && Defined(f.Abs(), Stack(w))
    modifies f.Repr()
    ensures f.Valid() && f.Abs() == StepStack(old(f.Abs()), w)
  {
    match w {
      case OneMinus => f.AddToTos(-1);
      case OnePlus => f.AddToTos(1);
      case TwoMinus => f.AddToTos(-2);
      case TwoPlus => f.AddToTos(2);
      case Drop => f.Drop();
      case Depth => f.Depth();
      case Nip => f.NipAsWritten();
      case Pick => f.Pick();
      case Dup => f.Dup();
      case QDup => f.QDup();
      case Swap => f.Swap();
      case Over => f.Over();
      case Rot => f.Rot();
      case Tuck => f.Tuck();
      case TwoDup => f.TwoDup();
      case TwoOver => f.TwoOver();
      case TwoSwap => f.TwoSwapAsWritten();
      case TwoDrop => f.TwoDrop();
    }
  }

  method ExecNumbers(f: Forth, w: NumberWord)
    requires f.Valid() && Defined(f.Abs(), Numbers(w))
    modifies f.Repr()
    ensures f.Valid() && f.Abs() == StepNumbers(old(f.Abs()), w)
  {
    match w {
      case Binary => f.ChangeBase(2);
      case Octal => f.ChangeBase(8);
      case Hexadecimal => f.ChangeBase(16);
      case Decimal => f.ChangeBase(10);
      case Base => f.ChangeBase(f.tos);
      case Plus => f.Binary(ArithOp.Plus, UnsignedCells);
      case Minus => f.Binary(ArithOp.Minus, UnsignedCells);
      case Div => f.Binary(ArithOp.Div, UnsignedCells);
      case Times => f.Binary(ArithOp.Times, UnsignedCells);
      case RShift => f.Binary(ArithOp.RShift, UnsignedCells);
      case LShift => f.Binary(ArithOp.LShift, UnsignedCells);
    }
  }

  method ExecLogic(f: Forth, w: LogicWord)
    requires f.Valid() && Defined(f.Abs(), Logic(w))
    modifies f.Repr()
    ensures f.Valid() && f.Abs() == StepLogic(old(f.Abs()), w)
  {
    match w {
      case False => f.PushFlagTwice(false);
      case True => f.PushFlagTwice(true);
      case GreaterEqual => f.Logical(CmpOp.GreaterEqual, UnsignedCells);
      case LowerEqual => f.Logical(CmpOp.LowerEqual, UnsignedCells);
      case Greater => f.Logical(CmpOp.Greater, UnsignedCells);
      case Lower => f.Logical(CmpOp.Lower, UnsignedCells);
      case Equal => f.Logical(CmpOp.Equal, UnsignedCells);
      case ZeroEqual => f.ZeroEqual();
      case NotEqual => f.Logical(CmpOp.NotEqual, UnsignedCells);
      case And => f.Binary(ArithOp.And, UnsignedCells);
      case Or => f.Binary(ArithOp.Or, UnsignedCells);
      case Xor => f.Binary(ArithOp.Xor, UnsignedCells);
      case Min => f.MinMax(false, UnsignedCells);
      case Max => f.MinMax(true, UnsignedCells);
      case Disp => f.Drop();
      case UDisp => f.Drop();
      case CarriageReturn =>
      case DisplayDStack =>
        f.DPush(f.tos);
        f.PopTos();
    }
  }
}
