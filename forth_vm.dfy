/** The Forth virtual machine object that `Forth::execPrimitive` updates in
    place: the two stacks of cells, the dictionary and the registers. Each
    method performs one case of the switch, in the order of its macro calls,
    and leaves the object in the state the matching transition of
    ForthMachine describes. Both snapshots of the switch call these methods. */
module ForthVM {
  import opened Wrappers
  import opened ForthHelper
  import opened DictionaryModel
  import opened ForthDictionary
  import opened ForthMachine

  class Forth {
    const ds: CellStack       // the data stack array and m_dsp
    const rs: CellStack       // the return stack array and m_rsp
    const dict: Dictionary
    var tos: Cell32           // m_tos
    var ip: Cell16            // m_ip
    var state: ForthState     // m_state
    var saved: ForthState     // m_saved_state
    var base: Cell32          // m_base
    var trace: bool           // m_trace
    var input: seq<string>    // the words the input stream has left
    var colon: ColonMark      // m_creating_word and the *_at_colon registers

    ghost function Repr(): set<object> {
      {this, ds, ds.cells, rs, rs.cells, dict, dict.mem}
    }

    ghost predicate Valid()
      reads ds, rs, dict
    {
      ds.Valid() && rs.Valid() && dict.Valid() &&
      ds.cells.Length == STACK_SIZE && rs.cells.Length == STACK_SIZE &&
      ds != rs && ds.cells != rs.cells &&
      ds.cells as object != dict.mem as object && rs.cells as object != dict.mem as object
    }

    /** The machine this object stands for. */
    ghost function Abs(): (m: Machine)
      reads this, ds, ds.cells, rs, rs.cells, dict, dict.mem
      requires Valid()
      ensures m.Valid()
    {
      Machine(ds.Contents(), tos, rs.Contents(), ip, state, saved, dict.State(), base, trace, input, colon)
    }

    /** The constructor is not part of this model; the machine starts with
        empty stacks, an empty dictionary, in the interpret state and in
        decimal, reading `words`. */
    constructor (words: seq<string>)
      ensures Valid() && fresh(ds) && fresh(rs) && fresh(dict) && fresh(ds.cells) && fresh(rs.cells) && fresh(dict.mem)
      ensures Abs() == Machine([], 0, [], 0, Interprete, Interprete, EmptyDictionary(), 10, false, words,
                               ColonMark("", 0, 0, 0))
    {
      ds := new CellStack(STACK_SIZE);
      rs := new CellStack(STACK_SIZE);
      dict := new Dictionary();
      tos, ip := 0, 0;
      state, saved := Interprete, Interprete;
      base, trace := 10, false;
      input := words;
      colon := ColonMark("", 0, 0, 0);
    }

    // ----------------------------------------------------------------
    // The stack macros
    // ----------------------------------------------------------------

    /** DPUSH(n) */
    method DPush(n: Cell32)
      requires Valid() && Abs().Room(1)
      modifies Repr()
      ensures Valid() && Abs() == ForthMachine.DPush(old(Abs()), n)
    {
      ds.Push(n);
    }

    /** DPOP(r) and DDROP() */
    method DPop() returns (r: Cell32)
      requires Valid() && |Abs().ds| >= 1
      modifies Repr()
      ensures Valid() && r == DTop(old(Abs())) && Abs() == DDrop(old(Abs()))
    {
      r := ds.Pop();
    }

    /** DPICK(n) */
    method DPick(n: nat) returns (r: Cell32)
      requires Valid() && n < |Abs().ds|
      ensures r == ForthMachine.DPick(Abs(), n)
    {
      r := ds.Pick(n);
    }

    /** The array step of the corrected ROLL (ForthMachine.Roll): the cells
        above DPICK(n) move one place down and the array loses its top. */
    method DRemove(n: nat)
      requires Valid() && n < |Abs().ds|
      modifies Repr()
      ensures Valid()
      ensures var m := old(Abs()); var k := |m.ds|;
              Abs() == m.(ds := m.ds[..k - 1 - n] + m.ds[k - n..])
    {
      ds.Remove(n);
    }

    /** RPUSH(n) */
    method RPush(n: Cell32)
      requires Valid() && |Abs().rs| < STACK_SIZE
      modifies Repr()
      ensures Valid() && Abs() == ForthMachine.RPush(old(Abs()), n)
    {
      rs.Push(n);
    }

    /** RPOP(r) */
    method RPop() returns (r: Cell32)
      requires Valid() && |Abs().rs| >= 1
      modifies Repr()
      ensures Valid() && r == RTop(old(Abs())) && Abs() == RDrop(old(Abs()))
    {
      r := rs.Pop();
    }

    /** `DPUSH(m_tos); m_tos = v;` */
    method PushTos(v: Cell32)
      requires Valid() && Abs().Room(1)
      modifies Repr()
      ensures Valid() && Abs() == ForthMachine.PushTos(old(Abs()), v)
    {
      DPush(tos);
      tos := v;
    }

    /** `DPOP(m_tos);` */
    method PopTos()
      requires Valid() && |Abs().ds| >= 1
      modifies Repr()
      ensures Valid() && Abs() == ForthMachine.PopTos(old(Abs()))
    {
      tos := DPop();
    }

    /** getWord and nextWord: the next word of the input stream. */
    method NextWord() returns (r: Result<string, ForthError>)
      requires Valid()
      modifies this
      ensures Valid()
      ensures var t := ForthMachine.NextWord(old(Abs()));
              (t.Success? ==> r == Success(t.value.0) && Abs() == t.value.1) &&
              (t.Failure? ==> r == Failure(t.error) && Abs() == old(Abs()))
    {
      if |input| == 0 {
        return Failure(TruncatedStream);
      }
      r := Success(input[0]);
      input := input[1..];
    }

    // ----------------------------------------------------------------
    // Data stack words
    // ----------------------------------------------------------------

    method Dup()
      requires Valid() && Abs().Room(1)
      modifies Repr()
      ensures Valid() && Abs() == ForthMachine.Dup(old(Abs()))
    {
      DPush(tos);
    }

    method QDup()
      requires Valid() && (tos != 0 ==> Abs().Room(1))
      modifies Repr()
      ensures Valid() && Abs() == ForthMachine.QDup(old(Abs()))
    {
      if tos != 0 {
        DPush(tos);
      }
    }

    method Drop()
      requires Valid() && |Abs().ds| >= 1
      modifies Repr()
      ensures Valid() && Abs() == ForthMachine.Drop(old(Abs()))
    {
      tos := DPop();
    }

    method TwoDrop()
      requires Valid() && |Abs().ds| >= 2
      modifies Repr()
      ensures Valid() && Abs() == ForthMachine.TwoDrop(old(Abs()))
    {
      tos := DPop();
      tos := DPop();
    }

    /** NIP as `DPOP(m_tos1)` */
    method Nip()
      requires Valid() && |Abs().ds| >= 1
      modifies Repr()
      ensures Valid() && Abs() == ForthMachine.Nip(old(Abs()))
    {
      var tos1 := DPop();
    }

    /** NIP as `DPOP(m_tos)` */
    method NipAsWritten()
      requires Valid() && |Abs().ds| >= 1
      modifies Repr()
      ensures Valid() && Abs() == ForthMachine.NipAsWritten(old(Abs()))
    {
      tos := DPop();
    }

    method Swap()
      requires Valid() && |Abs().ds| >= 1
      modifies Repr()
      ensures Valid() && Abs() == ForthMachine.Swap(old(Abs()))
    {
      var tos2 := tos;
      tos := DPop();
      DPush(tos2);
    }

    method Over()
      requires Valid() && |Abs().ds| >= 1 && Abs().Room(1)
      modifies Repr()
      ensures Valid() && Abs() == ForthMachine.Over(old(Abs()))
    {
      DPush(tos);
      tos := DPick(1);
    }

    method Rot()
      requires Valid() && |Abs().ds| >= 2
      modifies Repr()
      ensures Valid() && Abs() == ForthMachine.Rot(old(Abs()))
    {
      var tos2 := DPop();
      var tos3 := DPop();
      DPush(tos2);
      DPush(tos);
      tos := tos3;
    }

    method Tuck()
      requires Valid() && |Abs().ds| >= 1 && Abs().Room(1)
      modifies Repr()
      ensures Valid() && Abs() == ForthMachine.Tuck(old(Abs()))
    {
      var tos2 := DPop();
      DPush(tos);
      DPush(tos2);
    }

    method TwoDup()
      requires Valid() && |Abs().ds| >= 1 && Abs().Room(2)
      modifies Repr()
      ensures Valid() && Abs() == ForthMachine.TwoDup(old(Abs()))
    {
      DPush(tos);
      var tos2 := DPick(1);
      DPush(tos2);
    }

    method TwoOver()
      requires Valid() && |Abs().ds| >= 3 && Abs().Room(2)
      modifies Repr()
      ensures Valid() && Abs() == ForthMachine.TwoOver(old(Abs()))
    {
      DPush(tos);
      var tos2 := DPick(3);
      DPush(tos2);
      tos := DPick(3);
    }

    method TwoSwap()
      requires Valid() && |Abs().ds| >= 3
      modifies Repr()
      ensures Valid() && Abs() == ForthMachine.TwoSwap(old(Abs()))
    {
      var tos1 := DPop();
      var tos2 := DPop();
      var tos3 := DPop();
      DPush(tos1);
      DPush(tos);
      DPush(tos3);
      tos := tos2;
    }

    method TwoSwapAsWritten()
      requires Valid() && |Abs().ds| >= 3
      modifies Repr()
      ensures Valid() && Abs() == ForthMachine.TwoSwapAsWritten(old(Abs()))
    {
      var tos2 := DPop();
      var tos3 := DPop();
      var tos4 := DPop();
      DPush(tos3);
      DPush(tos4);
      DPush(tos2);
    }

    method Pick()
      requires Valid() && (tos as int) < |Abs().ds|
      modifies Repr()
      ensures Valid() && Abs() == ForthMachine.Pick(old(Abs()))
    {
      tos := DPick(tos);
    }

    method Depth()
      requires Valid() && Abs().Room(1)
      modifies Repr()
      ensures Valid() && Abs() == ForthMachine.Depth(old(Abs()))
    {
      DPush(tos);
      tos := ds.sp;
    }

    /** FALSE and TRUE */
    method PushFlagTwice(f: bool)
      requires Valid() && Abs().Room(1)
      modifies Repr()
      ensures Valid() && Abs() == ForthMachine.PushFlagTwice(old(Abs()), f)
    {
      tos := Flag(f);
      DPush(tos);
    }

    /** FALSE and TRUE with the push before the assignment. */
    method PushFlag(f: bool)
      requires Valid() && Abs().Room(1)
      modifies Repr()
      ensures Valid() && Abs() == ForthMachine.PushFlag(old(Abs()), f)
    {
      PushTos(Flag(f));
    }

    /** The corrected ROLL (ForthMachine.Roll): DPICK(u) goes to the register
        and is removed from the array (CellStack.Remove). RollAsWritten is
        what the source's case computes. */
    method Roll()
      requires Valid() && (tos as int) < |Abs().ds|
      modifies Repr()
      ensures Valid() && Abs() == ForthMachine.Roll(old(Abs()))
    {
      ghost var m := Abs();
      var u := tos as int;
      var tos1 := DPick(u);
      ghost var r := ForthMachine.Roll(m);
      assert r.tos == tos1 && r.ds == m.ds[..|m.ds| - 1 - u] + m.ds[|m.ds| - u..];
      DRemove(u);
      tos := tos1;
      assert Abs() == r;
    }

    // ----------------------------------------------------------------
    // Arithmetic and logic
    // ----------------------------------------------------------------

    /** BINARY_OP(op) */
    method Binary(op: ArithOp, s: Signedness)
      requires Valid() && |Abs().ds| >= 1 && ArithDefined(op, s, DTop(Abs()), tos)
      modifies Repr()
      ensures Valid() && Abs() == ForthMachine.Binary(old(Abs()), op, s)
    {
      var a := DPop();
      tos := Arith(op, s, a, tos);
    }

    /** LOGICAL_OP(op) */
    method Logical(op: CmpOp, s: Signedness)
      requires Valid() && |Abs().ds| >= 1
      modifies Repr()
      ensures Valid() && Abs() == ForthMachine.Logical(old(Abs()), op, s)
    {
      var a := DPop();
      tos := Flag(Holds(op, s, a, tos));
    }

    /** 0= */
    method ZeroEqual()
      requires Valid() && Abs().Room(1)
      modifies Repr()
      ensures Valid() && Abs() == ForthMachine.ZeroEqual(old(Abs()))
    {
      DPush(0);
      Logical(Equal, UnsignedCells);
    }

    /** MIN and MAX */
    method MinMax(max: bool, s: Signedness)
      requires Valid() && |Abs().ds| >= 1
      modifies Repr()
      ensures Valid() && Abs() == ForthMachine.MinMax(old(Abs()), max, s)
    {
      var tos1 := DPop();
      var keepTos := if max then s.Value(tos) > s.Value(tos1) else s.Value(tos) < s.Value(tos1);
      tos := if keepTos then tos else tos1;
    }

    /** 1+ 1- 2+ 2- */
    method AddToTos(k: int)
      requires Valid() && -2 <= k <= 2
      modifies this
      ensures Valid() && Abs() == ForthMachine.AddToTos(old(Abs()), k)
    {
      tos := Wrap(tos + k);
    }

    method Negate()
      requires Valid()
      modifies this
      ensures Valid() && Abs() == ForthMachine.Negate(old(Abs()))
    {
      tos := Wrap(-(tos as int));
    }

    /** ABS */
    method Absolute()
      requires Valid() && tos != 0x8000_0000
      modifies this
      ensures Valid() && Abs() == ForthMachine.Abs(old(Abs()))
    {
      tos := if Signed(tos) < 0 then Wrap(-(tos as int)) else tos;
    }

    method Cells()
      requires Valid()
      modifies this
      ensures Valid() && Abs() == ForthMachine.Cells(old(Abs()))
    {
      tos := Wrap(tos * 4);
    }

    /** changeDisplayBase(b) */
    method ChangeBase(b: Cell32)
      requires Valid()
      modifies this
      ensures Valid() && Abs() == ForthMachine.ChangeBase(old(Abs()), b)
    {
      if 2 <= b <= 36 {
        base := b;
      }
    }

    // ----------------------------------------------------------------
    // Interpreter state
    // ----------------------------------------------------------------

    method LParen()
      requires Valid()
      modifies this
      ensures Valid() && Abs() == ForthMachine.LParen(old(Abs()))
    {
      saved := state;
      state := Comment;
    }

    method RParen()
      requires Valid()
      modifies this
      ensures Valid() && Abs() == ForthMachine.RParen(old(Abs()))
    {
      state := saved;
    }

    /** `[`, `]`, and `;` */
    method SetState(s: ForthState)
      requires Valid()
      modifies this
      ensures Valid() && Abs() == ForthMachine.SetState(old(Abs()), s)
    {
      state := s;
    }

    /** TRACE.ON and TRACE.OFF */
    method SetTrace(on: bool)
      requires Valid()
      modifies this
      ensures Valid() && Abs() == old(Abs()).(trace := on)
    {
      trace := on;
    }

    // ----------------------------------------------------------------
    // Return stack
    // ----------------------------------------------------------------

    method ToR()
      requires Valid() && |Abs().ds| >= 1 && |Abs().rs| < STACK_SIZE
      modifies Repr()
      ensures Valid() && Abs() == ForthMachine.ToR(old(Abs()))
    {
      RPush(tos);
      tos := DPop();
    }

    method FromR()
      requires Valid() && Abs().Room(1) && |Abs().rs| >= 1
      modifies Repr()
      ensures Valid() && Abs() == ForthMachine.FromR(old(Abs()))
    {
      DPush(tos);
      tos := RPop();
    }

    method TwoToR()
      requires Valid() && |Abs().ds| >= 2 && |Abs().rs| + 2 <= STACK_SIZE
      modifies Repr()
      ensures Valid() && Abs() == ForthMachine.TwoToR(old(Abs()))
    {
      var tos1 := DPop();
      RPush(tos1);
      RPush(tos);
      tos := DPop();
    }

    method TwoFromR()
      requires Valid() && Abs().Room(2) && |Abs().rs| >= 2
      modifies Repr()
      ensures Valid() && Abs() == ForthMachine.TwoFromR(old(Abs()))
    {
      DPush(tos);
      tos := RPop();
      var tos1 := RPop();
      DPush(tos1);
    }

    /** I and J: `DPUSH(m_tos); m_tos = RPICK(n);` */
    method RCopy(n: nat)
      requires Valid() && Abs().Room(1) && n < |Abs().rs|
      modifies Repr()
      ensures Valid() && Abs() == ForthMachine.RCopy(old(Abs()), n)
    {
      DPush(tos);
      tos := rs.Pick(n);
    }

    // ----------------------------------------------------------------
    // Instruction pointer
    // ----------------------------------------------------------------

    /** EXIT: `RPOP(m_ip)`, the popped cell cut to the width of m_ip. */
    method Exit()
      requires Valid() && |Abs().rs| >= 1
      modifies Repr()
      ensures Valid() && Abs() == ForthMachine.Exit(old(Abs()))
    {
      var r := RPop();
      ip := Wrap16(r);
    }

    method Branch() returns (thrown: Option<ForthError>)
      requires Valid()
      modifies this
      ensures Valid()
      ensures var t := ForthMachine.Branch(old(Abs())); Abs() == t.next && thrown == t.thrown
    {
      var off := dict.Read16At(ip + 2);
      if off.Failure? {
        return Some(DictionaryFault(off.error));
      }
      ip := Wrap16(ip + off.value);
      thrown := None;
    }

    method ZeroBranch() returns (thrown: Option<ForthError>)
      requires Valid() && |Abs().ds| >= 1
      modifies Repr()
      ensures Valid()
      ensures var t := ForthMachine.ZeroBranch(old(Abs())); Abs() == t.next && thrown == t.thrown
    {
      ghost var m := Abs();
      if tos == 0 {
        var off := dict.Read16At(ip + 2);
        if off.Failure? {
          return Some(DictionaryFault(off.error));
        }
        ip := Wrap16(ip + off.value);
      } else {
        ip := Wrap16(ip + 2);
      }
      assert Abs() == m.(ip := ip);
      PopTos();
      thrown := None;
    }

    method Literal16() returns (thrown: Option<ForthError>)
      requires Valid() && Abs().Room(1)
      modifies Repr()
      ensures Valid()
      ensures var t := ForthMachine.Literal16(old(Abs())); Abs() == t.next && thrown == t.thrown
    {
      DPush(tos);
      ip := Wrap16(ip + 2);
      var v := dict.Read16At(ip);
      if v.Failure? {
        return Some(DictionaryFault(v.error));
      }
      tos := v.value;
      thrown := None;
    }

    method Literal32() returns (thrown: Option<ForthError>)
      requires Valid() && Abs().Room(1)
      modifies Repr()
      ensures Valid()
      ensures var t := ForthMachine.Literal32(old(Abs())); Abs() == t.next && thrown == t.thrown
    {
      DPush(tos);
      ip := Wrap16(ip + 2);
      var v := dict.Read32At(ip);
      if v.Failure? {
        return Some(DictionaryFault(v.error));
      }
      tos := v.value;
      ip := Wrap16(ip + 2);
      thrown := None;
    }

    /** (CREATE) */
    method PCreate()
      requires Valid() && Abs().Room(1)
      modifies Repr()
      ensures Valid() && Abs() == ForthMachine.PCreate(old(Abs()))
    {
      DPush(tos);
      tos := ip + 4;
    }

    // ----------------------------------------------------------------
    // Dictionary words
    // ----------------------------------------------------------------

    /** HERE and LAST */
    method PushCursor(last: bool)
      requires Valid() && Abs().Room(1)
      modifies Repr()
      ensures Valid() && Abs() == ForthMachine.PushCursor(old(Abs()), last)
    {
      DPush(tos);
      tos := if last then dict.last else dict.here;
    }

    method Allot() returns (thrown: Option<ForthError>)
      requires Valid() && |Abs().ds| >= 1
      modifies Repr()
      ensures Valid()
      ensures var t := ForthMachine.Allot(old(Abs())); Abs() == t.next && thrown == t.thrown
    {
      var o := dict.Allot(Signed(tos));
      if o.Fail? {
        return Some(DictionaryFault(o.error));
      }
      tos := DPop();
      thrown := None;
    }

    method AllotAsWritten() returns (thrown: Option<ForthError>)
      requires Valid()
      modifies Repr()
      ensures Valid()
      ensures var t := ForthMachine.AllotAsWritten(old(Abs())); Abs() == t.next && thrown == t.thrown
    {
      var o := dict.Allot(Signed(tos));
      if o.Fail? {
        return Some(DictionaryFault(o.error));
      }
      thrown := None;
    }

    /** The dictionary append of width w that `,`, `S,` and `C,` perform,
        truncating v to that width. */
    method AppendCell(w: Width, v: Cell32) returns (o: Outcome<DictError>)
      requires Valid()
      modifies Repr()
      ensures Valid()
      ensures var m := old(Abs()); var r := Append(m.dict, w.Bytes(v));
              o == StatusOf(r) && Abs() == m.(dict := After(m.dict, r))
    {
      match w {
        case W8 => o := dict.Append8(v % 0x100);
        case W16 => o := dict.Append16(v % 0x1_0000);
        case W32 => o := dict.Append32(v);
      }
    }

    method Comma(w: Width) returns (thrown: Option<ForthError>)
      requires Valid() && |Abs().ds| >= 1
      modifies Repr()
      ensures Valid()
      ensures var t := ForthMachine.Comma(old(Abs()), w); Abs() == t.next && thrown == t.thrown
    {
      var o := AppendCell(w, tos);
      if o.Fail? {
        return Some(DictionaryFault(o.error));
      }
      tos := DPop();
      thrown := None;
    }

    method Fetch() returns (thrown: Option<ForthError>)
      requires Valid()
      modifies this
      ensures Valid()
      ensures var t := ForthMachine.Fetch(old(Abs())); Abs() == t.next && thrown == t.thrown
    {
      var v := dict.Read32At(tos);
      if v.Failure? {
        return Some(DictionaryFault(v.error));
      }
      tos := v.value;
      thrown := None;
    }

    /** The dictionary write of width w that `!`, `S!` and `C!` perform,
        truncating v to that width. */
    method WriteCell(w: Width, a: int, v: Cell32) returns (o: Outcome<DictError>)
      requires Valid()
      modifies Repr()
      ensures Valid()
      ensures var m := old(Abs()); var r := WriteAt(m.dict, a, w.Bytes(v));
              o == StatusOf(r) && Abs() == m.(dict := After(m.dict, r))
    {
      match w {
        case W8 => o := dict.Write8At(a, v % 0x100);
        case W16 => o := dict.Write16At(a, v % 0x1_0000);
        case W32 => o := dict.Write32At(a, v);
      }
    }

    method Store(w: Width, pop: bool) returns (thrown: Option<ForthError>)
      requires Valid() && |Abs().ds| >= 1 && (pop ==> |Abs().ds| >= 2)
      modifies Repr()
      ensures Valid()
      ensures var t := ForthMachine.Store(old(Abs()), w, pop); Abs() == t.next && thrown == t.thrown
    {
      var tos1 := DPop();
      var o := WriteCell(w, tos, tos1);
      if o.Fail? {
        return Some(DictionaryFault(o.error));
      }
      if pop {
        tos := DPop();
      }
      thrown := None;
    }

    method CMove() returns (thrown: Option<ForthError>)
      requires Valid() && |Abs().ds| >= 3
      modifies Repr()
      ensures Valid()
      ensures var t := ForthMachine.CMove(old(Abs())); Abs() == t.next && thrown == t.thrown
    {
      var tos2 := DPop();
      var tos1 := DPop();
      ghost var m2 := Abs();
      var o := dict.Move(tos2, tos1, tos);
      if o.Fail? {
        return Some(DictionaryFault(o.error));
      }
      assert Abs() == m2.(dict := DictionaryModel.Move(m2.dict, tos2, tos1, tos).value);
      PopTos();
      thrown := None;
    }

    /** IMMEDIATE: `m_dictionary[m_last] |= FLAG_IMMEDIATE` */
    method Immediate()
      requires Valid()
      modifies Repr()
      ensures Valid() && Abs() == ForthMachine.Immediate(old(Abs()))
    {
      dict.mem[dict.last] := SetImmediate(dict.mem[dict.last]);
    }

    /** The header part of `:`: reads the name, saves last, here and the
        depth, and adds the entry. */
    method Create() returns (thrown: Option<ForthError>)
      requires Valid()
      modifies Repr()
      ensures Valid()
      ensures var t := ForthMachine.Create(old(Abs())); Abs() == t.next && thrown == t.thrown
    {
      var w := NextWord();
      if w.Failure? {
        return Some(w.error);
      }
      var word := w.value;
      colon := ColonMark(word, dict.last, dict.here, ds.sp);
      var o := dict.Add(ColonToken(dict.here, word), word, 0);
      if o.Fail? {
        return Some(DictionaryFault(o.error));
      }
      thrown := None;
    }

    method Colon() returns (thrown: Option<ForthError>)
      requires Valid()
      modifies Repr()
      ensures Valid()
      ensures var t := ForthMachine.Colon(old(Abs())); Abs() == t.next && thrown == t.thrown
    {
      thrown := Create();
      if thrown.None? {
        state := Compile;
      }
    }

    /** `;` with the token of EXIT. */
    method Semicolon(exitToken: Cell16) returns (thrown: Option<ForthError>)
      requires Valid()
      modifies Repr()
      ensures Valid()
      ensures var t := ForthMachine.Semicolon(old(Abs()), exitToken); Abs() == t.next && thrown == t.thrown
    {
      var o := dict.Append16(exitToken);
      if o.Fail? {
        return Some(DictionaryFault(o.error));
      }
      state := Interprete;
      if colon.depth != ds.sp {
        dict.last := colon.last;
        dict.here := colon.here;
        return Some(UnbalancedDefinition(colon.word));
      }
      thrown := None;
    }

    /** CREATE with the tokens of (CREATE) and EXIT. */
    method CreateWord(pcreateToken: Cell16, exitToken: Cell16) returns (thrown: Option<ForthError>)
      requires Valid()
      modifies Repr()
      ensures Valid()
      ensures var t := ForthMachine.CreateWord(old(Abs()), pcreateToken, exitToken);
              Abs() == t.next && thrown == t.thrown
    {
      thrown := Create();
      if thrown.Some? {
        return;
      }
      var o := dict.Append16(pcreateToken);
      if o.Fail? {
        return Some(DictionaryFault(o.error));
      }
      o := dict.Append16(exitToken);
      if o.Fail? {
        return Some(DictionaryFault(o.error));
      }
    }

    method SmudgeWord() returns (thrown: Option<ForthError>)
      requires Valid()
      modifies Repr()
      ensures Valid()
      ensures var t := ForthMachine.SmudgeWord(old(Abs())); Abs() == t.next && thrown == t.thrown
    {
      var w := NextWord();
      if w.Failure? {
        return Some(w.error);
      }
      var found := dict.Smudge(w.value);
      thrown := None;
    }

    /** `'` */
    method Tick() returns (thrown: Option<ForthError>)
      requires Valid() && Abs().Room(1)
      modifies Repr()
      ensures Valid()
      ensures var t := ForthMachine.Tick(old(Abs())); Abs() == t.next && thrown == t.thrown
    {
      var w := NextWord();
      if w.Failure? {
        return Some(w.error);
      }
      var found := dict.Find(w.value);
      var token := if found.Some? then found.value.0 else 0;
      PushTos(token);
      thrown := None;
    }

    /** COMPILE */
    method CompileNext() returns (thrown: Option<ForthError>)
      requires Valid()
      modifies Repr()
      ensures Valid()
      ensures var t := ForthMachine.CompileNext(old(Abs())); Abs() == t.next && thrown == t.thrown
    {
      ip := Wrap16(ip + 2);
      var v := dict.Read16At(ip);
      if v.Failure? {
        return Some(DictionaryFault(v.error));
      }
      var o := dict.Append16(v.value);
      if o.Fail? {
        return Some(DictionaryFault(o.error));
      }
      thrown := None;
    }

    method AppendToken(token: Cell16) returns (thrown: Option<ForthError>)
      requires Valid()
      modifies Repr()
      ensures Valid()
      ensures var t := ForthMachine.AppendToken(old(Abs()), token); Abs() == t.next && thrown == t.thrown
    {
      var o := dict.Append16(token);
      if o.Fail? {
        return Some(DictionaryFault(o.error));
      }
      thrown := None;
    }

    /** [COMPILE] */
    method ICompile() returns (thrown: Option<ForthError>)
      requires Valid()
      modifies Repr()
      ensures Valid()
      ensures var t := ForthMachine.ICompile(old(Abs())); Abs() == t.next && thrown == t.thrown
    {
      var w := NextWord();
      if w.Failure? {
        return Some(w.error);
      }
      var found := dict.Find(w.value);
      if found.None? {
        return Some(UnknownWord(w.value));
      }
      thrown := AppendToken(found.value.0);
    }

    method Postpone() returns (thrown: Option<ForthError>)
      requires Valid()
      modifies Repr()
      ensures Valid()
      ensures var t := ForthMachine.Postpone(old(Abs())); Abs() == t.next && thrown == t.thrown
    {
      var w := NextWord();
      if w.Failure? {
        return Some(w.error);
      }
      var found := dict.Find(w.value);
      if found.None? {
        return Some(UnknownWord(w.value));
      }
      if found.value.1 {
        thrown := AppendToken(found.value.0);
      } else {
        thrown := CompileNext();
      }
    }
  }
}
