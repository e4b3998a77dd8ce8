/** The spreadsheet-cell layer of SimForth (src/SimForth/SimForth.cpp): the
    recogniser of cell references such as `N#12`, the interpret- and
    compile-mode handling of a word that names a cell, and the stack check
    that ends the interpretation of a cell's script. */
module SimForthCells {
  import opened Wrappers
  import opened ForthHelper
  import opened DictionaryModel
  import opened ForthDictionary
  import opened ForthMachine
  import opened ForthVM
  import SimForthPrimitives

  // ----------------------------------------------------------------
  // std::stoul in base 10
  // ----------------------------------------------------------------

  /** 2^64: the values an unsigned long (and a Key, a size_t) can hold are
      those below it. */
  const ULONG_LIMIT: nat := 0x1_0000_0000_0000_0000

  /** The characters isspace accepts in the C locale. */
  predicate IsSpace(c: char) {
    c == ' ' || c == '\t' || c == '\n' || c == '\r' || c == '\U{B}' || c == '\U{C}'
  }

  predicate IsDigit(c: char) {
    '0' <= c <= '9'
  }

  function DigitValue(c: char): (n: nat)
    requires IsDigit(c)
    ensures n < 10
  {
    (c as int) - ('0' as int)
  }

  /** How many characters from i on are white space. */
  function SpacesFrom(s: string, i: nat): (n: nat)
    requires i <= |s|
    ensures i + n <= |s|
    ensures forall k :: i <= k < i + n ==> IsSpace(s[k])
    ensures i + n < |s| ==> !IsSpace(s[i + n])
    decreases |s| - i
  {
    if i < |s| && IsSpace(s[i]) then 1 + SpacesFrom(s, i + 1) else 0
  }

  /** How many characters from i on are decimal digits. */
  function DigitsFrom(s: string, i: nat): (n: nat)
    requires i <= |s|
    ensures i + n <= |s|
    ensures forall k :: i <= k < i + n ==> IsDigit(s[k])
    ensures i + n < |s| ==> !IsDigit(s[i + n])
    decreases |s| - i
  {
    if i < |s| && IsDigit(s[i]) then 1 + DigitsFrom(s, i + 1) else 0
  }

  /** The number a string of decimal digits spells, most significant digit
      first. */
  function DigitsValue(s: string): nat
    requires forall k :: 0 <= k < |s| ==> IsDigit(s[k])
  {
    if |s| == 0 then 0 else 10 * DigitsValue(s[..|s| - 1]) + DigitValue(s[|s| - 1])
  }

  /** What std::stoul reports when it converts nothing or a value too large. */
  datatype StoulError = InvalidArgument | OutOfRange

  /** A conversion: the value and how many characters it used. */
  datatype Parsed = Parsed(value: nat, size: nat)

  /** std::stoul(s, &sz) in base 10: leading white space, an optional sign
      and at least one digit; a magnitude from 2^64 on is out of range, and a
      minus sign negates the magnitude modulo 2^64. */
  function Stoul(s: string): (r: Result<Parsed, StoulError>)
    ensures r.Success? ==> r.value.value < ULONG_LIMIT && 0 < r.value.size <= |s| && IsDigit(s[r.value.size - 1])
  {
    var k := SpacesFrom(s, 0);
    var signed := k < |s| && (s[k] == '+' || s[k] == '-');
    var j := if signed then k + 1 else k;
    var n := DigitsFrom(s, j);
    if n == 0 then Failure(InvalidArgument)
    else
      var magnitude := DigitsValue(s[j..j + n]);
      if magnitude >= ULONG_LIMIT then Failure(OutOfRange)
      else if signed && s[k] == '-' then Success(Parsed((ULONG_LIMIT - magnitude) % ULONG_LIMIT, j + n))
      else Success(Parsed(magnitude, j + n))
  }

  /** The decimal spelling of n, with no leading zero. */
  function Decimal(n: nat): (s: string)
    ensures |s| > 0 && forall k :: 0 <= k < |s| ==> IsDigit(s[k])
  {
    var d := ['0' + ((n % 10) as char)];
    if n < 10 then d else Decimal(n / 10) + d
  }

  /** The digits of n spell n back. */
  lemma {:induction false} DecimalValue(n: nat)
    ensures DigitsValue(Decimal(n)) == n
  {
    var s := Decimal(n);
    assert DigitValue(s[|s| - 1]) == n % 10;
    if n >= 10 {
      assert s[..|s| - 1] == Decimal(n / 10);
      DecimalValue(n / 10);
    }
  }

  /** std::stoul converts the decimal spelling of any unsigned long back to
      its value, using every character. */
  lemma StoulOfDecimal(n: nat)
    requires n < ULONG_LIMIT
    ensures Stoul(Decimal(n)) == Success(Parsed(n, |Decimal(n)|))
  {
    var s := Decimal(n);
    assert SpacesFrom(s, 0) == 0;
    DigitsCover(s, 0);
    assert s[0..|s|] == s;
    DecimalValue(n);
  }

  /** In a string of digits, the run of digits from i reaches the end. */
  lemma {:induction false} DigitsCover(s: string, i: nat)
    requires i <= |s| && forall k :: 0 <= k < |s| ==> IsDigit(s[k])
    ensures DigitsFrom(s, i) == |s| - i
    decreases |s| - i
  {
    if i < |s| {
      DigitsCover(s, i + 1);
    }
  }

  // ----------------------------------------------------------------
  // The cell reference recogniser
  // ----------------------------------------------------------------

  /** The current map as the recogniser sees it: no map, or the cost of
      each node getNode finds. The recogniser calls removeNode(id) just
      before getNode; what that call does to the map is not part of this
      model, so `cost` stands for the nodes getNode finds after it. */
  datatype MapView = NoMap | Nodes(cost: map<nat, Cell32>)

  /** SimForth::isACell(word, number): the cost of the node `N#id` names,
      or nothing when there is no map, when the word is not a letter A, N
      or Z followed by `#` and a number std::stoul reads whole, when it is
      an A# or Z# reference, or when the node does not exist. */
  function IsACell(view: MapView, word: string): (r: Option<Cell32>)
    ensures view.NoMap? ==> r.None?
    ensures r.Some? ==> |word| >= 3 && word[0] == 'N' && word[1] == '#' && IsDigit(word[|word| - 1])
  {
    if view.NoMap? then None
    else if |word| == 0 || (word[0] != 'A' && word[0] != 'N' && word[0] != 'Z') then None
    else if |word| == 1 || word[1] != '#' then None
    else
      match Stoul(word[2..])
      case Failure(_) => None
      case Success(p) =>
        if p.size + 2 != |word| then None
        else if word[0] != 'N' then None
        else if p.value in view.cost then Some(view.cost[p.value]) else None
  }

  /** `N#` followed by the decimal spelling of a node id resolves to the
      cost of that node, when the map holds it, and to nothing otherwise. */
  lemma NodeReferenceResolves(cost: map<nat, Cell32>, id: nat)
    requires id < ULONG_LIMIT
    ensures IsACell(Nodes(cost), "N#" + Decimal(id)) == if id in cost then Some(cost[id]) else None
  {
    var w := "N#" + Decimal(id);
    assert w[2..] == Decimal(id);
    StoulOfDecimal(id);
  }

  /** A reference to an area or a zone never resolves. */
  lemma AreaAndZoneNeverResolve(view: MapView, word: string)
    requires |word| >= 1 && (word[0] == 'A' || word[0] == 'Z')
    ensures IsACell(view, word).None?
  {
  }

  /** An empty suffix, or one whose last character is not a digit, is not a
      number std::stoul reads whole. */
  lemma SuffixMustEndInDigit(view: MapView, word: string)
    requires |word| < 3 || !IsDigit(word[|word| - 1])
    ensures IsACell(view, word).None?
  {
  }

  // ----------------------------------------------------------------
  // Interpreting and compiling a cell reference
  // ----------------------------------------------------------------

  /** What the cell layer does with a word: it handles a cell reference
      itself, or hands the word to the ordinary interpret routine of the
      Forth interpreter, which is not part of this model. */
  datatype WordStep = Handled(t: Transition) | Ordinary(word: string)

  /** The primitives that push the cell after them. */
  const LITERAL_16 := SimForthPrimitives.Flow(SimForthPrimitives.FlowWord.Literal16)
  const LITERAL_32 := SimForthPrimitives.Flow(SimForthPrimitives.FlowWord.Literal32)

  /** SimForth::interpreteWordCaseInterprete: a resolved reference goes
      into the data stack array with DPUSH; any other word goes to the
      ordinary interpret routine. */
  function CaseInterprete(view: MapView, m: Machine, word: string): (r: WordStep)
    requires m.Valid() && m.Room(1)
    ensures IsACell(view, word).None? ==> r == Ordinary(word)
    ensures IsACell(view, word).Some? ==>
              r.Handled? && r.t.thrown.None? && r.t.next.Valid() &&
              r.t.next.ds == m.ds + [IsACell(view, word).value] &&
              r.t.next == m.(ds := r.t.next.ds)
  {
    match IsACell(view, word)
    case None => Ordinary(word)
    case Some(number) => Handled(Ok(DPush(m, number)))
  }

  /** The code that pushes a resolved value: LITERAL_16 and one 16-bit cell
      for a value up to 65535, LITERAL_32 and one 32-bit cell above. */
  function CompileLiteral(m: Machine, number: Cell32): (r: Transition)
    requires m.Valid()
    ensures r.next.Valid()
    ensures r.thrown.None? <==> m.dict.here + (if number <= 65535 then 4 else 6) <= DICTIONARY_SIZE
    ensures r.next == m.(dict := r.next.dict)
  {
    if number <= 65535 then
      AppendCode(m, SimForthPrimitives.Token(LITERAL_16), number)
    else
      match Append16(m.dict, SimForthPrimitives.Token(LITERAL_32))
      case Failure(e) => Throw(m, DictionaryFault(e))
      case Success(d1) =>
        match Append32(d1, number)
        case Failure(e) => Throw(m.(dict := d1), DictionaryFault(e))
        case Success(d2) => Ok(m.(dict := d2))
  }

  /** SimForth::interpreteWordCaseCompile: a resolved reference is compiled
      as a literal; any other word goes, as the code is written, to the
      ordinary interpret routine rather than the compile one. */
  function CaseCompile(view: MapView, m: Machine, word: string): (r: WordStep)
    requires m.Valid()
    ensures IsACell(view, word).None? ==> r == Ordinary(word)
    ensures IsACell(view, word).Some? ==> r == Handled(CompileLiteral(m, IsACell(view, word).value))
  {
    match IsACell(view, word)
    case None => Ordinary(word)
    case Some(number) => Handled(CompileLiteral(m, number))
  }

  /** What is compiled runs back: the token at the old here is LITERAL_16
      or LITERAL_32, and that primitive, executed with the instruction
      pointer on it, pushes the compiled value and leaves the pointer where
      the interpreter loop's own step of 2 goes past the operand. */
  lemma CompiledLiteralPushesValue(m: Machine, number: Cell32)
    requires m.Valid() && CompileLiteral(m, number).thrown.None? && m.Room(1)
    ensures var h := m.dict.here; var d := CompileLiteral(m, number).next.dict;
            var run := CompileLiteral(m, number).next.(ip := h);
            h < 0x1_0000 && Read16At(d, h).Success? &&
            var op := SimForthPrimitives.Decode(Read16At(d, h).value);
            (number <= 65535 ==>
               op == Some(LITERAL_16) && Literal16(run).thrown.None? &&
               Literal16(run).next.Logical() == m.Logical() + [number] && Literal16(run).next.ip == h + 2) &&
            (number > 65535 ==>
               op == Some(LITERAL_32) && Literal32(run).thrown.None? &&
               Literal32(run).next.Logical() == m.Logical() + [number] && Literal32(run).next.ip == h + 4)
  {
    var h := m.dict.here;
    if number <= 65535 {
      var lit := SimForthPrimitives.Token(LITERAL_16);
      assert Read16At(CompileLiteral(m, number).next.dict, h) == Success(lit);
      assert Read16At(CompileLiteral(m, number).next.dict, h + 2) == Success(number);
    } else {
      var lit := SimForthPrimitives.Token(LITERAL_32);
      var d1 := Append16(m.dict, lit).value;
      var d2 := Append32(d1, number).value;
      assert d2.bytes[..d1.here] == d1.bytes[..d1.here];
      assert d2.bytes[h] == d1.bytes[h] && d2.bytes[h + 1] == d1.bytes[h + 1];
      assert Read16At(d2, h) == Success(lit);
    }
  }

  // ----------------------------------------------------------------
  // The end of a cell's script
  // ----------------------------------------------------------------

  /** The pair of a success flag and a message that the interpreter's
      entry points return. */
  datatype Verdict = Verdict(ok: bool, message: string)

  const DEPTH_CHANGED := "Stack depth changed during the interpretation of the cell '"

  /** The message for a cell whose script left `depth` cells: it names the
      cell right after the fixed opening, quoted. */
  function DepthMessage(name: string, depth: nat): (msg: string)
    ensures |DEPTH_CHANGED| + |name| < |msg| && msg[..|DEPTH_CHANGED|] == DEPTH_CHANGED
    ensures msg[|DEPTH_CHANGED|..|DEPTH_CHANGED| + |name|] == name && msg[|DEPTH_CHANGED| + |name|] == '\''
  {
    var m := DEPTH_CHANGED + name + "'" + DepthReason(depth);
    assert m[..|DEPTH_CHANGED|] == DEPTH_CHANGED;
    assert m[|DEPTH_CHANGED|..|DEPTH_CHANGED| + |name|] == name;
    assert m[|DEPTH_CHANGED| + |name|] == "'"[0];
    m
  }

  /** The end of SimForth::interpreteCell, once the script has run and
      given `res`: a failed run is returned as it is; a successful one is
      accepted only when the data stack holds exactly one cell, counted from
      the bottom of the stack and not from the depth before the run, and
      that cell is popped into `tos`. */
  function EndCell(m: Machine, res: Verdict, name: string, tos: Cell32): (r: (Verdict, Machine, Cell32))
    requires m.Valid()
    ensures r.1.Valid()
    ensures !res.ok ==> r == (res, m, tos)
    ensures res.ok ==> (r.0.ok <==> |m.ds| == 1)
    ensures r.0.ok ==> r.0 == res && r.2 == m.ds[0] && r.1 == m.(ds := [])
    ensures res.ok && |m.ds| != 1 ==> r == (Verdict(false, DepthMessage(name, |m.ds|)), m, tos)
  {
    if !res.ok then (res, m, tos)
    else if |m.ds| == 1 then (res, DDrop(m), DTop(m))
    else (Verdict(false, DepthMessage(name, |m.ds|)), m, tos)
  }

  /** The reason the message gives for `depth` cells left. */
  function DepthReason(depth: nat): string {
    if depth > 0 then " probably you forget to store the result in the cell field"
    else " probably you poped the data stack too much"
  }

  /** The two messages: more than one cell left means the result was not
      stored; none left means the script popped too much. */
  lemma DepthMessages(name: string)
    ensures DepthMessage(name, 2) != DepthMessage(name, 0)
    ensures forall k: nat :: k > 0 ==> DepthMessage(name, k) == DepthMessage(name, 1)
  {
    assert |DepthReason(2)| != |DepthReason(0)|;
    assert |DepthMessage(name, 2)| - |DepthMessage(name, 0)| == |DepthReason(2)| - |DepthReason(0)|;
  }

  /** Because the depth before the run is not subtracted, a script that
      pushes one result onto a stack that already held cells is refused,
      and a script that leaves one cell is accepted whatever it found. */
  lemma DepthIsAbsolute(before: Machine, m: Machine, name: string, tos: Cell32)
    requires before.Valid() && m.Valid() && |m.ds| == |before.ds| + 1
    ensures |before.ds| >= 1 ==> !EndCell(m, Verdict(true, ""), name, tos).0.ok
    ensures |before.ds| == 0 ==> EndCell(m, Verdict(true, ""), name, tos).0.ok
  {
  }

  // ----------------------------------------------------------------
  // The same steps on the VM object
  // ----------------------------------------------------------------

  /** SimForth::interpreteWordCaseInterprete on the VM object; `ordinary`
      tells that the word was handed to the ordinary interpret routine. */
  method InterpreteWordCaseInterprete(f: Forth, view: MapView, word: string) returns (ordinary: bool)
    requires f.Valid() && f.Abs().Room(1)
    modifies f.Repr()
    ensures f.Valid()
    ensures var s := CaseInterprete(view, old(f.Abs()), word);
            (ordinary <==> s.Ordinary?) && (ordinary ==> f.Abs() == old(f.Abs())) &&
            (!ordinary ==> f.Abs() == s.t.next)
  {
    var number := IsACell(view, word);
    if number.None? {
      return true;
    }
    f.DPush(number.value);
    ordinary := false;
  }

  /** SimForth::interpreteWordCaseCompile on the VM object. */
  method InterpreteWordCaseCompile(f: Forth, view: MapView, word: string) returns (ordinary: bool, thrown: Option<ForthError>)
    requires f.Valid()
    modifies f.Repr()
    ensures f.Valid()
    ensures var s := CaseCompile(view, old(f.Abs()), word);
            (ordinary <==> s.Ordinary?) && (ordinary ==> f.Abs() == old(f.Abs()) && thrown.None?) &&
            (!ordinary ==> f.Abs() == s.t.next && thrown == s.t.thrown)
  {
    var number := IsACell(view, word);
    thrown := None;
    if number.None? {
      return true, None;
    }
    ordinary := false;
    var n := number.value;
    var o;
    if n <= 65535 {
      o := f.dict.Append16(SimForthPrimitives.Token(LITERAL_16));
      if o.Fail? {
        return false, Some(DictionaryFault(o.error));
      }
      o := f.dict.Append16(n);
    } else {
      o := f.dict.Append16(SimForthPrimitives.Token(LITERAL_32));
      if o.Fail? {
        return false, Some(DictionaryFault(o.error));
      }
      o := f.dict.Append32(n);
    }
    if o.Fail? {
      thrown := Some(DictionaryFault(o.error));
    }
  }

  /** The end of SimForth::interpreteCell on the VM object, after the
      script has run and given `res`; `tos` is the caller's cell. */
  method InterpreteCell(f: Forth, res: Verdict, name: string, tos: Cell32) returns (r: Verdict, out: Cell32)
    requires f.Valid()
    modifies f.Repr()
    ensures f.Valid()
    ensures (r, f.Abs(), out) == EndCell(old(f.Abs()), res, name, tos)
  {
    r, out := res, tos;
    if res.ok {
      var depth := f.ds.sp;
      if depth == 1 {
        out := f.DPop();
      } else {
        r := Verdict(false, DepthMessage(name, depth));
      }
    }
  }
}
