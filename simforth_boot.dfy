/** Forth::boot of the SimForth snapshot (src/SimForth/Forth/ForthPrimitives.cpp
    lines 659-805): the table of primitives it adds to the dictionary, in
    order, with their names and flags, and the smudge that hides (CREATE)
    afterwards. From the empty dictionary every add succeeds, find gives
    each listed name the primitive of the last add that named it, and
    (CREATE) stays in the dictionary but cannot be found. */
module SimForthBoot {
  import opened Wrappers
  import opened ForthHelper
  import opened DictionaryModel
  import opened DictionaryChain
  import opened ForthDictionary
  import opened ForthVM
  import opened SimForthPrimitives

  /** One call m_dictionary.add(id, NAME(name), flags) of boot; the flags
      are either 0 or FLAG_IMMEDIATE. */
  datatype BootWord = BootWord(name: string, prim: Prim, immediate: bool)

  /** The flags byte boot passes for w: the immediate bit alone. */
  function Flags(w: BootWord): (f: Cell8)
    ensures NameSize(f) == 0 && !IsSmudged(f) && IsImmediate(f) == w.immediate
  {
    if w.immediate then FLAG_IMMEDIATE else 0
  }

  /** Lines 668-672: the dummy word and the comment words. */
  const COMMENT_WORDS: seq<BootWord> := [
    BootWord("NOOP", Interp(InterpWord.Nop), false),
    BootWord("(", Interp(InterpWord.LParenthesis), true),
    BootWord(")", Interp(InterpWord.RParenthesis), true),
    BootWord("\\", Interp(InterpWord.Commentary), true),
    BootWord("INCLUDE", Interp(InterpWord.Include), false)
  ]

  /** Lines 675-686: the words for definitions. */
  const DEFINITION_WORDS: seq<BootWord> := [
    BootWord(":", Interp(InterpWord.Colon), false),
    BootWord(";", Interp(InterpWord.Semicolon), true),
    BootWord("(CREATE)", Interp(InterpWord.PCreate), false),
    BootWord("CREATE", Interp(InterpWord.Create), false),
    BootWord("<BUILDS", Interp(InterpWord.Builds), false),
    BootWord("DOES>", Interp(InterpWord.Does), true),
    BootWord("IMMEDIATE", Interp(InterpWord.Immediate), false),
    BootWord("SMUDGE", Interp(InterpWord.Smudge), false),
    BootWord("STATE", Interp(InterpWord.State), false),
    BootWord("TRACE.ON", Interp(InterpWord.TraceOn), false),
    BootWord("TRACE.OFF", Interp(InterpWord.TraceOff), false)
  ]

  /** Lines 689-696: the words that look words up and compile them. */
  const COMPILE_WORDS: seq<BootWord> := [
    BootWord("'", Interp(InterpWord.Tick), true),
    BootWord("ABORT", Interp(InterpWord.Abort), false),
    BootWord("EXECUTE", Interp(InterpWord.Execute), false),
    BootWord("COMPILE", Interp(InterpWord.Compile), false),
    BootWord("[COMPILE]", Interp(InterpWord.ICompile), true),
    BootWord("POSTPONE", Interp(InterpWord.Postpone), true),
    BootWord("[", Interp(InterpWord.LBracket), true),
    BootWord("]", Interp(InterpWord.RBracket), false)
  ]

  /** Lines 699-709: the dictionary manipulation words. */
  const DICTIONARY_WORDS: seq<BootWord> := [
    BootWord("LAST", Dict(DictWord.Last), false),
    BootWord("HERE", Dict(DictWord.Here), false),
    BootWord("ALLOT", Dict(DictWord.Allot), false),
    BootWord(",", Dict(DictWord.Comma32), false),
    BootWord("S,", Dict(DictWord.Comma16), false),
    BootWord("C,", Dict(DictWord.Comma8), false),
    BootWord("@", Dict(DictWord.Fetch), false),
    BootWord("!", Dict(DictWord.Store32), false),
    BootWord("S!", Dict(DictWord.Store16), false),
    BootWord("C!", Dict(DictWord.Store8), false),
    BootWord("CMOVE", Dict(DictWord.CMove), false)
  ]

  /** Lines 712-714: the words changing the instruction pointer. */
  const BRANCH_WORDS: seq<BootWord> := [
    BootWord("EXIT", Flow(FlowWord.Exit), false),
    BootWord("BRANCH", Flow(FlowWord.Branch), false),
    BootWord("0BRANCH", Flow(FlowWord.ZeroBranch), false)
  ]

  /** Lines 717-726: the return stack words and the loop indices. */
  const RETURN_STACK_WORDS: seq<BootWord> := [
    BootWord(">R", Flow(FlowWord.ToRStack), false),
    BootWord("R>", Flow(FlowWord.FromRStack), false),
    BootWord("2>R", Flow(FlowWord.TwoToRStack), false),
    BootWord("2R>", Flow(FlowWord.TwoFromRStack), false),
    BootWord("I", Flow(FlowWord.I), false),
    BootWord("J", Flow(FlowWord.J), false)
  ]

  /** Lines 729-730: the cell size words. */
  const SIZE_WORDS: seq<BootWord> := [
    BootWord("CELL", Flow(FlowWord.Cell), false),
    BootWord("CELLS", Flow(FlowWord.Cells), false)
  ]

  /** Lines 733-734: the literals. */
  const LITERAL_WORDS: seq<BootWord> := [
    BootWord("LITERAL16", Flow(FlowWord.Literal16), false),
    BootWord("LITERAL32", Flow(FlowWord.Literal32), false)
  ]

  /** Lines 737-752: the arithmetic words. */
  const ARITHMETIC_WORDS: seq<BootWord> := [
    BootWord("ABS", Numbers(NumberWord.Abs), false),
    BootWord("NEGATE", Numbers(NumberWord.Negate), false),
    BootWord("MIN", Logic(LogicWord.Min), false),
    BootWord("MAX", Logic(LogicWord.Max), false),
    BootWord("+", Numbers(NumberWord.Plus), false),
    BootWord("1+", Stack(StackWord.OnePlus), false),
    BootWord("2+", Stack(StackWord.TwoPlus), false),
    BootWord("-", Numbers(NumberWord.Minus), false),
    BootWord("1-", Stack(StackWord.OneMinus), false),
    BootWord("2-", Stack(StackWord.TwoMinus), false),
    BootWord("*", Numbers(NumberWord.Times), false),
    BootWord("/", Numbers(NumberWord.Div), false),
    BootWord(">>", Numbers(NumberWord.RShift), false),
    BootWord("<<", Numbers(NumberWord.LShift), false),
    BootWord("RSHIFT", Numbers(NumberWord.RShift), false),
    BootWord("LSHIFT", Numbers(NumberWord.LShift), false)
  ]

  /** Lines 755-760: the display base words. */
  const BASE_WORDS: seq<BootWord> := [
    BootWord("BIN", Numbers(NumberWord.Binary), false),
    BootWord("OCTAL", Numbers(NumberWord.Octal), false),
    BootWord("HEX", Numbers(NumberWord.Hexadecimal), false),
    BootWord("DECIMAL", Numbers(NumberWord.Decimal), false),
    BootWord("BASE", Numbers(NumberWord.GetBase), false),
    BootWord("BASE!", Numbers(NumberWord.SetBase), false)
  ]

  /** Lines 763-776: the logic words. */
  const LOGIC_WORDS: seq<BootWord> := [
    BootWord("FALSE", Logic(LogicWord.False), false),
    BootWord("TRUE", Logic(LogicWord.True), false),
    BootWord(">", Logic(LogicWord.Greater), false),
    BootWord(">=", Logic(LogicWord.GreaterEqual), false),
    BootWord("<", Logic(LogicWord.Lower), false),
    BootWord("<=", Logic(LogicWord.LowerEqual), false),
    BootWord("==", Logic(LogicWord.Equal), false),
    BootWord("=", Logic(LogicWord.Equal), false),
    BootWord("0=", Logic(LogicWord.ZeroEqual), false),
    BootWord("<>", Logic(LogicWord.NotEqual), false),
    BootWord("!=", Logic(LogicWord.NotEqual), false),
    BootWord("AND", Logic(LogicWord.And), false),
    BootWord("OR", Logic(LogicWord.Or), false),
    BootWord("XOR", Logic(LogicWord.Xor), false)
  ]

  /** Lines 779-793: the data stack words. */
  const DATA_STACK_WORDS: seq<BootWord> := [
    BootWord("DEPTH", Stack(StackWord.Depth), false),
    BootWord("ROLL", Stack(StackWord.Roll), false),
    BootWord("NIP", Stack(StackWord.Nip), false),
    BootWord("PICK", Stack(StackWord.Pick), false),
    BootWord("DUP", Stack(StackWord.Dup), false),
    BootWord("?DUP", Stack(StackWord.QDup), false),
    BootWord("DROP", Stack(StackWord.Drop), false),
    BootWord("SWAP", Stack(StackWord.Swap), false),
    BootWord("OVER", Stack(StackWord.Over), false),
    BootWord("ROT", Stack(StackWord.Rot), false),
    BootWord("TUCK", Stack(StackWord.Tuck), false),
    BootWord("2DUP", Stack(StackWord.TwoDup), false),
    BootWord("2DROP", Stack(StackWord.TwoDrop), false),
    BootWord("2SWAP", Stack(StackWord.TwoSwap), false),
    BootWord("2OVER", Stack(StackWord.TwoOver), false)
  ]

  /** Lines 796-799: the printing words. */
  const PRINT_WORDS: seq<BootWord> := [
    BootWord(".", Logic(LogicWord.Disp), false),
    BootWord("U.", Logic(LogicWord.UDisp), false),
    BootWord("CR", Logic(LogicWord.CarriageReturn), false),
    BootWord(".S", Logic(LogicWord.DisplayDStack), false)
  ]

  /** Every add of boot, in the order boot makes them. */
  const BOOT_WORDS: seq<BootWord> :=
    COMMENT_WORDS + DEFINITION_WORDS + COMPILE_WORDS + DICTIONARY_WORDS +
    BRANCH_WORDS + RETURN_STACK_WORDS + SIZE_WORDS + LITERAL_WORDS +
    ARITHMETIC_WORDS + BASE_WORDS + LOGIC_WORDS + DATA_STACK_WORDS + PRINT_WORDS

  /** The name boot smudges once the table is added. */
  const HIDDEN_WORD: string := "(CREATE)"

  /** The words of ws added one after the other from d; boot ignores what
      add reports, and a failed add leaves the dictionary as it was. */
  function AddAll(d: DictState, ws: seq<BootWord>): (r: DictState)
    requires d.Valid()
    ensures r.Valid() && d.here <= r.here
    decreases |ws|
  {
    if ws == [] then d
    else
      var d' := AddAll(d, ws[..|ws| - 1]);
      var w := ws[|ws| - 1];
      After(d', Add(d', Token(w.prim), w.name, Flags(w)))
  }

  /** The dictionary boot leaves behind when it starts from d. */
  function Booted(d: DictState): (r: DictState)
    requires d.Valid()
    ensures r.Valid() && r.here == AddAll(d, BOOT_WORDS).here && r.last == AddAll(d, BOOT_WORDS).last
    ensures d.here <= r.here
  {
    DictionaryModel.Smudge(AddAll(d, BOOT_WORDS), HIDDEN_WORD).0
  }

  /** The adds of boot, one word of ws after the other; what each add
      reports is ignored. */
  method AddWords(f: Forth, ws: seq<BootWord>)
    requires f.Valid()
    modifies f.dict, f.dict.mem
    ensures f.Valid() && f.Abs() == old(f.Abs()).(dict := AddAll(old(f.dict.State()), ws))
  {
    var i := 0;
    while i < |ws|
      invariant i <= |ws| && f.Valid()
      invariant f.Abs() == old(f.Abs()).(dict := AddAll(old(f.dict.State()), ws[..i]))
    {
      var w := ws[i];
      var _ := f.dict.Add(Token(w.prim), w.name, Flags(w));
      assert ws[..i + 1][..i] == ws[..i];
      i := i + 1;
    }
    assert ws[..i] == ws;
  }

  /** Forth::boot: adds every word of the table, then smudges (CREATE). The
      rest of the machine is untouched. */
  method Boot(f: Forth)
    requires f.Valid()
    modifies f.dict, f.dict.mem
    ensures f.Valid() && f.Abs() == old(f.Abs()).(dict := Booted(old(f.dict.State())))
  {
    AddWords(f, BOOT_WORDS);
    var _ := f.dict.Smudge(HIDDEN_WORD);
  }

  // ----------------------------------------------------------------
  // What find answers after the table is added
  // ----------------------------------------------------------------

  /** The token and the immediate flag the table gives name: those of the
      last word of ws whose name has the same bytes, or nothing. */
  function Lookup(ws: seq<BootWord>, name: string): (r: Option<(Cell16, bool)>)
    ensures r.None? <==> forall i :: 0 <= i < |ws| ==> NameBytes(ws[i].name) != NameBytes(name)
    decreases |ws|
  {
    if ws == [] then None
    else
      var w := ws[|ws| - 1];
      if NameBytes(w.name) == NameBytes(name) then Some((Token(w.prim), w.immediate))
      else Lookup(ws[..|ws| - 1], name)
  }

  /** Lookup answers with the last word of ws that carries the name. */
  lemma {:induction false} LookupIsLast(ws: seq<BootWord>, name: string, i: nat)
    requires i < |ws| && NameBytes(ws[i].name) == NameBytes(name)
    requires forall j :: i < j < |ws| ==> NameBytes(ws[j].name) != NameBytes(name)
    ensures Lookup(ws, name) == Some((Token(ws[i].prim), ws[i].immediate))
    decreases |ws|
  {
    if i < |ws| - 1 {
      var ws' := ws[..|ws| - 1];
      assert forall j :: i < j < |ws'| ==> ws'[j] == ws[j];
      LookupIsLast(ws', name, i);
    }
  }

  /** Every add of ws succeeds when the words are added from d in order. */
  ghost predicate AllAdded(d: DictState, ws: seq<BootWord>)
    requires d.Valid()
    decreases |ws|
  {
    ws == [] ||
    (AllAdded(d, ws[..|ws| - 1]) &&
     var w := ws[|ws| - 1];
     Add(AddAll(d, ws[..|ws| - 1]), Token(w.prim), w.name, Flags(w)).Success?)
  }

  /** Names shorter than 32 characters and room for 36 bytes a word are
      enough for every add to succeed. */
  lemma {:induction false} RoomForAll(d: DictState, ws: seq<BootWord>)
    requires d.Valid() && d.here + 36 * |ws| <= DICTIONARY_SIZE
    requires forall i :: 0 <= i < |ws| ==> |ws[i].name| < 32
    ensures AllAdded(d, ws) && AddAll(d, ws).here <= d.here + 36 * |ws|
    decreases |ws|
  {
    if ws != [] {
      RoomForAll(d, ws[..|ws| - 1]);
    }
  }

  /** Adding words keeps the chain sound and the bytes below here. */
  lemma {:induction false} AddAllKeepsSound(d: DictState, ws: seq<BootWord>)
    requires Sound(d)
    ensures Sound(AddAll(d, ws))
    ensures forall i :: 0 <= i < d.here ==> AddAll(d, ws).bytes[i] == d.bytes[i]
    decreases |ws|
  {
    if ws != [] {
      var w := ws[|ws| - 1];
      AddAllKeepsSound(d, ws[..|ws| - 1]);
      var d' := AddAll(d, ws[..|ws| - 1]);
      if Add(d', Token(w.prim), w.name, Flags(w)).Success? {
        AddKeepsChain(d', Token(w.prim), w.name, Flags(w), w.name, false);
      }
    }
  }

  /** A search compares bytes only: two names with the same bytes are found
      at the same header. */
  lemma {:induction false} SameBytesSameSearch(b: seq<Cell8>, addr: nat, x: string, y: string, hidden: bool)
    requires |b| == DICTIONARY_SIZE && NameBytes(x) == NameBytes(y)
    ensures FindFrom(b, addr, x, hidden) == FindFrom(b, addr, y, hidden)
    decreases addr
  {
    if addr < |b| {
      var len := NameSize(b[addr]);
      if addr + len + 5 <= |b| {
        var link := Get16(b, addr + 1 + len) as nat;
        if 0 < link <= addr {
          SameBytesSameSearch(b, addr - link, x, y, hidden);
        }
      }
    }
  }

  /** find compares bytes only: two names with the same bytes find the same
      word. */
  lemma SameBytesSameFind(d: DictState, x: string, y: string)
    requires d.Valid() && NameBytes(x) == NameBytes(y)
    ensures FindEntry(d, x, false) == FindEntry(d, y, false) && Find(d, x) == Find(d, y)
  {
    SameBytesSameSearch(d.bytes, d.last, x, y, false);
  }

  /** After one successful add of w, find gives w's token and flag to w's
      name and what it gave before to every other name. */
  lemma AddWordFind(d: DictState, w: BootWord, name: string)
    requires Sound(d) && Add(d, Token(w.prim), w.name, Flags(w)).Success?
    ensures Find(Add(d, Token(w.prim), w.name, Flags(w)).value, name) ==
              if NameBytes(w.name) == NameBytes(name) then Some((Token(w.prim), w.immediate)) else Find(d, name)
  {
    if NameBytes(w.name) == NameBytes(name) {
      AddThenFind(d, Token(w.prim), w.name, Flags(w));
      SameBytesSameFind(Add(d, Token(w.prim), w.name, Flags(w)).value, w.name, name);
    } else {
      AddKeepsFind(d, Token(w.prim), w.name, Flags(w), name);
    }
  }

  /** After the words of ws are added, find gives a name the token and flag
      of the last word of ws with that name, and otherwise what it gave
      before. */
  lemma {:induction false} AddAllFind(d: DictState, ws: seq<BootWord>, name: string)
    requires Sound(d) && AllAdded(d, ws)
    ensures Find(AddAll(d, ws), name) == if Lookup(ws, name).Some? then Lookup(ws, name) else Find(d, name)
    decreases |ws|
  {
    if ws != [] {
      var ws' := ws[..|ws| - 1];
      AddAllFind(d, ws', name);
      AddAllKeepsSound(d, ws');
      AddWordFind(AddAll(d, ws'), ws[|ws| - 1], name);
    }
  }

  /** Adding words that do not carry a name leaves every search for it
      where it was. */
  lemma {:induction false} AddAllSkips(d: DictState, ws: seq<BootWord>, name: string, hidden: bool)
    requires Sound(d)
    requires forall i :: 0 <= i < |ws| ==> NameBytes(ws[i].name) != NameBytes(name)
    ensures FindEntry(AddAll(d, ws), name, hidden) == FindEntry(d, name, hidden)
    decreases |ws|
  {
    if ws != [] {
      var w := ws[|ws| - 1];
      AddAllSkips(d, ws[..|ws| - 1], name, hidden);
      AddAllKeepsSound(d, ws[..|ws| - 1]);
      var d' := AddAll(d, ws[..|ws| - 1]);
      if Add(d', Token(w.prim), w.name, Flags(w)).Success? {
        AddKeepsSearch(d', Token(w.prim), w.name, Flags(w), name, hidden);
      }
    }
  }

  /** Adding u and then v is adding u + v. */
  lemma {:induction false} AddAllAppend(d: DictState, u: seq<BootWord>, v: seq<BootWord>)
    requires d.Valid()
    ensures AddAll(d, u + v) == AddAll(AddAll(d, u), v)
    decreases |v|
  {
    if v == [] {
      assert u + v == u;
    } else {
      assert (u + v)[..|u + v| - 1] == u + v[..|v| - 1];
      AddAllAppend(d, u, v[..|v| - 1]);
    }
  }

  /** The searches below a chained entry read only the bytes below h. */
  lemma BelowFrame(b: seq<Cell8>, b': seq<Cell8>, a: nat, h: nat, name: string, hidden: bool)
    requires |b| == DICTIONARY_SIZE && |b'| == DICTIONARY_SIZE && Chained(b, a, h)
    requires forall i :: 0 <= i < h ==> b'[i] == b[i]
    ensures a + NameSize(b'[a]) + 5 <= |b'| && Below(b', a, name, hidden) == Below(b, a, name, hidden)
  {
    var len := NameSize(b[a]);
    assert b'[a] == b[a] && b'[a + 1 + len] == b[a + 1 + len] && b'[a + 2 + len] == b[a + 2 + len];
    var link := Get16(b, a + 1 + len) as nat;
    if 0 < link <= a {
      ChainFrame(b, b', a - link, a, name, hidden);
    }
  }

  /** Smudging x in d3, which holds the entries of d2 below d2.here and
      whose search counting hidden entries stops at the newest entry of d2,
      an unsmudged x with no x visible below it: the entry is still there
      but find no longer reaches any x. */
  lemma SmudgeLeavesNoneVisible(d2: DictState, d3: DictState, x: string)
    requires Sound(d2) && Sound(d3) && d2.last < d2.here
    requires forall i :: 0 <= i < d2.here ==> d3.bytes[i] == d2.bytes[i]
    requires FindEntry(d3, x, true) == Some(d2.last) && !IsSmudged(d2.bytes[d2.last])
    requires d2.last + NameSize(d2.bytes[d2.last]) + 5 <= DICTIONARY_SIZE
    requires Below(d2.bytes, d2.last, x, false) == None
    ensures var d' := DictionaryModel.Smudge(d3, x).0;
            FindEntry(d', x, false) == None && FindEntry(d', x, true).Some?
  {
    SmudgeMovesSelf(d3, x);
    BelowFrame(d2.bytes, d3.bytes, d2.last, d2.here, x, false);
    SmudgeTwiceRestores(d3, x);
  }

  /** Around the only word named x, the table splits into words that do not
      carry x. */
  lemma OnlyAtSplits(ws: seq<BootWord>, x: string, k: nat)
    requires OnlyAt(ws, x, k)
    ensures Lacks(ws[..k], x) && Lacks(ws[k + 1..], x)
    ensures ws[..k + 1] + ws[k + 1..] == ws && ws[..k + 1][..k] == ws[..k] && ws[..k + 1][k] == ws[k]
  {
    var v := ws[k + 1..];
    assert forall i :: 0 <= i < |v| ==> v[i] == ws[k + 1 + i];
  }

  /** Adding the only x to a sound dictionary where find sees no x: the new
      entry is the newest, unsmudged, stops a search that counts hidden
      entries, and leaves no visible x below it. */
  lemma AddOnlyEntry(d1: DictState, w: BootWord, x: string)
    requires Sound(d1) && Add(d1, Token(w.prim), w.name, Flags(w)).Success?
    requires NameBytes(w.name) == NameBytes(x) && FindEntry(d1, x, false) == None
    ensures var d2 := Add(d1, Token(w.prim), w.name, Flags(w)).value;
            Sound(d2) && d2.last < d2.here && !IsSmudged(d2.bytes[d2.last]) &&
            d2.last + NameSize(d2.bytes[d2.last]) + 5 <= DICTIONARY_SIZE &&
            FindEntry(d2, x, true) == Some(d2.last) && Below(d2.bytes, d2.last, x, false) == None
  {
    var d2 := Add(d1, Token(w.prim), w.name, Flags(w)).value;
    AddKeepsChain(d1, Token(w.prim), w.name, Flags(w), x, false);
    AddedEntryIsFound(d1, Token(w.prim), w.name, Flags(w), true);
    SameBytesSameSearch(d2.bytes, d2.last, w.name, x, true);
  }

  /** Adding words among which only the one at k is named x, to a dictionary
      where find sees no x, then smudging x: the entry stays in the
      dictionary, where a search that counts hidden entries finds it, but
      find no longer reaches any x. */
  lemma AddAllThenSmudge(d: DictState, ws: seq<BootWord>, x: string, k: nat)
    requires Sound(d) && AllAdded(d, ws) && OnlyAt(ws, x, k) && FindEntry(d, x, false) == None
    ensures var d' := DictionaryModel.Smudge(AddAll(d, ws), x).0;
            FindEntry(d', x, false) == None && FindEntry(d', x, true).Some?
  {
    OnlyAtSplits(ws, x, k);
    var u, w, v := ws[..k], ws[k], ws[k + 1..];
    AllAddedPrefix(d, ws, k + 1);
    AddAllKeepsSound(d, u);
    AddAllSkips(d, u, x, false);
    var d1 := AddAll(d, u);
    AddOnlyEntry(d1, w, x);
    var d2 := Add(d1, Token(w.prim), w.name, Flags(w)).value;
    AddAllSkips(d2, v, x, true);
    AddAllKeepsSound(d2, v);
    AddAllAppend(d, ws[..k + 1], v);
    SmudgeLeavesNoneVisible(d2, AddAll(d2, v), x);
  }

  /** Every add of a prefix of ws succeeds when every add of ws does. */
  lemma {:induction false} AllAddedPrefix(d: DictState, ws: seq<BootWord>, n: nat)
    requires d.Valid() && AllAdded(d, ws) && n <= |ws|
    ensures AllAdded(d, ws[..n])
    decreases |ws|
  {
    if n < |ws| {
      assert ws[..|ws| - 1][..n] == ws[..n];
      AllAddedPrefix(d, ws[..|ws| - 1], n);
    } else {
      assert ws[..n] == ws;
    }
  }

  // ----------------------------------------------------------------
  // The table boot adds
  // ----------------------------------------------------------------

  /** Every name of ws fits the five-bit length field. */
  ghost predicate NamesFit(ws: seq<BootWord>) {
    forall i :: 0 <= i < |ws| ==> |ws[i].name| < 32
  }

  /** No word of ws carries the bytes of name. */
  ghost predicate Lacks(ws: seq<BootWord>, name: string) {
    forall i :: 0 <= i < |ws| ==> NameBytes(ws[i].name) != NameBytes(name)
  }

  lemma NamesFitConcat(u: seq<BootWord>, v: seq<BootWord>)
    requires NamesFit(u) && NamesFit(v)
    ensures NamesFit(u + v)
  {
    assert forall i :: |u| <= i < |u + v| ==> (u + v)[i] == v[i - |u|];
  }

  /** The names of the first groups fit the five-bit length field. */
  lemma EarlyNamesFit()
    ensures NamesFit(COMMENT_WORDS) && NamesFit(DEFINITION_WORDS) && NamesFit(COMPILE_WORDS) &&
            NamesFit(DICTIONARY_WORDS) && NamesFit(BRANCH_WORDS) && NamesFit(RETURN_STACK_WORDS)
  {
    assert NamesFit(COMMENT_WORDS);
    assert NamesFit(DEFINITION_WORDS);
    assert NamesFit(COMPILE_WORDS);
    assert NamesFit(DICTIONARY_WORDS);
    assert NamesFit(BRANCH_WORDS);
    assert NamesFit(RETURN_STACK_WORDS);
  }

  /** The names of the middle groups fit the five-bit length field. */
  lemma MiddleNamesFit()
    ensures NamesFit(SIZE_WORDS) && NamesFit(LITERAL_WORDS) && NamesFit(ARITHMETIC_WORDS) && NamesFit(BASE_WORDS)
  {
    assert NamesFit(SIZE_WORDS);
    assert NamesFit(LITERAL_WORDS);
    assert NamesFit(ARITHMETIC_WORDS);
    assert NamesFit(BASE_WORDS);
  }

  /** The names of the last groups fit the five-bit length field. */
  lemma LateNamesFit()
    ensures NamesFit(LOGIC_WORDS) && NamesFit(DATA_STACK_WORDS) && NamesFit(PRINT_WORDS)
  {
    assert NamesFit(LOGIC_WORDS);
    assert NamesFit(DATA_STACK_WORDS);
    assert NamesFit(PRINT_WORDS);
  }

  /** The table has 103 words and every name fits the five-bit length
      field. */
  lemma TableNamesFit()
    ensures |BOOT_WORDS| == 103 && NamesFit(BOOT_WORDS)
  {
    EarlyNamesFit();
    MiddleNamesFit();
    LateNamesFit();
    NamesFitConcat(COMMENT_WORDS, DEFINITION_WORDS);
    NamesFitConcat(COMMENT_WORDS + DEFINITION_WORDS, COMPILE_WORDS);
    NamesFitConcat(COMMENT_WORDS + DEFINITION_WORDS + COMPILE_WORDS, DICTIONARY_WORDS);
    NamesFitConcat(COMMENT_WORDS + DEFINITION_WORDS + COMPILE_WORDS + DICTIONARY_WORDS, BRANCH_WORDS);
    NamesFitConcat(COMMENT_WORDS + DEFINITION_WORDS + COMPILE_WORDS + DICTIONARY_WORDS + BRANCH_WORDS, RETURN_STACK_WORDS);
    NamesFitConcat(COMMENT_WORDS + DEFINITION_WORDS + COMPILE_WORDS + DICTIONARY_WORDS + BRANCH_WORDS + RETURN_STACK_WORDS, SIZE_WORDS);
    NamesFitConcat(COMMENT_WORDS + DEFINITION_WORDS + COMPILE_WORDS + DICTIONARY_WORDS + BRANCH_WORDS + RETURN_STACK_WORDS + SIZE_WORDS, LITERAL_WORDS);
    NamesFitConcat(COMMENT_WORDS + DEFINITION_WORDS + COMPILE_WORDS + DICTIONARY_WORDS + BRANCH_WORDS + RETURN_STACK_WORDS + SIZE_WORDS + LITERAL_WORDS, ARITHMETIC_WORDS);
    NamesFitConcat(COMMENT_WORDS + DEFINITION_WORDS + COMPILE_WORDS + DICTIONARY_WORDS + BRANCH_WORDS + RETURN_STACK_WORDS + SIZE_WORDS + LITERAL_WORDS + ARITHMETIC_WORDS, BASE_WORDS);
    NamesFitConcat(COMMENT_WORDS + DEFINITION_WORDS + COMPILE_WORDS + DICTIONARY_WORDS + BRANCH_WORDS + RETURN_STACK_WORDS + SIZE_WORDS + LITERAL_WORDS + ARITHMETIC_WORDS + BASE_WORDS, LOGIC_WORDS);
    NamesFitConcat(COMMENT_WORDS + DEFINITION_WORDS + COMPILE_WORDS + DICTIONARY_WORDS + BRANCH_WORDS + RETURN_STACK_WORDS + SIZE_WORDS + LITERAL_WORDS + ARITHMETIC_WORDS + BASE_WORDS + LOGIC_WORDS, DATA_STACK_WORDS);
    NamesFitConcat(COMMENT_WORDS + DEFINITION_WORDS + COMPILE_WORDS + DICTIONARY_WORDS + BRANCH_WORDS + RETURN_STACK_WORDS + SIZE_WORDS + LITERAL_WORDS + ARITHMETIC_WORDS + BASE_WORDS + LOGIC_WORDS + DATA_STACK_WORDS, PRINT_WORDS);
  }

  /** The word at index k of ws is the only one carrying the bytes of name. */
  ghost predicate OnlyAt(ws: seq<BootWord>, name: string, k: nat) {
    k < |ws| && NameBytes(ws[k].name) == NameBytes(name) &&
    forall i :: 0 <= i < |ws| && i != k ==> NameBytes(ws[i].name) != NameBytes(name)
  }

  lemma OnlyAtThenLacks(u: seq<BootWord>, v: seq<BootWord>, name: string, k: nat)
    requires OnlyAt(u, name, k) && Lacks(v, name)
    ensures OnlyAt(u + v, name, k)
  {
    assert forall i :: |u| <= i < |u + v| ==> (u + v)[i] == v[i - |u|];
  }

  lemma LacksThenOnlyAt(u: seq<BootWord>, v: seq<BootWord>, name: string, k: nat)
    requires Lacks(u, name) && OnlyAt(v, name, k)
    ensures OnlyAt(u + v, name, |u| + k)
  {
    assert forall i :: |u| <= i < |u + v| ==> (u + v)[i] == v[i - |u|];
  }

  /** The first two groups of words: (CREATE) is the eighth word. */
  lemma HiddenWordFirst()
    ensures OnlyAt(COMMENT_WORDS + DEFINITION_WORDS, HIDDEN_WORD, 7)
  {
    assert NameBytes("TRACE.ON")[0] != NameBytes(HIDDEN_WORD)[0];
    assert Lacks(COMMENT_WORDS, HIDDEN_WORD);
    assert OnlyAt(DEFINITION_WORDS, HIDDEN_WORD, 2);
    LacksThenOnlyAt(COMMENT_WORDS, DEFINITION_WORDS, HIDDEN_WORD, 2);
  }

  /** The groups after the first two do not carry (CREATE). */
  lemma HiddenWordNotMiddle()
    ensures Lacks(COMPILE_WORDS, HIDDEN_WORD) && Lacks(DICTIONARY_WORDS, HIDDEN_WORD) &&
            Lacks(BRANCH_WORDS, HIDDEN_WORD) && Lacks(RETURN_STACK_WORDS, HIDDEN_WORD) &&
            Lacks(SIZE_WORDS, HIDDEN_WORD) && Lacks(LITERAL_WORDS, HIDDEN_WORD)
  {
    assert NameBytes("POSTPONE")[0] != NameBytes(HIDDEN_WORD)[0];
    assert Lacks(COMPILE_WORDS, HIDDEN_WORD);
    assert Lacks(DICTIONARY_WORDS, HIDDEN_WORD);
    assert Lacks(BRANCH_WORDS, HIDDEN_WORD);
    assert Lacks(RETURN_STACK_WORDS, HIDDEN_WORD);
    assert Lacks(SIZE_WORDS, HIDDEN_WORD);
    assert Lacks(LITERAL_WORDS, HIDDEN_WORD);
  }

  /** The last groups do not carry (CREATE). */
  lemma HiddenWordNotLater()
    ensures Lacks(ARITHMETIC_WORDS, HIDDEN_WORD) && Lacks(BASE_WORDS, HIDDEN_WORD) &&
            Lacks(LOGIC_WORDS, HIDDEN_WORD) && Lacks(DATA_STACK_WORDS, HIDDEN_WORD) &&
            Lacks(PRINT_WORDS, HIDDEN_WORD)
  {
    assert Lacks(ARITHMETIC_WORDS, HIDDEN_WORD);
    assert Lacks(BASE_WORDS, HIDDEN_WORD);
    assert Lacks(LOGIC_WORDS, HIDDEN_WORD);
    assert Lacks(DATA_STACK_WORDS, HIDDEN_WORD);
    assert Lacks(PRINT_WORDS, HIDDEN_WORD);
  }

  /** (CREATE) is the eighth word of the table and no other word carries
      its bytes. */
  lemma HiddenWordOnce()
    ensures OnlyAt(BOOT_WORDS, HIDDEN_WORD, 7)
  {
    HiddenWordFirst();
    HiddenWordNotMiddle();
    HiddenWordNotLater();
    OnlyAtThenLacks(COMMENT_WORDS + DEFINITION_WORDS, COMPILE_WORDS, HIDDEN_WORD, 7);
    OnlyAtThenLacks(COMMENT_WORDS + DEFINITION_WORDS + COMPILE_WORDS, DICTIONARY_WORDS, HIDDEN_WORD, 7);
    OnlyAtThenLacks(COMMENT_WORDS + DEFINITION_WORDS + COMPILE_WORDS + DICTIONARY_WORDS, BRANCH_WORDS, HIDDEN_WORD, 7);
    OnlyAtThenLacks(COMMENT_WORDS + DEFINITION_WORDS + COMPILE_WORDS + DICTIONARY_WORDS + BRANCH_WORDS, RETURN_STACK_WORDS, HIDDEN_WORD, 7);
    OnlyAtThenLacks(COMMENT_WORDS + DEFINITION_WORDS + COMPILE_WORDS + DICTIONARY_WORDS + BRANCH_WORDS + RETURN_STACK_WORDS, SIZE_WORDS, HIDDEN_WORD, 7);
    OnlyAtThenLacks(COMMENT_WORDS + DEFINITION_WORDS + COMPILE_WORDS + DICTIONARY_WORDS + BRANCH_WORDS + RETURN_STACK_WORDS + SIZE_WORDS, LITERAL_WORDS, HIDDEN_WORD, 7);
    OnlyAtThenLacks(COMMENT_WORDS + DEFINITION_WORDS + COMPILE_WORDS + DICTIONARY_WORDS + BRANCH_WORDS + RETURN_STACK_WORDS + SIZE_WORDS + LITERAL_WORDS, ARITHMETIC_WORDS, HIDDEN_WORD, 7);
    OnlyAtThenLacks(COMMENT_WORDS + DEFINITION_WORDS + COMPILE_WORDS + DICTIONARY_WORDS + BRANCH_WORDS + RETURN_STACK_WORDS + SIZE_WORDS + LITERAL_WORDS + ARITHMETIC_WORDS, BASE_WORDS, HIDDEN_WORD, 7);
    OnlyAtThenLacks(COMMENT_WORDS + DEFINITION_WORDS + COMPILE_WORDS + DICTIONARY_WORDS + BRANCH_WORDS + RETURN_STACK_WORDS + SIZE_WORDS + LITERAL_WORDS + ARITHMETIC_WORDS + BASE_WORDS, LOGIC_WORDS, HIDDEN_WORD, 7);
    OnlyAtThenLacks(COMMENT_WORDS + DEFINITION_WORDS + COMPILE_WORDS + DICTIONARY_WORDS + BRANCH_WORDS + RETURN_STACK_WORDS + SIZE_WORDS + LITERAL_WORDS + ARITHMETIC_WORDS + BASE_WORDS + LOGIC_WORDS, DATA_STACK_WORDS, HIDDEN_WORD, 7);
    OnlyAtThenLacks(COMMENT_WORDS + DEFINITION_WORDS + COMPILE_WORDS + DICTIONARY_WORDS + BRANCH_WORDS + RETURN_STACK_WORDS + SIZE_WORDS + LITERAL_WORDS + ARITHMETIC_WORDS + BASE_WORDS + LOGIC_WORDS + DATA_STACK_WORDS, PRINT_WORDS, HIDDEN_WORD, 7);
  }

  /** From the empty dictionary every add of boot succeeds. */
  lemma BootAddsAll()
    ensures AllAdded(EmptyDictionary(), BOOT_WORDS)
    ensures Sound(AddAll(EmptyDictionary(), BOOT_WORDS))
  {
    TableNamesFit();
    RoomForAll(EmptyDictionary(), BOOT_WORDS);
    EmptySound();
    AddAllKeepsSound(EmptyDictionary(), BOOT_WORDS);
  }

  /** After boot from the empty dictionary, find gives every name other
      than (CREATE) the token and immediate flag of the last add that named
      it, and nothing to a name the table does not list. */
  lemma BootFinds(name: string)
    requires NameBytes(name) != NameBytes(HIDDEN_WORD)
    ensures Find(Booted(EmptyDictionary()), name) == Lookup(BOOT_WORDS, name)
  {
    var e := EmptyDictionary();
    BootAddsAll();
    EmptySound();
    AddAllFind(e, BOOT_WORDS, name);
    SmudgeKeepsFind(AddAll(e, BOOT_WORDS), HIDDEN_WORD, name);
  }

  /** After boot from the empty dictionary, (CREATE) is in the dictionary
      but hidden from find. */
  lemma BootHidesCreate()
    ensures Find(Booted(EmptyDictionary()), HIDDEN_WORD) == None
    ensures FindEntry(Booted(EmptyDictionary()), HIDDEN_WORD, true).Some?
  {
    BootAddsAll();
    EmptySound();
    HiddenWordOnce();
    AddAllThenSmudge(EmptyDictionary(), BOOT_WORDS, HIDDEN_WORD, 7);
  }
}
