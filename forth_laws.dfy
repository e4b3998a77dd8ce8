/** Laws relating the machine's transitions: words that undo each other, a
    definition made by `:` and closed by `;`, how the two snapshots' readings
    of a cell change a comparison, and how the cases written against their
    stack-effect comments depart from them. */
module ForthLaws {
  import opened Wrappers
  import opened ForthHelper
  import opened DictionaryModel
  import opened ForthMachine

  /** The logical stack determines the stack array and the register. */
  lemma LogicalDetermines(a: Machine, b: Machine)
    requires a.Logical() == b.Logical()
    ensures a.ds == b.ds && a.tos == b.tos
  {
    var n := |a.Logical()|;
    assert a.ds == a.Logical()[..n - 1] && b.ds == b.Logical()[..n - 1];
    assert a.tos == a.Logical()[n - 1] && b.tos == b.Logical()[n - 1];
  }

  // ----------------------------------------------------------------
  // Words that undo each other
  // ----------------------------------------------------------------

  /** `>R R>` leaves both stacks as they were. */
  lemma ToRThenFromR(m: Machine)
    requires m.Valid() && |m.ds| >= 1 && |m.rs| < STACK_SIZE
    ensures FromR(ToR(m)) == m
  {
    var r := FromR(ToR(m));
    assert r.Logical() == m.Logical()[..|m.ds|] + [m.tos];
    LogicalDetermines(r, m);
  }

  /** `R> >R` leaves both stacks as they were. */
  lemma FromRThenToR(m: Machine)
    requires m.Valid() && m.Room(1) && |m.rs| >= 1
    ensures ToR(FromR(m)) == m
  {
    var r := ToR(FromR(m));
    assert r.Logical() == (m.Logical() + [RTop(m)])[..|m.ds| + 1];
    LogicalDetermines(r, m);
  }

  /** `2>R 2R>` leaves both stacks as they were. */
  lemma TwoToRThenTwoFromR(m: Machine)
    requires m.Valid() && |m.ds| >= 2 && |m.rs| + 2 <= STACK_SIZE
    ensures TwoFromR(TwoToR(m)) == m
  {
    var L, n := m.Logical(), |m.Logical()|;
    var r := TwoFromR(TwoToR(m));
    assert r.Logical() == L[..n - 2] + [L[n - 2], L[n - 1]];
    LogicalDetermines(r, m);
  }

  /** `(` then `)` comes back to the state it left; only the saved slot
      keeps a trace of it. */
  lemma ParenRestoresState(m: Machine)
    requires m.Valid()
    ensures RParen(LParen(m)) == m.(saved := m.state)
    ensures LParen(m).state == Comment
  {
  }

  // ----------------------------------------------------------------
  // A definition
  // ----------------------------------------------------------------

  /** `: name ;` with nothing in between: when the arena has room for the
      header and the EXIT token, `;` succeeds, the machine interprets again,
      find gives the token `:` computed for the name, not immediate, and
      EXIT follows the header. */
  lemma ColonThenSemicolon(m: Machine, exitToken: Cell16)
    requires m.Valid() && Colon(m).thrown.None?
    ensures var word, h := m.input[0], m.dict.here;
            var r := Semicolon(Colon(m).next, exitToken);
            (r.thrown.None? <==> h + |word| + 7 <= DICTIONARY_SIZE) &&
            (r.thrown.None? ==>
               r.next.state == Interprete &&
               r.next.dict.last == h && r.next.dict.here == h + |word| + 7 &&
               Find(r.next.dict, word) == Some((ColonToken(h, word), false)) &&
               Read16At(r.next.dict, h + |word| + 5) == Success(exitToken))
  {
    var word, h := m.input[0], m.dict.here;
    var token := ColonToken(h, word);
    var m1 := Colon(m).next;
    assert m1.dict == Add(m.dict, token, word, 0).value;
    assert m1.colon.depth == |m1.ds|;
    AddedEntryIsFound(m.dict, token, word, 0, false);
    AddThenFind(m.dict, token, word, 0);
    var r := Semicolon(m1, exitToken);
    if r.thrown.None? {
      AppendKeepsNewest(m1.dict, exitToken, word);
    }
  }

  /** A 16-bit cell appended right after the newest entry leaves find's
      answer for that entry's name as it was. */
  lemma AppendKeepsNewest(d: DictState, v: Cell16, word: string)
    requires d.Valid() && d.here == d.last + |word| + 5 && d.here + 2 <= DICTIONARY_SIZE
    requires FindEntry(d, word, false) == Some(d.last)
    ensures Find(Append16(d, v).value, word) == Find(d, word)
  {
    var d2, h, len := Append16(d, v).value, d.last, |word|;
    FoundMatches(d.bytes, h, word, false, h);
    assert d2.bytes[..d.here] == d.bytes[..d.here];
    assert d2.bytes[h] == d.bytes[h];
    assert d2.bytes[h + 1..h + 1 + len] == d.bytes[h + 1..h + 1 + len];
    assert d2.bytes[h + 3 + len] == d.bytes[h + 3 + len] && d2.bytes[h + 4 + len] == d.bytes[h + 4 + len];
    FindFromStops(d2.bytes, h, word, false);
  }

  /** `:` then `;` at another stack depth: `;` throws for the word and puts
      last and here back where they were before `:` ran. */
  lemma UnbalancedDefinitionRollsBack(m: Machine, m2: Machine, exitToken: Cell16)
    requires m.Valid() && Colon(m).thrown.None?
    requires m2.Valid() && m2.colon == Colon(m).next.colon && |m2.ds| != |m.ds|
    requires m2.dict.here + 2 <= DICTIONARY_SIZE
    ensures var r := Semicolon(m2, exitToken);
            r.thrown == Some(UnbalancedDefinition(m.input[0])) &&
            r.next.dict.last == m.dict.last && r.next.dict.here == m.dict.here &&
            r.next.state == Interprete
  {
    assert Colon(m).next.colon == ColonMark(m.input[0], m.dict.last, m.dict.here, |m.ds|);
  }

  // ----------------------------------------------------------------
  // Signed and unsigned readings
  // ----------------------------------------------------------------

  /** An ordering comparison gives the same flag under both readings of the
      cells exactly when the two cells have the same sign bit. */
  lemma OrderingsAgreeIffSameSign(op: CmpOp, a: Cell32, b: Cell32)
    requires !op.Equal? && !op.NotEqual?
    ensures Holds(op, SignedCells, a, b) == Holds(op, UnsignedCells, a, b) <==>
            (a < 0x8000_0000) == (b < 0x8000_0000)
  {
    if (a < 0x8000_0000) != (b < 0x8000_0000) {
      assert (a < b) == (Signed(a) > Signed(b));
    }
  }

  /** Equality does not depend on the reading. */
  lemma EqualityIgnoresReading(a: Cell32, b: Cell32)
    ensures Holds(Equal, SignedCells, a, b) == Holds(Equal, UnsignedCells, a, b)
    ensures Holds(NotEqual, SignedCells, a, b) == Holds(NotEqual, UnsignedCells, a, b)
  {
    assert Wrap(Signed(a)) == a && Wrap(Signed(b)) == b;
  }

  // ----------------------------------------------------------------
  // Cases as written against their stack-effect comments
  // ----------------------------------------------------------------

  /** NIP as the older snapshot writes it is DROP; it agrees with
      ( a b -- b ) only when a and b are equal. */
  lemma NipAsWrittenIsDrop(m: Machine)
    requires m.Valid() && |m.ds| >= 1
    ensures NipAsWritten(m) == Drop(m)
    ensures NipAsWritten(m).Logical() == Nip(m).Logical() <==> DTop(m) == m.tos
  {
    var L, n := m.Logical(), |m.Logical()|;
    LogicalDetermines(NipAsWritten(m), Drop(m));
    if NipAsWritten(m).Logical() == Nip(m).Logical() {
      assert NipAsWritten(m).Logical()[n - 2] == L[n - 2];
      assert Nip(m).Logical()[n - 2] == L[n - 1];
    }
  }

  /** 2SWAP as the older snapshot writes it agrees with ( a b c d -- c d a b )
      only when the four cells are equal. */
  lemma TwoSwapAsWrittenDiffers(m: Machine)
    requires m.Valid() && |m.ds| >= 3
    ensures var L, n := m.Logical(), |m.Logical()|;
            TwoSwapAsWritten(m).Logical() == TwoSwap(m).Logical() <==>
            L[n - 4] == L[n - 3] == L[n - 2] == L[n - 1]
  {
    var L, n := m.Logical(), |m.Logical()|;
    var w, c := TwoSwapAsWritten(m).Logical(), TwoSwap(m).Logical();
    assert c == L[..n - 4] + [L[n - 2], L[n - 1], L[n - 4], L[n - 3]];
    if w == c {
      assert w[n - 4] == c[n - 4] && w[n - 3] == c[n - 3] && w[n - 2] == c[n - 2];
    }
  }

  /** ALLOT as the older snapshot writes it moves here as ALLOT does but
      leaves its amount on the stack. */
  lemma AllotAsWrittenKeepsAmount(m: Machine)
    requires m.Valid() && |m.ds| >= 1
    ensures AllotAsWritten(m).thrown == ForthMachine.Allot(m).thrown
    ensures AllotAsWritten(m).thrown.None? ==>
              AllotAsWritten(m).next.dict == ForthMachine.Allot(m).next.dict &&
              AllotAsWritten(m).next.Logical() == ForthMachine.Allot(m).next.Logical() + [m.tos]
  {
    if ForthMachine.Allot(m).thrown.None? {
      assert m.Logical()[..|m.ds|] + [m.tos] == m.Logical();
    }
  }

  /** `!` as the older snapshot writes it stores what `!` stores but leaves
      the address on the stack. */
  lemma StoreKeepsAddress(m: Machine)
    requires m.Valid() && |m.ds| >= 2
    ensures Store(m, W32, false).thrown == Store(m, W32, true).thrown
    ensures Store(m, W32, false).thrown.None? ==>
              Store(m, W32, false).next.dict == Store(m, W32, true).next.dict &&
              Store(m, W32, false).next.Logical() == Store(m, W32, true).next.Logical() + [m.tos]
  {
    if Store(m, W32, true).thrown.None? {
      assert m.Logical()[..|m.ds| - 1] == m.ds[..|m.ds| - 1];
    }
  }

  /** FALSE and TRUE as written agree with ( -- flag ) only when the top was
      already that flag; the written code never grows the logical stack by
      more than one cell either, so the depth agrees. */
  lemma PushFlagTwiceDiffers(m: Machine, f: bool)
    requires m.Valid() && m.Room(1)
    ensures |PushFlagTwice(m, f).Logical()| == |PushFlag(m, f).Logical()|
    ensures PushFlagTwice(m, f).Logical() == PushFlag(m, f).Logical() <==> m.tos == Flag(f)
  {
    var L, n := m.Logical(), |m.Logical()|;
    var w, c := PushFlagTwice(m, f).Logical(), PushFlag(m, f).Logical();
    if m.tos == Flag(f) {
      assert L == L[..n - 1] + [Flag(f)];
    }
    if w == c {
      assert w[n - 1] == c[n - 1];
    }
  }

  /** `0 ROLL` (a no-op apart from consuming the 0) as the SimForth snapshot
      writes it leaves a stale cell and a copy of the cell under u above the
      stack. */
  lemma RollAsWrittenZero(m: Machine, stale: Cell32)
    requires m.Valid() && m.tos == 0 && |m.ds| >= 1 && m.Room(1)
    ensures Roll(m).Logical() == m.ds
    ensures RollAsWritten(m, stale).Logical() == Roll(m).Logical() + [stale, DTop(m)]
  {
    var L, n := m.Logical(), |m.Logical()|;
    assert L[..n - 2] + L[n - 1..n - 1] + [L[n - 2]] == m.ds;
  }

  /** ROLL as written always leaves two cells more than ROLL should. */
  lemma RollAsWrittenDepth(m: Machine, stale: Cell32)
    requires m.Valid() && 2 * m.tos < |m.ds| && m.Room(1)
    ensures |RollAsWritten(m, stale).Logical()| == |Roll(m).Logical()| + 2
  {
  }

  /** `1 ROLL` on `10 20 30 40 50`: ROLL should give `10 20 30 50 40`; as
      written, 30 is copied over 40, the stale slot appears and 40 lands on
      top of it. */
  lemma RollAsWrittenOne(m: Machine, stale: Cell32)
    requires m.Valid() && m.ds == [10, 20, 30, 40, 50] && m.tos == 1 && m.Room(1)
    ensures Roll(m).Logical() == [10, 20, 30, 50, 40]
    ensures RollAsWritten(m, stale).Logical() == [10, 20, 30, 30, 50, stale, 40]
  {
    var L := m.Logical();
    assert L == [10, 20, 30, 40, 50, 1];
    assert L[..3] + L[4..5] + [L[3]] == [10, 20, 30, 50, 40];
  }
}
