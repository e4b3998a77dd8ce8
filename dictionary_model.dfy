/** The Forth dictionary: a 64 KiB byte arena with the two registers `here`
    (first free byte) and `last` (header of the most recent word).

    The dictionary class itself is not part of this model; the primitives use
    it through add, find, smudge, the 8/16/32-bit accessors, the append
    operations, allot and move. This module gives each of those its
    documented contract. An entry is laid out as
      header byte (precedence and immediate/smudge flags, name length in the
      low five bits) | name bytes | 2-byte back link | 2-byte token
    where the back link is the distance from this header down to the previous
    one (0 ends the chain), so that a word's token is the address just past
    its header, name and link. Multi-byte cells are little-endian. */
module DictionaryModel {
  import opened Wrappers
  import opened ForthHelper

  datatype DictError = OutOfBoundDictionary | NoSpaceDictionary | NameTooLong

  datatype DictState = DictState(bytes: seq<Cell8>, here: nat, last: nat) {
    predicate Valid() {
      |bytes| == DICTIONARY_SIZE && here <= DICTIONARY_SIZE && last < DICTIONARY_SIZE
    }
  }

  /** The dictionary of a freshly constructed machine. */
  function EmptyDictionary(): (d: DictState)
    ensures d.Valid() && d.here == 0 && d.last == 0
  {
    DictState(seq(DICTIONARY_SIZE, _ => 0), 0, 0)
  }

  // ----------------------------------------------------------------
  // Bytes and cells
  // ----------------------------------------------------------------

  /** The byte a C++ `char` of a word name is stored as. */
  function ByteOf(c: char): Cell8 {
    c as int % 0x100
  }

  function NameBytes(name: string): (s: seq<Cell8>)
    ensures |s| == |name|
  {
    seq(|name|, i requires 0 <= i < |name| => ByteOf(name[i]))
  }

  /** The two bytes of a 16-bit cell, low byte first; they read back as
      the cell. */
  function Le16(v: Cell16): (s: seq<Cell8>)
    ensures |s| == 2 && s[0] as int + 0x100 * s[1] as int == v
  {
    [v % 0x100, v / 0x100]
  }

  /** The four bytes of a 32-bit cell, low byte first; they read back as
      the cell. */
  function Le32(v: Cell32): (s: seq<Cell8>)
    ensures |s| == 4 && s[0] as int + 0x100 * s[1] as int + 0x1_0000 * s[2] as int + 0x100_0000 * s[3] as int == v
  {
    assert v == v % 0x100 + 0x100 * (v / 0x100);
    assert v / 0x100 == v / 0x100 % 0x100 + 0x100 * (v / 0x1_0000);
    assert v / 0x1_0000 == v / 0x1_0000 % 0x100 + 0x100 * (v / 0x100_0000);
    [v % 0x100, v / 0x100 % 0x100, v / 0x1_0000 % 0x100, v / 0x100_0000]
  }

  /** The 16-bit cell stored low byte first at a. */
  function Get16(b: seq<Cell8>, a: nat): Cell16
    requires a + 2 <= |b|
  {
    b[a] as int + 0x100 * b[a + 1] as int
  }

  /** The 32-bit cell stored low byte first at a. */
  function Get32(b: seq<Cell8>, a: nat): Cell32
    requires a + 4 <= |b|
  {
    b[a] as int + 0x100 * b[a + 1] as int + 0x1_0000 * b[a + 2] as int + 0x100_0000 * b[a + 3] as int
  }

  /** Splitting the 16-bit cell read at a into bytes gives back the two
      bytes at a. */
  lemma SplitGet16(b: seq<Cell8>, a: nat)
    requires a + 2 <= |b|
    ensures Le16(Get16(b, a)) == b[a..a + 2]
  {
  }

  /** Splitting the 32-bit cell read at a into bytes gives back the four
      bytes at a. */
  lemma SplitGet32(b: seq<Cell8>, a: nat)
    requires a + 4 <= |b|
    ensures Le32(Get32(b, a)) == b[a..a + 4]
  {
    var b0, b1, b2, b3 := b[a] as int, b[a + 1] as int, b[a + 2] as int, b[a + 3] as int;
    var v := Get32(b, a);
    assert v % 0x100 == b0 && v / 0x100 == b1 + 0x100 * b2 + 0x1_0000 * b3;
    assert v / 0x100 % 0x100 == b1;
    assert v / 0x1_0000 == b2 + 0x100 * b3 && v / 0x1_0000 % 0x100 == b2;
    assert v / 0x100_0000 == b3;
  }

  /** b with the bytes from a on replaced by s. */
  function Splice(b: seq<Cell8>, a: nat, s: seq<Cell8>): (r: seq<Cell8>)
    requires a + |s| <= |b|
    ensures |r| == |b|
    ensures forall i :: 0 <= i < |b| ==> r[i] == if a <= i < a + |s| then s[i - a] else b[i]
  {
    b[..a] + s + b[a + |s|..]
  }

  /** Reading a cell back yields what was spliced in. */
  lemma {:induction false} Get16AfterSplice(b: seq<Cell8>, a: nat, v: Cell16)
    requires a + 2 <= |b|
    ensures Get16(Splice(b, a, Le16(v)), a) == v
  {
    var b' := Splice(b, a, Le16(v));
    assert b'[a] == Le16(v)[0] && b'[a + 1] == Le16(v)[1];
  }

  lemma {:induction false} Get32AfterSplice(b: seq<Cell8>, a: nat, v: Cell32)
    requires a + 4 <= |b|
    ensures Get32(Splice(b, a, Le32(v)), a) == v
  {
    var b' := Splice(b, a, Le32(v));
    assert b'[a] == Le32(v)[0] && b'[a + 1] == Le32(v)[1];
    assert b'[a + 2] == Le32(v)[2] && b'[a + 3] == Le32(v)[3];
  }

  // ----------------------------------------------------------------
  // Raw access: read8at .. write32at, appendCell8 .. appendCell32
  // ----------------------------------------------------------------

  function Read8At(d: DictState, a: int): (r: Result<Cell8, DictError>)
    requires d.Valid()
    ensures r.Success? <==> 0 <= a < DICTIONARY_SIZE
    ensures r.Failure? ==> r.error == OutOfBoundDictionary
  {
    if 0 <= a < DICTIONARY_SIZE then Success(d.bytes[a]) else Failure(OutOfBoundDictionary)
  }

  function Read16At(d: DictState, a: int): (r: Result<Cell16, DictError>)
    requires d.Valid()
    ensures r.Success? <==> 0 <= a && a + 2 <= DICTIONARY_SIZE
    ensures r.Failure? ==> r.error == OutOfBoundDictionary
  {
    if 0 <= a && a + 2 <= DICTIONARY_SIZE then Success(Get16(d.bytes, a)) else Failure(OutOfBoundDictionary)
  }

  function Read32At(d: DictState, a: int): (r: Result<Cell32, DictError>)
    requires d.Valid()
    ensures r.Success? <==> 0 <= a && a + 4 <= DICTIONARY_SIZE
    ensures r.Failure? ==> r.error == OutOfBoundDictionary
  {
    if 0 <= a && a + 4 <= DICTIONARY_SIZE then Success(Get32(d.bytes, a)) else Failure(OutOfBoundDictionary)
  }

  /** Writes the bytes s at a, provided they fit in the arena. */
  function WriteAt(d: DictState, a: int, s: seq<Cell8>): (r: Result<DictState, DictError>)
    requires d.Valid()
    ensures r.Success? <==> 0 <= a && a + |s| <= DICTIONARY_SIZE
    ensures r.Success? ==> r.value.Valid() && r.value.here == d.here && r.value.last == d.last
    ensures r.Success? ==> r.value.bytes[a..a + |s|] == s
    ensures r.Success? ==> forall i :: 0 <= i < DICTIONARY_SIZE && !(a <= i < a + |s|) ==> r.value.bytes[i] == d.bytes[i]
    ensures r.Failure? ==> r.error == OutOfBoundDictionary
  {
    if 0 <= a && a + |s| <= DICTIONARY_SIZE then
      var b := Splice(d.bytes, a, s);
      assert b[a..a + |s|] == s;
      Success(d.(bytes := b))
    else
      Failure(OutOfBoundDictionary)
  }

  /** write8at(a, v): stores one byte at a: fails with OutOfBoundDictionary unless the 1 byte
      fits in the arena; otherwise the value reads back from a and nothing
      else changes. */
  function Write8At(d: DictState, a: int, v: Cell8): (r: Result<DictState, DictError>)
    requires d.Valid()
    ensures r.Success? <==> 0 <= a && a + 1 <= DICTIONARY_SIZE
    ensures r.Failure? ==> r.error == OutOfBoundDictionary
    ensures r.Success? ==> r.value.Valid() && r.value.here == d.here && r.value.last == d.last
    ensures r.Success? ==> r.value.bytes[a] == v
    ensures r.Success? ==> forall i :: 0 <= i < DICTIONARY_SIZE && !(a <= i < a + 1) ==> r.value.bytes[i] == d.bytes[i]
  {
    WriteAt(d, a, [v])
  }

  /** write16at(a, v): stores a 16-bit cell, low byte first, at a: fails with OutOfBoundDictionary unless the 2 bytes
      fit in the arena; otherwise the value reads back from a and nothing
      else changes. */
  function Write16At(d: DictState, a: int, v: Cell16): (r: Result<DictState, DictError>)
    requires d.Valid()
    ensures r.Success? <==> 0 <= a && a + 2 <= DICTIONARY_SIZE
    ensures r.Failure? ==> r.error == OutOfBoundDictionary
    ensures r.Success? ==> r.value.Valid() && r.value.here == d.here && r.value.last == d.last
    ensures r.Success? ==> Read16At(r.value, a) == Success(v)
    ensures r.Success? ==> forall i :: 0 <= i < DICTIONARY_SIZE && !(a <= i < a + 2) ==> r.value.bytes[i] == d.bytes[i]
  {
    if 0 <= a && a + 2 <= DICTIONARY_SIZE then Get16AfterSplice(d.bytes, a, v); WriteAt(d, a, Le16(v))
    else WriteAt(d, a, Le16(v))
  }

  /** write32at(a, v): stores a 32-bit cell, low byte first, at a: fails with OutOfBoundDictionary unless the 4 bytes
      fit in the arena; otherwise the value reads back from a and nothing
      else changes. */
  function Write32At(d: DictState, a: int, v: Cell32): (r: Result<DictState, DictError>)
    requires d.Valid()
    ensures r.Success? <==> 0 <= a && a + 4 <= DICTIONARY_SIZE
    ensures r.Failure? ==> r.error == OutOfBoundDictionary
    ensures r.Success? ==> r.value.Valid() && r.value.here == d.here && r.value.last == d.last
    ensures r.Success? ==> Read32At(r.value, a) == Success(v)
    ensures r.Success? ==> forall i :: 0 <= i < DICTIONARY_SIZE && !(a <= i < a + 4) ==> r.value.bytes[i] == d.bytes[i]
  {
    if 0 <= a && a + 4 <= DICTIONARY_SIZE then Get32AfterSplice(d.bytes, a, v); WriteAt(d, a, Le32(v))
    else WriteAt(d, a, Le32(v))
  }

  /** Appends the bytes s at here and advances here past them. */
  function Append(d: DictState, s: seq<Cell8>): (r: Result<DictState, DictError>)
    requires d.Valid()
    ensures r.Success? <==> d.here + |s| <= DICTIONARY_SIZE
    ensures r.Success? ==> r.value.Valid() && r.value.here == d.here + |s| && r.value.last == d.last
    ensures r.Success? ==> r.value.bytes[d.here..r.value.here] == s
    ensures r.Success? ==> r.value.bytes[..d.here] == d.bytes[..d.here]
    ensures r.Failure? ==> r.error == OutOfBoundDictionary
  {
    if d.here + |s| <= DICTIONARY_SIZE then
      var b := Splice(d.bytes, d.here, s);
      assert b[d.here..d.here + |s|] == s;
      assert b[..d.here] == d.bytes[..d.here];
      Success(DictState(b, d.here + |s|, d.last))
    else
      Failure(OutOfBoundDictionary)
  }

  /** appendCell8(v): lays one byte at here and moves here past it: fails with
      OutOfBoundDictionary unless it fits below the end of the arena;
      otherwise the value reads back from the old here and nothing below it
      changes. */
  function Append8(d: DictState, v: Cell8): (r: Result<DictState, DictError>)
    requires d.Valid()
    ensures r.Success? <==> d.here + 1 <= DICTIONARY_SIZE
    ensures r.Failure? ==> r.error == OutOfBoundDictionary
    ensures r.Success? ==> r.value.Valid() && r.value.here == d.here + 1 && r.value.last == d.last
    ensures r.Success? ==> r.value.bytes[d.here] == v
    ensures r.Success? ==> r.value.bytes[..d.here] == d.bytes[..d.here]
  {
    Append(d, [v])
  }

  /** appendCell16(v): lays a 16-bit cell, low byte first, at here and moves here past it: fails with
      OutOfBoundDictionary unless it fits below the end of the arena;
      otherwise the value reads back from the old here and nothing below it
      changes. */
  function Append16(d: DictState, v: Cell16): (r: Result<DictState, DictError>)
    requires d.Valid()
    ensures r.Success? <==> d.here + 2 <= DICTIONARY_SIZE
    ensures r.Failure? ==> r.error == OutOfBoundDictionary
    ensures r.Success? ==> r.value.Valid() && r.value.here == d.here + 2 && r.value.last == d.last
    ensures r.Success? ==> Read16At(r.value, d.here) == Success(v)
    ensures r.Success? ==> r.value.bytes[..d.here] == d.bytes[..d.here]
  {
    if d.here + 2 <= DICTIONARY_SIZE then Get16AfterSplice(d.bytes, d.here, v); Append(d, Le16(v))
    else Append(d, Le16(v))
  }

  /** appendCell32(v): lays a 32-bit cell, low byte first, at here and moves here past it: fails with
      OutOfBoundDictionary unless it fits below the end of the arena;
      otherwise the value reads back from the old here and nothing below it
      changes. */
  function Append32(d: DictState, v: Cell32): (r: Result<DictState, DictError>)
    requires d.Valid()
    ensures r.Success? <==> d.here + 4 <= DICTIONARY_SIZE
    ensures r.Failure? ==> r.error == OutOfBoundDictionary
    ensures r.Success? ==> r.value.Valid() && r.value.here == d.here + 4 && r.value.last == d.last
    ensures r.Success? ==> Read32At(r.value, d.here) == Success(v)
    ensures r.Success? ==> r.value.bytes[..d.here] == d.bytes[..d.here]
  {
    if d.here + 4 <= DICTIONARY_SIZE then Get32AfterSplice(d.bytes, d.here, v); Append(d, Le32(v))
    else Append(d, Le32(v))
  }

  /** allot(n): moves here by the signed amount n, within the arena. */
  function Allot(d: DictState, n: int): (r: Result<DictState, DictError>)
    requires d.Valid()
    ensures r.Success? <==> 0 <= d.here + n <= DICTIONARY_SIZE
    ensures r.Success? ==> r.value == d.(here := d.here + n) && r.value.Valid()
    ensures r.Failure? ==> r.error == OutOfBoundDictionary
  {
    if 0 <= d.here + n <= DICTIONARY_SIZE then Success(d.(here := d.here + n)) else Failure(OutOfBoundDictionary)
  }

  /** move(dst, src, n): copies the n bytes at src to dst, as they were
      before the copy began. */
  function Move(d: DictState, dst: nat, src: nat, n: nat): (r: Result<DictState, DictError>)
    requires d.Valid()
    ensures r.Success? <==> src + n <= DICTIONARY_SIZE && dst + n <= DICTIONARY_SIZE
    ensures r.Success? ==> r.value.Valid() && r.value.bytes[dst..dst + n] == d.bytes[src..src + n]
    ensures r.Success? ==> r.value.here == d.here && r.value.last == d.last
    ensures r.Success? ==> forall i :: 0 <= i < DICTIONARY_SIZE && !(dst <= i < dst + n) ==> r.value.bytes[i] == d.bytes[i]
    ensures r.Failure? ==> r.error == OutOfBoundDictionary
  {
    if src + n <= DICTIONARY_SIZE then WriteAt(d, dst, d.bytes[src..src + n]) else Failure(OutOfBoundDictionary)
  }

  // ----------------------------------------------------------------
  // Word entries: add, find, smudge
  // ----------------------------------------------------------------

  /** The bytes of the entry add(token, name, flags) lays down at here. */
  function Entry(here: nat, last: nat, token: Cell16, name: string, flags: Cell8): (s: seq<Cell8>)
    requires NameSize(flags) == 0 && |name| < 32
    ensures |s| == |name| + 5
  {
    var link := ((here - last) % 65536) as Cell16;
    [HeaderByte(flags, |name|)] + NameBytes(name) + Le16(link) + Le16(token)
  }

  /** add(token, name, flags): lays a new entry down at here, which becomes
      last; fails, changing nothing, when the name does not fit the five-bit
      length field or the entry does not fit the arena. */
  function Add(d: DictState, token: Cell16, name: string, flags: Cell8): (r: Result<DictState, DictError>)
    requires d.Valid() && NameSize(flags) == 0
    ensures r.Success? <==> |name| < 32 && d.here + |name| + 5 <= DICTIONARY_SIZE
    ensures r.Failure? ==> r.error == (if |name| >= 32 then NameTooLong else NoSpaceDictionary)
    ensures r.Success? ==> r.value.Valid() && r.value.last == d.here && r.value.here == d.here + |name| + 5
    ensures r.Success? ==> r.value.bytes[..d.here] == d.bytes[..d.here]
  {
    if |name| >= 32 then Failure(NameTooLong)
    else if d.here + |name| + 5 > DICTIONARY_SIZE then Failure(NoSpaceDictionary)
    else
      var s := Entry(d.here, d.last, token, name, flags);
      var b := Splice(d.bytes, d.here, s);
      assert b[..d.here] == d.bytes[..d.here];
      Success(DictState(b, d.here + |s|, d.here))
  }

  /** The header address of the first entry, walking the back links down
      from addr, whose name is `name`; smudged entries count only when
      `hidden` holds. */
  function FindFrom(b: seq<Cell8>, addr: nat, name: string, hidden: bool): (r: Option<nat>)
    requires |b| == DICTIONARY_SIZE
    ensures r.Some? ==> r.value <= addr && r.value < |b| && r.value + NameSize(b[r.value]) + 5 <= |b|
    decreases addr
  {
    if addr >= |b| then None
    else
      var len := NameSize(b[addr]);
      if addr + len + 5 > |b| then None
      else if (hidden || !IsSmudged(b[addr])) && b[addr + 1..addr + 1 + len] == NameBytes(name) then Some(addr)
      else
        var link := Get16(b, addr + 1 + len) as nat;
        if 0 < link <= addr then FindFrom(b, addr - link, name, hidden) else None
  }

  /** The header of the most recent entry named `name` (smudged ones only
      when `hidden`), searching from last. */
  function FindEntry(d: DictState, name: string, hidden: bool): (r: Option<nat>)
    requires d.Valid()
    ensures r.Some? ==> r.value <= d.last
  {
    if d.last < d.here then FindFrom(d.bytes, d.last, name, hidden) else None
  }

  /** find(name): the token and the immediate flag of the most recent visible
      word named `name`, or nothing. */
  function Find(d: DictState, name: string): (r: Option<(Cell16, bool)>)
    requires d.Valid()
    ensures r.Some? <==> FindEntry(d, name, false).Some?
    ensures r.Some? ==> var a := FindEntry(d, name, false).value;
            !IsSmudged(d.bytes[a]) && r.value.1 == IsImmediate(d.bytes[a]) &&
            Read16At(d, a + 1 + |name| + 2) == Success(r.value.0)
  {
    match FindEntry(d, name, false)
    case Some(a) =>
      FoundMatches(d.bytes, d.last, name, false, a);
      Some((Get16(d.bytes, a + 3 + NameSize(d.bytes[a])), IsImmediate(d.bytes[a])))
    case None => None
  }

  /** smudge(name): toggles the smudge bit of the most recent entry named
      `name`, hidden or not; false when there is none. */
  function Smudge(d: DictState, name: string): (r: (DictState, bool))
    requires d.Valid()
    ensures r.0.Valid() && r.0.here == d.here && r.0.last == d.last
    ensures r.1 == FindEntry(d, name, true).Some?
    ensures !r.1 ==> r.0 == d
  {
    match FindEntry(d, name, true)
    case Some(a) => (d.(bytes := d.bytes[a := ToggleSmudge(d.bytes[a])]), true)
    case None => (d, false)
  }

  // ----------------------------------------------------------------
  // Properties of add, find and smudge
  // ----------------------------------------------------------------

  /** add lays the header, the name and the token down from the old here. */
  lemma {:induction false} AddLaysEntry(d: DictState, token: Cell16, name: string, flags: Cell8)
    requires d.Valid() && NameSize(flags) == 0
    requires Add(d, token, name, flags).Success?
    ensures var b := Add(d, token, name, flags).value.bytes;
            b[d.here] == HeaderByte(flags, |name|) &&
            b[d.here + 1..d.here + 1 + |name|] == NameBytes(name) &&
            Get16(b, d.here + 3 + |name|) == token
  {
    var b := Add(d, token, name, flags).value.bytes;
    var s := Entry(d.here, d.last, token, name, flags);
    var h, len := d.here, |name|;
    assert b == Splice(d.bytes, h, s);
    assert b[h] == s[0];
    assert s[1..1 + len] == NameBytes(name);
    assert b[h + 3 + len] == s[3 + len] == Le16(token)[0];
    assert b[h + 4 + len] == s[4 + len] == Le16(token)[1];
  }

  /** A visible header whose name matches stops the search where it starts. */
  lemma MatchStopsSearch(b: seq<Cell8>, h: nat, name: string, hidden: bool)
    requires |b| == DICTIONARY_SIZE && h + |name| + 5 <= |b|
    requires NameSize(b[h]) == |name| && !IsSmudged(b[h])
    requires b[h + 1..h + 1 + |name|] == NameBytes(name)
    ensures FindFrom(b, h, name, hidden) == Some(h)
  {
  }

  /** The entry just added is where its name is found, with its header and
      name bytes in place. */
  lemma {:induction false} AddedEntryIsFound(d: DictState, token: Cell16, name: string, flags: Cell8, hidden: bool)
    requires d.Valid() && NameSize(flags) == 0 && !IsSmudged(flags)
    requires Add(d, token, name, flags).Success?
    ensures FindEntry(Add(d, token, name, flags).value, name, hidden) == Some(d.here)
    ensures Add(d, token, name, flags).value.bytes[d.here] == HeaderByte(flags, |name|)
    ensures Get16(Add(d, token, name, flags).value.bytes, d.here + 3 + |name|) == token
  {
    var d' := Add(d, token, name, flags).value;
    AddLaysEntry(d, token, name, flags);
    MatchStopsSearch(d'.bytes, d.here, name, hidden);
  }

  /** Redefinition shadows: after add, find returns the new word's token and
      its immediate flag. */
  lemma AddThenFind(d: DictState, token: Cell16, name: string, flags: Cell8)
    requires d.Valid() && NameSize(flags) == 0 && !IsSmudged(flags)
    requires Add(d, token, name, flags).Success?
    ensures Find(Add(d, token, name, flags).value, name) == Some((token, IsImmediate(flags)))
  {
    AddedEntryIsFound(d, token, name, flags, false);
  }

  /** Smudging the word just added hides it: its header stays, here and last
      do not move, and find can only reach an older entry of that name. */
  lemma {:induction false} SmudgeHidesNewest(d: DictState, token: Cell16, name: string, flags: Cell8)
    requires d.Valid() && NameSize(flags) == 0 && !IsSmudged(flags)
    requires Add(d, token, name, flags).Success?
    ensures var d' := Add(d, token, name, flags).value;
            var (d'', found) := Smudge(d', name);
            found && d''.here == d'.here && d''.last == d'.last &&
            (FindEntry(d'', name, false).None? || FindEntry(d'', name, false).value < d.here)
  {
    var d' := Add(d, token, name, flags).value;
    AddedEntryIsFound(d, token, name, flags, true);
    var h, len := d.here, |name|;
    var d'' := Smudge(d', name).0;
    assert d''.bytes == d'.bytes[h := ToggleSmudge(d'.bytes[h])];
    ToggleSmudgeTwice(d'.bytes[h]);
    assert IsSmudged(d''.bytes[h]) && NameSize(d''.bytes[h]) == len;
    assert Get16(d''.bytes, h + 1 + len) == Get16(d'.bytes, h + 1 + len);
  }

  /** A search that ends below addr passed over the entry at addr: that
      entry lies in the arena, its name differs, and its back link leads to
      where the search goes on. */
  lemma PassedOver(b: seq<Cell8>, addr: nat, name: string, hidden: bool, a: nat) returns (link: nat)
    requires |b| == DICTIONARY_SIZE && FindFrom(b, addr, name, hidden) == Some(a) && addr != a
    ensures addr < |b| && addr + NameSize(b[addr]) + 5 <= |b|
    ensures !((hidden || !IsSmudged(b[addr])) && b[addr + 1..addr + 1 + NameSize(b[addr])] == NameBytes(name))
    ensures link == Get16(b, addr + 1 + NameSize(b[addr])) as nat && 0 < link <= addr
    ensures FindFrom(b, addr - link, name, hidden) == Some(a)
  {
    link := Get16(b, addr + 1 + NameSize(b[addr])) as nat;
  }

  /** A search that stops where it starts stops at an entry holding the
      name, visible unless hidden entries count. */
  lemma StopsAtMatch(b: seq<Cell8>, a: nat, name: string, hidden: bool)
    requires |b| == DICTIONARY_SIZE && FindFrom(b, a, name, hidden) == Some(a)
    ensures NameSize(b[a]) == |name| && b[a + 1..a + 1 + |name|] == NameBytes(name) && (hidden || !IsSmudged(b[a]))
  {
    var len := NameSize(b[a]);
    assert (hidden || !IsSmudged(b[a])) && b[a + 1..a + 1 + len] == NameBytes(name);
    assert |b[a + 1..a + 1 + len]| == len;
  }

  /** The entry a search stops at is visible (or hidden ones count) and
      holds the name searched for. */
  lemma {:induction false} FoundMatches(b: seq<Cell8>, addr: nat, name: string, hidden: bool, a: nat)
    requires |b| == DICTIONARY_SIZE && FindFrom(b, addr, name, hidden) == Some(a)
    ensures NameSize(b[a]) == |name| && b[a + 1..a + 1 + |name|] == NameBytes(name) && (hidden || !IsSmudged(b[a]))
    decreases addr
  {
    if addr == a {
      StopsAtMatch(b, a, name, hidden);
    } else {
      var link := PassedOver(b, addr, name, hidden, a);
      FoundMatches(b, addr - link, name, hidden, a);
    }
  }

  /** Where a search stops at the entry at addr: nowhere when the entry
      overruns the arena or its back link does not lead down, at addr when
      the name matches. */
  lemma FindFromStops(b: seq<Cell8>, addr: nat, name: string, hidden: bool)
    requires |b| == DICTIONARY_SIZE && addr < |b|
    ensures addr + NameSize(b[addr]) + 5 > |b| ==> FindFrom(b, addr, name, hidden) == None
    ensures addr + NameSize(b[addr]) + 5 <= |b| &&
            (hidden || !IsSmudged(b[addr])) && b[addr + 1..addr + 1 + NameSize(b[addr])] == NameBytes(name) ==>
              FindFrom(b, addr, name, hidden) == Some(addr)
    ensures addr + NameSize(b[addr]) + 5 <= |b| &&
            !((hidden || !IsSmudged(b[addr])) && b[addr + 1..addr + 1 + NameSize(b[addr])] == NameBytes(name)) &&
            !(0 < Get16(b, addr + 1 + NameSize(b[addr])) <= addr) ==>
              FindFrom(b, addr, name, hidden) == None
  {
  }

  /** A search that does not stop at addr goes on at the entry the back
      link of addr leads to. */
  lemma FindFromStep(b: seq<Cell8>, addr: nat, name: string, hidden: bool)
    requires |b| == DICTIONARY_SIZE && addr < |b| && addr + NameSize(b[addr]) + 5 <= |b|
    requires !((hidden || !IsSmudged(b[addr])) && b[addr + 1..addr + 1 + NameSize(b[addr])] == NameBytes(name))
    requires 0 < Get16(b, addr + 1 + NameSize(b[addr])) <= addr
    ensures FindFrom(b, addr, name, hidden) == FindFrom(b, addr - Get16(b, addr + 1 + NameSize(b[addr])), name, hidden)
  {
  }

  /** Two arenas that differ only below addr agree on the entry at addr. */
  lemma AgreeOnEntry(b: seq<Cell8>, b': seq<Cell8>, addr: nat, a: nat)
    requires |b| == DICTIONARY_SIZE && |b'| == DICTIONARY_SIZE && a < addr
    requires forall i :: 0 <= i < |b| && i != a ==> b'[i] == b[i]
    requires addr < |b| && addr + NameSize(b[addr]) + 5 <= |b|
    ensures b'[addr] == b[addr]
    ensures b'[addr + 1..addr + 1 + NameSize(b[addr])] == b[addr + 1..addr + 1 + NameSize(b[addr])]
    ensures Get16(b', addr + 1 + NameSize(b[addr])) == Get16(b, addr + 1 + NameSize(b[addr]))
  {
    var len := NameSize(b[addr]);
    assert b'[addr + 1 + len] == b[addr + 1 + len] && b'[addr + 2 + len] == b[addr + 2 + len];
  }

  /** Two arenas that agree on the entry at addr send a search the same way. */
  lemma SameEntrySameStep(b: seq<Cell8>, b': seq<Cell8>, addr: nat, name: string, hidden: bool, link: nat)
    requires |b| == DICTIONARY_SIZE && |b'| == DICTIONARY_SIZE
    requires addr < |b| && addr + NameSize(b[addr]) + 5 <= |b| && b'[addr] == b[addr]
    requires b'[addr + 1..addr + 1 + NameSize(b[addr])] == b[addr + 1..addr + 1 + NameSize(b[addr])]
    requires Get16(b', addr + 1 + NameSize(b[addr])) == Get16(b, addr + 1 + NameSize(b[addr]))
    requires !((hidden || !IsSmudged(b[addr])) && b[addr + 1..addr + 1 + NameSize(b[addr])] == NameBytes(name))
    requires link == Get16(b, addr + 1 + NameSize(b[addr])) as nat && 0 < link <= addr
    ensures FindFrom(b', addr, name, hidden) == FindFrom(b', addr - link, name, hidden)
  {
    FindFromStep(b', addr, name, hidden);
  }

  /** The entry a search counting hidden entries stops at still matches
      when only the flags of its header byte change. */
  lemma MatchIgnoresFlags(b: seq<Cell8>, b': seq<Cell8>, a: nat, name: string)
    requires |b| == DICTIONARY_SIZE && |b'| == DICTIONARY_SIZE
    requires FindFrom(b, a, name, true) == Some(a)
    requires a < |b| && NameSize(b'[a]) == NameSize(b[a])
    requires forall i :: 0 <= i < |b| && i != a ==> b'[i] == b[i]
    ensures FindFrom(b', a, name, true) == Some(a)
  {
    var len := NameSize(b[a]);
    assert b'[a + 1..a + 1 + len] == b[a + 1..a + 1 + len] == NameBytes(name);
  }

  /** A search counting hidden entries that stops at header a reads nothing
      of the header byte at a but its name length, so changing that byte's
      flags leaves the search where it was. */
  lemma {:induction false} HiddenSearchIgnoresFlagsAt(b: seq<Cell8>, b': seq<Cell8>, addr: nat, name: string, a: nat)
    requires |b| == DICTIONARY_SIZE && |b'| == DICTIONARY_SIZE
    requires FindFrom(b, addr, name, true) == Some(a)
    requires a < |b| && NameSize(b'[a]) == NameSize(b[a])
    requires forall i :: 0 <= i < |b| && i != a ==> b'[i] == b[i]
    ensures FindFrom(b', addr, name, true) == Some(a)
    decreases addr, 1
  {
    if addr == a {
      MatchIgnoresFlags(b, b', a, name);
    } else {
      HiddenSearchIgnoresFlagsBelow(b, b', addr, name, a);
    }
  }

  /** The step of HiddenSearchIgnoresFlagsAt over an entry above a. */
  lemma {:induction false} HiddenSearchIgnoresFlagsBelow(b: seq<Cell8>, b': seq<Cell8>, addr: nat, name: string, a: nat)
    requires |b| == DICTIONARY_SIZE && |b'| == DICTIONARY_SIZE
    requires FindFrom(b, addr, name, true) == Some(a) && addr != a
    requires a < |b| && NameSize(b'[a]) == NameSize(b[a])
    requires forall i :: 0 <= i < |b| && i != a ==> b'[i] == b[i]
    ensures FindFrom(b', addr, name, true) == Some(a)
    decreases addr, 0
  {
    var link := PassedOver(b, addr, name, true, a);
    AgreeOnEntry(b, b', addr, a);
    SameEntrySameStep(b, b', addr, name, true, link);
    HiddenSearchIgnoresFlagsAt(b, b', addr - link, name, a);
  }

  /** Smudging the same name twice restores the dictionary, which is how a
      word is disabled and later enabled again. */
  lemma SmudgeTwiceRestores(d: DictState, name: string)
    requires d.Valid()
    ensures Smudge(Smudge(d, name).0, name) == (d, FindEntry(d, name, true).Some?)
  {
    match FindEntry(d, name, true)
    case Some(a) =>
      ToggleSmudgeTwice(d.bytes[a]);
      HiddenSearchIgnoresFlagsAt(d.bytes, d.bytes[a := ToggleSmudge(d.bytes[a])], d.last, name, a);
      assert d.bytes[a := ToggleSmudge(d.bytes[a])][a := ToggleSmudge(ToggleSmudge(d.bytes[a]))] == d.bytes;
    case None =>
  }
}
