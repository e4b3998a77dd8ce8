/** The back-link chain of the dictionary. A dictionary built by add alone
    keeps every entry the chain reaches below the header of the entry that
    links to it, and the most recent one below here. Under that invariant a
    search only reads bytes below here, so adding a word leaves every other
    name where it was, and smudging a word leaves every other name where
    it was while hiding the smudged entry. */
module DictionaryChain {
  import opened Wrappers
  import opened ForthHelper
  import opened DictionaryModel

  /** The entries reached from the header at addr lie below h, each one
      below the header whose back link leads to it. */
  ghost predicate Chained(b: seq<Cell8>, addr: nat, h: nat)
    requires |b| == DICTIONARY_SIZE
    decreases addr
  {
    addr < h <= |b| && addr + NameSize(b[addr]) + 5 <= h &&
    var link := Get16(b, addr + 1 + NameSize(b[addr])) as nat;
    (0 < link <= addr ==> Chained(b, addr - link, addr))
  }

  /** The invariant add keeps: the chain from last lies below here. */
  ghost predicate Sound(d: DictState) {
    d.Valid() && (d.last < d.here ==> Chained(d.bytes, d.last, d.here))
  }

  /** Where a search that passes over the entry at a goes on. */
  function Below(b: seq<Cell8>, a: nat, name: string, hidden: bool): Option<nat>
    requires |b| == DICTIONARY_SIZE && a < |b| && a + NameSize(b[a]) + 5 <= |b|
  {
    var link := Get16(b, a + 1 + NameSize(b[a])) as nat;
    if 0 < link <= a then FindFrom(b, a - link, name, hidden) else None
  }

  lemma BelowFollowsLink(b: seq<Cell8>, a: nat, link: nat, name: string, hidden: bool)
    requires |b| == DICTIONARY_SIZE && a < |b| && a + NameSize(b[a]) + 5 <= |b|
    requires link == Get16(b, a + 1 + NameSize(b[a])) as nat && 0 < link <= a
    ensures Below(b, a, name, hidden) == FindFrom(b, a - link, name, hidden)
  {
  }

  lemma BelowIsNextStep(b: seq<Cell8>, a: nat, name: string, hidden: bool)
    requires |b| == DICTIONARY_SIZE && a < |b| && a + NameSize(b[a]) + 5 <= |b|
    requires !((hidden || !IsSmudged(b[a])) && b[a + 1..a + 1 + NameSize(b[a])] == NameBytes(name))
    ensures FindFrom(b, a, name, hidden) == Below(b, a, name, hidden)
  {
  }

  /** A chained search only reads the bytes below h: two arenas that agree
      there keep the chain and send every search to the same entry, which
      lies below h. */
  lemma {:induction false} ChainFrame(b: seq<Cell8>, b': seq<Cell8>, addr: nat, h: nat, name: string, hidden: bool)
    requires |b| == DICTIONARY_SIZE && |b'| == DICTIONARY_SIZE && Chained(b, addr, h)
    requires forall i :: 0 <= i < h ==> b'[i] == b[i]
    ensures Chained(b', addr, h)
    ensures FindFrom(b', addr, name, hidden) == FindFrom(b, addr, name, hidden)
    ensures FindFrom(b, addr, name, hidden).Some? ==>
              var c := FindFrom(b, addr, name, hidden).value; c + NameSize(b[c]) + 5 <= h
    decreases addr
  {
    var len := NameSize(b[addr]);
    assert b'[addr + 1..addr + 1 + len] == b[addr + 1..addr + 1 + len];
    assert b'[addr + 1 + len] == b[addr + 1 + len] && b'[addr + 2 + len] == b[addr + 2 + len];
    var link := Get16(b, addr + 1 + len) as nat;
    if 0 < link <= addr {
      ChainFrame(b, b', addr - link, addr, name, hidden);
    }
  }

  /** The empty dictionary is sound. */
  lemma EmptySound()
    ensures Sound(EmptyDictionary())
    ensures forall name, hidden :: FindEntry(EmptyDictionary(), name, hidden) == None
  {
  }

  /** The back link add writes into the new entry. */
  lemma {:induction false} AddLink(d: DictState, token: Cell16, name: string, flags: Cell8)
    requires d.Valid() && NameSize(flags) == 0 && Add(d, token, name, flags).Success?
    ensures Get16(Add(d, token, name, flags).value.bytes, d.here + 1 + |name|) == (d.here - d.last) % 65536
  {
    var b := Add(d, token, name, flags).value.bytes;
    var link := ((d.here - d.last) % 65536) as Cell16;
    var s := Entry(d.here, d.last, token, name, flags);
    var h, len := d.here, |name|;
    assert b == Splice(d.bytes, h, s);
    assert b[h + 1 + len] == s[1 + len] == Le16(link)[0];
    assert b[h + 2 + len] == s[2 + len] == Le16(link)[1];
  }

  /** A new entry at h whose back link is h - last (modulo 2^16), over
      bytes that agree below h with a chain from last, is chained, and the
      search goes on from it to where it started before. */
  lemma {:induction false} LinkedEntry(b: seq<Cell8>, b': seq<Cell8>, h: nat, h': nat, last: nat, other: string, hidden: bool)
    requires |b| == DICTIONARY_SIZE && |b'| == DICTIONARY_SIZE && h < h' <= DICTIONARY_SIZE && last < DICTIONARY_SIZE
    requires h + NameSize(b'[h]) + 5 <= h'
    requires Get16(b', h + 1 + NameSize(b'[h])) == (h - last) % 65536
    requires forall i :: 0 <= i < h ==> b'[i] == b[i]
    requires last < h ==> Chained(b, last, h)
    ensures Chained(b', h, h')
    ensures Below(b', h, other, hidden) == (if last < h then FindFrom(b, last, other, hidden) else None)
  {
    var link := Get16(b', h + 1 + NameSize(b'[h])) as nat;
    if last < h {
      assert link == h - last;
      ChainFrame(b, b', last, h, other, hidden);
    } else {
      assert !(0 < link <= h);
    }
  }

  /** What add leaves in the arena: the bytes below the old here, and the
      new entry's header, name and back link. */
  lemma AddFacts(d: DictState, token: Cell16, name: string, flags: Cell8)
    requires d.Valid() && NameSize(flags) == 0 && Add(d, token, name, flags).Success?
    ensures var d' := Add(d, token, name, flags).value;
            (forall i :: 0 <= i < d.here ==> d'.bytes[i] == d.bytes[i]) &&
            NameSize(d'.bytes[d.here]) == |name| && d'.last == d.here &&
            d'.bytes[d.here + 1..d.here + 1 + |name|] == NameBytes(name) &&
            Get16(d'.bytes, d.here + 1 + |name|) == (d.here - d.last) % 65536
  {
    var d' := Add(d, token, name, flags).value;
    AddLaysEntry(d, token, name, flags);
    AddLink(d, token, name, flags);
    assert forall i :: 0 <= i < d.here ==> d'.bytes[i] == d'.bytes[..d.here][i];
  }

  /** add keeps the dictionary sound, leaves the bytes below the old here,
      and links the new entry to where a search started before. */
  lemma {:induction false} AddKeepsChain(d: DictState, token: Cell16, name: string, flags: Cell8, other: string, hidden: bool)
    requires Sound(d) && NameSize(flags) == 0 && Add(d, token, name, flags).Success?
    ensures var d' := Add(d, token, name, flags).value;
            Sound(d') && Below(d'.bytes, d.here, other, hidden) == FindEntry(d, other, hidden) &&
            forall i :: 0 <= i < d.here ==> d'.bytes[i] == d.bytes[i]
  {
    var d' := Add(d, token, name, flags).value;
    AddFacts(d, token, name, flags);
    LinkedEntry(d.bytes, d'.bytes, d.here, d'.here, d.last, other, hidden);
  }

  /** A search for any other name passes over the entry add lays down, to
      the entry it found before. */
  lemma AddKeepsSearch(d: DictState, token: Cell16, name: string, flags: Cell8, other: string, hidden: bool)
    requires Sound(d) && NameSize(flags) == 0 && Add(d, token, name, flags).Success?
    requires NameBytes(other) != NameBytes(name)
    ensures FindEntry(Add(d, token, name, flags).value, other, hidden) == FindEntry(d, other, hidden)
  {
    var d' := Add(d, token, name, flags).value;
    AddFacts(d, token, name, flags);
    AddKeepsChain(d, token, name, flags, other, hidden);
    BelowIsNextStep(d'.bytes, d.here, other, hidden);
  }

  /** Two dictionaries whose searches for name skipping hidden entries stop
      at the same header, holding the same header byte and token, find the
      same word. */
  lemma SameFind(d: DictState, d': DictState, name: string)
    requires d.Valid() && d'.Valid() && FindEntry(d', name, false) == FindEntry(d, name, false)
    requires FindEntry(d, name, false).Some? ==>
               var c := FindEntry(d, name, false).value;
               d'.bytes[c] == d.bytes[c] &&
               Get16(d'.bytes, c + 3 + NameSize(d.bytes[c])) == Get16(d.bytes, c + 3 + NameSize(d.bytes[c]))
    ensures Find(d', name) == Find(d, name)
  {
  }

  /** find gives the same token and flag for every other name after add. */
  lemma AddKeepsFind(d: DictState, token: Cell16, name: string, flags: Cell8, other: string)
    requires Sound(d) && NameSize(flags) == 0 && Add(d, token, name, flags).Success?
    requires NameBytes(other) != NameBytes(name)
    ensures Find(Add(d, token, name, flags).value, other) == Find(d, other)
  {
    var d' := Add(d, token, name, flags).value;
    AddKeepsSearch(d, token, name, flags, other, false);
    AddFacts(d, token, name, flags);
    if FindEntry(d, other, false).Some? {
      var b, b', c := d.bytes, d'.bytes, FindEntry(d, other, false).value;
      ChainFrame(b, b', d.last, d.here, other, false);
      var lc := NameSize(b[c]);
      assert b'[c] == b[c] && b'[c + 3 + lc] == b[c + 3 + lc] && b'[c + 4 + lc] == b[c + 4 + lc];
      assert Get16(b', c + 3 + lc) == Get16(b, c + 3 + lc);
    }
    SameFind(d, d', other);
  }

  /** The chain from addr reaches the header at a. */
  ghost predicate Reaches(b: seq<Cell8>, addr: nat, a: nat)
    requires |b| == DICTIONARY_SIZE
    decreases addr
  {
    a <= addr < |b| && addr + NameSize(b[addr]) + 5 <= |b| &&
    (addr == a ||
     var link := Get16(b, addr + 1 + NameSize(b[addr])) as nat;
     0 < link <= addr && Reaches(b, addr - link, a))
  }

  /** A search only stops at an entry its chain reaches. */
  lemma {:induction false} FoundIsReached(b: seq<Cell8>, addr: nat, x: string, hidden: bool, a: nat)
    requires |b| == DICTIONARY_SIZE && FindFrom(b, addr, x, hidden) == Some(a)
    ensures Reaches(b, addr, a)
    decreases addr
  {
    if addr != a {
      var link := PassedOver(b, addr, x, hidden, a);
      FoundIsReached(b, addr - link, x, hidden, a);
    }
  }

  /** Changing only the flags of a header the chain reaches keeps the
      chain. */
  lemma {:induction false} FlagKeepsChain(b: seq<Cell8>, b': seq<Cell8>, addr: nat, h: nat, a: nat)
    requires |b| == DICTIONARY_SIZE && |b'| == DICTIONARY_SIZE && Chained(b, addr, h)
    requires Reaches(b, addr, a) && NameSize(b'[a]) == NameSize(b[a])
    requires forall i :: 0 <= i < |b| && i != a ==> b'[i] == b[i]
    ensures Chained(b', addr, h)
    decreases addr
  {
    var len := NameSize(b[addr]);
    var link := Get16(b, addr + 1 + len) as nat;
    assert b'[addr + 1 + len] == b[addr + 1 + len] && b'[addr + 2 + len] == b[addr + 2 + len];
    if addr != a {
      FlagKeepsChain(b, b', addr - link, addr, a);
    } else if 0 < link <= a {
      ChainFrame(b, b', a - link, a, "", true);
    }
  }

  /** Two arenas that agree on the name and back link of the entry at
      addr, and on its name length, read the same name and link there. */
  lemma SameBody(b: seq<Cell8>, b': seq<Cell8>, addr: nat)
    requires |b| == DICTIONARY_SIZE && |b'| == DICTIONARY_SIZE && addr < |b| && addr + NameSize(b[addr]) + 5 <= |b|
    requires NameSize(b'[addr]) == NameSize(b[addr])
    requires forall i :: addr < i < addr + NameSize(b[addr]) + 5 ==> b'[i] == b[i]
    ensures b'[addr + 1..addr + 1 + NameSize(b[addr])] == b[addr + 1..addr + 1 + NameSize(b[addr])]
    ensures Get16(b', addr + 1 + NameSize(b[addr])) == Get16(b, addr + 1 + NameSize(b[addr]))
  {
    var len := NameSize(b[addr]);
    assert b'[addr + 1 + len] == b[addr + 1 + len] && b'[addr + 2 + len] == b[addr + 2 + len];
  }

  /** Two arenas that agree on the whole entry at addr, and on where a
      search goes on below it, send a search from addr to the same entry:
      addr itself or where the search goes on. */
  lemma SameStep(b: seq<Cell8>, b': seq<Cell8>, addr: nat, name: string, hidden: bool)
    requires |b| == DICTIONARY_SIZE && |b'| == DICTIONARY_SIZE && addr < |b| && addr + NameSize(b[addr]) + 5 <= |b|
    requires forall i :: addr <= i < addr + NameSize(b[addr]) + 5 ==> b'[i] == b[i]
    requires b'[addr] == b[addr] ==> Below(b', addr, name, hidden) == Below(b, addr, name, hidden)
    ensures FindFrom(b', addr, name, hidden) == FindFrom(b, addr, name, hidden)
    ensures FindFrom(b, addr, name, hidden) == Some(addr) || FindFrom(b, addr, name, hidden) == Below(b, addr, name, hidden)
  {
    assert b'[addr] == b[addr];
    SameBody(b, b', addr);
    var len := NameSize(b[addr]);
    if (hidden || !IsSmudged(b[addr])) && b[addr + 1..addr + 1 + len] == NameBytes(name) {
      FindFromStops(b, addr, name, hidden);
      FindFromStops(b', addr, name, hidden);
    } else {
      BelowIsNextStep(b, addr, name, hidden);
      BelowIsNextStep(b', addr, name, hidden);
    }
  }

  /** After such a change, a search for any name the header at a does not
      hold passes over a to where it went before. */
  lemma FlagKeepsOthersAt(b: seq<Cell8>, b': seq<Cell8>, a: nat, h: nat, name: string, hidden: bool)
    requires |b| == DICTIONARY_SIZE && |b'| == DICTIONARY_SIZE && Chained(b, a, h)
    requires NameSize(b'[a]) == NameSize(b[a])
    requires forall i :: 0 <= i < |b| && i != a ==> b'[i] == b[i]
    requires b[a + 1..a + 1 + NameSize(b[a])] != NameBytes(name)
    ensures FindFrom(b', a, name, hidden) == FindFrom(b, a, name, hidden)
    ensures FindFrom(b, a, name, hidden).Some? ==>
              var c := FindFrom(b, a, name, hidden).value; c + NameSize(b[c]) + 5 <= a
  {
    SameBody(b, b', a);
    var link := Get16(b, a + 1 + NameSize(b[a])) as nat;
    if 0 < link <= a {
      ChainFrame(b, b', a - link, a, name, hidden);
    }
    BelowIsNextStep(b, a, name, hidden);
    BelowIsNextStep(b', a, name, hidden);
  }

  /** After such a change, a search for any name the header at a does not
      hold stops where it did, at an entry that does not hold byte a. */
  lemma {:induction false} FlagKeepsOthers(b: seq<Cell8>, b': seq<Cell8>, addr: nat, h: nat, a: nat, name: string, hidden: bool)
    requires |b| == DICTIONARY_SIZE && |b'| == DICTIONARY_SIZE && Chained(b, addr, h)
    requires Reaches(b, addr, a) && NameSize(b'[a]) == NameSize(b[a])
    requires forall i :: 0 <= i < |b| && i != a ==> b'[i] == b[i]
    requires a + NameSize(b[a]) + 5 <= |b| && b[a + 1..a + 1 + NameSize(b[a])] != NameBytes(name)
    ensures FindFrom(b', addr, name, hidden) == FindFrom(b, addr, name, hidden)
    ensures FindFrom(b, addr, name, hidden).Some? ==>
              var c := FindFrom(b, addr, name, hidden).value; a < c || c + NameSize(b[c]) + 5 <= a
    decreases addr, 1
  {
    if addr == a {
      FlagKeepsOthersAt(b, b', a, h, name, hidden);
    } else {
      FlagKeepsOthersAbove(b, b', addr, h, a, name, hidden);
    }
  }

  /** The step of FlagKeepsOthers over an entry above a. */
  lemma {:induction false} FlagKeepsOthersAbove(b: seq<Cell8>, b': seq<Cell8>, addr: nat, h: nat, a: nat, name: string, hidden: bool)
    requires |b| == DICTIONARY_SIZE && |b'| == DICTIONARY_SIZE && Chained(b, addr, h)
    requires Reaches(b, addr, a) && addr != a && NameSize(b'[a]) == NameSize(b[a])
    requires forall i :: 0 <= i < |b| && i != a ==> b'[i] == b[i]
    requires a + NameSize(b[a]) + 5 <= |b| && b[a + 1..a + 1 + NameSize(b[a])] != NameBytes(name)
    ensures FindFrom(b', addr, name, hidden) == FindFrom(b, addr, name, hidden)
    ensures FindFrom(b, addr, name, hidden).Some? ==>
              var c := FindFrom(b, addr, name, hidden).value; a < c || c + NameSize(b[c]) + 5 <= a
    decreases addr, 0
  {
    var link := Get16(b, addr + 1 + NameSize(b[addr])) as nat;
    FlagKeepsOthers(b, b', addr - link, addr, a, name, hidden);
    assert b'[addr] == b[addr];
    SameBody(b, b', addr);
    BelowFollowsLink(b', addr, link, name, hidden);
    BelowFollowsLink(b, addr, link, name, hidden);
    SameStep(b, b', addr, name, hidden);
  }

  /** Changing the header byte at a alone, keeping its name length, leaves
      where a search that passes over a goes on. */
  lemma FlagKeepsBelow(b: seq<Cell8>, b': seq<Cell8>, a: nat, h: nat, x: string, hidden: bool)
    requires |b| == DICTIONARY_SIZE && |b'| == DICTIONARY_SIZE && Chained(b, a, h)
    requires NameSize(b'[a]) == NameSize(b[a])
    requires forall i :: 0 <= i < |b| && i != a ==> b'[i] == b[i]
    ensures Below(b', a, x, hidden) == Below(b, a, x, hidden)
  {
    SameBody(b, b', a);
    var link := Get16(b, a + 1 + NameSize(b[a])) as nat;
    if 0 < link <= a {
      ChainFrame(b, b', a - link, a, x, hidden);
    }
  }

  /** After such a change at a, a search for x, the name at a, that skips
      hidden entries stops at a when the new header is visible, and goes on
      below a otherwise. */
  lemma FlagMovesSelfAt(b: seq<Cell8>, b': seq<Cell8>, a: nat, h: nat, x: string)
    requires |b| == DICTIONARY_SIZE && |b'| == DICTIONARY_SIZE && Chained(b, a, h)
    requires FindFrom(b, a, x, true) == Some(a) && NameSize(b'[a]) == NameSize(b[a])
    requires forall i :: 0 <= i < |b| && i != a ==> b'[i] == b[i]
    ensures FindFrom(b', a, x, false) == (if IsSmudged(b'[a]) then Below(b, a, x, false) else Some(a))
  {
    FoundMatches(b, a, x, true, a);
    SameBody(b, b', a);
    if IsSmudged(b'[a]) {
      BelowIsNextStep(b', a, x, false);
      FlagKeepsBelow(b, b', a, h, x, false);
    } else {
      FindFromStops(b', a, x, false);
    }
  }

  /** A search for x that counts hidden entries and passes over addr sends
      a search for x that skips them, in an arena that agrees on that entry,
      the same way. */
  lemma PassesOverName(b: seq<Cell8>, b': seq<Cell8>, addr: nat, x: string, a: nat) returns (link: nat)
    requires |b| == DICTIONARY_SIZE && |b'| == DICTIONARY_SIZE
    requires FindFrom(b, addr, x, true) == Some(a) && a < addr
    requires forall i :: 0 <= i < |b| && i != a ==> b'[i] == b[i]
    ensures link == Get16(b, addr + 1 + NameSize(b[addr])) as nat && 0 < link <= addr
    ensures FindFrom(b, addr - link, x, true) == Some(a)
    ensures FindFrom(b', addr, x, false) == FindFrom(b', addr - link, x, false)
  {
    link := PassedOver(b, addr, x, true, a);
    assert b'[addr] == b[addr];
    SameBody(b, b', addr);
    BelowIsNextStep(b', addr, x, false);
  }

  /** The walk of FlagMovesSelfAt down from addr. */
  lemma {:induction false} FlagMovesSelf(b: seq<Cell8>, b': seq<Cell8>, addr: nat, h: nat, x: string, a: nat)
    requires |b| == DICTIONARY_SIZE && |b'| == DICTIONARY_SIZE && Chained(b, addr, h)
    requires FindFrom(b, addr, x, true) == Some(a) && NameSize(b'[a]) == NameSize(b[a])
    requires forall i :: 0 <= i < |b| && i != a ==> b'[i] == b[i]
    ensures FindFrom(b', addr, x, false) == (if IsSmudged(b'[a]) then Below(b, a, x, false) else Some(a))
    decreases addr
  {
    if addr == a {
      FlagMovesSelfAt(b, b', a, h, x);
    } else {
      var link := PassesOverName(b, b', addr, x, a);
      FlagMovesSelf(b, b', addr - link, addr, x, a);
    }
  }

  /** smudge keeps the dictionary sound. */
  lemma SmudgeKeepsSound(d: DictState, x: string)
    requires Sound(d)
    ensures Sound(Smudge(d, x).0)
  {
    match FindEntry(d, x, true)
    case None =>
    case Some(a) =>
      var b := d.bytes;
      var b' := Smudge(d, x).0.bytes;
      assert b' == b[a := ToggleSmudge(b[a])];
      ToggleSmudgeTwice(b[a]);
      FoundIsReached(b, d.last, x, true, a);
      FlagKeepsChain(b, b', d.last, d.here, a);
  }

  /** After a change of the header byte of the first entry named x, keeping
      its name length, a search for another name stops at the same entry,
      which does not hold that byte. */
  lemma FlagKeepsOtherEntry(b: seq<Cell8>, b': seq<Cell8>, last: nat, h: nat, x: string, a: nat, name: string)
    requires |b| == DICTIONARY_SIZE && |b'| == DICTIONARY_SIZE && Chained(b, last, h)
    requires FindFrom(b, last, x, true) == Some(a) && NameSize(b'[a]) == NameSize(b[a])
    requires forall i :: 0 <= i < |b| && i != a ==> b'[i] == b[i]
    requires NameBytes(name) != NameBytes(x)
    ensures FindFrom(b', last, name, false) == FindFrom(b, last, name, false)
    ensures FindFrom(b, last, name, false).Some? ==>
              var c := FindFrom(b, last, name, false).value; a < c || c + NameSize(b[c]) + 5 <= a
  {
    FoundIsReached(b, last, x, true, a);
    FoundMatches(b, last, x, true, a);
    ghost var held := b[a + 1..a + 1 + NameSize(b[a])];
    assert held == NameBytes(x);
    assert held != NameBytes(name);
    FlagKeepsOthers(b, b', last, h, a, name, false);
  }

  /** An entry that does not hold byte a reads the same header and token
      after a change of that byte alone. */
  lemma FlagKeepsToken(b: seq<Cell8>, b': seq<Cell8>, a: nat, c: nat)
    requires |b| == DICTIONARY_SIZE && |b'| == DICTIONARY_SIZE && c < |b| && c + NameSize(b[c]) + 5 <= |b|
    requires forall i :: 0 <= i < |b| && i != a ==> b'[i] == b[i]
    requires a < c || c + NameSize(b[c]) + 5 <= a
    ensures b'[c] == b[c] && Get16(b', c + 3 + NameSize(b[c])) == Get16(b, c + 3 + NameSize(b[c]))
  {
    var lc := NameSize(b[c]);
    assert b'[c] == b[c] && b'[c + 3 + lc] == b[c + 3 + lc] && b'[c + 4 + lc] == b[c + 4 + lc];
  }

  /** smudge leaves every other name where it was. */
  lemma SmudgeKeepsFind(d: DictState, x: string, name: string)
    requires Sound(d) && NameBytes(name) != NameBytes(x)
    ensures Find(Smudge(d, x).0, name) == Find(d, name)
  {
    if FindEntry(d, x, true).Some? {
      var a := FindEntry(d, x, true).value;
      var b := d.bytes;
      var b' := Smudge(d, x).0.bytes;
      assert b' == b[a := ToggleSmudge(b[a])];
      ToggleSmudgeTwice(b[a]);
      FlagKeepsOtherEntry(b, b', d.last, d.here, x, a, name);
      if FindEntry(d, name, false).Some? {
        FlagKeepsToken(b, b', a, FindEntry(d, name, false).value);
      }
      SameFind(d, Smudge(d, x).0, name);
    }
  }

  /** The entry smudge flips stops a search for its own name exactly when it
      is visible again; while it is hidden the search goes on below it. */
  lemma SmudgeMovesSelf(d: DictState, x: string)
    requires Sound(d) && FindEntry(d, x, true).Some?
    ensures var a := FindEntry(d, x, true).value;
            a + NameSize(d.bytes[a]) + 5 <= d.here &&
            FindEntry(Smudge(d, x).0, x, false) ==
              (if IsSmudged(d.bytes[a]) then Some(a) else Below(d.bytes, a, x, false))
  {
    var a := FindEntry(d, x, true).value;
    var b := d.bytes;
    var b' := Smudge(d, x).0.bytes;
    assert b' == b[a := ToggleSmudge(b[a])];
    ToggleSmudgeTwice(b[a]);
    ChainFrame(b, b, d.last, d.here, x, true);
    FlagMovesSelf(b, b', d.last, d.here, x, a);
  }
}
