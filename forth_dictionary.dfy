/** The dictionary object the Forth primitives update in place: the byte
    arena with its `here` and `last` registers. Each operation keeps the
    contract given to it in DictionaryModel. */
module ForthDictionary {
  import opened Wrappers
  import opened ForthHelper
  import opened DictionaryModel

  /** The outcome an operation of the model reports. */
  function StatusOf<T>(r: Result<T, DictError>): Outcome<DictError> {
    if r.Success? then Pass else Fail(r.error)
  }

  /** The dictionary after an operation of the model: unchanged on failure. */
  function After(d: DictState, r: Result<DictState, DictError>): DictState {
    if r.Success? then r.value else d
  }

  class Dictionary {
    const mem: array<Cell8>
    var here: nat
    var last: nat

    ghost predicate Valid()
      reads this
    {
      mem.Length == DICTIONARY_SIZE && here <= DICTIONARY_SIZE && last < DICTIONARY_SIZE
    }

    ghost function State(): (d: DictState)
      reads this, mem
      requires Valid()
      ensures d.Valid()
    {
      DictState(mem[..], here, last)
    }

    constructor ()
      ensures Valid() && fresh(mem) && State() == EmptyDictionary()
    {
      mem := new Cell8[DICTIONARY_SIZE](_ => 0);
      here, last := 0, 0;
      new;
      assert mem[..] == EmptyDictionary().bytes;
    }

    method Read8At(a: int) returns (r: Result<Cell8, DictError>)
      requires Valid()
      ensures r == DictionaryModel.Read8At(State(), a)
    {
      if 0 <= a < mem.Length {
        r := Success(mem[a]);
      } else {
        r := Failure(OutOfBoundDictionary);
      }
    }

    method Read16At(a: int) returns (r: Result<Cell16, DictError>)
      requires Valid()
      ensures r == DictionaryModel.Read16At(State(), a)
    {
      if 0 <= a && a + 2 <= mem.Length {
        r := Success(mem[a] as int + 0x100 * mem[a + 1] as int);
      } else {
        r := Failure(OutOfBoundDictionary);
      }
    }

    method Read32At(a: int) returns (r: Result<Cell32, DictError>)
      requires Valid()
      ensures r == DictionaryModel.Read32At(State(), a)
    {
      if 0 <= a && a + 4 <= mem.Length {
        r := Success(mem[a] as int + 0x100 * mem[a + 1] as int + 0x1_0000 * mem[a + 2] as int + 0x100_0000 * mem[a + 3] as int);
      } else {
        r := Failure(OutOfBoundDictionary);
      }
    }

    /** Stores the bytes s from address a on, if they fit. */
    method WriteBytes(a: int, s: seq<Cell8>) returns (r: Outcome<DictError>)
      requires Valid()
      modifies mem
      ensures Valid()
      ensures r == StatusOf(WriteAt(old(State()), a, s))
      ensures State() == After(old(State()), WriteAt(old(State()), a, s))
    {
      if 0 <= a && a + |s| <= mem.Length {
        forall i | 0 <= i < |s| {
          mem[a + i] := s[i];
        }
        assert mem[..] == Splice(old(mem[..]), a, s);
        r := Pass;
      } else {
        r := Fail(OutOfBoundDictionary);
      }
    }

    method Write8At(a: int, v: Cell8) returns (r: Outcome<DictError>)
      requires Valid()
      modifies mem
      ensures Valid()
      ensures r == StatusOf(DictionaryModel.Write8At(old(State()), a, v))
      ensures State() == After(old(State()), DictionaryModel.Write8At(old(State()), a, v))
    {
      r := WriteBytes(a, [v]);
    }

    method Write16At(a: int, v: Cell16) returns (r: Outcome<DictError>)
      requires Valid()
      modifies mem
      ensures Valid()
      ensures r == StatusOf(DictionaryModel.Write16At(old(State()), a, v))
      ensures State() == After(old(State()), DictionaryModel.Write16At(old(State()), a, v))
    {
      r := WriteBytes(a, Le16(v));
    }

    method Write32At(a: int, v: Cell32) returns (r: Outcome<DictError>)
      requires Valid()
      modifies mem
      ensures Valid()
      ensures r == StatusOf(DictionaryModel.Write32At(old(State()), a, v))
      ensures State() == After(old(State()), DictionaryModel.Write32At(old(State()), a, v))
    {
      r := WriteBytes(a, Le32(v));
    }

    /** Stores the bytes s at here and advances here past them, if they fit. */
    method AppendBytes(s: seq<Cell8>) returns (r: Outcome<DictError>)
      requires Valid()
      modifies this, mem
      ensures Valid()
      ensures r == StatusOf(Append(old(State()), s))
      ensures State() == After(old(State()), Append(old(State()), s))
    {
      if here + |s| <= mem.Length {
        forall i | 0 <= i < |s| {
          mem[here + i] := s[i];
        }
        assert mem[..] == Splice(old(mem[..]), here, s);
        here := here + |s|;
        r := Pass;
      } else {
        r := Fail(OutOfBoundDictionary);
      }
    }

    method Append8(v: Cell8) returns (r: Outcome<DictError>)
      requires Valid()
      modifies this, mem
      ensures Valid()
      ensures r == StatusOf(DictionaryModel.Append8(old(State()), v))
      ensures State() == After(old(State()), DictionaryModel.Append8(old(State()), v))
    {
      r := AppendBytes([v]);
    }

    method Append16(v: Cell16) returns (r: Outcome<DictError>)
      requires Valid()
      modifies this, mem
      ensures Valid()
      ensures r == StatusOf(DictionaryModel.Append16(old(State()), v))
      ensures State() == After(old(State()), DictionaryModel.Append16(old(State()), v))
    {
      r := AppendBytes(Le16(v));
    }

    method Append32(v: Cell32) returns (r: Outcome<DictError>)
      requires Valid()
      modifies this, mem
      ensures Valid()
      ensures r == StatusOf(DictionaryModel.Append32(old(State()), v))
      ensures State() == After(old(State()), DictionaryModel.Append32(old(State()), v))
    {
      r := AppendBytes(Le32(v));
    }

    method Allot(n: int) returns (r: Outcome<DictError>)
      requires Valid()
      modifies this
      ensures Valid()
      ensures r == StatusOf(DictionaryModel.Allot(old(State()), n))
      ensures State() == After(old(State()), DictionaryModel.Allot(old(State()), n))
    {
      if 0 <= here + n <= mem.Length {
        here := here + n;
        r := Pass;
      } else {
        r := Fail(OutOfBoundDictionary);
      }
    }

    method Move(dst: nat, src: nat, n: nat) returns (r: Outcome<DictError>)
      requires Valid()
      modifies mem
      ensures Valid()
      ensures r == StatusOf(DictionaryModel.Move(old(State()), dst, src, n))
      ensures State() == After(old(State()), DictionaryModel.Move(old(State()), dst, src, n))
    {
      if src + n <= mem.Length {
        r := WriteBytes(dst, mem[src..src + n]);
      } else {
        r := Fail(OutOfBoundDictionary);
      }
    }

    method Add(token: Cell16, name: string, flags: Cell8) returns (r: Outcome<DictError>)
      requires Valid() && NameSize(flags) == 0
      modifies this, mem
      ensures Valid()
      ensures r == StatusOf(DictionaryModel.Add(old(State()), token, name, flags))
      ensures State() == After(old(State()), DictionaryModel.Add(old(State()), token, name, flags))
    {
      if |name| >= 32 {
        return Fail(NameTooLong);
      }
      if here + |name| + 5 > mem.Length {
        return Fail(NoSpaceDictionary);
      }
      var s := Entry(here, last, token, name, flags);
      forall i | 0 <= i < |s| {
        mem[here + i] := s[i];
      }
      assert mem[..] == Splice(old(mem[..]), here, s);
      last := here;
      here := here + |s|;
      r := Pass;
    }

    /** Walks the back links down from last to the first entry named `name`
        (counting smudged entries only when `hidden`). */
    method Search(name: string, hidden: bool) returns (r: Option<nat>)
      requires Valid()
      ensures r == FindEntry(State(), name, hidden)
    {
      if last >= here {
        return None;
      }
      var addr: nat := last;
      var b := mem[..];
      while true
        invariant addr < |b|
        invariant FindFrom(b, addr, name, hidden) == FindFrom(b, last, name, hidden)
        decreases addr
      {
        FindFromStops(b, addr, name, hidden);
        var len := NameSize(b[addr]);
        if addr + len + 5 > |b| {
          return None;
        }
        if (hidden || !IsSmudged(b[addr])) && b[addr + 1..addr + 1 + len] == NameBytes(name) {
          return Some(addr);
        }
        var link := Get16(b, addr + 1 + len) as nat;
        if 0 < link <= addr {
          FindFromStep(b, addr, name, hidden);
          addr := addr - link;
        } else {
          return None;
        }
      }
    }

    method Find(name: string) returns (r: Option<(Cell16, bool)>)
      requires Valid()
      ensures r == DictionaryModel.Find(State(), name)
    {
      var e := Search(name, false);
      match e
      case Some(a) =>
        var len := NameSize(mem[a]);
        r := Some((mem[a + 3 + len] as int + 0x100 * mem[a + 4 + len] as int, IsImmediate(mem[a])));
      case None =>
        r := None;
    }

    method Smudge(name: string) returns (found: bool)
      requires Valid()
      modifies mem
      ensures Valid()
      ensures (State(), found) == DictionaryModel.Smudge(old(State()), name)
    {
      var e := Search(name, true);
      match e
      case Some(a) =>
        mem[a] := ToggleSmudge(mem[a]);
        found := true;
      case None =>
        found := false;
    }
  }
}
