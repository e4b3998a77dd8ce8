# SimTaDyn core in Dafny

This project models the computational core of SimTaDyn, a GIS editor whose
map cells are programmed in an embedded Forth, and proves properties of that
model. It covers:

- **The Forth virtual machine.** There are two snapshots of
  `Forth::execPrimitive`:
  - the current one, src/SimForth/Forth/ForthPrimitives.cpp;
  - the older one, src/forth/ForthPrimitives.cpp, with its `getWord`.

  Both are modelled, along with `Forth::boot`, which fills the dictionary.
  The machine holds a data stack kept as an array plus a cached top register
  (the stack a program sees is `ds + [tos]`), a return stack, a 16-bit
  instruction pointer, the interpreter state with its one saved slot, and a
  64 KiB byte dictionary with its `here` and `last` cursors.
- **The layout and encoding helpers** of src/forth/ForthHelper.hpp. These
  are the alignment macros, the byte swaps, the header flag bits and the
  stack macros.
- **The spreadsheet-cell layer** of src/SimForth/SimForth.cpp. It recognises
  `N#id` references, compiles literals, and checks that a cell script left
  exactly one value.
- **The shapefile loader** of src/core/loaders/ShapeFileLoader.cpp. It
  assembles big- and little-endian words, checks the main file header (the
  9994 file code and the length in 16-bit words), reads the version and
  shape type, and walks the records from byte 100, following the ESRI
  Shapefile Technical Description.
- **Three utilities:** `Polynom` (coefficients that grow with zero fill),
  `ClassCounter` (instance counters in `size_t`) and `Logger::fileName`.

## How the model is organised

- **Pure and imperative parts.**
  - Pure parts are datatypes and functions: `ForthMachine` (one transition
    per primitive behaviour, each stating its documented stack effect on
    `ds + [tos]`), `DictionaryModel`, the byte assembly, `shapeTypes`, and
    `fileName`.
  - Parts the C++ code updates in place are classes: `ForthVM.Forth` (the
    machine object, whose stacks are `ForthHelper.CellStack` arrays with a
    stack pointer), `ForthDictionary.Dictionary` (an array arena),
    `ShapefileLoader.ShapefileLoader` (the input stream cursor),
    `Polynom.Polynom` and `ClassCounter.Counters`.
  - Each method's `ensures` ties the new state to the pure transition. For
    example, `ExecPrimitive` ensures `f.Abs() == Exec(old(f.Abs()), id).next`.
- **Snapshots.** Each snapshot has a dispatch module (`SimForthPrimitives`,
  `ForthPrimitives`) mapping the 16-bit id to a case of the switch, both as
  a function on machines and as a method on the object.
  The dispatch runs each case as the code writes it, including the
  defects listed under Findings, except ROLL, which it does not step. The
  corrected behaviours are separate functions with their own proofs.
- **The dictionary class is not among the files modelled.**
  `DictionaryModel` gives it the behaviour its callers rely on: an entry is
  a header byte (flags and a five-bit name length), the name, a 16-bit back
  link and a 16-bit token. `add`, `find`, `smudge`, `allot`, `move`, and
  `read*at`/`write*at`/`append*` are bounds-checked. Its rows below cite
  the primitives that use each operation.
- **Machine integers.** Cells are integers in range. C++ wrap-around is
  written out explicitly: `% 2^32` for cells, `% 2^16` for `m_ip`, and
  `% 2^64` for `size_t`.
- **C++ behaviour.** Signed readings (`(int32_t)`), the truncating C++
  division and undefined operations are preconditions: division by zero,
  `INT_MIN / -1`, shifts of 32 or more, `std::abs(INT_MIN)`, and stack
  underflow and overflow.

## Model

| member | source | states |
|---|---|---|
| `ForthHelper.DictionaryAddressesFit` | src/forth/ForthHelper.hpp:38-45 | the header's static assertion: every dictionary address, up to DICTIONARY_SIZE - 1, fits in a 16-bit cell |
| `ForthHelper.NextMultipleOf4` | src/forth/ForthHelper.hpp:47-48 | below the 32-bit wrap the result is a multiple of 4, at least x and less than x + 4; past it the result wraps to 0 |
| `ForthHelper.NextMultipleOf2` | src/forth/ForthHelper.hpp:50-51 | below the 32-bit wrap the result is even, at least x and at most x + 1; 0xFFFFFFFF wraps to 0 |
| `ForthHelper.NextMultipleOf4IsLeast` | src/forth/ForthHelper.hpp:48 | no multiple of 4 lies between x and NEXT_MULTIPLE_OF_4(x): it is the least one |
| `ForthHelper.NextMultipleOf4Aligned` | src/forth/ForthHelper.hpp:48 | an aligned value is left as it is |
| `ForthHelper.Swap32` | src/forth/ForthHelper.hpp:122 | byte i of the result is byte 3 - i of x |
| `ForthHelper.Swap16` | src/forth/ForthHelper.hpp:123 | the two low bytes are exchanged and the upper ones cleared |
| `ForthHelper.Swap32Involution` | src/forth/ForthHelper.hpp:122 | SWAP32 applied twice gives x back |
| `ForthHelper.Swap16Involution` | src/forth/ForthHelper.hpp:123 | SWAP16 applied twice gives x back for every 16-bit x |
| `ForthHelper.NameSize` | src/forth/ForthHelper.hpp:89 | the name length read from a header byte is at most 31 |
| `ForthHelper.HeaderByte` | src/forth/ForthHelper.hpp:85-89 | a new header has the precedence bit, the given flags and the name length in separate bits |
| `ForthHelper.SetImmediate` | src/SimForth/Forth/ForthPrimitives.cpp:92 | `header | FLAG_IMMEDIATE`: the header becomes immediate, an immediate one is left as it is, and the name length, the smudge bit and the precedence bit are kept |
| `ForthHelper.ToggleSmudge` | src/forth/ForthHelper.hpp:85-89 | `header ^ FLAG_SMUDGE`: the smudge bit flips and the name length, the immediate bit and the precedence bit are kept |
| `ForthHelper.ToggleSmudgeTwice` | src/forth/ForthHelper.hpp:87 | toggling SMUDGE twice restores the header byte |
| `ForthHelper.FlagMasks` | src/forth/ForthHelper.hpp:86-87 | IsImmediate and IsSmudged are the masks 0x40 and 0x20 applied to the bits of the header |
| `ForthHelper.ForthState.Code` | src/forth/ForthHelper.hpp:103 | the value STATE pushes: 0 for Interprete, 1 for Compile, 2 for Comment, and only those |
| `ForthHelper.CellStack.constructor` | src/forth/ForthHelper.hpp:30-31 | an empty stack array of the given capacity |
| `ForthHelper.CellStack.Push` | src/forth/ForthHelper.hpp:64 | DPUSH, RPUSH, APUSH: the contents gain n on top |
| `ForthHelper.CellStack.Pop` | src/forth/ForthHelper.hpp:65-66 | DDROP/DPOP, RPOP, APOP: the top is returned and removed, so push then pop restores the stack |
| `ForthHelper.CellStack.Remove` | src/SimForth/Forth/ForthPrimitives.cpp:437-452 | removes exactly the cell n below the top and keeps the others in order: the array step of the corrected ROLL (ForthMachine.Roll), not the copy loop the source case runs |
| `ForthHelper.CellStack.Pick` | src/forth/ForthHelper.hpp:67 | DPICK(n) and RPICK(n) are the cell n places below the top; DPICK(0) is the top |
| `DictionaryModel.EmptyDictionary` | src/SimForth/Forth/ForthPrimitives.cpp:659-667 | the dictionary boot starts from: no entry, here at 0 |
| `DictionaryModel.Splice` | src/SimForth/Forth/ForthPrimitives.cpp:257-275 | a write changes only the bytes written and keeps the arena's size |
| `DictionaryModel.Le16` | src/SimForth/Forth/ForthPrimitives.cpp:238-243 | the two bytes of a 16-bit cell, low byte first, reassemble to the cell |
| `DictionaryModel.Le32` | src/SimForth/Forth/ForthPrimitives.cpp:232-237 | the four bytes of a 32-bit cell, low byte first, reassemble to the cell |
| `DictionaryModel.SplitGet16` | src/SimForth/Forth/ForthPrimitives.cpp:263-268 | the 16-bit cell read at a splits back into the two bytes at a |
| `DictionaryModel.SplitGet32` | src/SimForth/Forth/ForthPrimitives.cpp:257-262 | the 32-bit cell read at a splits back into the four bytes at a |
| `DictionaryModel.Get16AfterSplice` | src/SimForth/Forth/ForthPrimitives.cpp:263-268 | a 16-bit cell written at a reads back from a |
| `DictionaryModel.Get32AfterSplice` | src/SimForth/Forth/ForthPrimitives.cpp:257-262 | a 32-bit cell written at a reads back from a |
| `DictionaryModel.Read8At` | src/SimForth/Forth/ForthPrimitives.cpp:269-275 | reading a byte succeeds exactly inside the arena |
| `DictionaryModel.Read16At` | src/SimForth/Forth/ForthPrimitives.cpp:301-306 | reading a 16-bit cell succeeds exactly when both bytes are inside the arena |
| `DictionaryModel.Read32At` | src/SimForth/Forth/ForthPrimitives.cpp:251-256 | reading a 32-bit cell succeeds exactly when its four bytes are inside the arena |
| `DictionaryModel.WriteAt` | src/SimForth/Forth/ForthPrimitives.cpp:257-275 | a write succeeds exactly when the bytes fit; it changes only those bytes, not here or last |
| `DictionaryModel.Append` | src/SimForth/Forth/ForthPrimitives.cpp:232-250 | an append succeeds exactly when the bytes fit; they land at here, which moves past them |
| `DictionaryModel.Append16` | src/SimForth/Forth/ForthPrimitives.cpp:238-243 | appendCell16 succeeds exactly when two bytes fit above here, else OutOfBoundDictionary; here moves by 2, last stays, the cell reads back from the old here and the bytes below it are kept |
| `DictionaryModel.Append32` | src/SimForth/Forth/ForthPrimitives.cpp:232-237 | appendCell32 succeeds exactly when four bytes fit above here, else OutOfBoundDictionary; here moves by 4, last stays, the cell reads back from the old here and the bytes below it are kept |
| `DictionaryModel.Append8` | src/SimForth/Forth/ForthPrimitives.cpp:244-250 | appendCell8 succeeds exactly when one byte fits above here, else OutOfBoundDictionary; here moves by 1, last stays, the byte lands at the old here and the bytes below it are kept |
| `DictionaryModel.Write8At` | src/SimForth/Forth/ForthPrimitives.cpp:269-275 | write8at succeeds exactly when a lies in the arena, else OutOfBoundDictionary; the byte lands at a and no other byte, here or last changes |
| `DictionaryModel.Write16At` | src/SimForth/Forth/ForthPrimitives.cpp:263-268 | write16at succeeds exactly when two bytes fit at a, else OutOfBoundDictionary; the cell reads back from a and no other byte, here or last changes |
| `DictionaryModel.Write32At` | src/SimForth/Forth/ForthPrimitives.cpp:257-262 | write32at succeeds exactly when four bytes fit at a, else OutOfBoundDictionary; the cell reads back from a and no other byte, here or last changes |
| `DictionaryModel.Allot` | src/SimForth/Forth/ForthPrimitives.cpp:226-231 | here moves by the signed amount exactly when it stays inside the arena, and nothing else changes |
| `DictionaryModel.Move` | src/SimForth/Forth/ForthPrimitives.cpp:276-292 | the n bytes at dst become the n bytes src held before, and the cursors stay |
| `DictionaryModel.Entry` | src/forth/ForthPrimitives.cpp:49-73 | the entry layout: header byte, name, back link, token |
| `DictionaryModel.Add` | src/forth/ForthPrimitives.cpp:49-73 | add succeeds exactly when the name is under 32 bytes and the entry fits; the entry lands at here, which becomes last |
| `DictionaryModel.FindFrom` | src/SimForth/Forth/ForthPrimitives.cpp:131-149 | the search walks the back links down and stops only at a matching entry |
| `DictionaryModel.FindEntry` | src/SimForth/Forth/ForthPrimitives.cpp:131-149 | the most recent entry with the name, skipping smudged ones unless asked |
| `DictionaryModel.Find` | src/SimForth/Forth/ForthPrimitives.cpp:131-149 | find answers exactly when a visible entry with the name exists: the 16-bit token stored after the name and the link, and the immediate bit of that entry |
| `DictionaryModel.Smudge` | src/SimForth/Forth/ForthPrimitives.cpp:117-130 | smudge flips the smudge bit of the entry found, changes nothing else, and reports whether it found one |
| `DictionaryModel.AddLaysEntry` | src/forth/ForthPrimitives.cpp:58-66 | add writes the header, the name, a back link to the old last and the token from the old here |
| `DictionaryModel.MatchStopsSearch` | src/SimForth/Forth/ForthPrimitives.cpp:131-149 | a visible header with the name stops the search where it starts |
| `DictionaryModel.AddedEntryIsFound` | src/forth/ForthPrimitives.cpp:58-66 | the entry just added is where its name is found |
| `DictionaryModel.AddThenFind` | src/forth/ForthPrimitives.cpp:58-66 | redefinition shadows: after add, find gives the new token and the immediate flag given |
| `DictionaryModel.SmudgeHidesNewest` | src/SimForth/Forth/ForthPrimitives.cpp:802 | smudging the word just added hides it from find and keeps here and last |
| `DictionaryModel.SmudgeTwiceRestores` | src/ui/MapEditor.cpp:219-227 | smudging the same name twice restores the dictionary |
| `DictionaryModel.FoundMatches` | src/SimForth/Forth/ForthPrimitives.cpp:131-149 | the entry a search stops at carries the name and is visible, unless hidden entries count |
| `DictionaryChain.EmptySound` | src/SimForth/Forth/ForthPrimitives.cpp:659-667 | the empty dictionary satisfies the chain invariant |
| `DictionaryChain.AddKeepsChain` | src/SimForth/Forth/ForthPrimitives.cpp:659-803 | add keeps every back link pointing below here, and keeps the bytes below the old here |
| `DictionaryChain.AddKeepsFind` | src/SimForth/Forth/ForthPrimitives.cpp:659-803 | after add, find gives every other name the same answer as before |
| `DictionaryChain.FoundIsReached` | src/SimForth/Forth/ForthPrimitives.cpp:131-149 | a search stops only at an entry its chain of back links reaches |
| `DictionaryChain.SmudgeKeepsSound` | src/SimForth/Forth/ForthPrimitives.cpp:117-130 | smudge keeps the chain invariant |
| `DictionaryChain.SmudgeKeepsFind` | src/SimForth/Forth/ForthPrimitives.cpp:117-130 | smudge leaves find's answer for every other name unchanged |
| `DictionaryChain.SmudgeMovesSelf` | src/SimForth/Forth/ForthPrimitives.cpp:117-130 | after smudge, find for the smudged name stops at the flipped entry exactly when it became visible |
| `ForthDictionary.Dictionary.State` | src/SimForth/Forth/ForthPrimitives.cpp:216-225 | the arena and cursors the object holds form a valid dictionary |
| `ForthDictionary.Dictionary.constructor` | src/SimForth/Forth/ForthPrimitives.cpp:659-667 | a fresh arena holding the empty dictionary |
| `ForthDictionary.Dictionary.Read8At` | src/SimForth/Forth/ForthPrimitives.cpp:269-275 | the byte is the model's read, or the bounds error |
| `ForthDictionary.Dictionary.Read16At` | src/SimForth/Forth/ForthPrimitives.cpp:301-306 | the 16-bit cell is the model's read, or the bounds error |
| `ForthDictionary.Dictionary.Read32At` | src/SimForth/Forth/ForthPrimitives.cpp:251-256 | the 32-bit cell is the model's read, or the bounds error |
| `ForthDictionary.Dictionary.WriteBytes` | src/SimForth/Forth/ForthPrimitives.cpp:257-275 | the arena becomes the model's write; on failure it is unchanged |
| `ForthDictionary.Dictionary.Write8At` | src/SimForth/Forth/ForthPrimitives.cpp:269-275 | the state becomes the model's 8-bit write |
| `ForthDictionary.Dictionary.Write16At` | src/SimForth/Forth/ForthPrimitives.cpp:263-268 | the state becomes the model's 16-bit write |
| `ForthDictionary.Dictionary.Write32At` | src/SimForth/Forth/ForthPrimitives.cpp:257-262 | the state becomes the model's 32-bit write |
| `ForthDictionary.Dictionary.AppendBytes` | src/SimForth/Forth/ForthPrimitives.cpp:232-250 | the state becomes the model's append |
| `ForthDictionary.Dictionary.Append8` | src/SimForth/Forth/ForthPrimitives.cpp:244-250 | the state becomes the model's 8-bit append |
| `ForthDictionary.Dictionary.Append16` | src/SimForth/Forth/ForthPrimitives.cpp:238-243 | the state becomes the model's 16-bit append |
| `ForthDictionary.Dictionary.Append32` | src/SimForth/Forth/ForthPrimitives.cpp:232-237 | the state becomes the model's 32-bit append |
| `ForthDictionary.Dictionary.Allot` | src/SimForth/Forth/ForthPrimitives.cpp:226-231 | the state becomes the model's allot |
| `ForthDictionary.Dictionary.Move` | src/SimForth/Forth/ForthPrimitives.cpp:276-292 | the arena becomes the model's move; the loop copies through a snapshot of the source bytes |
| `ForthDictionary.Dictionary.Add` | src/forth/ForthPrimitives.cpp:58-66 | the state becomes the model's add |
| `ForthDictionary.Dictionary.Search` | src/SimForth/Forth/ForthPrimitives.cpp:131-149 | the loop over the back links returns the model's search result |
| `ForthDictionary.Dictionary.Find` | src/SimForth/Forth/ForthPrimitives.cpp:131-149 | the token and immediate flag are the model's find result |
| `ForthDictionary.Dictionary.Smudge` | src/SimForth/Forth/ForthPrimitives.cpp:117-130 | the state and the found flag are the model's smudge |
| `ForthMachine.Wrap` | src/SimForth/Forth/ForthPrimitives.cpp:565-576 | a C++ result stored in a cell: equal modulo 2^32, and unchanged when in range |
| `ForthMachine.Wrap16` | src/SimForth/Forth/ForthPrimitives.cpp:301-306 | `m_ip +=` in 16 bits: equal modulo 2^16, and unchanged when in range |
| `ForthMachine.Signed` | src/SimForth/Forth/ForthPrimitives.cpp:3-4 | `(int32_t) x` is in the int32 range and wraps back to x |
| `ForthMachine.Flag` | src/SimForth/Forth/ForthPrimitives.cpp:4 | `-1 * (a op b)` is 0 or 0xFFFFFFFF, and non-zero exactly when the comparison holds |
| `ForthMachine.PushTos` | src/forth/ForthHelper.hpp:64 | `DPUSH(m_tos); m_tos = v`: the logical stack gains v on top |
| `ForthMachine.PopTos` | src/forth/ForthHelper.hpp:65-66 | `DPOP(m_tos)`: the logical stack loses its top |
| `ForthMachine.DPush` | src/forth/ForthHelper.hpp:64 | DPUSH(n): n goes under the register on the logical stack; nothing else changes |
| `ForthMachine.DDrop` | src/forth/ForthHelper.hpp:65 | DDROP(): the cell under the register leaves the logical stack; nothing else changes |
| `ForthMachine.DPick` | src/forth/ForthHelper.hpp:67 | DPICK(n) is the cell n places under the register on the logical stack |
| `ForthMachine.NextWord` | src/forth/ForthPrimitives.cpp:9-17 | getWord gives the next word and consumes it exactly when one is left; otherwise it throws the truncated-stream error |
| `ForthMachine.Dup` | src/SimForth/Forth/ForthPrimitives.cpp:458-461 | ( a -- a a ) |
| `ForthMachine.QDup` | src/SimForth/Forth/ForthPrimitives.cpp:462-469 | ( a -- a a ) when a is not zero, ( 0 -- 0 ) otherwise, needing room for a push only when it pushes |
| `ForthMachine.Drop` | src/SimForth/Forth/ForthPrimitives.cpp:423-426 | ( a -- ) |
| `ForthMachine.TwoDrop` | src/SimForth/Forth/ForthPrimitives.cpp:525-530 | ( a b -- ) |
| `ForthMachine.Nip` | src/SimForth/Forth/ForthPrimitives.cpp:433-436 | ( a b -- b ) |
| `ForthMachine.NipAsWritten` | src/forth/ForthPrimitives.cpp:273-277 | the older NIP drops the top instead: ( a b -- a ) |
| `ForthMachine.Swap` | src/SimForth/Forth/ForthPrimitives.cpp:470-476 | ( a b -- b a ) |
| `ForthMachine.Over` | src/SimForth/Forth/ForthPrimitives.cpp:477-482 | ( a b -- a b a ) |
| `ForthMachine.Rot` | src/SimForth/Forth/ForthPrimitives.cpp:483-491 | ( a b c -- b c a ) |
| `ForthMachine.Tuck` | src/SimForth/Forth/ForthPrimitives.cpp:492-498 | ( a b -- b a b ) |
| `ForthMachine.TwoDup` | src/SimForth/Forth/ForthPrimitives.cpp:499-505 | ( a b -- a b a b ) |
| `ForthMachine.TwoOver` | src/SimForth/Forth/ForthPrimitives.cpp:506-513 | ( a b c d -- a b c d a b ) |
| `ForthMachine.TwoSwap` | src/SimForth/Forth/ForthPrimitives.cpp:514-524 | ( a b c d -- c d a b ) |
| `ForthMachine.TwoSwapAsWritten` | src/forth/ForthPrimitives.cpp:339-348 | the older 2SWAP gives ( a b c d -- b a c d ) |
| `ForthMachine.Pick` | src/SimForth/Forth/ForthPrimitives.cpp:453-457 | ( ... n -- ... x ): x is the cell n places below n |
| `ForthMachine.Roll` | src/SimForth/Forth/ForthPrimitives.cpp:437-452 | ( xu ... x0 u -- xu-1 ... x0 xu ): the intended effect of ROLL |
| `ForthMachine.RollAsWritten` | src/SimForth/Forth/ForthPrimitives.cpp:437-452 | ROLL as written, with DPICK expanded as src/forth/ForthHelper.hpp:67 defines it: each of the u cells from DPICK(u) down receives the cell below it, the stale slot above the old top is exposed, and DPICK(u) lands in the register |
| `ForthMachine.Depth` | src/SimForth/Forth/ForthPrimitives.cpp:427-432 | ( -- n ): n is the logical depth before the push |
| `ForthMachine.PushFlagTwice` | src/SimForth/Forth/ForthPrimitives.cpp:583-590 | FALSE and TRUE as written replace the top by two copies of the flag |
| `ForthMachine.PushFlag` | src/SimForth/Forth/ForthPrimitives.cpp:583-590 | ( -- flag ): the flag is pushed above the old top |
| `ForthMachine.TruncDiv` | src/SimForth/Forth/ForthPrimitives.cpp:571-573 | C++ `/` on int32_t: the remainder is smaller than the divisor in size and has the sign of the dividend |
| `ForthMachine.Arith` | src/SimForth/Forth/ForthPrimitives.cpp:3 | BINARY_OP stores a op b in a 32-bit cell; for +, -, * and << that cell is the integer result on the snapshot's reading, taken modulo 2^32 |
| `ForthMachine.HoldsOnCells` | src/SimForth/Forth/ForthPrimitives.cpp:4 | LOGICAL_OP: == and != compare the cells themselves; <, >, <= and >= follow the order the reading puts on the bits, unsigned or with the top bit as sign |
| `ForthMachine.Binary` | src/SimForth/Forth/ForthPrimitives.cpp:565-582 | BINARY_OP: ( a b -- a op b ), in the snapshot's reading of the cells, stored modulo 2^32 |
| `ForthMachine.Logical` | src/SimForth/Forth/ForthPrimitives.cpp:591-612 | LOGICAL_OP: ( a b -- flag ), the flag 0 or -1 of `a op b` in the snapshot's reading |
| `ForthMachine.ZeroEqual` | src/SimForth/Forth/ForthPrimitives.cpp:606-609 | ( a -- flag ): -1 exactly when a is 0 |
| `ForthMachine.MinMax` | src/SimForth/Forth/ForthPrimitives.cpp:622-629 | ( a b -- c ): c is a or b, and the smaller (MIN) or larger (MAX) in the snapshot's reading |
| `ForthMachine.AddToTos` | src/SimForth/Forth/ForthPrimitives.cpp:409-422 | 1- 1+ 2- 2+: the register plus k, wrapping modulo 2^32 |
| `ForthMachine.Negate` | src/SimForth/Forth/ForthPrimitives.cpp:558-560 | the two's complement: the signed reading is negated, except for INT_MIN |
| `ForthMachine.Abs` | src/SimForth/Forth/ForthPrimitives.cpp:561-564 | the signed reading becomes its absolute value |
| `ForthMachine.Cells` | src/SimForth/Forth/ForthPrimitives.cpp:392-395 | the register times 4, modulo 2^32 |
| `ForthMachine.ChangeBase` | src/SimForth/Forth/ForthPrimitives.cpp:531-557 | the base becomes b when it is in 2..36 and stays otherwise; nothing is popped |
| `ForthMachine.LParen` | src/SimForth/Forth/ForthPrimitives.cpp:34-39 | `(` saves the current state and enters the comment state |
| `ForthMachine.RParen` | src/SimForth/Forth/ForthPrimitives.cpp:40-44 | `)` restores the saved state |
| `ForthMachine.SetState` | src/SimForth/Forth/ForthPrimitives.cpp:208-215 | `[` and `]` set the state and change nothing else |
| `ForthMachine.ToR` | src/SimForth/Forth/ForthPrimitives.cpp:322-328 | >R ( x -- ) ( R: -- x ) |
| `ForthMachine.FromR` | src/SimForth/Forth/ForthPrimitives.cpp:336-340 | R> ( -- x ) ( R: x -- ) |
| `ForthMachine.TwoToR` | src/SimForth/Forth/ForthPrimitives.cpp:329-335 | 2>R ( x1 x2 -- ) ( R: -- x1 x2 ) |
| `ForthMachine.TwoFromR` | src/SimForth/Forth/ForthPrimitives.cpp:341-347 | 2R> ( -- x1 x2 ) ( R: x1 x2 -- ) |
| `ForthMachine.RCopy` | src/SimForth/Forth/ForthPrimitives.cpp:377-386 | I and J push the return cell 0 or 2 places below its top, popping nothing |
| `ForthMachine.Exit` | src/SimForth/Forth/ForthPrimitives.cpp:293-300 | the instruction pointer is popped from the return stack, in 16 bits |
| `ForthMachine.Branch` | src/SimForth/Forth/ForthPrimitives.cpp:301-306 | ip gains the 16-bit offset stored after the opcode; an offset outside the arena throws |
| `ForthMachine.ZeroBranch` | src/SimForth/Forth/ForthPrimitives.cpp:307-321 | the flag is always consumed; on 0 ip gains the offset, otherwise ip += 2 steps over it |
| `ForthMachine.Literal16` | src/SimForth/Forth/ForthPrimitives.cpp:396-401 | the 16-bit cell after the opcode is pushed and ip steps onto it |
| `ForthMachine.Literal32` | src/SimForth/Forth/ForthPrimitives.cpp:402-408 | the 32-bit cell after the opcode is pushed and ip steps one extra cell, so the loop's +2 resumes after the operand |
| `ForthMachine.PCreate` | src/SimForth/Forth/ForthPrimitives.cpp:69-76 | (CREATE) pushes the data-field address, 4 bytes after ip |
| `ForthMachine.PushCursor` | src/SimForth/Forth/ForthPrimitives.cpp:216-225 | HERE and LAST push the dictionary cursor |
| `ForthMachine.Allot` | src/SimForth/Forth/ForthPrimitives.cpp:226-231 | here moves by the signed top, which is popped; out of range throws |
| `ForthMachine.AllotAsWritten` | src/forth/ForthPrimitives.cpp:150-154 | the older ALLOT moves here but leaves the amount on the stack |
| `ForthMachine.Comma` | src/SimForth/Forth/ForthPrimitives.cpp:232-250 | `,` `S,` `C,`: the register's bytes of that width land at here, which moves past them, and the register is popped |
| `ForthMachine.Fetch` | src/SimForth/Forth/ForthPrimitives.cpp:251-256 | `@` replaces the address by the 32-bit cell stored there |
| `ForthMachine.Store` | src/SimForth/Forth/ForthPrimitives.cpp:257-275 | `!` `S!` `C!` write x at the address in that width and pop both when `pop`; otherwise the address is left, as in the older snapshot |
| `ForthMachine.CMove` | src/SimForth/Forth/ForthPrimitives.cpp:276-292 | ( src dst n -- ): the dictionary's move of n bytes, when both ranges fit |
| `ForthMachine.Immediate` | src/SimForth/Forth/ForthPrimitives.cpp:91-94 | only the header byte at last changes: it becomes immediate with the same length and smudge bit |
| `ForthMachine.Create` | src/forth/ForthPrimitives.cpp:49-66 | reads the name and records last, here and the depth before adding the entry; the new word's token is here + len + 1 + 2 |
| `ForthMachine.ColonToken` | src/forth/ForthPrimitives.cpp:65 | the token `:` gives a word is the address of the last two bytes (the token field) of the entry add lays at here, when it fits |
| `ForthMachine.Colon` | src/SimForth/Forth/ForthPrimitives.cpp:50-55 | `:` is the header creation followed by the compile state |
| `ForthMachine.Semicolon` | src/SimForth/Forth/ForthPrimitives.cpp:56-68 | `;` first appends EXIT, throwing with the state unchanged when it does not fit; then it enters the interpret state; and when the depth differs from the one `:` saw, it rolls here and last back over the appended EXIT and throws for the word |
| `ForthMachine.AppendCode` | src/SimForth/Forth/ForthPrimitives.cpp:77-82 | two tokens appended at here, readable back, the older bytes kept |
| `ForthMachine.CreateWord` | src/SimForth/Forth/ForthPrimitives.cpp:77-82 | CREATE is a header followed by the code `(CREATE) EXIT` |
| `ForthMachine.SmudgeWord` | src/SimForth/Forth/ForthPrimitives.cpp:117-130 | SMUDGE toggles the hidden flag of the next word; no word left throws |
| `ForthMachine.Tick` | src/SimForth/Forth/ForthPrimitives.cpp:131-149 | `'` reads the next word and pushes its token |
| `ForthMachine.TickToken` | src/SimForth/Forth/ForthPrimitives.cpp:131-149 | the token find gives for the word, or 0 when find fails |
| `ForthMachine.CompileNext` | src/SimForth/Forth/ForthPrimitives.cpp:150-155 | COMPILE steps ip over the next cell and appends that cell |
| `ForthMachine.AppendToken` | src/SimForth/Forth/ForthPrimitives.cpp:156-174 | a token is appended to the dictionary when there is room |
| `ForthMachine.ICompile` | src/SimForth/Forth/ForthPrimitives.cpp:156-174 | `[COMPILE]` appends the token of the next word and throws for an unknown word |
| `ForthMachine.Postpone` | src/SimForth/Forth/ForthPrimitives.cpp:175-199 | POSTPONE appends an immediate word's token and compiles the next cell otherwise; an unknown word throws |
| `ForthVM.Forth.Abs` | src/SimForth/Forth/ForthPrimitives.cpp:23-27 | the object's stacks, registers and dictionary form a valid machine |
| `ForthVM.Forth.constructor` | src/SimForth/Forth/ForthPrimitives.cpp:654-667 | empty stacks and dictionary, interpret state, decimal base |
| `ForthVM.Forth.DPush` | src/forth/ForthHelper.hpp:64 | DPUSH on the object is the machine's push |
| `ForthVM.Forth.DPop` | src/forth/ForthHelper.hpp:65-66 | DPOP on the object returns the array top and drops it |
| `ForthVM.Forth.DPick` | src/forth/ForthHelper.hpp:67 | DPICK on the object is the machine's pick |
| `ForthVM.Forth.DRemove` | src/SimForth/Forth/ForthPrimitives.cpp:437-452 | removes exactly the cell n below the array top: the step of the corrected ROLL, not the source's downward copy loop |
| `ForthVM.Forth.RPush` | src/forth/ForthHelper.hpp:75 | RPUSH on the object is the machine's push |
| `ForthVM.Forth.RPop` | src/forth/ForthHelper.hpp:76 | RPOP on the object returns the return-stack top and drops it |
| `ForthVM.Forth.PushTos` | src/SimForth/Forth/ForthPrimitives.cpp:216-220 | the object moves as ForthMachine.PushTos says |
| `ForthVM.Forth.PopTos` | src/SimForth/Forth/ForthPrimitives.cpp:423-426 | the object moves as ForthMachine.PopTos says |
| `ForthVM.Forth.NextWord` | src/forth/ForthPrimitives.cpp:9-17 | the word and the object's input follow ForthMachine.NextWord |
| `ForthVM.Forth.Dup` | src/SimForth/Forth/ForthPrimitives.cpp:458-461 | the object moves as ForthMachine.Dup says |
| `ForthVM.Forth.QDup` | src/SimForth/Forth/ForthPrimitives.cpp:462-469 | the object moves as ForthMachine.QDup says |
| `ForthVM.Forth.Drop` | src/SimForth/Forth/ForthPrimitives.cpp:423-426 | the object moves as ForthMachine.Drop says |
| `ForthVM.Forth.TwoDrop` | src/SimForth/Forth/ForthPrimitives.cpp:525-530 | the object moves as ForthMachine.TwoDrop says |
| `ForthVM.Forth.Nip` | src/SimForth/Forth/ForthPrimitives.cpp:433-436 | the object moves as ForthMachine.Nip says |
| `ForthVM.Forth.NipAsWritten` | src/forth/ForthPrimitives.cpp:273-277 | the object moves as ForthMachine.NipAsWritten says |
| `ForthVM.Forth.Swap` | src/SimForth/Forth/ForthPrimitives.cpp:470-476 | the object moves as ForthMachine.Swap says |
| `ForthVM.Forth.Over` | src/SimForth/Forth/ForthPrimitives.cpp:477-482 | the object moves as ForthMachine.Over says |
| `ForthVM.Forth.Rot` | src/SimForth/Forth/ForthPrimitives.cpp:483-491 | the object moves as ForthMachine.Rot says |
| `ForthVM.Forth.Tuck` | src/SimForth/Forth/ForthPrimitives.cpp:492-498 | the object moves as ForthMachine.Tuck says |
| `ForthVM.Forth.TwoDup` | src/SimForth/Forth/ForthPrimitives.cpp:499-505 | the object moves as ForthMachine.TwoDup says |
| `ForthVM.Forth.TwoOver` | src/SimForth/Forth/ForthPrimitives.cpp:506-513 | the object moves as ForthMachine.TwoOver says |
| `ForthVM.Forth.TwoSwap` | src/SimForth/Forth/ForthPrimitives.cpp:514-524 | the object moves as ForthMachine.TwoSwap says |
| `ForthVM.Forth.TwoSwapAsWritten` | src/forth/ForthPrimitives.cpp:339-348 | the object moves as ForthMachine.TwoSwapAsWritten says |
| `ForthVM.Forth.Pick` | src/SimForth/Forth/ForthPrimitives.cpp:453-457 | the object moves as ForthMachine.Pick says |
| `ForthVM.Forth.Depth` | src/SimForth/Forth/ForthPrimitives.cpp:427-432 | the object moves as ForthMachine.Depth says |
| `ForthVM.Forth.PushFlagTwice` | src/forth/ForthPrimitives.cpp:398-405 | the object moves as ForthMachine.PushFlagTwice says |
| `ForthVM.Forth.PushFlag` | src/SimForth/Forth/ForthPrimitives.cpp:583-590 | the object moves as the corrected ForthMachine.PushFlag says |
| `ForthVM.Forth.Roll` | src/SimForth/Forth/ForthPrimitives.cpp:437-452 | the object moves as the corrected ForthMachine.Roll says; the dispatch does not step ROLL |
| `ForthVM.Forth.Binary` | src/SimForth/Forth/ForthPrimitives.cpp:565-582 | the object moves as ForthMachine.Binary says |
| `ForthVM.Forth.Logical` | src/SimForth/Forth/ForthPrimitives.cpp:591-612 | the object moves as ForthMachine.Logical says |
| `ForthVM.Forth.ZeroEqual` | src/SimForth/Forth/ForthPrimitives.cpp:606-609 | the object moves as ForthMachine.ZeroEqual says |
| `ForthVM.Forth.MinMax` | src/SimForth/Forth/ForthPrimitives.cpp:622-629 | the object moves as ForthMachine.MinMax says |
| `ForthVM.Forth.AddToTos` | src/SimForth/Forth/ForthPrimitives.cpp:409-422 | the object moves as ForthMachine.AddToTos says |
| `ForthVM.Forth.Negate` | src/SimForth/Forth/ForthPrimitives.cpp:558-560 | the object moves as ForthMachine.Negate says |
| `ForthVM.Forth.Absolute` | src/SimForth/Forth/ForthPrimitives.cpp:561-564 | the object moves as ForthMachine.Abs says |
| `ForthVM.Forth.Cells` | src/SimForth/Forth/ForthPrimitives.cpp:392-395 | the object moves as ForthMachine.Cells says |
| `ForthVM.Forth.ChangeBase` | src/SimForth/Forth/ForthPrimitives.cpp:531-557 | the object moves as ForthMachine.ChangeBase says |
| `ForthVM.Forth.LParen` | src/SimForth/Forth/ForthPrimitives.cpp:34-39 | the object moves as ForthMachine.LParen says |
| `ForthVM.Forth.RParen` | src/SimForth/Forth/ForthPrimitives.cpp:40-44 | the object moves as ForthMachine.RParen says |
| `ForthVM.Forth.SetState` | src/SimForth/Forth/ForthPrimitives.cpp:208-215 | the object moves as ForthMachine.SetState says |
| `ForthVM.Forth.SetTrace` | src/SimForth/Forth/ForthPrimitives.cpp:109-116 | TRACE.ON and TRACE.OFF set the trace flag and nothing else |
| `ForthVM.Forth.ToR` | src/SimForth/Forth/ForthPrimitives.cpp:322-328 | the object moves as ForthMachine.ToR says |
| `ForthVM.Forth.FromR` | src/SimForth/Forth/ForthPrimitives.cpp:336-340 | the object moves as ForthMachine.FromR says |
| `ForthVM.Forth.TwoToR` | src/SimForth/Forth/ForthPrimitives.cpp:329-335 | the object moves as ForthMachine.TwoToR says |
| `ForthVM.Forth.TwoFromR` | src/SimForth/Forth/ForthPrimitives.cpp:341-347 | the object moves as ForthMachine.TwoFromR says |
| `ForthVM.Forth.RCopy` | src/SimForth/Forth/ForthPrimitives.cpp:377-386 | the object moves as ForthMachine.RCopy says |
| `ForthVM.Forth.Exit` | src/SimForth/Forth/ForthPrimitives.cpp:293-300 | the object moves as ForthMachine.Exit says |
| `ForthVM.Forth.Branch` | src/SimForth/Forth/ForthPrimitives.cpp:301-306 | the object and the exception follow ForthMachine.Branch |
| `ForthVM.Forth.ZeroBranch` | src/SimForth/Forth/ForthPrimitives.cpp:307-321 | the object and the exception follow ForthMachine.ZeroBranch |
| `ForthVM.Forth.Literal16` | src/SimForth/Forth/ForthPrimitives.cpp:396-401 | the object and the exception follow ForthMachine.Literal16 |
| `ForthVM.Forth.Literal32` | src/SimForth/Forth/ForthPrimitives.cpp:402-408 | the object and the exception follow ForthMachine.Literal32 |
| `ForthVM.Forth.PCreate` | src/SimForth/Forth/ForthPrimitives.cpp:69-76 | the object moves as ForthMachine.PCreate says |
| `ForthVM.Forth.PushCursor` | src/SimForth/Forth/ForthPrimitives.cpp:216-225 | the object moves as ForthMachine.PushCursor says |
| `ForthVM.Forth.Allot` | src/SimForth/Forth/ForthPrimitives.cpp:226-231 | the object and the exception follow ForthMachine.Allot |
| `ForthVM.Forth.AllotAsWritten` | src/forth/ForthPrimitives.cpp:150-154 | the object and the exception follow ForthMachine.AllotAsWritten |
| `ForthVM.Forth.AppendCell` | src/SimForth/Forth/ForthPrimitives.cpp:232-250 | the register's bytes of the width are appended, as the model's append |
| `ForthVM.Forth.Comma` | src/SimForth/Forth/ForthPrimitives.cpp:232-250 | the object and the exception follow ForthMachine.Comma |
| `ForthVM.Forth.Fetch` | src/SimForth/Forth/ForthPrimitives.cpp:251-256 | the object and the exception follow ForthMachine.Fetch |
| `ForthVM.Forth.WriteCell` | src/SimForth/Forth/ForthPrimitives.cpp:257-275 | a cell of the width is written, as the model's write |
| `ForthVM.Forth.Store` | src/SimForth/Forth/ForthPrimitives.cpp:257-275 | the object and the exception follow ForthMachine.Store |
| `ForthVM.Forth.CMove` | src/SimForth/Forth/ForthPrimitives.cpp:276-292 | the object and the exception follow ForthMachine.CMove |
| `ForthVM.Forth.Immediate` | src/SimForth/Forth/ForthPrimitives.cpp:91-94 | the object moves as ForthMachine.Immediate says |
| `ForthVM.Forth.Create` | src/forth/ForthPrimitives.cpp:49-66 | the object and the exception follow ForthMachine.Create |
| `ForthVM.Forth.Colon` | src/SimForth/Forth/ForthPrimitives.cpp:50-55 | the object and the exception follow ForthMachine.Colon |
| `ForthVM.Forth.Semicolon` | src/SimForth/Forth/ForthPrimitives.cpp:56-68 | the object and the exception follow ForthMachine.Semicolon |
| `ForthVM.Forth.CreateWord` | src/SimForth/Forth/ForthPrimitives.cpp:77-82 | the object and the exception follow ForthMachine.CreateWord |
| `ForthVM.Forth.SmudgeWord` | src/SimForth/Forth/ForthPrimitives.cpp:117-130 | the object and the exception follow ForthMachine.SmudgeWord |
| `ForthVM.Forth.Tick` | src/SimForth/Forth/ForthPrimitives.cpp:131-149 | the object and the exception follow ForthMachine.Tick |
| `ForthVM.Forth.CompileNext` | src/SimForth/Forth/ForthPrimitives.cpp:150-155 | the object and the exception follow ForthMachine.CompileNext |
| `ForthVM.Forth.AppendToken` | src/SimForth/Forth/ForthPrimitives.cpp:156-174 | the object and the exception follow ForthMachine.AppendToken |
| `ForthVM.Forth.ICompile` | src/SimForth/Forth/ForthPrimitives.cpp:156-174 | the object and the exception follow ForthMachine.ICompile |
| `ForthVM.Forth.Postpone` | src/SimForth/Forth/ForthPrimitives.cpp:175-199 | the object and the exception follow ForthMachine.Postpone |
| `SimForthPrimitives.Token` | src/SimForth/Forth/ForthPrimitives.cpp:26-645 | every primitive has an id below NUM_PRIMITIVES that decodes back to it |
| `SimForthPrimitives.Decode` | src/SimForth/Forth/ForthPrimitives.cpp:646-648 | an id names a primitive exactly when it is below NUM_PRIMITIVES; the others reach the default case |
| `SimForthPrimitives.TokenOfDecode` | src/SimForth/Forth/ForthPrimitives.cpp:26-648 | decoding then encoding gives the id back: ids and case labels are in one-to-one correspondence |
| `SimForthPrimitives.Step` | src/SimForth/Forth/ForthPrimitives.cpp:26-645 | one case of the switch as a transition, leaving a valid machine; FALSE and TRUE step PushFlagTwice as the code does, and ROLL is not stepped |
| `SimForthPrimitives.StepInterp` | src/SimForth/Forth/ForthPrimitives.cpp:29-215 | the interpreter and definition cases, leaving a valid machine |
| `SimForthPrimitives.StepDict` | src/SimForth/Forth/ForthPrimitives.cpp:216-292 | the dictionary cases, leaving a valid machine |
| `SimForthPrimitives.StepFlow` | src/SimForth/Forth/ForthPrimitives.cpp:293-408 | the control-flow, return-stack and literal cases, leaving a valid machine |
| `SimForthPrimitives.StepStack` | src/SimForth/Forth/ForthPrimitives.cpp:409-530 | the data-stack cases other than ROLL, which never throw |
| `SimForthPrimitives.StepNumbers` | src/SimForth/Forth/ForthPrimitives.cpp:531-582 | the base and arithmetic cases, which never throw |
| `SimForthPrimitives.StepLogic` | src/SimForth/Forth/ForthPrimitives.cpp:583-645 | the flag, comparison, bitwise, MIN/MAX and printing cases, which never throw; FALSE and TRUE overwrite the top and push the flag as the code does |
| `SimForthPrimitives.Exec` | src/SimForth/Forth/ForthPrimitives.cpp:23-648 | execPrimitive: an unknown id throws and changes nothing; a known one other than ROLL steps its case as written |
| `SimForthPrimitives.ExecPrimitive` | src/SimForth/Forth/ForthPrimitives.cpp:23-648 | the object ends in Exec's machine and throws Exec's exception |
| `SimForthPrimitives.ExecInterp` | src/SimForth/Forth/ForthPrimitives.cpp:29-215 | the object follows StepInterp |
| `SimForthPrimitives.ExecDict` | src/SimForth/Forth/ForthPrimitives.cpp:216-292 | the object follows StepDict |
| `SimForthPrimitives.ExecFlow` | src/SimForth/Forth/ForthPrimitives.cpp:293-408 | the object follows StepFlow |
| `SimForthPrimitives.ExecStack` | src/SimForth/Forth/ForthPrimitives.cpp:409-530 | the object follows StepStack, ROLL excepted |
| `SimForthPrimitives.ExecNumbers` | src/SimForth/Forth/ForthPrimitives.cpp:531-582 | the object follows StepNumbers |
| `SimForthPrimitives.ExecFlags` | src/SimForth/Forth/ForthPrimitives.cpp:583-612 | the object follows StepLogic for FALSE, TRUE and the comparisons, with FALSE and TRUE run as the code writes them |
| `SimForthPrimitives.ExecLogic` | src/SimForth/Forth/ForthPrimitives.cpp:583-645 | the object follows StepLogic, with FALSE and TRUE run as the code writes them |
| `ForthPrimitives.Token` | src/forth/ForthPrimitives.cpp:25-460 | every primitive of the older switch has an id that decodes back to it |
| `ForthPrimitives.Decode` | src/forth/ForthPrimitives.cpp:461-463 | an id names a primitive exactly when it is below the older NUM_PRIMITIVES |
| `ForthPrimitives.TokenOfDecode` | src/forth/ForthPrimitives.cpp:25-463 | decoding then encoding gives the id back |
| `ForthPrimitives.Step` | src/forth/ForthPrimitives.cpp:25-460 | one case of the older switch as a transition, with the older NIP, 2SWAP, ALLOT, `!`, FALSE, TRUE and unsigned comparisons as written |
| `ForthPrimitives.StepInterp` | src/forth/ForthPrimitives.cpp:28-144 | the older interpreter cases, with the explicit `:` header |
| `ForthPrimitives.StepDict` | src/forth/ForthPrimitives.cpp:145-174 | the older dictionary cases |
| `ForthPrimitives.StepFlow` | src/forth/ForthPrimitives.cpp:175-248 | the older control-flow and literal cases |
| `ForthPrimitives.StepStack` | src/forth/ForthPrimitives.cpp:249-354 | the older data-stack cases |
| `ForthPrimitives.StepNumbers` | src/forth/ForthPrimitives.cpp:355-397 | the older base and arithmetic cases, on unsigned cells |
| `ForthPrimitives.StepLogic` | src/forth/ForthPrimitives.cpp:398-460 | the older flag and comparison cases, on unsigned cells; FALSE and TRUE overwrite the top and push the flag as the code does |
| `ForthPrimitives.Exec` | src/forth/ForthPrimitives.cpp:22-465 | the older execPrimitive: an unknown id throws and changes nothing |
| `ForthPrimitives.ExecPrimitive` | src/forth/ForthPrimitives.cpp:22-465 | the object ends in Exec's machine and throws Exec's exception |
| `ForthPrimitives.ExecInterp` | src/forth/ForthPrimitives.cpp:28-144 | the object follows StepInterp |
| `ForthPrimitives.ExecDict` | src/forth/ForthPrimitives.cpp:145-174 | the object follows StepDict |
| `ForthPrimitives.ExecFlow` | src/forth/ForthPrimitives.cpp:175-248 | the object follows StepFlow |
| `ForthPrimitives.ExecStack` | src/forth/ForthPrimitives.cpp:249-354 | the object follows StepStack |
| `ForthPrimitives.ExecNumbers` | src/forth/ForthPrimitives.cpp:355-397 | the object follows StepNumbers |
| `ForthPrimitives.ExecLogic` | src/forth/ForthPrimitives.cpp:398-460 | the object follows StepLogic, with FALSE and TRUE run as the code writes them |
| `SimForthBoot.Flags` | src/SimForth/Forth/ForthPrimitives.cpp:668-800 | the flag byte boot passes carries no name length and no smudge bit, and is immediate exactly when the table says so |
| `SimForthBoot.AddAll` | src/SimForth/Forth/ForthPrimitives.cpp:668-800 | the adds of the table keep the dictionary valid and never move here back |
| `SimForthBoot.AddWords` | src/SimForth/Forth/ForthPrimitives.cpp:668-800 | the loop of adds leaves the object's dictionary at AddAll of the table |
| `SimForthBoot.Boot` | src/SimForth/Forth/ForthPrimitives.cpp:659-805 | boot adds every word of the table, then smudges (CREATE) |
| `SimForthBoot.Booted` | src/SimForth/Forth/ForthPrimitives.cpp:659-805 | the dictionary after boot is valid, with here and last where the adds left them (the smudge moves neither) and here not behind its start |
| `SimForthBoot.Lookup` | src/SimForth/Forth/ForthPrimitives.cpp:668-800 | None exactly when no word of the table has the name's bytes |
| `SimForthBoot.LookupIsLast` | src/SimForth/Forth/ForthPrimitives.cpp:668-800 | Lookup answers with the last word carrying the name |
| `SimForthBoot.RoomForAll` | src/SimForth/Forth/ForthPrimitives.cpp:668-800 | short names and room for every entry make every add succeed |
| `SimForthBoot.AddAllFind` | src/SimForth/Forth/ForthPrimitives.cpp:668-800 | after the adds, find gives a name the token and flag of its last table entry |
| `SimForthBoot.TableNamesFit` | src/SimForth/Forth/ForthPrimitives.cpp:668-800 | the table has 103 words and every name fits the five-bit length field |
| `SimForthBoot.HiddenWordOnce` | src/SimForth/Forth/ForthPrimitives.cpp:668-800 | (CREATE) is the eighth word of the table and no other word carries its name |
| `SimForthBoot.BootAddsAll` | src/SimForth/Forth/ForthPrimitives.cpp:659-805 | from the empty dictionary every add of boot succeeds |
| `SimForthBoot.BootFinds` | src/SimForth/Forth/ForthPrimitives.cpp:659-805 | after boot, find gives every name other than (CREATE) the token and immediate flag of the table |
| `SimForthBoot.BootHidesCreate` | src/SimForth/Forth/ForthPrimitives.cpp:802 | after boot, (CREATE) is in the dictionary but find does not see it |
| `ForthLaws.LogicalDetermines` | src/SimForth/Forth/ForthPrimitives.cpp:3-4 | the logical stack `ds + [tos]` determines the array and the register |
| `ForthLaws.ToRThenFromR` | src/SimForth/Forth/ForthPrimitives.cpp:322-340 | `>R R>` leaves both stacks as they were |
| `ForthLaws.FromRThenToR` | src/SimForth/Forth/ForthPrimitives.cpp:322-340 | `R> >R` leaves both stacks as they were |
| `ForthLaws.TwoToRThenTwoFromR` | src/SimForth/Forth/ForthPrimitives.cpp:329-347 | `2>R 2R>` leaves both stacks as they were |
| `ForthLaws.ParenRestoresState` | src/SimForth/Forth/ForthPrimitives.cpp:34-44 | `(` then `)` comes back to the state it left |
| `ForthLaws.ColonThenSemicolon` | src/SimForth/Forth/ForthPrimitives.cpp:50-68 | `: name ;` adds the word, whose code is EXIT, and find returns its token |
| `ForthLaws.UnbalancedDefinitionRollsBack` | src/SimForth/Forth/ForthPrimitives.cpp:56-68 | `;` at another depth throws for the word and puts last and here back exactly as they were before `:` |
| `ForthLaws.OrderingsAgreeIffSameSign` | src/forth/ForthPrimitives.cpp:406-427 | a signed and an unsigned ordering comparison agree exactly when the operands' sign bits agree |
| `ForthLaws.EqualityIgnoresReading` | src/forth/ForthPrimitives.cpp:418-427 | `==` and `<>` give the same flag in both snapshots |
| `ForthLaws.NipAsWrittenIsDrop` | src/forth/ForthPrimitives.cpp:273-277 | the older NIP is DROP, and agrees with ( a b -- b ) only when a == b |
| `ForthLaws.TwoSwapAsWrittenDiffers` | src/forth/ForthPrimitives.cpp:339-348 | the older 2SWAP agrees with ( a b c d -- c d a b ) only when a == c and b == d |
| `ForthLaws.AllotAsWrittenKeepsAmount` | src/forth/ForthPrimitives.cpp:150-154 | the older ALLOT moves here as ALLOT does but leaves one cell more |
| `ForthLaws.StoreKeepsAddress` | src/forth/ForthPrimitives.cpp:168-174 | the older `!` stores what `!` stores but leaves the address on the stack |
| `ForthLaws.PushFlagTwiceDiffers` | src/SimForth/Forth/ForthPrimitives.cpp:583-590 | FALSE and TRUE as written leave as many cells as ( -- flag ) does, and the same cells exactly when the old top already was that flag |
| `ForthLaws.RollAsWrittenZero` | src/SimForth/Forth/ForthPrimitives.cpp:437-452 | `0 ROLL` should leave the stack below it as it was; as written it leaves that stack plus a stale cell and a copy of the cell under u |
| `ForthLaws.RollAsWrittenDepth` | src/SimForth/Forth/ForthPrimitives.cpp:437-452 | whenever u is below the depth and 2u is within it, ROLL as written leaves two cells more than ROLL should |
| `ForthLaws.RollAsWrittenOne` | src/SimForth/Forth/ForthPrimitives.cpp:437-452 | `1 ROLL` on `10 20 30 40 50` should give `10 20 30 50 40`; as written it gives `10 20 30 30 50 x 40` |
| `SimForthCells.DigitValue` | src/SimForth/SimForth.cpp:42 | a decimal digit's value is below 10 |
| `SimForthCells.SpacesFrom` | src/SimForth/SimForth.cpp:42 | the run of white space from i, bounded by the string |
| `SimForthCells.DigitsFrom` | src/SimForth/SimForth.cpp:42 | the run of digits from i, bounded by the string, every character of which is a digit |
| `SimForthCells.Stoul` | src/SimForth/SimForth.cpp:41-53 | std::stoul: a value read is below 2^64, and sz counts the characters read, the last of them a digit |
| `SimForthCells.Decimal` | src/SimForth/SimForth.cpp:42 | the decimal spelling of n: non-empty, digits only |
| `SimForthCells.DecimalValue` | src/SimForth/SimForth.cpp:42 | the digits of n spell n |
| `SimForthCells.StoulOfDecimal` | src/SimForth/SimForth.cpp:41-45 | std::stoul reads the decimal spelling of any unsigned long back whole |
| `SimForthCells.DigitsCover` | src/SimForth/SimForth.cpp:43 | in a string of digits the run of digits from i reaches the end |
| `SimForthCells.IsACell` | src/SimForth/SimForth.cpp:23-77 | no map gives no value; a value comes only from a word of the form `N#` followed by a suffix that ends in a digit |
| `SimForthCells.NodeReferenceResolves` | src/SimForth/SimForth.cpp:60-76 | `N#` and the decimal id of an existing node resolves to the node's cost |
| `SimForthCells.AreaAndZoneNeverResolve` | src/SimForth/SimForth.cpp:60-74 | `A#…` and `Z#…` never resolve |
| `SimForthCells.SuffixMustEndInDigit` | src/SimForth/SimForth.cpp:38-53 | an empty suffix, or one not ending in a digit, never resolves |
| `SimForthCells.CaseInterprete` | src/SimForth/SimForth.cpp:79-92 | a resolved reference is pushed onto the data stack; anything else falls through to ordinary interpretation, unchanged |
| `SimForthCells.CompileLiteral` | src/SimForth/SimForth.cpp:101-110 | succeeds exactly when 4 bytes fit (LITERAL_16 and a 16-bit cell, for values up to 65535) or 6 bytes fit (LITERAL_32 and a 32-bit cell); only the dictionary changes |
| `SimForthCells.CaseCompile` | src/SimForth/SimForth.cpp:94-116 | a resolved reference is compiled as a literal; anything else falls through to the interpreting routine |
| `SimForthCells.CompiledLiteralPushesValue` | src/SimForth/SimForth.cpp:101-110 | the compiled literal, run by the primitives, pushes the value back |
| `SimForthCells.EndCell` | src/SimForth/SimForth.cpp:142-170 | a failed parse is returned unchanged; success requires exactly one value on the data stack, which is popped into tos; any other depth fails with the depth message |
| `SimForthCells.DepthMessage` | src/SimForth/SimForth.cpp:152-165 | the message opens with the fixed text, then names the cell, quoted |
| `SimForthCells.DepthMessages` | src/SimForth/SimForth.cpp:152-165 | every depth above 0 gives the one "forget to store" message, and depth 0 a different one |
| `SimForthCells.DepthIsAbsolute` | src/SimForth/SimForth.cpp:133-151 | because the subtraction is commented out, a script that leaves one value on a non-empty stack fails |
| `SimForthCells.InterpreteWordCaseInterprete` | src/SimForth/SimForth.cpp:79-92 | the object follows CaseInterprete |
| `SimForthCells.InterpreteWordCaseCompile` | src/SimForth/SimForth.cpp:94-116 | the object follows CaseCompile |
| `SimForthCells.InterpreteCell` | src/SimForth/SimForth.cpp:142-170 | the object and the result follow EndCell |
| `ShapefileLoader.Pow256` | src/core/loaders/ShapeFileLoader.cpp:26-40 | 256 to the n is at least 1 |
| `ShapefileLoader.BigEndian` | src/core/loaders/ShapeFileLoader.cpp:26-32 | n bytes read most significant first give a value below 256^n |
| `ShapefileLoader.LittleEndian` | src/core/loaders/ShapeFileLoader.cpp:34-40 | n bytes read least significant first give a value below 256^n |
| `ShapefileLoader.BigEndianOfFour` | src/core/loaders/ShapeFileLoader.cpp:26-32 | four bytes assemble to b0·2^24 + b1·2^16 + b2·2^8 + b3 |
| `ShapefileLoader.LittleEndianOfFour` | src/core/loaders/ShapeFileLoader.cpp:34-40 | four bytes assemble to b3·2^24 + b2·2^16 + b1·2^8 + b0 |
| `ShapefileLoader.Reverse` | src/core/loaders/ShapeFileLoader.cpp:34-40 | the reversed bytes, same length, index i from the end |
| `ShapefileLoader.LittleEndianIsReversed` | src/core/loaders/ShapeFileLoader.cpp:26-40 | the little-endian value is the big-endian value of the reversed bytes |
| `ShapefileLoader.BigEndianBytes` | src/core/loaders/ShapeFileLoader.cpp:26-32 | the four bytes of a 32-bit value, most significant first |
| `ShapefileLoader.BigEndianOfBytes` | src/core/loaders/ShapeFileLoader.cpp:26-32 | reading back the bytes of a value gives the value |
| `ShapefileLoader.BytesOfBigEndian` | src/core/loaders/ShapeFileLoader.cpp:26-32 | four bytes are the bytes of the value they assemble to |
| `ShapefileLoader.ShapeTypeId` | src/core/loaders/ShapeFileLoader.cpp:85-138 | the id a shape type name stands for is one of the fourteen listed ids |
| `ShapefileLoader.ShapeTypes` | src/core/loaders/ShapeFileLoader.cpp:85-138 | exactly the fourteen listed ids have a name other than "Wrong match found", and ShapeTypeId reads each name back to its id |
| `ShapefileLoader.Read` | src/core/loaders/ShapeFileLoader.cpp:26-40 | istream::read: the stream stays good exactly when it was good and n bytes remain, and then it moves n bytes |
| `ShapefileLoader.Got` | src/core/loaders/ShapeFileLoader.cpp:26-40 | a read gets at most n bytes, and all n when the stream is good and the bytes are there |
| `ShapefileLoader.Fill` | src/core/loaders/ShapeFileLoader.cpp:26-40 | the buffer after a read is 4 bytes, and is the file's bytes at the position when the read is full |
| `ShapefileLoader.Seek` | src/core/loaders/ShapeFileLoader.cpp:61-83 | istream::seekg keeps the fail bit, clears eof, and moves unless the stream has failed |
| `ShapefileLoader.Word` | src/core/loaders/ShapeFileLoader.cpp:26-40 | a read that gets all four bytes gives the big- or little-endian value of those bytes of the file |
| `ShapefileLoader.CheckSizeAccepts` | src/core/loaders/ShapeFileLoader.cpp:140-175 | on a good stream over at least 28 bytes, the length is recorded and the file is accepted exactly when twice the big-endian word at byte 24, in uint32_t, is its length |
| `ShapefileLoader.CheckSize` | src/core/loaders/ShapeFileLoader.cpp:140-175 | the length is -1 on a failed stream and the file size otherwise; a length of at most 0 is refused with BadLength(length, 0); a pass means a positive length equal to the file size; other refusals are a failed seek or a mismatched length field |
| `ShapefileLoader.CheckSizeRefusesEmpty` | src/core/loaders/ShapeFileLoader.cpp:140-175 | an empty file is always refused |
| `ShapefileLoader.OpenAccepts` | src/core/loaders/ShapeFileLoader.cpp:177-202 | a good stream over at least 28 bytes is accepted exactly when its size checks and its big-endian word at byte 0 is 9994; the stream is then at byte 4 |
| `ShapefileLoader.Open` | src/core/loaders/ShapeFileLoader.cpp:177-202 | the size check comes first and its refusal is returned as it is; after a pass the only refusals are a failed seek and a file code other than 9994 |
| `ShapefileLoader.HeaderField` | src/core/loaders/ShapeFileLoader.cpp:204-214 | the version (byte 28) and the shape type (byte 32) are little-endian words read from a good stream; a failed stream throws |
| `ShapefileLoader.RecordSize` | src/core/loaders/ShapeFileLoader.cpp:244-272 | a record takes its content, counted in 16-bit words, plus the 8-byte header: an even number of bytes, at least 8 |
| `ShapefileLoader.RecordAt` | src/core/loaders/ShapeFileLoader.cpp:238-273 | the intended getRecordAt: reads the length field at offset + 4 and returns the record's size in bytes without the uint32_t wrap, or throws naming the content length |
| `ShapefileLoader.ReaderReadsRecords` | src/core/loaders/ShapeFileLoader.cpp:238-273 | getRecordAt itself is such a reader |
| `ShapefileLoader.AdvancesCons` | src/core/loaders/ShapeFileLoader.cpp:280-287 | one record in front of an advancing walk from past it still advances |
| `ShapefileLoader.ReachedOneMore` | src/core/loaders/ShapeFileLoader.cpp:280-287 | one more successful read extends the walk's trace by the current offset |
| `ShapefileLoader.ReachedFailure` | src/core/loaders/ShapeFileLoader.cpp:280-287 | a read that throws ends the walk with that error |
| `ShapefileLoader.ReachedEnd` | src/core/loaders/ShapeFileLoader.cpp:280-287 | an offset past the file, or the end of the stream, ends the walk with the offsets visited |
| `ShapefileLoader.WalkAdvances` | src/core/loaders/ShapeFileLoader.cpp:275-288 | the offsets a successful walk visits start at 100, lie inside the file and strictly increase |
| `ShapefileLoader.Walk` | src/core/loaders/ShapeFileLoader.cpp:275-288 | the walk stops at once, with no offsets, past the file or at the end of the stream; every offset it reads lies between the start and the file length |
| `ShapefileLoader.RecordSizeAsWritten` | src/core/loaders/ShapeFileLoader.cpp:244-272 | the written size is the true size modulo 2^32, and they agree for length fields below 0x7FFFFFFC |
| `ShapefileLoader.NextOffsetAsWritten` | src/core/loaders/ShapeFileLoader.cpp:286 | `offset += content_length` in uint32_t: the true sum while it fits, and otherwise a value below both the offset and the size |
| `ShapefileLoader.WalkStallsAsWritten` | src/core/loaders/ShapeFileLoader.cpp:244-287 | a record whose length field is 0x7FFFFFFC has written size 0, so the walk stays at that offset forever |
| `ShapefileLoader.RecordAtAsWritten` | src/core/loaders/ShapeFileLoader.cpp:238-273 | getRecordAt as written: the size is the length field doubled plus 8, both in uint32_t, or the throw naming the wrapped content length |
| `ShapefileLoader.RecordAtAsWrittenStalls` | src/core/loaders/ShapeFileLoader.cpp:238-287 | a non-point record with length field 0x7FFFFFFC: getRecordAt as written returns 0 and a good stream, and repeating it at the same offset gives the same stream and size, so getAllRecords never ends |
| `ShapefileLoader.ShapefileLoader.constructor` | src/core/loaders/ShapeFileLoader.cpp:177-193 | a loader whose stream is open at the start of the file |
| `ShapefileLoader.ShapefileLoader.ReadBigEndianInt` | src/core/loaders/ShapeFileLoader.cpp:26-32 | the value and the new stream are those of a 4-byte big-endian read |
| `ShapefileLoader.ShapefileLoader.ReadLittleEndianInt` | src/core/loaders/ShapeFileLoader.cpp:34-40 | the value and the new stream are those of a 4-byte little-endian read |
| `ShapefileLoader.ShapefileLoader.GoToByte` | src/core/loaders/ShapeFileLoader.cpp:61-71 | the stream is sought to the offset, and a failed seek throws |
| `ShapefileLoader.ShapefileLoader.SkipNBytes` | src/core/loaders/ShapeFileLoader.cpp:73-83 | the stream is sought n bytes forward, and a failed seek throws |
| `ShapefileLoader.ShapefileLoader.CheckFileSize` | src/core/loaders/ShapeFileLoader.cpp:140-175 | the outcome and m_filelength follow CheckSize |
| `ShapefileLoader.ShapefileLoader.OpenShapeFile` | src/core/loaders/ShapeFileLoader.cpp:177-202 | the outcome follows Open: the size check, then the 9994 file code |
| `ShapefileLoader.ShapefileLoader.GetShapeVersion` | src/core/loaders/ShapeFileLoader.cpp:204-208 | the little-endian word at byte 28 |
| `ShapefileLoader.ShapefileLoader.GetShapeType` | src/core/loaders/ShapeFileLoader.cpp:210-214 | the little-endian word at byte 32 |
| `ShapefileLoader.ShapefileLoader.CheckVersion` | src/core/loaders/ShapeFileLoader.cpp:313-318 | the version is the word at byte 28, and a warning is given exactly when it is not 1000 |
| `ShapefileLoader.ShapefileLoader.SkipDouble` | src/core/loaders/ShapeFileLoader.cpp:42-50 | readDouble's effect on the stream: 8 bytes read, the value not modelled |
| `ShapefileLoader.ShapefileLoader.GetRecordAt` | src/core/loaders/ShapeFileLoader.cpp:238-273 | the size and the new stream are RecordAt's |
| `ShapefileLoader.ShapefileLoader.GetAllRecords` | src/core/loaders/ShapeFileLoader.cpp:275-288 | the loop from byte 100 ends in the walk's stream and result, which WalkAdvances shows strictly increasing |
| `Polynom.Zeros` | src/common/maths/Polynom.hpp:16-25 | n copies of zero |
| `Polynom.ZerosAdded` | src/common/maths/Polynom.hpp:38-47 | away from the uint32_t wrap, no zero for an index inside the vector, and exactly enough to reach nth + 1 coefficients otherwise |
| `Polynom.Grown` | src/common/maths/Polynom.hpp:36-50 | the mutable operator[] keeps every old coefficient and appends only zeros |
| `Polynom.GrownCoefficients` | src/common/maths/Polynom.hpp:33-50 | away from the uint32_t wrap, growing for nth past the end gives exactly nth + 1 coefficients, keeps the old ones and fills with zero |
| `Polynom.GrownInside` | src/common/maths/Polynom.hpp:33-50 | an index inside the vector changes nothing |
| `Polynom.GrownIdempotent` | src/common/maths/Polynom.hpp:33-50 | asking twice for the same index grows the vector once |
| `Polynom.AtWrapsAsWritten` | src/common/maths/Polynom.hpp:36-50 | with the uint32_t count, index 2^32 - 1 on an empty vector appends nothing |
| `Polynom.Polynom.constructor` | src/common/maths/Polynom.hpp:14-25 | exactly nth coefficients, all zero |
| `Polynom.Polynom.Degree` | src/common/maths/Polynom.hpp:27-31 | the number of coefficients, when it fits a uint32_t |
| `Polynom.Polynom.At` | src/common/maths/Polynom.hpp:33-50 | the coefficients become Grown and the result is the one at nth |
| `Polynom.Polynom.SetAt` | src/common/maths/Polynom.hpp:33-50 | writing through the reference: Grown with v at nth |
| `Polynom.Polynom.Get` | src/common/maths/Polynom.hpp:52-57 | the const operator[] reads, inside the vector, the coefficient the mutable operator[] would give |
| `ClassCounter.Wrap` | src/common/patterns/ClassCounter.hpp:33-38 | a size_t result: equal modulo 2^64, and unchanged when in range |
| `ClassCounter.Counters.constructor` | src/common/patterns/ClassCounter.hpp:37-38 | both counters start at 0 |
| `ClassCounter.Counters.Construct` | src/common/patterns/ClassCounter.hpp:19-21 | both counters go up by one, modulo 2^64, keeping howMany = constructions - destructions |
| `ClassCounter.Counters.Destruct` | src/common/patterns/ClassCounter.hpp:23 | both counters go down by one, modulo 2^64 |
| `ClassCounter.Counters.Reset` | src/common/patterns/ClassCounter.hpp:25 | m_count becomes 0 and m_how_many is unchanged |
| `ClassCounter.Counters.Count` | src/common/patterns/ClassCounter.hpp:27 | m_count - 1, and 2^64 - 1 when m_count is 0 |
| `ClassCounter.Counters.HowMany` | src/common/patterns/ClassCounter.hpp:19-29 | constructions minus destructions, modulo 2^64 |
| `ClassCounter.WrapShift` | src/common/patterns/ClassCounter.hpp:19-23 | adding before or after the wrap gives the same size_t |
| `ClassCounter.ConstructThenDestruct` | src/common/patterns/ClassCounter.hpp:19-23 | a construction undone by a destruction leaves both counters as they were |
| `Logger.LastSeparator` | src/common/utils/Logger.hpp:44 | find_last_of: None exactly when there is no separator, otherwise a separator with none after it |
| `Logger.FileName` | src/common/utils/Logger.hpp:41-48 | the result has no separator and is a suffix of the path; the whole path when there is none; "" after a trailing separator |
| `Logger.FileNameIsLongest` | src/common/utils/Logger.hpp:44-46 | the character before the name is a separator: it is the longest such suffix |
| `Logger.FileNameIdempotent` | src/common/utils/Logger.hpp:41-48 | taking the file name twice changes nothing |
| `Logger.FileNameOfJoin` | src/common/utils/Logger.hpp:41-48 | a name without separators after a directory and a separator comes back out |

## Left out

- INCLUDE and `\`: they read files and skip source lines through the stream stack, which is not part of this model.
- ABORT and EXECUTE: they call back into the interpreter (`execToken`, the abort handling), which is not part of this model.
- Printing: `.`, `U.`, `CR` and `.S` are modelled only by their effect on the stack. TRACE.ON and TRACE.OFF are modelled as the flag they set.
- DO and LOOP: the SimForth snapshot compiles them out (`#if 0`).
- BUILDS and DOES>: modelled as the header creation and as a no-op, as the switch writes them.
- The outer interpreter loop, `execToken`, `DStackDepth` and the stream reader are not part of this model. Words come from a list; the loop's `ip += 2` after each primitive is the convention the ip contracts follow.
- The dictionary class, `create` (SimForth snapshot) and `changeDisplayBase` are not part of this model. They are given the behaviour the switch relies on, with the layout of the older snapshot's explicit `:`.
- The numeric ids come from a header that is not part of this model. Each id is modelled as the rank of its case label in the switch.
- Stack underflow and overflow: the C++ reads past the margin or writes past the array. The model has these as preconditions, as it has division by zero, `INT_MIN / -1`, shifts of 32 or more and `std::abs(INT_MIN)`.
- `SimForth::boot`'s interpretation of system.fs, and `m_last_completion`: file I/O and the UI's completion list.
- `isACell`: the map is a parameter, a partial lookup from node id to cost. The call to `removeNode` before `getNode` is an unknown side effect and is not modelled.
- `interpreteCell`: `parseStream` is not part of this model. The cell's verdict and stack after the run are parameters, and only the depth check after it is modelled.
- `readDouble`, `readDoubleCastedFloat` and `getBoundingBox`: floating point. Only their 8-byte effect on the stream is kept.
- `openShapeFile`: opening by name (`std::ifstream::open`, `strerror`) is I/O. The model starts from an open stream over the file's bytes.
- `loadFromFile`: only its version warning is modelled. The rest builds the map from the records, which is outside this model.
- Loader exceptions are modelled as a structured error value, without their message text. LOGF logging is not modelled.
- ShapefileLoader.ShapefileLoader.GetAllRecords: returns the offsets it visited and takes a ghost reader that must agree with getRecordAt. The C++ returns nothing; the offsets are how the contract states the walk.
- Bytes are integers from 0 to 255, not bit-vectors.
- SimForthPrimitives.Step: states only that the machine stays valid. Each case's effect is the contract of the ForthMachine function it calls, and ExecPrimitive ties the object to Exec.
- ForthPrimitives.Step: states only that the machine stays valid, for the same reason.
- ForthMachine.RollAsWritten: assumes the DPICK macro of src/forth/ForthHelper.hpp:67, `(*(m_dsp - n - 1))` without parentheses around n, because the SimForth snapshot's own helper header is not part of this model. The slot above the old top that `++m_dsp` exposes is the parameter `stale`.
- SimForthPrimitives.StepStack: does not step ROLL. The case as written reads the array slot above the old top, which the machine does not hold; RollAsWritten models it with that slot as a parameter, and Roll gives the intended effect.
- SimForthPrimitives.ExecStack: does not run ROLL, for the same reason; ExecPrimitive and Exec exclude it through `Modelled`.
- SimForthPrimitives.Exec: requires a modelled id, and `Modelled` excludes ROLL, so `Exec` says nothing about that id.
- SimForthPrimitives.ExecPrimitive: requires the same, so it is not defined for ROLL either.
- ForthHelper.CellStack.Remove: implements the corrected ROLL, which the dispatch does not use.
- ForthVM.Forth.DRemove: implements the corrected ROLL too.
- ForthVM.Forth.Roll: implements the corrected ROLL, not the case as written.
- ShapefileLoader.RecordAt: the record size and the next offset are unbounded integers, the intended behaviour. The uint32_t arithmetic as written is RecordAtAsWritten, and RecordAtAsWrittenStalls shows the walk that never ends.
- ShapefileLoader.ShapefileLoader.GetRecordAt: follows the corrected RecordAt, with the size unbounded rather than uint32_t.
- ShapefileLoader.ShapefileLoader.GetAllRecords: the offset it adds the size to is unbounded rather than uint32_t, so the walk it states is the corrected one.
- ShapefileLoader.ShapefileLoader: the bytes a short read leaves in the buffer are one fixed `stale` value per loader. In the C++ each call has its own uninitialised `char buf[4]`, whose contents may differ from call to call.
- Polynom: the coefficient values are abstract; `zero` stands for `0.0`. The const `operator[]` has no bounds check and is a precondition (`Get`).
- Polynom.Polynom.At: the uint32_t truncation of the size and of the count is modelled as written. The requires asks for an index the growth reaches, because the access after it has no bounds check.
- ClassCounter: one `Counters` object stands for the static members of one counted class. Thread safety is not modelled.
- Logger: only the static `fileName`. File writing and threads are outside the model.

## Findings

| source | as written | input that shows it | evidently intended | confidence | as-written member | corrected member |
|---|---|---|---|---|---|---|
| src/forth/ForthPrimitives.cpp:273-277 | NIP pops into the register, dropping the top | stack `1 2`, NIP leaves `1` | ( a b -- b ), leaving `2` | not executed | `ForthMachine.NipAsWritten` | `ForthMachine.Nip` |
| src/forth/ForthPrimitives.cpp:339-348 | 2SWAP gives ( a b c d -- b a c d ) | stack `1 2 3 4`, 2SWAP leaves `2 1 3 4` | ( a b c d -- c d a b ), leaving `3 4 1 2` | not executed | `ForthMachine.TwoSwapAsWritten` | `ForthMachine.TwoSwap` |
| src/forth/ForthPrimitives.cpp:150-154 | ALLOT leaves its amount on the stack | `5 ALLOT` on an empty stack leaves `5` | ( n -- ), as the SimForth snapshot does | not executed | `ForthMachine.AllotAsWritten` | `ForthMachine.Allot` |
| src/forth/ForthPrimitives.cpp:168-174 | `!` leaves the address on the stack | `7 100 !` leaves `100` | ( x a-addr -- ), as the SimForth snapshot does | not executed | `ForthLaws.StoreKeepsAddress` | `ForthMachine.Store` |
| src/SimForth/Forth/ForthPrimitives.cpp:583-590 | FALSE and TRUE assign the register before pushing it, so the old top is overwritten | stack `5`, TRUE leaves `-1 -1` | ( -- flag ), leaving `5 -1` | not executed | `ForthMachine.PushFlagTwice` | `ForthMachine.PushFlag` |
| src/SimForth/Forth/ForthPrimitives.cpp:437-452 | ROLL grows the stack with `++m_dsp` instead of dropping u, and its copy loop runs toward the bottom of the stack | `0 ROLL` on stack `1 2` leaves four cells, `1 2 x 2`, instead of `1 2` | ( xu ... x0 u -- xu-1 ... x0 xu ) | not executed | `ForthMachine.RollAsWritten` | `ForthMachine.Roll` |
| src/core/loaders/ShapeFileLoader.cpp:244-287 | the record size `content * 2 + 8` is a uint32_t, and so is the offset it is added to | a record whose length field is 0x7FFFFFFC has size 0, so getAllRecords never advances | the size of the record in bytes, at least 8, so the walk always advances | not executed | `ShapefileLoader.RecordAtAsWrittenStalls` | `ShapefileLoader.RecordAt` |
