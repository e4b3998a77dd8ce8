/** The header and record decoder of ESRI shapefiles
    (src/core/loaders/ShapeFileLoader.cpp), over the bytes of the file.

    The input stream is modelled by its read position and its failbit and
    eofbit; a read that runs past the end of the file fills the bytes it
    got and leaves the rest of the four-byte buffer as it was, which the
    model calls `stale`. Coordinates (doubles) are not decoded: reading one
    only moves the stream. */
module ShapefileLoader {
  import opened Wrappers

  /** A byte of the file. */
  type Byte = x: int | 0 <= x < 0x100

  /** A four-byte read buffer. */
  type Buffer = b: seq<Byte> | |b| == 4 witness [0, 0, 0, 0]

  /** The cells `uint32_t` holds. */
  type UInt32 = x: int | 0 <= x < 0x1_0000_0000

  // ----------------------------------------------------------------
  // Byte order
  // ----------------------------------------------------------------

  /** 256 to the power n: one more than the largest value n bytes hold. */
  function Pow256(n: nat): (p: nat)
    ensures p >= 1
  {
    if n == 0 then 1 else 0x100 * Pow256(n - 1)
  }

  /** The value of bytes read most significant first. */
  function BigEndian(b: seq<Byte>): (r: nat)
    ensures r < Pow256(|b|)
  {
    if |b| == 0 then 0 else BigEndian(b[..|b| - 1]) * 0x100 + b[|b| - 1]
  }

  /** The value of bytes read least significant first. */
  function LittleEndian(b: seq<Byte>): (r: nat)
    ensures r < Pow256(|b|)
  {
    if |b| == 0 then 0 else b[0] + 0x100 * LittleEndian(b[1..])
  }

  /** readBigEndianInt's assembly, (b0 << 24) | (b1 << 16) | (b2 << 8) | b3:
      the shifted bytes do not overlap, so the or is a sum. */
  lemma {:induction false} BigEndianOfFour(b: seq<Byte>)
    requires |b| == 4
    ensures BigEndian(b) == (b[0] as int) * 0x100_0000 + (b[1] as int) * 0x1_0000 + (b[2] as int) * 0x100 + b[3]
  {
    assert b[..3][..2] == b[..2] && b[..2][..1] == b[..1] && b[..1][..0] == [];
    assert BigEndian(b[..1]) == b[0];
    assert BigEndian(b[..2]) == (b[0] as int) * 0x100 + b[1];
    assert BigEndian(b[..3]) == (b[0] as int) * 0x1_0000 + (b[1] as int) * 0x100 + b[2];
  }

  /** readLittleEndianInt's assembly, (b3 << 24) | (b2 << 16) | (b1 << 8) | b0. */
  lemma {:induction false} LittleEndianOfFour(b: seq<Byte>)
    requires |b| == 4
    ensures LittleEndian(b) == (b[3] as int) * 0x100_0000 + (b[2] as int) * 0x1_0000 + (b[1] as int) * 0x100 + b[0]
  {
    assert b[1..][1..] == b[2..] && b[2..][1..] == b[3..] && b[3..][1..] == [];
    assert LittleEndian(b[3..]) == b[3];
    assert LittleEndian(b[2..]) == (b[3] as int) * 0x100 + b[2];
    assert LittleEndian(b[1..]) == (b[3] as int) * 0x1_0000 + (b[2] as int) * 0x100 + b[1];
  }

  /** The bytes in the opposite order. */
  function Reverse(b: seq<Byte>): (r: seq<Byte>)
    ensures |r| == |b|
  {
    if |b| == 0 then [] else Reverse(b[1..]) + [b[0]]
  }

  /** Reading least significant first is reading the reversed bytes most
      significant first. */
  lemma {:induction false} LittleEndianIsReversed(b: seq<Byte>)
    ensures LittleEndian(b) == BigEndian(Reverse(b))
  {
    if |b| > 0 {
      LittleEndianIsReversed(b[1..]);
      var r := Reverse(b);
      assert r[..|r| - 1] == Reverse(b[1..]);
      assert r[|r| - 1] == b[0];
    }
  }

  /** The four bytes of v, most significant first. */
  function BigEndianBytes(v: UInt32): (b: seq<Byte>)
    ensures |b| == 4
  {
    var a := v / 0x100;
    var c := a / 0x100;
    [c / 0x100, c % 0x100, a % 0x100, v % 0x100]
  }

  /** Reading back the bytes of a value gives the value. */
  lemma BigEndianOfBytes(v: UInt32)
    ensures BigEndian(BigEndianBytes(v)) == v
  {
    var a := v / 0x100;
    var c := a / 0x100;
    var b := BigEndianBytes(v);
    BigEndianOfFour(b);
    assert b[0] == c / 0x100 && b[1] == c % 0x100;
    assert b[2] == a % 0x100 && b[3] == v % 0x100;
    assert v == a * 0x100 + v % 0x100 && a == c * 0x100 + a % 0x100 && c == (c / 0x100) * 0x100 + c % 0x100;
  }

  /** Four bytes are the bytes of the value they assemble to. */
  lemma BytesOfBigEndian(b: seq<Byte>)
    requires |b| == 4
    ensures BigEndian(b) < 0x1_0000_0000 && BigEndianBytes(BigEndian(b)) == b
  {
    BigEndianOfFour(b);
    var v := BigEndian(b);
    var b0: int, b1: int, b2: int, b3: int := b[0], b[1], b[2], b[3];
    var a := b0 * 0x1_0000 + b1 * 0x100 + b2;
    var c := b0 * 0x100 + b1;
    assert v == a * 0x100 + b3;
    assert v / 0x100 == a && v % 0x100 == b3;
    assert a == c * 0x100 + b2;
    assert a / 0x100 == c && a % 0x100 == b2;
    assert c / 0x100 == b0 && c % 0x100 == b1;
    assert BigEndianBytes(v) == [b[0], b[1], b[2], b[3]];
  }

  // ----------------------------------------------------------------
  // Shape types
  // ----------------------------------------------------------------

  /** ShapefileLoader::shapeTypes: the name of a shape type id. Exactly
      the listed ids have a name, and the name of a listed id reads back to
      that id, so two listed ids never share a name. */
  function ShapeTypes(id: UInt32): (r: string)
    ensures r != "Wrong match found" <==> id in SHAPE_TYPE_IDS
    ensures id in SHAPE_TYPE_IDS ==> ShapeTypeId(r) == Some(id)
    ensures id !in SHAPE_TYPE_IDS ==> ShapeTypeId(r) == None
  {
    match id
    case 0 => "Null Shape"
    case 1 => "Point"
    case 3 => "Poly Line"
    case 5 => "Polygon"
    case 8 => "MultiPoint"
    case 11 => "PointZ"
    case 13 => "PolyLineZ"
    case 15 => "PolygonZ"
    case 18 => "MultiPointZ"
    case 21 => "PointM"
    case 23 => "PolyLineM"
    case 25 => "PolygonM"
    case 28 => "MultiPointM"
    case 31 => "MultiPatch"
    case _ => "Wrong match found"
  }

  /** The ids the Shapefile Technical Description lists. */
  const SHAPE_TYPE_IDS: set<UInt32> := {0, 1, 3, 5, 8, 11, 13, 15, 18, 21, 23, 25, 28, 31}

  /** The id a shape type name stands for; the names shapeTypes gives back
      are read back to their ids. */
  function ShapeTypeId(name: string): (r: Option<UInt32>)
    ensures r.Some? ==> r.value in SHAPE_TYPE_IDS
  {
    match name
    case "Null Shape" => Some(0)
    case "Point" => Some(1)
    case "Poly Line" => Some(3)
    case "Polygon" => Some(5)
    case "MultiPoint" => Some(8)
    case "PointZ" => Some(11)
    case "PolyLineZ" => Some(13)
    case "PolygonZ" => Some(15)
    case "MultiPointZ" => Some(18)
    case "PointM" => Some(21)
    case "PolyLineM" => Some(23)
    case "PolygonM" => Some(25)
    case "MultiPointM" => Some(28)
    case "MultiPatch" => Some(31)
    case _ => None
  }

  // ----------------------------------------------------------------
  // The input stream
  // ----------------------------------------------------------------

  /** The state of m_infile: where the next read starts, and its failbit
      and eofbit. */
  datatype Stream = Stream(pos: nat, failed: bool, eof: bool) {
    predicate Good() {
      !failed && !eof
    }
  }

  /** istream::read(buf, n), on the stream: a stream that is not good
      reads nothing and fails; otherwise up to n bytes are read, and a read
      cut short by the end of the file sets eofbit and failbit. */
  function Read(image: seq<Byte>, s: Stream, n: nat): (r: Stream)
    ensures r.Good() <==> s.Good() && s.pos + n <= |image|
    ensures s.Good() && s.pos + n <= |image| ==> r == s.(pos := s.pos + n)
  {
    if !s.Good() then s.(failed := true)
    else if s.pos + n <= |image| then s.(pos := s.pos + n)
    else if s.pos >= |image| then s.(failed := true, eof := true)
    else Stream(|image|, true, true)
  }

  /** How many bytes that read gets. */
  function Got(image: seq<Byte>, s: Stream, n: nat): (k: nat)
    ensures k <= n && (k > 0 ==> s.pos + k <= |image|)
    ensures n > 0 ==> (k == n <==> s.Good() && s.pos + n <= |image|)
  {
    if !s.Good() || s.pos >= |image| then 0
    else if s.pos + n <= |image| then n
    else |image| - s.pos
  }

  /** The four-byte buffer after a read from s: the bytes the read got,
      then what the buffer held before. */
  function Fill(image: seq<Byte>, stale: Buffer, s: Stream): (b: seq<Byte>)
    ensures |b| == 4
    ensures s.Good() && s.pos + 4 <= |image| ==> b == image[s.pos..s.pos + 4]
  {
    var k := Got(image, s, 4);
    (if k == 0 then [] else image[s.pos..s.pos + k]) + stale[k..]
  }

  /** istream::seekg: clears eofbit, then moves to `target` unless the
      stream has failed. A file buffer accepts a position past the end of
      the file. */
  function Seek(s: Stream, target: nat): (r: Stream)
    ensures r.failed == s.failed && !r.eof
    ensures !s.failed ==> r.pos == target
  {
    if s.failed then s.(eof := false) else s.(pos := target, eof := false)
  }

  /** The exceptions the loader throws. */
  datatype LoaderError =
    | ParseFailed(filename: string, offset: nat)    // a seek failed
    | BadLength(expected: int, detected: UInt32)     // the length field disagrees with the file
    | BadId(read: UInt32)                            // the file code is not 9994

  /** The file code every shapefile starts with. */
  const FILE_CODE: UInt32 := 9994

  /** The version the loader expects. */
  const VERSION: UInt32 := 1000

  /** The byte where the main header holds the file length. */
  const LENGTH_FIELD: nat := 24

  /** The byte where the first record starts, just past the main header. */
  const HEADER_SIZE: nat := 100

  /** The value readBigEndianInt or readLittleEndianInt reads from s; the
      stream moves as Read(image, s, 4) says. A read that gets all four
      bytes gives the value of those bytes of the file. */
  function Word(image: seq<Byte>, stale: Buffer, s: Stream, big: bool): (v: UInt32)
    ensures s.Good() && s.pos + 4 <= |image| ==>
              v == if big then BigEndian(image[s.pos..s.pos + 4]) else LittleEndian(image[s.pos..s.pos + 4])
  {
    assert Pow256(4) == 0x1_0000_0000;
    var b := Fill(image, stale, s);
    if big then BigEndian(b) else LittleEndian(b)
  }

  /** checkFileSize from s: the length the stream reports (-1 once it has
      failed), then the length field at byte 24, counted in 16-bit words and
      doubled in uint32_t, must equal it. */
  function CheckSize(image: seq<Byte>, stale: Buffer, name: string, s: Stream): (r: (Stream, int, Outcome<LoaderError>))
    ensures r.1 == if s.failed then -1 else |image|
    ensures r.1 <= 0 ==> r.2 == Fail(BadLength(r.1, 0))
    ensures r.2.Pass? ==> 0 < r.1 == |image|
    ensures r.2.Fail? && 0 < r.1 ==> r.2.error.ParseFailed? || r.2.error.BadLength?
  {
    var length := if s.failed then -1 else |image|;
    var s1 := Seek(Seek(s, |image|), 0);
    if length <= 0 then (s1, length, Fail(BadLength(length, 0)))
    else
      var s2 := Seek(s1, LENGTH_FIELD);
      if s2.failed then (s2, length, Fail(ParseFailed(name, LENGTH_FIELD)))
      else
        var bytes := (Word(image, stale, s2, true) as int) * 2 % 0x1_0000_0000;
        var s3 := Read(image, s2, 4);
        if bytes == length then (s3, length, Pass) else (s3, length, Fail(BadLength(length, bytes)))
  }

  /** A good stream on a file that holds the length field accepts the file
      exactly when the doubled field equals the file's length. */
  lemma CheckSizeAccepts(image: seq<Byte>, stale: Buffer, name: string, s: Stream)
    requires s.Good() && |image| >= 28
    ensures var r := CheckSize(image, stale, name, s);
            r.1 == |image| && r.0.Good() &&
            (r.2.Pass? <==> BigEndian(image[24..28]) * 2 % 0x1_0000_0000 == |image|)
  {
  }

  /** An empty file is always refused. */
  lemma CheckSizeRefusesEmpty(stale: Buffer, name: string, s: Stream)
    ensures CheckSize([], stale, name, s).2 == Fail(BadLength(CheckSize([], stale, name, s).1, 0))
  {
  }

  /** openShapeFile once the file is open: the length check, then the file
      code at byte 0. */
  function Open(image: seq<Byte>, stale: Buffer, name: string, s: Stream): (r: (Stream, int, Outcome<LoaderError>))
    ensures r.1 == CheckSize(image, stale, name, s).1
    ensures CheckSize(image, stale, name, s).2.Fail? ==> r == CheckSize(image, stale, name, s)
    ensures r.2.Pass? ==> CheckSize(image, stale, name, s).2.Pass?
    ensures r.2.Fail? && CheckSize(image, stale, name, s).2.Pass? ==> r.2.error.ParseFailed? || r.2.error.BadId?
  {
    var c := CheckSize(image, stale, name, s);
    var length := c.1;
    if c.2.Fail? then c
    else
      var s2 := Seek(c.0, 0);
      if s2.failed then (s2, length, Fail(ParseFailed(name, 0)))
      else
        var code := Word(image, stale, s2, true);
        var s3 := Read(image, s2, 4);
        if code != FILE_CODE then (s3, length, Fail(BadId(code))) else (s3, length, Pass)
  }

  /** A freshly opened file of at least 28 bytes is accepted exactly when
      its length field matches and it starts with the file code 9994. */
  lemma OpenAccepts(image: seq<Byte>, stale: Buffer, name: string, s: Stream)
    requires s.Good() && |image| >= 28
    ensures var r := Open(image, stale, name, s);
            (r.2.Pass? <==>
               BigEndian(image[24..28]) * 2 % 0x1_0000_0000 == |image| && BigEndian(image[0..4]) == FILE_CODE) &&
            (r.2.Pass? ==> r.0 == Stream(4, false, false) && r.1 == |image|)
  {
    CheckSizeAccepts(image, stale, name, s);
  }

  /** getShapeVersion (byte 28) and getShapeType (byte 32): little-endian
      words of the main header. */
  function HeaderField(image: seq<Byte>, stale: Buffer, name: string, s: Stream, at: nat): (r: (Stream, Result<UInt32, LoaderError>))
    ensures !s.failed && at + 4 <= |image| ==>
              r == (Stream(at + 4, false, false), Success(LittleEndian(image[at..at + 4])))
    ensures s.failed ==> r.1 == Failure(ParseFailed(name, at))
  {
    var s1 := Seek(s, at);
    if s1.failed then (s1, Failure(ParseFailed(name, at)))
    else
      (Read(image, s1, 4), Success(Word(image, stale, s1, false)))
  }

  // ----------------------------------------------------------------
  // Records
  // ----------------------------------------------------------------

  /** The bytes a record takes: its content, whose length the record header
      counts in 16-bit words, and the 8-byte record header. */
  function RecordSize(lengthField: UInt32): (n: nat)
    ensures n >= 8 && n % 2 == 0
  {
    lengthField * 2 + 8
  }

  /** The size of a record: at least its 8-byte header. */
  type Size = n: nat | n >= 8 witness 8

  /** getRecordAt(offset) from s: the record number and the content length
      (big-endian) and the shape type (little-endian); a point's coordinates
      are read past, any other shape is skipped by a seek over its content
      length, which throws once the stream has failed. The result is the
      record's size. */
  function RecordAt(image: seq<Byte>, stale: Buffer, name: string, s: Stream, offset: nat): (r: (Stream, Result<Size, LoaderError>))
    ensures !s.failed && offset + 12 <= |image| ==>
              r.1 == Success(RecordSize(BigEndian(image[offset + 4..offset + 8]))) ||
              r.1 == Failure(ParseFailed(name, 2 * BigEndian(image[offset + 4..offset + 8])))
  {
    var s1 := Seek(s, offset);
    if s1.failed then (s1, Failure(ParseFailed(name, offset)))
    else
      var s2 := Read(image, s1, 4);
      var content := (Word(image, stale, s2, true) as int) * 2;
      var s3 := Read(image, s2, 4);
      var shape := Word(image, stale, s3, false);
      var s4 := Read(image, s3, 4);
      if shape == 1 then
        (Read(image, Read(image, s4, 8), 8), Success(content + 8))
      else if shape == 11 then
        (Read(image, Read(image, Read(image, s4, 8), 8), 8), Success(content + 8))
      else
        var s5 := Seek(s4, s4.pos + content);
        if s5.failed then (s5, Failure(ParseFailed(name, content))) else (s5, Success(content + 8))
  }

  /** Reading one record at an offset: the stream after it and the record's
      size, or the exception it threw. */
  type RecordReader = (Stream, nat) -> (Stream, Result<Size, LoaderError>)

  /** next reads records as getRecordAt does on this file: it agrees with
      RecordAt at every stream state and offset. */
  ghost predicate ReadsRecords(next: RecordReader, image: seq<Byte>, stale: Buffer, name: string) {
    forall s: Stream, offset: nat {:trigger RecordAt(image, stale, name, s, offset)} ::
      next(s, offset) == RecordAt(image, stale, name, s, offset)
  }

  /** Such a reader exists for every file. */
  lemma ReaderReadsRecords(image: seq<Byte>, stale: Buffer, name: string)
    ensures ReadsRecords((s: Stream, offset: nat) => RecordAt(image, stale, name, s, offset), image, stale, name)
  {
  }

  /** getAllRecords from offset: while the offset is inside the file and the
      stream has not reached its end, read the record there and step over
      it. The result is the offsets of the records read. */
  function Walk(next: RecordReader, s: Stream, offset: nat, length: int): (r: (Stream, Result<seq<nat>, LoaderError>))
    ensures offset >= length || s.eof ==> r == (s, Success([]))
    ensures r.1.Success? ==> forall i :: 0 <= i < |r.1.value| ==> offset <= r.1.value[i] < length
    decreases if offset < length then length - offset else 0
  {
    if offset >= length || s.eof then (s, Success([]))
    else
      var p := next(s, offset);
      if p.1.Failure? then (p.0, Failure(p.1.error))
      else
        var q := Walk(next, p.0, offset + p.1.value, length);
        (q.0, if q.1.Success? then Success([offset] + q.1.value) else q.1)
  }

  /** Offsets that start at `from` when there are any, lie inside
      [from, length) and grow by at least a record header each step. */
  predicate Advances(offsets: seq<nat>, from: nat, length: int) {
    (|offsets| > 0 ==> offsets[0] == from) &&
    (forall i :: 0 <= i < |offsets| ==> from <= offsets[i] < length) &&
    (forall i :: 0 <= i < |offsets| - 1 ==> offsets[i] + 8 <= offsets[i + 1])
  }

  /** One record in front of a walk that advances from past it. */
  lemma AdvancesCons(offset: nat, size: Size, rest: seq<nat>, length: int)
    requires offset < length && Advances(rest, offset + size, length)
    ensures Advances([offset] + rest, offset, length)
  {
    var v := [offset] + rest;
    forall i | 0 <= i < |v| - 1
      ensures v[i] + 8 <= v[i + 1]
    {
      assert v[i + 1] == rest[i];
    }
  }

  /** The walk from (s0, start) reaches (s, offset) by reading the records
      at `visited` one after the other, each from a position inside the
      file on a stream not at its end, each read giving a size. */
  ghost predicate Reached(next: RecordReader, s0: Stream, start: nat, length: int, visited: seq<nat>, s: Stream, offset: nat)
    decreases |visited|
  {
    if visited == [] then s0 == s && start == offset
    else
      var p := next(s0, start);
      visited[0] == start && start < length && !s0.eof && p.1.Success? &&
      Reached(next, p.0, start + p.1.value, length, visited[1..], s, offset)
  }

  /** A reached position from which one more read gives a size reaches past
      that record. */
  lemma {:induction false} ReachedOneMore(next: RecordReader, s0: Stream, start: nat, length: int, visited: seq<nat>, s: Stream, offset: nat,
                                          after: Stream, size: Size)
    requires Reached(next, s0, start, length, visited, s, offset) && offset < length && !s.eof
    requires next(s, offset) == (after, Success(size))
    ensures Reached(next, s0, start, length, visited + [offset], after, offset + size)
    decreases |visited|
  {
    if visited != [] {
      var p := next(s0, start);
      ReachedOneMore(next, p.0, start + p.1.value, length, visited[1..], s, offset, after, size);
      assert (visited + [offset])[1..] == visited[1..] + [offset];
    }
  }

  /** From a reached position, a read that throws ends the walk with that
      error. */
  lemma {:induction false} ReachedFailure(next: RecordReader, s0: Stream, start: nat, length: int, visited: seq<nat>, s: Stream, offset: nat,
                                          after: Stream, e: LoaderError)
    requires Reached(next, s0, start, length, visited, s, offset) && offset < length && !s.eof
    requires next(s, offset) == (after, Failure(e))
    ensures Walk(next, s0, start, length) == (after, Failure(e))
    decreases |visited|
  {
    if visited != [] {
      var p := next(s0, start);
      ReachedFailure(next, p.0, start + p.1.value, length, visited[1..], s, offset, after, e);
    }
  }

  /** A reached position past the file or at the end of the stream ends the
      walk, which has visited the records on the way. */
  lemma {:induction false} ReachedEnd(next: RecordReader, s0: Stream, start: nat, length: int, visited: seq<nat>, s: Stream, offset: nat)
    requires Reached(next, s0, start, length, visited, s, offset) && (offset >= length || s.eof)
    ensures Walk(next, s0, start, length) == (s, Success(visited))
    decreases |visited|
  {
    if visited != [] {
      var p := next(s0, start);
      ReachedEnd(next, p.0, start + p.1.value, length, visited[1..], s, offset);
      assert visited == [start] + visited[1..];
    }
  }

  /** The offsets a walk visits start where it starts, lie inside the file
      and grow by at least a record header each step, whatever each record
      holds. */
  lemma {:induction false} WalkAdvances(next: RecordReader, s: Stream, offset: nat, length: int)
    ensures var w := Walk(next, s, offset, length).1;
            w.Success? ==> Advances(w.value, offset, length)
    decreases if offset < length then length - offset else 0
  {
    if offset < length && !s.eof {
      var p := next(s, offset);
      if p.1.Success? {
        WalkAdvances(next, p.0, offset + p.1.value, length);
        var rest := Walk(next, p.0, offset + p.1.value, length).1;
        if rest.Success? {
          AdvancesCons(offset, p.1.value, rest.value, length);
        }
      }
    }
  }

  /** The record size as the code computes it: the doubled content length
      and the added header both wrap around in uint32_t. The written size
      is the true size modulo 2^32, and the two agree for every length
      field up to 0x7FFF_FFFB. */
  function RecordSizeAsWritten(lengthField: UInt32): (r: UInt32)
    ensures r == RecordSize(lengthField) % 0x1_0000_0000
    ensures lengthField < 0x7FFF_FFFC ==> r == RecordSize(lengthField)
  {
    (lengthField * 2 % 0x1_0000_0000 + 8) % 0x1_0000_0000
  }

  /** The next offset as the code computes it, in uint32_t: the true sum
      while it fits, and otherwise a value below both the offset and the
      size, so the walk goes back. */
  function NextOffsetAsWritten(offset: UInt32, size: UInt32): (r: UInt32)
    ensures offset + size < 0x1_0000_0000 ==> r == offset + size
    ensures offset + size >= 0x1_0000_0000 ==> r < offset && r < size
  {
    (offset + size) % 0x1_0000_0000
  }

  /** A record whose length field is 0x7FFF_FFFC has the written size 0, so
      the written loop reads the same record again and again. */
  lemma WalkStallsAsWritten(offset: UInt32)
    ensures RecordSizeAsWritten(0x7FFF_FFFC) == 0
    ensures NextOffsetAsWritten(offset, RecordSizeAsWritten(0x7FFF_FFFC)) == offset
  {
  }

  /** getRecordAt(offset) as the code computes it: content_length is the
      length field doubled in uint32_t, the content is skipped by that
      wrapped count, and the size returned adds the header in uint32_t. */
  function RecordAtAsWritten(image: seq<Byte>, stale: Buffer, name: string, s: Stream, offset: nat): (r: (Stream, Result<UInt32, LoaderError>))
    ensures !s.failed && offset + 12 <= |image| ==>
              var field := BigEndian(image[offset + 4..offset + 8]);
              r.1 == Success(RecordSizeAsWritten(field)) ||
              r.1 == Failure(ParseFailed(name, field * 2 % 0x1_0000_0000))
  {
    var s1 := Seek(s, offset);
    if s1.failed then (s1, Failure(ParseFailed(name, offset)))
    else
      var s2 := Read(image, s1, 4);
      var content := (Word(image, stale, s2, true) as int) * 2 % 0x1_0000_0000;
      var s3 := Read(image, s2, 4);
      var shape := Word(image, stale, s3, false);
      var s4 := Read(image, s3, 4);
      var size := (content + 8) % 0x1_0000_0000;
      if shape == 1 then
        (Read(image, Read(image, s4, 8), 8), Success(size))
      else if shape == 11 then
        (Read(image, Read(image, Read(image, s4, 8), 8), 8), Success(size))
      else
        var s5 := Seek(s4, s4.pos + content);
        if s5.failed then (s5, Failure(ParseFailed(name, content))) else (s5, Success(size))
  }

  /** A record of a shape other than a point whose length field is
      0x7FFF_FFFC: getRecordAt as written returns the size 0 and leaves a
      good stream from which the same call at the same offset gives the same
      stream and size again. The offset never moves and the stream never
      reaches its end, so getAllRecords loops for ever. */
  lemma RecordAtAsWrittenStalls(image: seq<Byte>, stale: Buffer, name: string, s: Stream, offset: nat)
    requires !s.failed && offset + 12 <= |image|
    requires BigEndian(image[offset + 4..offset + 8]) == 0x7FFF_FFFC
    requires LittleEndian(image[offset + 8..offset + 12]) != 1 && LittleEndian(image[offset + 8..offset + 12]) != 11
    ensures var r := RecordAtAsWritten(image, stale, name, s, offset);
            r.1 == Success(0) && r.0.Good() &&
            RecordAtAsWritten(image, stale, name, r.0, offset) == r
  {
    var s1 := Seek(s, offset);
    var s2 := Read(image, s1, 4);
    var s3 := Read(image, s2, 4);
    var r := RecordAtAsWritten(image, stale, name, s, offset);
    assert r.0 == Stream(offset + 12 + 0xFFFF_FFF8, false, false);
    var t1 := Seek(r.0, offset);
    assert t1 == s1;
  }

  // ----------------------------------------------------------------
  // The loader object
  // ----------------------------------------------------------------

  /** ShapefileLoader: the open stream on a file, the file's name and the
      length checkFileSize recorded. */
  class ShapefileLoader {
    const image: seq<Byte>       // the bytes of the file
    const stale: Buffer       // what the read buffer holds where a short read leaves it
    var filename: string        // m_filename
    var stream: Stream          // m_infile
    var filelength: int         // m_filelength

    /** A loader whose stream is open at the start of `image`; opening the
        file by name is not part of this model. */
    constructor (image: seq<Byte>, stale: Buffer)
      ensures this.image == image && this.stale == stale
      ensures filename == "" && stream == Stream(0, false, false) && filelength == 0
    {
      this.image := image;
      this.stale := stale;
      filename := "";
      stream := Stream(0, false, false);
      filelength := 0;
    }

    /** readBigEndianInt */
    method ReadBigEndianInt() returns (v: UInt32)
      modifies this
      ensures stream == Read(image, old(stream), 4) && v == Word(image, stale, old(stream), true)
      ensures filename == old(filename) && filelength == old(filelength)
    {
      var buf := Fill(image, stale, stream);
      stream := Read(image, stream, 4);
      v := BigEndian(buf);
    }

    /** readLittleEndianInt */
    method ReadLittleEndianInt() returns (v: UInt32)
      modifies this
      ensures stream == Read(image, old(stream), 4) && v == Word(image, stale, old(stream), false)
      ensures filename == old(filename) && filelength == old(filelength)
    {
      var buf := Fill(image, stale, stream);
      stream := Read(image, stream, 4);
      v := LittleEndian(buf);
    }

    /** goToByte(offset): an absolute seek that throws when it fails. */
    method GoToByte(offset: nat) returns (o: Outcome<LoaderError>)
      modifies this
      ensures stream == Seek(old(stream), offset)
      ensures o == if stream.failed then Fail(ParseFailed(filename, offset)) else Pass
      ensures filename == old(filename) && filelength == old(filelength)
    {
      stream := Seek(stream, offset);
      o := if stream.failed then Fail(ParseFailed(filename, offset)) else Pass;
    }

    /** skypeNBytes(n): a seek n bytes forward that throws when it fails. */
    method SkipNBytes(n: nat) returns (o: Outcome<LoaderError>)
      modifies this
      ensures stream == Seek(old(stream), old(stream).pos + n)
      ensures o == if stream.failed then Fail(ParseFailed(filename, n)) else Pass
      ensures filename == old(filename) && filelength == old(filelength)
    {
      stream := Seek(stream, stream.pos + n);
      o := if stream.failed then Fail(ParseFailed(filename, n)) else Pass;
    }

    /** checkFileSize */
    method CheckFileSize() returns (o: Outcome<LoaderError>)
      modifies this
      ensures (stream, filelength, o) == CheckSize(image, stale, filename, old(stream))
      ensures filename == old(filename)
    {
      filelength := if stream.failed then -1 else |image|;
      stream := Seek(Seek(stream, |image|), 0);
      if filelength <= 0 {
        return Fail(BadLength(filelength, 0));
      }
      o := GoToByte(24);
      if o.Fail? {
        return o;
      }
      var words := ReadBigEndianInt();
      var bytes := (words as int) * 2 % 0x1_0000_0000;
      o := if bytes == filelength then Pass else Fail(BadLength(filelength, bytes));
    }

    /** openShapeFile(name), from the point where the file is open. */
    method OpenShapeFile(name: string) returns (o: Outcome<LoaderError>)
      modifies this
      ensures filename == name
      ensures (stream, filelength, o) == Open(image, stale, name, old(stream))
    {
      filelength := 0;
      filename := name;
      o := CheckFileSize();
      if o.Fail? {
        return;
      }
      o := GoToByte(0);
      if o.Fail? {
        return;
      }
      var code := ReadBigEndianInt();
      if code != FILE_CODE {
        o := Fail(BadId(code));
      }
    }

    /** getShapeVersion */
    method GetShapeVersion() returns (r: Result<UInt32, LoaderError>)
      modifies this
      ensures (stream, r) == HeaderField(image, stale, filename, old(stream), 28)
      ensures filename == old(filename) && filelength == old(filelength)
    {
      var o := GoToByte(28);
      if o.Fail? {
        return Failure(o.error);
      }
      var v := ReadLittleEndianInt();
      r := Success(v);
    }

    /** getShapeType */
    method GetShapeType() returns (r: Result<UInt32, LoaderError>)
      modifies this
      ensures (stream, r) == HeaderField(image, stale, filename, old(stream), 32)
      ensures filename == old(filename) && filelength == old(filelength)
    {
      var o := GoToByte(32);
      if o.Fail? {
        return Failure(o.error);
      }
      var v := ReadLittleEndianInt();
      r := Success(v);
    }

    /** The version check of loadFromFile: a version other than 1000 only
        raises a warning. */
    method CheckVersion() returns (r: Result<UInt32, LoaderError>, warning: bool)
      modifies this
      ensures (stream, r) == HeaderField(image, stale, filename, old(stream), 28)
      ensures warning <==> r.Success? && r.value != VERSION
      ensures filename == old(filename) && filelength == old(filelength)
    {
      r := GetShapeVersion();
      warning := r.Success? && r.value != VERSION;
    }

    /** readDouble, as far as the stream is concerned. */
    method SkipDouble()
      modifies this
      ensures stream == Read(image, old(stream), 8)
      ensures filename == old(filename) && filelength == old(filelength)
    {
      stream := Read(image, stream, 8);
    }

    /** getRecordAt(offset): the size of the record there. */
    method GetRecordAt(offset: nat) returns (r: Result<Size, LoaderError>)
      modifies this
      ensures (stream, r) == RecordAt(image, stale, filename, old(stream), offset)
      ensures filename == old(filename) && filelength == old(filelength)
    {
      var o := GoToByte(offset);
      if o.Fail? {
        return Failure(o.error);
      }
      var recordNumber := ReadBigEndianInt();
      var words := ReadBigEndianInt();
      var content := (words as int) * 2;
      var shape := ReadLittleEndianInt();
      if shape == 1 {
        SkipDouble();
        SkipDouble();
      } else if shape == 11 {
        SkipDouble();
        SkipDouble();
        SkipDouble();
      } else {
        o := SkipNBytes(content);
        if o.Fail? {
          return Failure(o.error);
        }
      }
      r := Success(content + 8);
    }

    /** getAllRecords: walks the records from byte 100; the result is the
        offsets of the records read. `next` is getRecordAt on this file as a
        function, so that the walk can be stated by Walk. */
    method GetAllRecords(ghost next: RecordReader) returns (r: Result<seq<nat>, LoaderError>)
      modifies this
      requires ReadsRecords(next, image, stale, filename)
      ensures (stream, r) == Walk(next, old(stream), HEADER_SIZE, filelength)
      ensures filename == old(filename) && filelength == old(filelength)
    {
      var offset: nat := HEADER_SIZE;
      var visited: seq<nat> := [];
      while offset < filelength
        invariant filename == old(filename) && filelength == old(filelength)
        invariant Reached(next, old(stream), HEADER_SIZE, filelength, visited, stream, offset)
        decreases filelength - offset
      {
        if stream.eof {
          break;
        }
        ghost var before := stream;
        var size := GetRecordAt(offset);
        if size.Failure? {
          ReachedFailure(next, old(stream), HEADER_SIZE, filelength, visited, before, offset, stream, size.error);
          return Failure(size.error);
        }
        ReachedOneMore(next, old(stream), HEADER_SIZE, filelength, visited, before, offset, stream, size.value);
        visited := visited + [offset];
        offset := offset + size.value;
      }
      ReachedEnd(next, old(stream), HEADER_SIZE, filelength, visited, stream, offset);
      r := Success(visited);
    }
  }
}
