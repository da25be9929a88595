/** Decoding of chunked transfer coding, section 7.1 of RFC 9112 (bin/cocli-bridge/src/lib.rs). */
module Chunked {
  import opened Prelude

  const CR: byte := 13
  const LF: byte := 10
  const PLUS: byte := 43
  const SEMICOLON: byte := 59
  const USIZE_MAX: nat := 0xFFFF_FFFF_FFFF_FFFF

  /** `OutOfRange` is the panic of a slice that starts behind the body. */
  datatype Outcome = Decoded(payload: Bytes) | InvalidFraming | InvalidSize | Truncated | OutOfRange

  // ---- The pieces -----------------------------------------------------------------------------------

  /** The position of the first CRLF. */
  function LineEnd(s: Bytes): (r: Option<nat>)
    ensures r.Some? ==> r.value + 2 <= |s|
  {
    if |s| < 2 then None
    else if s[0] == CR && s[1] == LF then Some(0)
    else
      match LineEnd(s[1..])
      case None => None
      case Some(i) => Some(i + 1)
  }

  function BeforeSemicolon(s: Bytes): Bytes {
    if s == [] || s[0] == SEMICOLON then [] else [s[0]] + BeforeSemicolon(s[1..])
  }

  function HexDigit(b: byte): Option<nat> {
    if 48 <= b <= 57 then Some(b - 48)
    else if 65 <= b <= 70 then Some(b - 55)
    else if 97 <= b <= 102 then Some(b - 87)
    else None
  }

  predicate HexDigits(s: Bytes) {
    forall i :: 0 <= i < |s| ==> HexDigit(s[i]).Some?
  }

  /** The number a sequence of hexadecimal digits spells. */
  function HexValue(s: Bytes): nat
    requires HexDigits(s)
  {
    if s == [] then 0 else 16 * HexValue(s[..|s| - 1]) + HexDigit(s[|s| - 1]).value
  }

  /** `usize::from_str_radix(_, 16)`: an optional plus sign, at least one digit, no overflow. */
  function ParseSize(s: Bytes): Option<nat> {
    var digits := if s != [] && s[0] == PLUS then s[1..] else s;
    if digits == [] || !HexDigits(digits) || HexValue(digits) > USIZE_MAX then None
    else Some(HexValue(digits))
  }

  /** The size line: the length of the line with its CRLF, and the size it announces. */
  function Header(rest: Bytes): (r: Result<(nat, nat), Outcome>)
    ensures r.Ok? ==> 2 <= r.value.0 <= |rest|
  {
    match LineEnd(rest)
    case None => Err(InvalidFraming)
    case Some(line) =>
      match ParseSize(BeforeSemicolon(rest[..line]))
      case None => Err(InvalidSize)
      case Some(size) => Ok((line + 2, size))
  }

  /** What is left of the body is decoded onto what was decoded before. */
  function DecodeFrom(rest: Bytes, decoded: Bytes): Outcome
    decreases |rest|, 1
  {
    match Header(rest)
    case Err(e) => e
    case Ok((line, size)) => AfterLine(rest[line..], size, decoded)
  }

  /** The data a line announced, and what follows its closing bytes. */
  function AfterLine(data: Bytes, size: nat, decoded: Bytes): Outcome
    decreases |data|, 0
  {
    if size == 0 then Decoded(decoded)
    else if size > |data| then Truncated
    else if size + 2 > |data| then OutOfRange
    else DecodeFrom(data[size + 2..], decoded + data[..size])
  }

  lemma Slices(s: Bytes, a: nat, b: nat)
    requires a + b <= |s|
    ensures s[a..][b..] == s[a + b..]
    ensures s[a..][..b] == s[a..a + b]
  {
  }

  /** The size line at the cursor: where its data starts and how much it announces, or the error. */
  function LineAt(body: Bytes, cursor: nat): (r: Result<(nat, nat), Outcome>)
    requires cursor <= |body|
    ensures r.Ok? ==> cursor < r.value.0 <= |body|
  {
    match Header(body[cursor..])
    case Err(e) => Err(e)
    case Ok((line, size)) => Ok((cursor + line, size))
  }

  lemma LineDecodes(body: Bytes, cursor: nat, decoded: Bytes)
    requires cursor <= |body|
    ensures
      var line := LineAt(body, cursor);
      DecodeFrom(body[cursor..], decoded)
      == if line.Err? then line.error else AfterLine(body[line.value.0..], line.value.1, decoded)
  {
    if Header(body[cursor..]).Ok? {
      Slices(body, cursor, Header(body[cursor..]).value.0);
    }
  }

  /** What a decoded line makes of the body: the final outcome, or the next position and all data so far. */
  function ChunkAt(body: Bytes, start: nat, size: nat, decoded: Bytes): (r: Result<(nat, Bytes), Outcome>)
    requires start <= |body|
    ensures r.Ok? ==> start < r.value.0 <= |body|
  {
    var end := start + size;
    if size == 0 then Err(Decoded(decoded))
    else if end > |body| then Err(Truncated)
    else if end + 2 > |body| then Err(OutOfRange)
    else Ok((end + 2, decoded + body[start..end]))
  }

  lemma ChunkDecodes(body: Bytes, start: nat, size: nat, decoded: Bytes)
    requires start <= |body|
    ensures
      var next := ChunkAt(body, start, size, decoded);
      AfterLine(body[start..], size, decoded)
      == if next.Err? then next.error else DecodeFrom(body[next.value.0..], next.value.1)
  {
    if start + size + 2 <= |body| {
      Slices(body, start, size);
      Slices(body, start, size + 2);
    }
  }

  /** One round of the loop: the final outcome, or the next cursor and everything decoded so far. */
  method ReadChunk(body: Bytes, cursor: nat, decoded: Bytes) returns (r: Result<(nat, Bytes), Outcome>)
    requires cursor <= |body|
    ensures r.Ok? ==> cursor < r.value.0 <= |body|
    ensures DecodeFrom(body[cursor..], decoded)
         == if r.Err? then r.error else DecodeFrom(body[r.value.0..], r.value.1)
  {
    LineDecodes(body, cursor, decoded);
    var line := LineAt(body, cursor);
    if line.Err? {
      return Err(line.error);
    }
    var (start, size) := line.value;
    ChunkDecodes(body, start, size, decoded);
    r := ChunkAt(body, start, size, decoded);
  }

  method DecodeChunked(body: Bytes) returns (r: Outcome)
    ensures r == DecodeFrom(body, [])
  {
    var cursor := 0;
    var decoded: Bytes := [];
    ghost var goal := DecodeFrom(body, []);
    assert body[0..] == body;
    while true
      invariant 0 <= cursor <= |body|
      invariant DecodeFrom(body[cursor..], decoded) == goal
      decreases |body| - cursor
    {
      var next := ReadChunk(body, cursor, decoded);
      if next.Err? {
        return next.error;
      }
      cursor, decoded := next.value.0, next.value.1;
    }
  }

  // ---- Framing ------------------------------------------------------------------------------------------

  predicate CrlfFree(s: Bytes) {
    forall i :: 0 <= i < |s| - 1 ==> !(s[i] == CR && s[i + 1] == LF)
  }

  /** A line the decoder reads as the size `n`. */
  predicate Announces(line: Bytes, n: nat) {
    CrlfFree(line) && ParseSize(BeforeSemicolon(line)) == Some(n)
  }

  /** A chunk: its size line, its data, and two closing bytes. */
  datatype Chunk = Chunk(line: Bytes, data: Bytes, close: Bytes)

  predicate WellFormed(c: Chunk) {
    c.data != [] && Announces(c.line, |c.data|) && |c.close| == 2
  }

  predicate AllWellFormed(cs: seq<Chunk>) {
    forall i :: 0 <= i < |cs| ==> WellFormed(cs[i])
  }

  function Line(line: Bytes): Bytes {
    line + [CR, LF]
  }

  function Frame(c: Chunk): Bytes {
    Line(c.line) + c.data + c.close
  }

  function FrameAll(cs: seq<Chunk>): Bytes {
    if cs == [] then [] else Frame(cs[0]) + FrameAll(cs[1..])
  }

  function Payload(cs: seq<Chunk>): Bytes {
    if cs == [] then [] else cs[0].data + Payload(cs[1..])
  }

  lemma {:induction false} LineEndAfter(line: Bytes, rest: Bytes)
    requires CrlfFree(line)
    ensures LineEnd(line + [CR, LF] + rest) == Some(|line|)
  {
    var s := line + [CR, LF] + rest;
    if line != [] {
      LineEndAfter(line[1..], rest);
      assert s[1..] == line[1..] + [CR, LF] + rest;
      assert s[0] == line[0] && s[1] == if |line| > 1 then line[1] else CR;
    }
  }

  /** A line is read wherever it stands. */
  lemma LineRead(line: Bytes, rest: Bytes)
    requires CrlfFree(line)
    ensures
      var s := Line(line) + rest;
      && s[|line| + 2..] == rest
      && Header(s) ==
           match ParseSize(BeforeSemicolon(line)) case None => Err(InvalidSize) case Some(n) => Ok((|line| + 2, n))
  {
    var s := Line(line) + rest;
    LineEndAfter(line, rest);
    assert s == line + [CR, LF] + rest;
    assert s[..|line|] == line;
  }

  lemma DataTaken(c: Chunk, rest: Bytes, decoded: Bytes)
    requires WellFormed(c)
    ensures AfterLine(c.data + c.close + rest, |c.data|, decoded) == DecodeFrom(rest, decoded + c.data)
  {
    var data := c.data + c.close + rest;
    assert data[..|c.data|] == c.data && data[|c.data| + 2..] == rest;
  }

  /** One chunk is decoded and the rest of the body is left, for every rest. */
  lemma ChunkDecoded(c: Chunk, rest: Bytes, decoded: Bytes)
    requires WellFormed(c)
    ensures DecodeFrom(Frame(c) + rest, decoded) == DecodeFrom(rest, decoded + c.data)
  {
    var data := c.data + c.close + rest;
    assert Frame(c) + rest == Line(c.line) + data;
    LineRead(c.line, data);
    DataTaken(c, rest, decoded);
  }

  /** Any list of chunks in front of any rest only adds its payload. */
  lemma {:induction false} ChunksDecoded(cs: seq<Chunk>, rest: Bytes, decoded: Bytes)
    requires AllWellFormed(cs)
    ensures DecodeFrom(FrameAll(cs) + rest, decoded) == DecodeFrom(rest, decoded + Payload(cs))
  {
    if cs == [] {
      assert FrameAll(cs) + rest == rest && decoded + Payload(cs) == decoded;
    } else {
      var tail := FrameAll(cs[1..]) + rest;
      assert FrameAll(cs) + rest == Frame(cs[0]) + tail;
      ChunkDecoded(cs[0], tail, decoded);
      ChunksDecoded(cs[1..], rest, decoded + cs[0].data);
      assert decoded + cs[0].data + Payload(cs[1..]) == decoded + Payload(cs);
    }
  }

  // ---- Every body ------------------------------------------------------------------------------------------

  /** How a body goes on behind its complete chunks. */
  datatype Ending =
    | NoLine(rest: Bytes)
    | BadSize(line: Bytes, rest: Bytes)
    | LastChunk(line: Bytes, rest: Bytes)
    | ShortData(line: Bytes, size: nat, rest: Bytes)
    | ShortClose(line: Bytes, size: nat, rest: Bytes)
  {
    predicate Valid() {
      match this
      case NoLine(rest) => LineEnd(rest).None?
      case BadSize(line, _) => CrlfFree(line) && ParseSize(BeforeSemicolon(line)).None?
      case LastChunk(line, _) => Announces(line, 0)
      case ShortData(line, size, rest) => Announces(line, size) && |rest| < size
      case ShortClose(line, size, rest) => Announces(line, size) && 0 < size <= |rest| < size + 2
    }

    function Text(): Bytes {
      if NoLine? then rest else Line(line) + rest
    }

    function Verdict(decoded: Bytes): Outcome {
      match this
      case NoLine(_) => InvalidFraming
      case BadSize(_, _) => InvalidSize
      case LastChunk(_, _) => Decoded(decoded)
      case ShortData(_, _, _) => Truncated
      case ShortClose(_, _, _) => OutOfRange
    }
  }

  lemma EndingDecoded(e: Ending, decoded: Bytes)
    requires e.Valid()
    ensures DecodeFrom(e.Text(), decoded) == e.Verdict(decoded)
  {
    if !e.NoLine? {
      LineRead(e.line, e.rest);
    }
  }

  /** Complete chunks and an ending tell the outcome. */
  lemma DecodedAs(cs: seq<Chunk>, e: Ending)
    requires AllWellFormed(cs) && e.Valid()
    ensures DecodeFrom(FrameAll(cs) + e.Text(), []) == e.Verdict(Payload(cs))
  {
    ChunksDecoded(cs, e.Text(), []);
    assert [] + Payload(cs) == Payload(cs);
    EndingDecoded(e, Payload(cs));
  }

  lemma {:induction false} FirstLine(s: Bytes)
    requires LineEnd(s).Some?
    ensures
      var n := LineEnd(s).value;
      CrlfFree(s[..n]) && s == Line(s[..n]) + s[n + 2..]
  {
    var n := LineEnd(s).value;
    if n > 0 {
      FirstLine(s[1..]);
      assert s[1..][..n - 1] == s[..n][1..] && s[1..][n - 1 + 2..] == s[n + 2..];
      CrlfFreeCons(s[..n], s);
    }
  }

  lemma CrlfFreeCons(line: Bytes, s: Bytes)
    requires line != [] && line <= s && |s| >= |line| + 1 && CrlfFree(line[1..])
    requires !(s[0] == CR && s[1] == LF)
    ensures CrlfFree(line)
  {
    forall i | 0 <= i < |line| - 1 ensures !(line[i] == CR && line[i + 1] == LF) {
      assert line[i] == s[i] && line[i + 1] == s[i + 1];
      if i > 0 {
        assert line[1..][i - 1] == line[i] && line[1..][i] == line[i + 1];
      }
    }
  }

  lemma Associative(a: Bytes, b: Bytes, c: Bytes)
    ensures a + b + c == a + (b + c)
  {
  }

  function ChunkOf(line: Bytes, size: nat, data: Bytes): Chunk
    requires size + 2 <= |data|
  {
    Chunk(line, data[..size], data[size..size + 2])
  }

  lemma CompleteChunk(line: Bytes, size: nat, data: Bytes)
    requires Announces(line, size) && 0 < size && size + 2 <= |data|
    ensures WellFormed(ChunkOf(line, size, data))
    ensures Line(line) + data == Frame(ChunkOf(line, size, data)) + data[size + 2..]
  {
    var payload, close, rest := data[..size], data[size..size + 2], data[size + 2..];
    assert data == payload + close + rest;
    Associative(Line(line), payload + close, rest);
    Associative(Line(line), payload, close);
  }

  /** A line behind which no complete chunk follows. */
  function EndingOf(line: Bytes, data: Bytes): Ending {
    match ParseSize(BeforeSemicolon(line))
    case None => BadSize(line, data)
    case Some(size) =>
      if size == 0 then LastChunk(line, data)
      else if |data| < size then ShortData(line, size, data)
      else ShortClose(line, size, data)
  }

  /** A body begins with a complete chunk, or is an ending. */
  lemma TakeApart(body: Bytes) returns (first: Option<Chunk>, rest: Bytes, e: Ending)
    ensures first.Some? ==> WellFormed(first.value) && body == Frame(first.value) + rest
    ensures first.None? ==> e.Valid() && body == e.Text()
  {
    first, rest, e := None, body, NoLine(body);
    if LineEnd(body).Some? {
      var n := LineEnd(body).value;
      FirstLine(body);
      var line, data := body[..n], body[n + 2..];
      var size := ParseSize(BeforeSemicolon(line));
      if size.Some? && 0 < size.value && size.value + 2 <= |data| {
        CompleteChunk(line, size.value, data);
        first, rest := Some(ChunkOf(line, size.value, data)), data[size.value + 2..];
      } else {
        e := EndingOf(line, data);
      }
    }
  }

  /** The body is complete chunks and an ending. */
  ghost predicate MadeOf(body: Bytes, cs: seq<Chunk>, e: Ending) {
    AllWellFormed(cs) && e.Valid() && body == FrameAll(cs) + e.Text()
  }

  lemma ChunkInFront(c: Chunk, rest: Bytes, cs: seq<Chunk>, e: Ending)
    requires WellFormed(c) && MadeOf(rest, cs, e)
    ensures MadeOf(Frame(c) + rest, [c] + cs, e)
  {
    var all := [c] + cs;
    assert all[1..] == cs && all[0] == c;
    assert FrameAll(all) == Frame(c) + FrameAll(cs);
    Associative(Frame(c), FrameAll(cs), e.Text());
    assert AllWellFormed(all) by {
      forall i | 0 <= i < |all| ensures WellFormed(all[i]) {
        assert i > 0 ==> all[i] == cs[i - 1];
      }
    }
  }

  lemma {:induction false} BodyDecomposes(body: Bytes) returns (cs: seq<Chunk>, e: Ending)
    ensures MadeOf(body, cs, e)
    decreases |body|
  {
    var first, rest, ending := TakeApart(body);
    if first.None? {
      cs, e := [], ending;
      assert FrameAll(cs) + e.Text() == e.Text();
    } else {
      cs, e := BodyDecomposes(rest);
      ChunkInFront(first.value, rest, cs, e);
      cs := [first.value] + cs;
    }
  }

  /** The outcome for every body, in both directions: it is what the ending behind the complete chunks says. */
  lemma DecodeExact(body: Bytes, outcome: Outcome)
    ensures DecodeFrom(body, []) == outcome
       <==> exists cs, e: Ending :: MadeOf(body, cs, e) && e.Verdict(Payload(cs)) == outcome
  {
    if cs, e: Ending :| MadeOf(body, cs, e) && e.Verdict(Payload(cs)) == outcome {
      DecodedAs(cs, e);
    }
    var cs, e := BodyDecomposes(body);
    DecodedAs(cs, e);
  }

  /** The decoder slices out of range exactly when the body stops within the bytes that close a chunk. */
  lemma OutOfRangeExact(body: Bytes)
    ensures DecodeFrom(body, []) == OutOfRange
       <==> exists cs, line, size, rest :: MadeOf(body, cs, ShortClose(line, size, rest))
  {
    DecodeExact(body, OutOfRange);
    if DecodeFrom(body, []) == OutOfRange {
      var cs, e: Ending :| MadeOf(body, cs, e) && e.Verdict(Payload(cs)) == OutOfRange;
      assert MadeOf(body, cs, ShortClose(e.line, e.size, e.rest));
    }
    if cs, line, size, rest :| MadeOf(body, cs, ShortClose(line, size, rest)) {
      assert ShortClose(line, size, rest).Verdict(Payload(cs)) == OutOfRange;
    }
  }

  // ---- Spellings of a size -----------------------------------------------------------------------------------

  /** Hexadecimal digits, in either case and with leading zeros, that spell `n`; then an extension. */
  predicate SizeLine(size: Bytes, extension: Bytes, n: nat) {
    && size != [] && HexDigits(size) && HexValue(size) == n
    && (extension == [] || extension[0] == SEMICOLON) && CrlfFree(extension)
  }

  lemma {:induction false} SizeBeforeSemicolon(size: Bytes, extension: Bytes)
    requires HexDigits(size) && (extension == [] || extension[0] == SEMICOLON)
    ensures BeforeSemicolon(size + extension) == size
  {
    if size == [] {
      assert size + extension == extension;
    } else {
      assert HexDigit(size[0]).Some?;
      SizeBeforeSemicolon(size[1..], extension);
      assert (size + extension)[1..] == size[1..] + extension;
      assert size == [size[0]] + size[1..];
    }
  }

  lemma LineIsCrlfFree(size: Bytes, extension: Bytes)
    requires HexDigits(size) && CrlfFree(extension)
    ensures CrlfFree(size + extension)
  {
    var line := size + extension;
    forall i | 0 <= i < |line| - 1 ensures !(line[i] == CR && line[i + 1] == LF) {
      if i < |size| {
        assert HexDigit(size[i]).Some? && line[i] == size[i];
      } else {
        assert line[i] == extension[i - |size|] && line[i + 1] == extension[i + 1 - |size|];
      }
    }
  }

  /** Every size line of section 7.1 announces its size. */
  lemma SizeLineAnnounces(size: Bytes, extension: Bytes, n: nat)
    requires SizeLine(size, extension, n) && n <= USIZE_MAX
    ensures Announces(size + extension, n)
  {
    LineIsCrlfFree(size, extension);
    SizeBeforeSemicolon(size, extension);
    assert HexDigit(size[0]).Some?;
  }

  /** A chunk as section 7.1 frames it. */
  predicate Standard(c: Chunk, size: Bytes, extension: Bytes) {
    && c.line == size + extension && SizeLine(size, extension, |c.data|)
    && 0 < |c.data| <= USIZE_MAX && c.close == [CR, LF]
  }

  lemma StandardIsWellFormed(c: Chunk, size: Bytes, extension: Bytes)
    requires Standard(c, size, extension)
    ensures WellFormed(c)
  {
    SizeLineAnnounces(size, extension, |c.data|);
  }

  /** Decoding undoes framing: any spelling of the sizes, any extensions, any bytes after the last chunk. */
  lemma DecodeUndoesFraming(cs: seq<Chunk>, sizes: seq<Bytes>, extensions: seq<Bytes>, zeros: Bytes, extension: Bytes,
                            trailer: Bytes)
    requires |sizes| == |extensions| == |cs|
    requires forall i :: 0 <= i < |cs| ==> Standard(cs[i], sizes[i], extensions[i])
    requires SizeLine(zeros, extension, 0)
    ensures DecodeFrom(FrameAll(cs) + (Line(zeros + extension) + trailer), []) == Decoded(Payload(cs))
  {
    forall i | 0 <= i < |cs| ensures WellFormed(cs[i]) {
      StandardIsWellFormed(cs[i], sizes[i], extensions[i]);
    }
    SizeLineAnnounces(zeros, extension, 0);
    DecodedAs(cs, LastChunk(zeros + extension, trailer));
  }
}
