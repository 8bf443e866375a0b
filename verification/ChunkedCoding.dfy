/** The chunked coding of section 7.1 of RFC 9112 as bytes, and what the reader makes of it: of every
    coding a sender may write, of trailer fields, and of a coding that is cut short. */
module ChunkedCoding {
  import opened HttpFraming
  import opened Numerals
  import opened Text
  import opened Utf8
  import opened Wrappers

  const SEMICOLON: Byte := 59

  predicate Blank(b: Byte) {
    b == 9 || b == 32
  }

  /** White space, and then nothing or a semicolon and the rest of the extensions. */
  predicate Extension(bytes: seq<Byte>) {
    CR !in bytes && (bytes == [] || bytes[0] == SEMICOLON || (Blank(bytes[0]) && Extension(bytes[1..])))
  }

  lemma HexDigitsAreAscii(digits: string)
    requires HexDigits(digits)
    ensures Ascii(digits) && ';' !in digits && '+' !in digits && '\r' !in digits
    ensures forall i :: 0 <= i < |digits| ==> !IsWhiteSpace(digits[i])
  {
    forall i | 0 <= i < |digits|
      ensures digits[i] as int < 0x80 && digits[i] != ';' && digits[i] != '+' && digits[i] != '\r' && !IsWhiteSpace(digits[i])
    {
      assert DigitValue(digits[i], 16).Some?;
    }
  }

  function SizeLine(digits: string, extension: seq<Byte>): seq<Byte>
    requires HexDigits(digits)
  {
    HexDigitsAreAscii(digits);
    Bytes(digits) + extension + CRLF
  }

  /** A chunk as some sender writes it: its size in hexadecimal digits of either case, perhaps with
      leading zeros, and perhaps extensions. */
  datatype Chunk = Chunk(digits: string, extension: seq<Byte>, data: seq<Byte>)
  {
    predicate Valid() {
      digits != "" && Value(digits, 16) == Some(|data|) && 0 < |data| < USIZE && Extension(extension)
    }

    function Bytes(): seq<Byte>
      requires Valid()
    {
      ValuedIsHexDigits(digits);
      SizeLine(digits, extension) + (data + CRLF)
    }
  }

  predicate AllValid(chunks: seq<Chunk>) {
    forall i :: 0 <= i < |chunks| ==> chunks[i].Valid()
  }

  function Coding(chunks: seq<Chunk>): seq<Byte>
    requires AllValid(chunks)
  {
    if chunks == [] then [] else chunks[0].Bytes() + Coding(chunks[1..])
  }

  function Data(chunks: seq<Chunk>): seq<Byte> {
    if chunks == [] then [] else chunks[0].data + Data(chunks[1..])
  }

  // ------------------------------------------------------------ size lines

  lemma {:induction false} BeforeSemicolonKeeps(s: string, rest: string)
    requires ';' !in s
    ensures BeforeSemicolon(s + rest) == s + BeforeSemicolon(rest)
  {
    if s == "" {
      assert s + rest == rest;
    } else {
      assert (s + rest)[1..] == s[1..] + rest;
      BeforeSemicolonKeeps(s[1..], rest);
    }
  }

  predicate OnlyWhiteSpace(s: string) {
    forall i :: 0 <= i < |s| ==> IsWhiteSpace(s[i])
  }

  lemma {:induction false} TrimEndDrops(s: string, blanks: string)
    requires OnlyWhiteSpace(blanks) && s != "" && !IsWhiteSpace(s[|s| - 1])
    ensures TrimEnd(s + blanks) == s
  {
    if blanks == "" {
      assert s + blanks == s;
    } else {
      assert (s + blanks)[..|s + blanks| - 1] == s + blanks[..|blanks| - 1];
      TrimEndDrops(s, blanks[..|blanks| - 1]);
    }
  }

  /** What an extension adds before its semicolon is white space. */
  lemma {:induction false} ExtensionIsDropped(extension: seq<Byte>)
    requires Extension(extension)
    ensures OnlyWhiteSpace(BeforeSemicolon(Lossy(extension + CRLF)))
  {
    if extension == [] {
      LineBreakIsWhiteSpace();
    } else if extension[0] == SEMICOLON {
      LossyFirst(';', extension[1..] + CRLF);
      assert extension + CRLF == [SEMICOLON] + (extension[1..] + CRLF);
    } else {
      var c := extension[0] as char;
      LossyFirst(c, extension[1..] + CRLF);
      assert extension + CRLF == [extension[0]] + (extension[1..] + CRLF);
      ExtensionIsDropped(extension[1..]);
    }
  }

  lemma LossyFirst(c: char, rest: seq<Byte>)
    requires c as int < 0x80
    ensures Lossy([c as int] + rest) == [c] + Lossy(rest)
  {
    LossyKeepsAscii([c], rest);
    assert Bytes([c]) == [c as int];
  }

  lemma LineBreakIsWhiteSpace()
    ensures Lossy(CRLF) == "\r\n" && OnlyWhiteSpace(BeforeSemicolon(Lossy([] + CRLF)))
  {
    LossyKeepsAscii("\r\n", []);
    assert Bytes("\r\n") + [] == CRLF == [] + CRLF;
    assert "\r\n" + Lossy([]) == "\r\n";
    assert BeforeSemicolon("\r\n") == "\r\n" by {
      BeforeSemicolonKeeps("\r\n", "");
      assert "\r\n" + "" == "\r\n";
    }
  }

  /** A size line is read whole and means its digits, whatever its extensions. */
  lemma SizeLineReads(digits: string, extension: seq<Byte>, rest: seq<Byte>)
    requires digits != "" && HexDigits(digits) && Extension(extension)
    requires Value(digits, 16).Some? && Value(digits, 16).value < USIZE
    ensures Line(SizeLine(digits, extension) + rest) == Cut(SizeLine(digits, extension), rest)
    ensures SizeOf(SizeLine(digits, extension)) == Value(digits, 16).value
  {
    HexDigitsAreAscii(digits);
    var content := Bytes(digits) + extension;
    assert CR !in content by {
      assert forall i :: 0 <= i < |digits| ==> digits[i] != '\r';
    }
    LineOf(content, rest);
    SizeOfDigits(digits, extension + CRLF, BeforeSemicolon(Lossy(extension + CRLF))) by {
      ExtensionIsDropped(extension);
    }
    assert SizeLine(digits, extension) == Bytes(digits) + (extension + CRLF);
  }

  lemma SizeOfDigits(digits: string, tail: seq<Byte>, blanks: string)
    requires digits != "" && HexDigits(digits) && Ascii(digits)
    requires blanks == BeforeSemicolon(Lossy(tail)) && OnlyWhiteSpace(blanks)
    ensures SizeOf(Bytes(digits) + tail)
         == if Value(digits, 16).Some? && Value(digits, 16).value < USIZE then Value(digits, 16).value else 0
  {
    HexDigitsAreAscii(digits);
    LossyKeepsAscii(digits, tail);
    BeforeSemicolonKeeps(digits, Lossy(tail));
    TrimEndDrops(digits, blanks);
    assert TrimStart(digits + blanks) == digits + blanks;
  }

  // ------------------------------------------------------------ reading a coding

  lemma ChunkReads(chunk: Chunk, rest: seq<Byte>)
    requires chunk.Valid()
    ensures ChunkedBody(chunk.Bytes() + rest) == Following(chunk.Bytes(), chunk.data, ChunkedBody(rest))
  {
    hide Line, SizeOf, Following;
    ValuedIsHexDigits(chunk.digits);
    var line := SizeLine(chunk.digits, chunk.extension);
    var after := chunk.data + CRLF + rest;
    SizeLineReads(chunk.digits, chunk.extension, after);
    assert chunk.Bytes() + rest == line + after;
    assert after[..|chunk.data| + 2] == chunk.data + CRLF && after[..|chunk.data|] == chunk.data;
    assert after[|chunk.data| + 2..] == rest;
  }

  /** The reader decodes every coding: chunks with any digits and any extensions, a last chunk with
      any zeros and extensions. It then takes one more line, whatever it is. */
  lemma {:induction false} CodingReads(chunks: seq<Chunk>, zeros: string, extension: seq<Byte>, rest: seq<Byte>)
    requires AllValid(chunks) && zeros != "" && Value(zeros, 16) == Some(0) && HexDigits(zeros) && Extension(extension)
    ensures ChunkedBody(Coding(chunks) + (SizeLine(zeros, extension) + rest))
         == Some(Body(Coding(chunks) + (SizeLine(zeros, extension) + Line(rest).taken), Data(chunks), Line(rest).rest))
  {
    hide Line, SizeOf;
    var last := SizeLine(zeros, extension);
    if chunks == [] {
      SizeLineReads(zeros, extension, rest);
      assert Coding(chunks) + (last + rest) == last + rest;
      assert Coding(chunks) + (last + Line(rest).taken) == last + Line(rest).taken;
    } else {
      var later := Coding(chunks[1..]) + (last + rest);
      CodingReads(chunks[1..], zeros, extension, rest);
      ChunkReads(chunks[0], later);
      assert Coding(chunks) + (last + rest) == chunks[0].Bytes() + later;
      assert Coding(chunks) + (last + Line(rest).taken) == chunks[0].Bytes() + (Coding(chunks[1..]) + (last + Line(rest).taken));
    }
  }

  /** The trailer section: its fields, each a line that is not empty, and the empty line. */
  function TrailerSection(fields: seq<seq<Byte>>): seq<Byte> {
    if fields == [] then CRLF else fields[0] + CRLF + TrailerSection(fields[1..])
  }

  /** A coding is consumed exactly, neither less nor more, if and only if it has no trailer fields:
      of a trailer section the reader takes only the first line. */
  lemma ConsumedExactlyWithoutTrailers(chunks: seq<Chunk>, zeros: string, extension: seq<Byte>,
                                       fields: seq<seq<Byte>>, rest: seq<Byte>)
    requires AllValid(chunks) && zeros != "" && Value(zeros, 16) == Some(0) && HexDigits(zeros) && Extension(extension)
    requires forall i :: 0 <= i < |fields| ==> CR !in fields[i]
    ensures
      var coding := Coding(chunks) + (SizeLine(zeros, extension) + TrailerSection(fields));
      var read := ChunkedBody(coding + rest);
      && read.Some? && read.value.decoded == Data(chunks)
      && (read.value.raw == coding && read.value.rest == rest <==> fields == [])
  {
    hide Coding, Data, SizeLine, Line, ChunkedBody, TrailerSection;
    var last := SizeLine(zeros, extension);
    var trailers := TrailerSection(fields);
    assert Coding(chunks) + (last + trailers) + rest == Coding(chunks) + (last + (trailers + rest));
    CodingReads(chunks, zeros, extension, trailers + rest);
    FirstTrailerLine(fields, rest);
  }

  lemma FirstTrailerLine(fields: seq<seq<Byte>>, rest: seq<Byte>)
    requires forall i :: 0 <= i < |fields| ==> CR !in fields[i]
    ensures if fields == [] then Line(TrailerSection(fields) + rest) == Cut(TrailerSection(fields), rest)
            else |Line(TrailerSection(fields) + rest).rest| > |rest|
  {
    hide Line;
    if fields == [] {
      LineOf([], rest);
      assert [] + CRLF + rest == TrailerSection(fields) + rest;
    } else {
      LineOf(fields[0], TrailerSection(fields[1..]) + rest);
      assert fields[0] + CRLF + (TrailerSection(fields[1..]) + rest) == TrailerSection(fields) + rest;
    }
  }
}
