/** What the reader gets of a relayed response: the whole of it, or, when it is cut short, all the
    chunks that arrived whole. */
module ResponseRoundTrip {
  import opened ChunkedCoding
  import opened HttpFraming
  import opened MessageHead
  import opened Numerals
  import opened ResponseRelay
  import opened Text
  import opened Utf8
  import opened Wrappers

  // ------------------------------------------------------------ the chunks

  function AsChunk(data: seq<Byte>): Chunk {
    Chunk.Chunk(Hex(|data|), [], data)
  }

  lemma WrittenChunkIsAChunk(data: seq<Byte>)
    requires data != [] && |data| < USIZE
    ensures AsChunk(data).Valid() && WrittenChunk(Chunked, data) == AsChunk(data).Bytes()
  {
    HexHasItsValue(|data|);
    ValuedIsHexDigits(Hex(|data|));
    assert HexBytes(|data|) + CRLF + data + CRLF == HexBytes(|data|) + [] + CRLF + (data + CRLF);
  }

  predicate Sized(chunks: seq<seq<Byte>>) {
    forall i :: 0 <= i < |chunks| ==> |chunks[i]| < USIZE
  }

  /** The codings of the chunks, empty ones left out. */
  function AsChunks(chunks: seq<seq<Byte>>): seq<Chunk> {
    if chunks == [] then []
    else if chunks[0] == [] then AsChunks(chunks[1..])
    else [AsChunk(chunks[0])] + AsChunks(chunks[1..])
  }

  lemma {:induction false} WrittenIsACoding(chunks: seq<seq<Byte>>)
    requires Sized(chunks)
    ensures AllValid(AsChunks(chunks)) && Written(Chunked, chunks) == Coding(AsChunks(chunks))
    ensures Data(AsChunks(chunks)) == Concat(chunks)
  {
    hide Chunk.Bytes, WrittenChunk;
    if chunks != [] {
      WrittenIsACoding(chunks[1..]);
      if chunks[0] == [] {
        NothingForNothing();
      } else {
        WrittenChunkIsAChunk(chunks[0]);
        assert AsChunks(chunks)[1..] == AsChunks(chunks[1..]);
      }
    }
  }

  lemma NothingForNothing()
    ensures WrittenChunk(Chunked, []) == []
  {
  }

  lemma LastChunkIsASizeLine()
    ensures HexDigits("0") && Value("0", 16) == Some(0) && LAST_CHUNK == SizeLine("0", []) + CRLF
  {
    NoDigits();
    OneMoreDigit("", '0');
    assert "" + ['0'] == "0";
  }

  /** The round trip: whatever chunks arrive, the reader gets their concatenation out of what is
      written, and consumes exactly that. */
  lemma ChunkedRoundTrip(chunks: seq<seq<Byte>>, rest: seq<Byte>)
    requires Sized(chunks)
    ensures ChunkedBody(Written(Chunked, chunks) + LAST_CHUNK + rest)
         == Some(Body(Written(Chunked, chunks) + LAST_CHUNK, Concat(chunks), rest))
  {
    hide Coding, Written, ChunkedBody, SizeLine, Line;
    WrittenIsACoding(chunks);
    LastChunkIsASizeLine();
    var coding, last := Coding(AsChunks(chunks)), SizeLine("0", []);
    CodingReads(AsChunks(chunks), "0", [], CRLF + rest);
    LineOf([], rest);
    assert [] + CRLF + rest == CRLF + rest && [] + CRLF == CRLF;
    assert coding + (last + CRLF) + rest == coding + (last + (CRLF + rest));
  }

  // ------------------------------------------------------------ cut short

  /** The stream ends after some but not all bytes of a chunk. */
  predicate InsideAChunk(chunks: seq<seq<Byte>>, k: nat) {
    chunks != []
    && var n := |WrittenChunk(Chunked, chunks[0])|;
       0 < k < n || (n <= k && InsideAChunk(chunks[1..], k - n))
  }

  /** The data of the chunks that arrived whole. */
  function Arrived(chunks: seq<seq<Byte>>, k: nat): seq<Byte> {
    if chunks == [] || k < |WrittenChunk(Chunked, chunks[0])| then []
    else chunks[0] + Arrived(chunks[1..], k - |WrittenChunk(Chunked, chunks[0])|)
  }

  lemma {:induction false} WholeLine(s: seq<Byte>, from: nat)
    requires from <= |s| && forall i :: 0 <= i < |s| - 2 ==> s[i] != CR
    ensures LineEnd(s, from) == |s|
    decreases |s| - from
  {
    if from < |s| {
      WholeLine(s, from + 1);
    }
  }

  /** A size line that breaks off still announces more than what follows it. */
  lemma PartOfASizeLine(chunk: Chunk, k: nat)
    requires chunk.Valid() && chunk.extension == [] && chunk.digits[0] != '0' && 0 < k <= |chunk.digits| + 1
    ensures ChunkedBody(chunk.Bytes()[..k]).None?
  {
    hide SizeOf;
    var digits := chunk.digits;
    ValuedIsHexDigits(digits);
    HexDigitsAreAscii(digits);
    var shown := digits[..if k < |digits| then k else |digits|];
    var tail := if k <= |digits| then [] else [CR];
    var s := chunk.Bytes()[..k];
    assert s == Bytes(shown) + tail;
    assert forall i :: 0 <= i < |shown| ==> shown[i] == digits[i];
    WholeLine(s, 0);
    ShorterIsSmaller(digits, |shown|);
    NoLeadingZero(shown);
    TailIsBlank(tail);
    SizeOfDigits(shown, tail, BeforeSemicolon(Lossy(tail)));
    assert Line(s) == Cut(s, []);
  }

  lemma TailIsBlank(tail: seq<Byte>)
    requires tail == [] || tail == [CR]
    ensures OnlyWhiteSpace(BeforeSemicolon(Lossy(tail)))
  {
    if tail == [CR] {
      LossyFirst('\r', []);
      assert [CR] + [] == tail;
      assert Lossy(tail) == "\r";
    }
  }

  lemma PartOfAChunk(chunk: Chunk, k: nat)
    requires chunk.Valid() && chunk.extension == [] && chunk.digits[0] != '0' && 0 < k < |chunk.Bytes()|
    ensures ChunkedBody(chunk.Bytes()[..k]).None?
  {
    if k <= |chunk.digits| + 1 {
      PartOfASizeLine(chunk, k);
    } else {
      hide SizeOf, Line;
      ValuedIsHexDigits(chunk.digits);
      var line := SizeLine(chunk.digits, []);
      var part := (chunk.data + CRLF)[..k - |line|];
      assert chunk.Bytes()[..k] == line + part;
      SizeLineReads(chunk.digits, [], part);
    }
  }

  lemma EmptyStream()
    ensures ChunkedBody([]) == Some(Body([], [], []))
  {
    assert Line([]) == Cut([], []);
    assert Lossy([]) == "" && BeforeSemicolon("") == "" && Trim("") == "";
  }

  /** Any part of the last chunk ends the body. */
  lemma PartOfTheLastChunk(k: nat)
    requires k <= |LAST_CHUNK|
    ensures ChunkedBody(LAST_CHUNK[..k]) == Some(Body(LAST_CHUNK[..k], [], []))
  {
    var s := LAST_CHUNK[..k];
    LastChunkIsASizeLine();
    if k == 0 {
      EmptyStream();
    } else if k <= 2 {
      hide SizeOf, LineEnd;
      var tail := if k == 1 then [] else [CR];
      assert s == Bytes("0") + tail;
      WholeLine(s, 0);
      TailIsBlank(tail);
      SizeOfDigits("0", tail, BeforeSemicolon(Lossy(tail)));
      assert Line(s) == Cut(s, []) && Line([]) == Cut([], []);
    } else {
      hide SizeOf, LineEnd;
      var rest := CRLF[..k - 3];
      assert s == SizeLine("0", []) + rest;
      SizeLineReads("0", [], rest);
      WholeLine(rest, 0);
      assert Line(rest) == Cut(rest, []);
    }
  }

  /** When the stream ends early, the reader notices it if and only if it ends inside a chunk; it then
      fails, and otherwise takes the chunks that arrived whole for the complete body. */
  lemma {:induction false} CutIsNoticedExactly(chunks: seq<seq<Byte>>, k: nat)
    requires Sized(chunks) && k <= |Written(Chunked, chunks) + LAST_CHUNK|
    ensures var cut := (Written(Chunked, chunks) + LAST_CHUNK)[..k];
            if InsideAChunk(chunks, k) then ChunkedBody(cut).None?
            else ChunkedBody(cut) == Some(Body(cut, Arrived(chunks, k), []))
  {
    hide ChunkedBody, WrittenChunk, AsChunk, Chunk.Valid, Chunk.Bytes;
    var all := Written(Chunked, chunks) + LAST_CHUNK;
    if chunks == [] {
      assert all == LAST_CHUNK;
      PartOfTheLastChunk(k);
    } else {
      var first, later := WrittenChunk(Chunked, chunks[0]), Written(Chunked, chunks[1..]) + LAST_CHUNK;
      assert all == first + later;
      if |first| <= k {
        CutIsNoticedExactly(chunks[1..], k - |first|);
        var cut := later[..k - |first|];
        assert all[..k] == first + cut;
        AfterTheFirst(chunks[0], cut);
      } else {
        assert all[..k] == first[..k];
        InTheFirst(chunks[0], k);
      }
    }
  }

  lemma AfterTheFirst(data: seq<Byte>, rest: seq<Byte>)
    requires |data| < USIZE
    ensures ChunkedBody(WrittenChunk(Chunked, data) + rest) == Following(WrittenChunk(Chunked, data), data, ChunkedBody(rest))
  {
    hide ChunkedBody;
    if data == [] {
      assert WrittenChunk(Chunked, data) + rest == rest;
      FollowingNothing(ChunkedBody(rest));
    } else {
      WrittenChunkIsAChunk(data);
      ChunkReads(AsChunk(data), rest);
    }
  }

  lemma InTheFirst(data: seq<Byte>, k: nat)
    requires |data| < USIZE && k < |WrittenChunk(Chunked, data)|
    ensures var part := WrittenChunk(Chunked, data)[..k];
            ChunkedBody(part) == if k == 0 then Some(Body([], [], [])) else None
  {
    hide ChunkedBody;
    WrittenChunkIsAChunk(data);
    HexHasItsValue(|data|);
    if k == 0 {
      EmptyStream();
    } else {
      PartOfAChunk(AsChunk(data), k);
    }
  }

  // ------------------------------------------------------------ the whole response

  lemma AsciiLine(s: string)
    requires Ascii(s) && '\r' !in s && s != ""
    ensures GoodLine(Bytes(s))
  {
  }

  lemma StatusLineIsGood(response: Response)
    requires response.Valid()
    ensures GoodLine(response.StatusLine())
  {
    DecimalIsDigits(response.status);
    AsciiLine("HTTP/1.1 " + Decimal(response.status) + " " + response.reason);
  }

  lemma FieldLineIsGood(field: Field)
    requires field.Valid()
    ensures GoodLine(field.Line())
  {
    FieldNameFacts(field.name);
    AsciiLine(field.name);
    AsciiLine(": ");
  }

  lemma {:induction false} CopiedLinesAreGood(fields: seq<Field>)
    requires forall i :: 0 <= i < |fields| ==> fields[i].Valid()
    ensures GoodLines(CopiedLines(fields))
  {
    hide GoodLine, Field.Line;
    if fields != [] {
      FieldLineIsGood(fields[0]);
      CopiedLinesAreGood(fields[1..]);
    }
  }

  lemma FramingLinesAreGood(isHead: bool, response: Response)
    requires response.Valid()
    ensures GoodLines(FramingLines(FramingOf(isHead, response)))
  {
    AsciiLine("transfer-encoding: chunked");
    AsciiLine("content-length: ");
    assert forall length :: VisibleAscii(length) ==> CR !in length;
  }

  lemma HeadLinesAreGood(isHead: bool, response: Response)
    requires response.Valid()
    ensures GoodLines(HeadLines(response, FramingOf(isHead, response)))
  {
    hide FramingOf, FramingLines, GoodLine;
    StatusLineIsGood(response);
    CopiedLinesAreGood(response.fields);
    FramingLinesAreGood(isHead, response);
    AsciiLine("connection: close");
  }

  /** A head and what follows it, as the reader takes them. */
  lemma MessageAfter(lines: seq<seq<Byte>>, rest: seq<Byte>)
    requires lines != [] && GoodLines(lines) && |HeadBytes(lines)| <= HEAD_LIMIT + 1
    ensures MessageIn(HeadBytes(lines) + rest) ==
      match BodyIn(rest, FieldsOf(lines))
      case None => Failed
      case Some(body) => Message(HttpMessage(HeadBytes(lines) + body.raw, Lossy(HeadBytes(lines)), FieldsOf(lines), body.decoded))
  {
    hide Head, HeadBytes, BodyIn, Lossy, SplitAtCrlf, GoodLines;
    HeadReads(lines, rest);
    FieldsAreFound(lines);
  }

  /** The name of the field a line carries. */
  function KeyOf(line: string): Option<string> {
    match Colon(line)
    case None => None
    case Some(at) => Some(AsciiLower(Trim(line[..at])))
  }

  lemma {:induction false} NotAmong(lines: seq<string>, key: string)
    requires forall i :: 0 <= i < |lines| ==> KeyOf(lines[i]) != Some(key)
    ensures key !in HeadersOf(lines)
  {
    if lines != [] {
      NotAmong(lines[..|lines| - 1], key);
    }
  }

  lemma FieldIsKept(name: string, value: seq<Byte>)
    requires FieldName(name)
    ensures KeyOf(Lossy(Bytes(name) + Bytes(": ") + value)) == Some(name)
    ensures forall headers: map<string, string> ::
      WithHeader(headers, Lossy(Bytes(name) + Bytes(": ") + value)) == headers[name := Trim(" " + Lossy(value))]
  {
    FieldNameFacts(name);
    var line := name + ": " + Lossy(value);
    assert Bytes(name) + Bytes(": ") + value == Bytes(name + ": ") + value;
    LossyKeepsAscii(name + ": ", value);
    assert line == name + ":" + (" " + Lossy(value));
    ColonAfter(name, " " + Lossy(value));
    assert line[..|name|] == name && line[|name| + 1..] == " " + Lossy(value);
  }

  lemma {:induction false} CopiedFieldsKeepClear(fields: seq<Field>, i: nat)
    requires (forall j :: 0 <= j < |fields| ==> fields[j].Valid()) && i < |CopiedLines(fields)|
    ensures KeyOf(Lossy(CopiedLines(fields)[i])) != Some("transfer-encoding")
  {
    hide KeyOf, Lossy;
    if fields[0].IsCopied() {
      FieldIsKept(fields[0].name, fields[0].value);
      if i > 0 {
        CopiedFieldsKeepClear(fields[1..], i - 1);
      }
    } else {
      CopiedFieldsKeepClear(fields[1..], i);
    }
  }

  function FieldLine(name: string, value: seq<Byte>): seq<Byte>
    requires Ascii(name)
  {
    Bytes(name) + Bytes(": ") + value
  }

  /** The framing field and `connection` come after the copied fields, and so decide. */
  lemma LastFieldsDecide(response: Response, framing: Framing, name: string, value: seq<Byte>)
    requires response.Valid() && FieldName(name) && FramingLines(framing) == [FieldLine(name, value)]
    ensures FieldsOf(HeadLines(response, framing))
         == HeadersOf(Texts(CopiedLines(response.fields)))[name := Trim(" " + Lossy(value))]["connection" := "close"]
  {
    hide WithHeader, Lossy, FieldLine, FramingLines, CopiedLines, Trim;
    var copied := CopiedLines(response.fields);
    var close := FieldLine("connection", Bytes("close"));
    ConnectionClose();
    var lines := HeadLines(response, framing);
    assert lines[1..] == copied + [FieldLine(name, value)] + [close];
    assert Texts(lines[1..]) == Texts(copied) + [Lossy(FieldLine(name, value))] + [Lossy(close)];
    OneMoreLine(Texts(copied), Lossy(FieldLine(name, value)));
    OneMoreLine(Texts(copied) + [Lossy(FieldLine(name, value))], Lossy(close));
    FieldLineIsRead(HeadersOf(Texts(copied)), name, value);
  }

  lemma FieldLineIsRead(headers: map<string, string>, name: string, value: seq<Byte>)
    requires FieldName(name)
    ensures WithHeader(headers, Lossy(FieldLine(name, value))) == headers[name := Trim(" " + Lossy(value))]
  {
    hide WithHeader, Lossy;
    FieldIsKept(name, value);
  }

  lemma BytesOfSum(a: string, b: string)
    requires Ascii(a) && Ascii(b)
    ensures Bytes(a + b) == Bytes(a) + Bytes(b)
  {
  }

  lemma TheFieldNames()
    ensures FieldName("connection") && FieldName("transfer-encoding") && FieldName("content-length")
    ensures Bytes("connection: close") == FieldLine("connection", Bytes("close"))
    ensures Bytes("transfer-encoding: chunked") == FieldLine("transfer-encoding", Bytes("chunked"))
    ensures Bytes("content-length: ") == Bytes("content-length") + Bytes(": ")
  {
    hide FieldName, Bytes;
    PlainNames();
    BytesOfSum("connection", ": ");
    BytesOfSum("connection: ", "close");
    BytesOfSum("transfer-encoding", ": ");
    BytesOfSum("transfer-encoding: ", "chunked");
    BytesOfSum("content-length", ": ");
    assert "connection" + ": " == "connection: " && "connection: " + "close" == "connection: close";
    assert "transfer-encoding" + ": " == "transfer-encoding: " && "transfer-encoding: " + "chunked" == "transfer-encoding: chunked";
    assert "content-length" + ": " == "content-length: ";
  }

  lemma PlainNames()
    ensures FieldName("connection") && FieldName("transfer-encoding") && FieldName("content-length")
  {
  }

  lemma ConnectionClose()
    ensures Bytes("connection: close") == FieldLine("connection", Bytes("close"))
    ensures forall headers: map<string, string> ::
      WithHeader(headers, Lossy(FieldLine("connection", Bytes("close")))) == headers["connection" := "close"]
  {
    hide WithHeader, Lossy, Trim, FieldName, KeyOf;
    LossyOfBytes("close");
    TrimAfterSpace("close");
    TheFieldNames();
    FieldIsKept("connection", Bytes("close"));
  }

  lemma LossyOfBytes(s: string)
    requires Ascii(s)
    ensures Lossy(Bytes(s)) == s
  {
    LossyKeepsAscii(s, []);
    assert Bytes(s) + [] == Bytes(s) && s + Lossy([]) == s;
  }

  lemma TrimAfterSpace(s: string)
    requires Trimmed(s)
    ensures Trim(" " + s) == s
  {
    assert (" " + s)[1..] == s;
    assert TrimStart(" " + s) == TrimStart(s);
    TrimOfTrimmed(s);
  }

  lemma {:induction false} NoSeparators(value: string, part: string)
    requires ',' !in value && ';' !in value
    ensures Parts(value, part) == [part + value]
  {
    if value == "" {
      assert part + value == part;
    } else {
      NoSeparators(value[1..], part + [value[0]]);
      assert part + [value[0]] + value[1..] == part + value;
    }
  }

  lemma ChunkedIsChunked(headers: map<string, string>)
    requires "transfer-encoding" in headers && headers["transfer-encoding"] == "chunked"
    ensures IsChunked(headers)
  {
    NoSeparators("chunked", "");
    assert "" + "chunked" == "chunked";
    TrimOfTrimmed("chunked");
    assert "chunked" in Parts("chunked", "");
  }

  lemma ChunkedHead(response: Response)
    requires response.Valid()
    ensures IsChunked(FieldsOf(HeadLines(response, Chunked)))
  {
    hide FieldsOf, HeadLines, IsChunked, Trim, Lossy, FieldName, FieldLine;
    TheFieldNames();
    LossyOfBytes("chunked");
    TrimAfterSpace("chunked");
    LastFieldsDecide(response, Chunked, "transfer-encoding", Bytes("chunked"));
    ChunkedIsChunked(FieldsOf(HeadLines(response, Chunked)));
  }

  lemma LengthHead(response: Response, length: seq<Byte>)
    requires response.Valid()
    ensures var fields := FieldsOf(HeadLines(response, Length(length)));
            !IsChunked(fields) && "content-length" in fields && fields["content-length"] == Trim(" " + Lossy(length))
  {
    hide FieldsOf, HeadLines, Lossy, Trim, KeyOf, CopiedLines, FieldName;
    TheFieldNames();
    LastFieldsDecide(response, Length(length), "content-length", length);
    var copied := CopiedLines(response.fields);
    forall i | 0 <= i < |copied|
      ensures KeyOf(Texts(copied)[i]) != Some("transfer-encoding")
    {
      CopiedFieldsKeepClear(response.fields, i);
    }
    NotAmong(Texts(copied), "transfer-encoding");
  }

  /** A response without a length is read back whole: the body is what arrived from the Gateway and
      the raw bytes are all that was written. When the connection closes after it, the same holds
      even if the Gateway's body had broken off: the reader cannot tell. */
  lemma ChunkedResponseReadsBack(isHead: bool, response: Response, rest: seq<Byte>)
    requires response.Valid() && FramingOf(isHead, response).Chunked?
    requires |ResponseHead(response, Chunked)| <= HEAD_LIMIT + 1
    requires response.complete || rest == []
    ensures
      var reading := MessageIn(Relayed(isHead, response) + rest);
      reading.Message? && reading.message.raw == Relayed(isHead, response) && reading.message.body == Concat(response.chunks)
  {
    hide HeadLines, FieldsOf, IsChunked, ChunkedBody, MessageIn, FramingOf, Written, HeadBytes;
    HeadLinesAreGood(isHead, response);
    ChunkedHead(response);
    var lines := HeadLines(response, Chunked);
    var body := Written(Chunked, response.chunks) + (if response.complete then LAST_CHUNK else []);
    assert Relayed(isHead, response) + rest == HeadBytes(lines) + (body + rest);
    MessageAfter(lines, body + rest);
    if response.complete {
      ChunkedRoundTrip(response.chunks, rest);
    } else {
      BrokenOffAtAChunk(response.chunks);
      assert body + rest == body && body == Written(Chunked, response.chunks);
    }
  }

  lemma BrokenOffAtAChunk(chunks: seq<seq<Byte>>)
    requires Sized(chunks)
    ensures ChunkedBody(Written(Chunked, chunks)) == Some(Body(Written(Chunked, chunks), Concat(chunks), []))
  {
    hide Written, ChunkedBody;
    var k := |Written(Chunked, chunks)|;
    CutIsNoticedExactly(chunks, k);
    AllArrived(chunks);
    assert (Written(Chunked, chunks) + LAST_CHUNK)[..k] == Written(Chunked, chunks);
  }

  lemma {:induction false} AllArrived(chunks: seq<seq<Byte>>)
    ensures var k := |Written(Chunked, chunks)|;
            !InsideAChunk(chunks, k) && Arrived(chunks, k) == Concat(chunks)
  {
    hide WrittenChunk;
    if chunks != [] {
      AllArrived(chunks[1..]);
    }
  }

  /** A response with a length is read back whole when its length is right; one whose body is shorter
      than announced is noticed when the connection closes. */
  lemma LengthResponseReadsBack(isHead: bool, response: Response, length: nat, rest: seq<Byte>)
    requires response.Valid() && FramingOf(isHead, response).Length?
    requires var text := FramingOf(isHead, response).length;
             FromText(Trim(" " + Lossy(text)), 10) == Some(length)
             && |ResponseHead(response, Length(text))| <= HEAD_LIMIT + 1
    ensures
      var reading := MessageIn(Relayed(isHead, response) + rest);
      && (length == |Concat(response.chunks)| ==>
            reading.Message? && reading.message.raw == Relayed(isHead, response) && reading.message.body == Concat(response.chunks))
      && (rest == [] ==> (reading.Failed? <==> length > |Concat(response.chunks)|))
  {
    hide HeadLines, FieldsOf, IsChunked, ChunkedBody, MessageIn, FramingOf, Written, HeadBytes, FromText, Lossy, Trim;
    var framing := FramingOf(isHead, response);
    HeadLinesAreGood(isHead, response);
    LengthHead(response, framing.length);
    var lines := HeadLines(response, framing);
    WrittenPlainly(framing, response.chunks);
    var body := Concat(response.chunks);
    assert Relayed(isHead, response) + rest == HeadBytes(lines) + (body + rest);
    MessageAfter(lines, body + rest);
    assert length == |body| ==> (body + rest)[..length] == body;
  }

  lemma {:induction false} WrittenPlainly(framing: Framing, chunks: seq<seq<Byte>>)
    requires !framing.Chunked?
    ensures Written(framing, chunks) == Concat(chunks)
  {
    if chunks != [] {
      WrittenPlainly(framing, chunks[1..]);
    }
  }
}
