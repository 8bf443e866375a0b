/** Writing the Gateway's response back to a tool: a head with the framing it needs, then the body as
    it arrives; and that the reader of `HttpFraming` gets that body back. */
module ResponseRelay {
  import opened ChunkedCoding
  import opened HttpFraming
  import opened MessageHead
  import opened Numerals
  import opened Text
  import opened Utf8
  import opened Wrappers

  const HOP_BY_HOP := ["connection", "keep-alive", "proxy-authenticate", "proxy-authorization", "proxy-connection",
                       "te", "trailer", "transfer-encoding", "upgrade"]

  datatype Field = Field(name: string, value: seq<Byte>)
  {
    predicate Valid() {
      FieldName(name) && CR !in value
    }

    predicate IsCopied() {
      name !in HOP_BY_HOP && name != "content-length"
    }

    function Line(): seq<Byte>
      requires Valid()
    {
      FieldNameFacts(name);
      Bytes(name) + Bytes(": ") + value
    }
  }

  /** What the Gateway answers. Its chunks arrive one by one; `complete` says that the body did not
      break off after them. */
  datatype Response = Response(status: nat, reason: string, fields: seq<Field>, chunks: seq<seq<Byte>>, complete: bool)
  {
    /** What the HTTP client guarantees of it. */
    predicate Valid() {
      && Ascii(reason) && '\r' !in reason
      && (forall i :: 0 <= i < |fields| ==> fields[i].Valid())
      && (forall i :: 0 <= i < |chunks| ==> |chunks[i]| < USIZE)
    }

    function StatusLine(): seq<Byte>
      requires Valid()
    {
      DecimalIsDigits(status);
      Bytes("HTTP/1.1 " + Decimal(status) + " " + reason)
    }
  }

  datatype Framing = Length(length: seq<Byte>) | Chunked | NoBody(announced: Option<seq<Byte>>)

  function FieldValue(fields: seq<Field>, name: string): Option<seq<Byte>> {
    if fields == [] then None
    else if fields[0].name == name then Some(fields[0].value)
    else FieldValue(fields[1..], name)
  }

  predicate VisibleAscii(value: seq<Byte>) {
    forall i :: 0 <= i < |value| ==> 32 <= value[i] < 127 || value[i] == 9
  }

  function FramingOf(isHead: bool, response: Response): Framing {
    var field := FieldValue(response.fields, "content-length");
    var length := if field.Some? && VisibleAscii(field.value) then field else None;
    var bodiless := isHead || response.status == 204 || response.status == 304 || 100 <= response.status < 200;
    if bodiless then NoBody(length)
    else if length.Some? then Length(length.value)
    else Chunked
  }

  function CopiedLines(fields: seq<Field>): seq<seq<Byte>>
    requires forall i :: 0 <= i < |fields| ==> fields[i].Valid()
  {
    if fields == [] then []
    else (if fields[0].IsCopied() then [fields[0].Line()] else []) + CopiedLines(fields[1..])
  }

  function FramingLines(framing: Framing): seq<seq<Byte>> {
    match framing
    case Length(length) => [Bytes("content-length: ") + length]
    case Chunked => [Bytes("transfer-encoding: chunked")]
    case NoBody(Some(length)) => [Bytes("content-length: ") + length]
    case NoBody(None) => []
  }

  function HeadLines(response: Response, framing: Framing): (lines: seq<seq<Byte>>)
    requires response.Valid()
    ensures lines != []
  {
    [response.StatusLine()] + CopiedLines(response.fields) + FramingLines(framing) + [Bytes("connection: close")]
  }

  function ResponseHead(response: Response, framing: Framing): seq<Byte>
    requires response.Valid()
  {
    HeadBytes(HeadLines(response, framing))
  }

  // ------------------------------------------------------------ the body

  function Concat(chunks: seq<seq<Byte>>): seq<Byte> {
    if chunks == [] then [] else chunks[0] + Concat(chunks[1..])
  }

  function WrittenChunk(framing: Framing, chunk: seq<Byte>): seq<Byte> {
    if chunk == [] then []
    else if framing.Chunked? then HexBytes(|chunk|) + CRLF + chunk + CRLF
    else chunk
  }

  function HexBytes(n: nat): seq<Byte> {
    HexHasItsValue(n);
    ValuedIsHexDigits(Hex(n));
    HexDigitsAreAscii(Hex(n));
    Bytes(Hex(n))
  }

  function Written(framing: Framing, chunks: seq<seq<Byte>>): seq<Byte> {
    if chunks == [] then [] else WrittenChunk(framing, chunks[0]) + Written(framing, chunks[1..])
  }

  const LAST_CHUNK: seq<Byte> := Bytes("0\r\n\r\n")

  /** All that is written for a response. */
  function Relayed(isHead: bool, response: Response): seq<Byte>
    requires response.Valid()
  {
    var framing := FramingOf(isHead, response);
    ResponseHead(response, framing)
    + if framing.NoBody? then []
      else Written(framing, response.chunks) + (if framing.Chunked? && response.complete then LAST_CHUNK else [])
  }

  class Connection {
    var written: seq<Byte>

    constructor ()
      ensures written == []
    {
      written := [];
    }

    method Write(bytes: seq<Byte>)
      modifies this
      ensures written == old(written) + bytes
    {
      written := written + bytes;
    }
  }

  method WriteChunk(connection: Connection, framing: Framing, chunk: seq<Byte>)
    modifies connection
    ensures connection.written == old(connection.written) + WrittenChunk(framing, chunk)
  {
    if chunk == [] {
      assert connection.written + WrittenChunk(framing, chunk) == connection.written;
      return;
    }
    if framing.Chunked? {
      connection.Write(HexBytes(|chunk|) + CRLF);
      connection.Write(chunk);
      connection.Write(CRLF);
      assert connection.written == old(connection.written) + WrittenChunk(framing, chunk);
    } else {
      connection.Write(chunk);
    }
  }

  lemma {:induction false} WrittenOneMore(framing: Framing, chunks: seq<seq<Byte>>, i: nat)
    requires i < |chunks|
    ensures Written(framing, chunks[..i + 1]) == Written(framing, chunks[..i]) + WrittenChunk(framing, chunks[i])
  {
    hide WrittenChunk;
    assert chunks[..i + 1][1..] == chunks[1..][..i];
    if i > 0 {
      WrittenOneMore(framing, chunks[1..], i - 1);
      assert chunks[..i][1..] == chunks[1..][..i - 1];
    }
  }

  method RelayResponse(connection: Connection, isHead: bool, response: Response) returns (ok: bool)
    requires response.Valid()
    modifies connection
    ensures connection.written == old(connection.written) + Relayed(isHead, response)
    ensures ok <==> response.complete || FramingOf(isHead, response).NoBody?
  {
    hide ResponseHead, FramingOf, WrittenChunk, Written;
    var framing := FramingOf(isHead, response);
    var head := ResponseHead(response, framing);
    connection.Write(head);
    if framing.NoBody? {
      return true;
    }
    ghost var start := connection.written;
    NothingWritten(framing);
    for i := 0 to |response.chunks|
      invariant connection.written == start + Written(framing, response.chunks[..i])
    {
      WriteChunk(connection, framing, response.chunks[i]);
      WrittenOneMore(framing, response.chunks, i);
    }
    assert response.chunks[..|response.chunks|] == response.chunks;
    if !response.complete {
      return false;
    }
    if framing.Chunked? {
      connection.Write(LAST_CHUNK);
    }
    ok := true;
  }

  lemma NothingWritten(framing: Framing)
    ensures Written(framing, []) == []
  {
  }
}
