/** Reading one HTTP/1.1 message from a stream, keeping the bytes as they came: the head up to the
    first empty line, and a body framed by the chunked coding (section 7.1 of RFC 9112), by
    content-length, or absent. */
module HttpFraming {
  import opened Numerals
  import opened Text
  import opened Utf8
  import opened Wrappers

  const CR: Byte := 13
  const LF: Byte := 10
  const CRLF: seq<Byte> := [CR, LF]
  const HEAD_LIMIT := 1024 * 1024

  /** A connection, as everything that will arrive on it and how much has been read. */
  class ByteStream {
    const arriving: seq<Byte>
    var position: nat

    constructor (arriving: seq<Byte>)
      ensures Valid() && Rest() == arriving
    {
      this.arriving := arriving;
      position := 0;
    }

    ghost predicate Valid() reads this {
      position <= |arriving|
    }

    ghost function Rest(): seq<Byte> reads this requires Valid() {
      arriving[position..]
    }

    method ReadByte() returns (read: Option<Byte>)
      requires Valid()
      modifies this
      ensures Valid()
      ensures if old(Rest()) == [] then read.None? && Rest() == []
              else read == Some(old(Rest())[0]) && Rest() == old(Rest())[1..]
    {
      read := None;
      if position < |arriving| {
        read := Some(arriving[position]);
        position := position + 1;
      }
    }

    /** Fails at the end of the stream, whatever of it was read. */
    method ReadExact(count: nat) returns (read: Option<seq<Byte>>)
      requires Valid()
      modifies this
      ensures Valid()
      ensures if count <= |old(Rest())| then read == Some(old(Rest())[..count]) && Rest() == old(Rest())[count..]
              else read.None? && Rest() == []
    {
      if count <= |arriving| - position {
        read := Some(arriving[position..position + count]);
        assert Rest()[..count] == read.value && Rest()[count..] == arriving[position + count..];
        position := position + count;
        assert Rest() == arriving[position..];
      } else {
        read := None;
        position := |arriving|;
      }
    }
  }

  // ------------------------------------------------------------ lines

  predicate EndsWithCrlf(s: seq<Byte>) {
    |s| >= 2 && s[|s| - 2] == CR && s[|s| - 1] == LF
  }

  predicate EndsWithEmptyLine(s: seq<Byte>) {
    |s| >= 4 && EndsWithCrlf(s[..|s| - 2]) && EndsWithCrlf(s)
  }

  /** Where the line ends that starts the stream and of which `from` bytes have been read. */
  function LineEnd(s: seq<Byte>, from: nat): (n: nat)
    requires from <= |s|
    ensures from <= n <= |s| && (from < |s| ==> from < n)
    decreases |s| - from
  {
    if from == |s| then from
    else if EndsWithCrlf(s[..from + 1]) then from + 1
    else LineEnd(s, from + 1)
  }

  /** What is read, and what is left. */
  datatype Cut = Cut(taken: seq<Byte>, rest: seq<Byte>)

  function Line(s: seq<Byte>): (cut: Cut)
    ensures s == cut.taken + cut.rest
  {
    Cut(s[..LineEnd(s, 0)], s[LineEnd(s, 0)..])
  }

  method ReadLineCrlf(stream: ByteStream) returns (line: seq<Byte>)
    requires stream.Valid()
    modifies stream
    ensures stream.Valid()
    ensures Line(old(stream.Rest())) == Cut(line, stream.Rest())
  {
    ghost var s := stream.Rest();
    line := [];
    while true
      invariant stream.Valid() && |line| <= |s|
      invariant line == s[..|line|] && stream.Rest() == s[|line|..]
      invariant LineEnd(s, 0) == LineEnd(s, |line|)
      decreases |s| - |line|
    {
      var read := stream.ReadByte();
      if read.None? {
        break;
      }
      line := line + [read.value];
      if EndsWithCrlf(line) {
        break;
      }
    }
  }

  /** A line is the shortest prefix that ends in CRLF, or all there is. */
  lemma {:induction false} LineEndIs(s: seq<Byte>, from: nat, n: nat)
    requires from < n <= |s| && EndsWithCrlf(s[..n])
    requires forall k :: from < k < n ==> !EndsWithCrlf(s[..k])
    ensures LineEnd(s, from) == n
    decreases n - from
  {
    if from + 1 < n {
      LineEndIs(s, from + 1, n);
    }
  }

  /** A line whose content has no CR. */
  lemma LineOf(content: seq<Byte>, rest: seq<Byte>)
    requires CR !in content
    ensures Line(content + CRLF + rest) == Cut(content + CRLF, rest)
  {
    var s := content + CRLF + rest;
    forall k | 0 < k < |content| + 2
      ensures !EndsWithCrlf(s[..k])
    {
      assert 2 <= k ==> s[k - 2] in content;
    }
    LineEndIs(s, 0, |content| + 2);
  }

  // ------------------------------------------------------------ the chunked coding

  /** The text before the first `;`. */
  function BeforeSemicolon(s: string): string {
    if s == "" || s[0] == ';' then "" else [s[0]] + BeforeSemicolon(s[1..])
  }

  /** The size a line announces; one that cannot be read counts as zero. */
  function SizeOf(line: seq<Byte>): nat {
    match FromText(Trim(BeforeSemicolon(Lossy(line))), 16)
    case Some(size) => size
    case None => 0
  }

  /** What reading a body takes from the stream, what it makes of it, and what it leaves. */
  datatype Body = Body(raw: seq<Byte>, decoded: seq<Byte>, rest: seq<Byte>)

  /** What was read so far, followed by what is read after it. */
  function Following(raw: seq<Byte>, decoded: seq<Byte>, later: Option<Body>): Option<Body> {
    match later
    case None => None
    case Some(body) => Some(Body(raw + body.raw, decoded + body.decoded, body.rest))
  }

  function ChunkedBody(s: seq<Byte>): Option<Body>
    decreases |s|
  {
    var line := Line(s);
    var size := SizeOf(line.taken);
    if size == 0 then Some(Body(line.taken + Line(line.rest).taken, [], Line(line.rest).rest))
    else if |line.rest| < size + 2 then None
    else Following(line.taken + line.rest[..size + 2], line.rest[..size], ChunkedBody(line.rest[size + 2..]))
  }

  lemma FollowingNothing(later: Option<Body>)
    ensures Following([], [], later) == later
  {
    if later.Some? {
      assert [] + later.value.raw == later.value.raw && [] + later.value.decoded == later.value.decoded;
    }
  }

  lemma FollowingOneMore(raw: seq<Byte>, decoded: seq<Byte>, taken: seq<Byte>, chunk: seq<Byte>, later: Option<Body>)
    ensures Following(raw, decoded, Following(taken, chunk, later)) == Following(raw + taken, decoded + chunk, later)
  {
    if later.Some? {
      assert decoded + (chunk + later.value.decoded) == decoded + chunk + later.value.decoded;
      assert raw + (taken + later.value.raw) == raw + taken + later.value.raw;
    }
  }

  lemma {:induction false} ChunkedBodyIsCutOff(s: seq<Byte>)
    ensures ChunkedBody(s).Some? ==> s == ChunkedBody(s).value.raw + ChunkedBody(s).value.rest
    decreases |s|
  {
    hide SizeOf, LineEnd;
    var line := Line(s);
    var size := SizeOf(line.taken);
    if size == 0 {
      CutTwice(s, line.taken, line.rest, Line(line.rest).taken, Line(line.rest).rest);
    } else if size + 2 <= |line.rest| && ChunkedBody(s).Some? {
      ChunkedBodyIsCutOff(line.rest[size + 2..]);
      var later := ChunkedBody(line.rest[size + 2..]).value;
      CutTwice(line.rest, line.rest[..size + 2], line.rest[size + 2..], later.raw, later.rest);
      CutTwice(s, line.taken, line.rest, line.rest[..size + 2] + later.raw, later.rest);
      assert line.taken + (line.rest[..size + 2] + later.raw) == line.taken + line.rest[..size + 2] + later.raw;
    }
  }

  lemma CutTwice(s: seq<Byte>, a: seq<Byte>, b: seq<Byte>, c: seq<Byte>, d: seq<Byte>)
    requires s == a + b && b == c + d
    ensures s == a + c + d
  {
  }

  method ReadChunkedBody(stream: ByteStream) returns (read: Option<(seq<Byte>, seq<Byte>)>)
    requires stream.Valid()
    modifies stream
    ensures stream.Valid()
    ensures match ChunkedBody(old(stream.Rest()))
            case None => read.None?
            case Some(body) => read == Some((body.raw, body.decoded)) && stream.Rest() == body.rest
  {
    hide SizeOf, Line, Following;
    ghost var s := stream.Rest();
    FollowingNothing(ChunkedBody(s));
    var raw: seq<Byte>, decoded: seq<Byte> := [], [];
    while true
      invariant stream.Valid() && |raw| + |stream.Rest()| == |s|
      invariant ChunkedBody(s) == Following(raw, decoded, ChunkedBody(stream.Rest()))
      decreases |stream.Rest()|
    {
      var sizeLine := ReadLineCrlf(stream);
      ghost var rest := stream.Rest();
      var size := SizeOf(sizeLine);
      if size == 0 {
        var trailer := ReadLineCrlf(stream);
        FollowingTheEnd(raw, decoded, sizeLine, trailer, stream.Rest());
        raw := raw + sizeLine;
        raw := raw + trailer;
        break;
      }
      var chunk := stream.ReadExact(size + 2);
      if chunk.None? {
        FollowingNone(raw, decoded);
        return None;
      }
      FollowingOneMore(raw, decoded, sizeLine + chunk.value, chunk.value[..size], ChunkedBody(stream.Rest()));
      assert rest[..size] == chunk.value[..size];
      assert raw + (sizeLine + chunk.value) == raw + sizeLine + chunk.value;
      raw := raw + sizeLine;
      decoded := decoded + chunk.value[..size];
      raw := raw + chunk.value;
    }
    read := Some((raw, decoded));
  }

  lemma FollowingTheEnd(raw: seq<Byte>, decoded: seq<Byte>, line: seq<Byte>, trailer: seq<Byte>, rest: seq<Byte>)
    ensures Following(raw, decoded, Some(Body(line + trailer, [], rest))) == Some(Body(raw + line + trailer, decoded, rest))
  {
    assert raw + (line + trailer) == raw + line + trailer && decoded + [] == decoded;
  }

  lemma FollowingNone(raw: seq<Byte>, decoded: seq<Byte>)
    ensures Following(raw, decoded, None) == None
  {
  }

  // ------------------------------------------------------------ the head

  /** Where the head ends of which `from` bytes have been read; none once it grows past the limit. */
  function HeadEnd(s: seq<Byte>, from: nat): (n: Option<nat>)
    requires from <= |s|
    ensures n.Some? ==> from <= n.value <= |s|
    decreases |s| - from
  {
    if from == |s| then (if from == 0 then None else Some(from))
    else if EndsWithEmptyLine(s[..from + 1]) then Some(from + 1)
    else if from + 1 > HEAD_LIMIT then None
    else HeadEnd(s, from + 1)
  }

  function Head(s: seq<Byte>): (cut: Option<Cut>)
    ensures cut.Some? ==> s == cut.value.taken + cut.value.rest
  {
    match HeadEnd(s, 0)
    case None => None
    case Some(n) => Some(Cut(s[..n], s[n..]))
  }

  method ReadUntilHeaders(stream: ByteStream) returns (head: Option<seq<Byte>>)
    requires stream.Valid()
    modifies stream
    ensures stream.Valid()
    ensures match Head(old(stream.Rest()))
            case None => head.None?
            case Some(cut) => head == Some(cut.taken) && stream.Rest() == cut.rest
  {
    hide EndsWithEmptyLine;
    ghost var s := stream.Rest();
    assert s[0..] == s;
    var out: seq<Byte> := [];
    while true
      invariant stream.Valid() && |out| <= |s|
      invariant out == s[..|out|] && stream.Rest() == s[|out|..]
      invariant HeadEnd(s, 0) == HeadEnd(s, |out|)
      decreases |s| - |out|
    {
      var read := stream.ReadByte();
      if read.None? {
        if out == [] {
          head := None;
          return;
        }
        break;
      }
      out := out + [read.value];
      assert out == s[..|out|];
      if EndsWithEmptyLine(out) {
        break;
      }
      if |out| > HEAD_LIMIT {
        head := None;
        return;
      }
    }
    head := Some(out);
  }

  function AsciiLower(s: string): string {
    seq(|s|, i requires 0 <= i < |s| => if 'A' <= s[i] <= 'Z' then (s[i] as int + 32) as char else s[i])
  }

  /** The text up to the first CRLF, and the text after it if there is one. */
  function CutAtCrlf(s: string): (cut: (string, Option<string>))
    ensures cut.1.Some? ==> |cut.1.value| < |s|
  {
    if s == "" then ("", None)
    else if |s| >= 2 && s[0] == '\r' && s[1] == '\n' then ("", Some(s[2..]))
    else
      var (line, rest) := CutAtCrlf(s[1..]);
      ([s[0]] + line, rest)
  }

  function SplitAtCrlf(s: string): (lines: seq<string>)
    ensures lines != []
    decreases |s|
  {
    var (line, rest) := CutAtCrlf(s);
    if rest.None? then [line] else [line] + SplitAtCrlf(rest.value)
  }

  /** Where the first colon is. */
  function Colon(s: string): (at: Option<nat>)
    ensures at.Some? ==> at.value < |s| && s[at.value] == ':'
  {
    if s == "" then None
    else if s[0] == ':' then Some(0)
    else
      match Colon(s[1..])
      case Some(at) => Some(at + 1)
      case None => None
  }

  function WithHeader(headers: map<string, string>, line: string): map<string, string> {
    match Colon(line)
    case None => headers
    case Some(at) => headers[AsciiLower(Trim(line[..at])) := Trim(line[at + 1..])]
  }

  /** The last of several fields of one name counts. */
  function HeadersOf(lines: seq<string>): map<string, string> {
    if lines == [] then map[]
    else WithHeader(HeadersOf(lines[..|lines| - 1]), lines[|lines| - 1])
  }

  method ParseHeaders(text: string) returns (headers: map<string, string>)
    ensures headers == HeadersOf(SplitAtCrlf(text)[1..])
  {
    var lines := SplitAtCrlf(text)[1..];
    headers := map[];
    for i := 0 to |lines|
      invariant headers == HeadersOf(lines[..i])
    {
      assert lines[..i + 1][..i] == lines[..i];
      if lines[i] == "" {
        continue;
      }
      var colon := Colon(lines[i]);
      if colon.Some? {
        headers := headers[AsciiLower(Trim(lines[i][..colon.value])) := Trim(lines[i][colon.value + 1..])];
      }
    }
    assert lines[..|lines|] == lines;
  }

  // ------------------------------------------------------------ the message

  /** The parts of a value between commas and semicolons. */
  function Parts(value: string, part: string): seq<string> {
    if value == "" then [part]
    else if value[0] == ',' || value[0] == ';' then [part] + Parts(value[1..], "")
    else Parts(value[1..], part + [value[0]])
  }

  predicate ContainsToken(headers: map<string, string>, key: string, token: string) {
    key in headers && exists part :: part in Parts(headers[key], "") && AsciiLower(Trim(part)) == AsciiLower(token)
  }

  predicate IsChunked(headers: map<string, string>) {
    ContainsToken(headers, "transfer-encoding", "chunked")
  }

  function BodyIn(s: seq<Byte>, headers: map<string, string>): Option<Body>
  {
    if IsChunked(headers) then ChunkedBody(s)
    else if "content-length" in headers then
      match FromText(headers["content-length"], 10)
      case None => None
      case Some(length) => if length <= |s| then Some(Body(s[..length], s[..length], s[length..])) else None
    else Some(Body([], [], s))
  }

  lemma BodyIsCutOff(s: seq<Byte>, headers: map<string, string>)
    ensures BodyIn(s, headers).Some? ==> s == BodyIn(s, headers).value.raw + BodyIn(s, headers).value.rest
  {
    hide IsChunked;
    ChunkedBodyIsCutOff(s);
  }

  method ReadHttpBody(stream: ByteStream, headers: map<string, string>) returns (read: Option<(seq<Byte>, seq<Byte>)>)
    requires stream.Valid()
    modifies stream
    ensures stream.Valid()
    ensures match BodyIn(old(stream.Rest()), headers)
            case None => read.None?
            case Some(body) => read == Some((body.raw, body.decoded)) && stream.Rest() == body.rest
  {
    hide ChunkedBody;
    if IsChunked(headers) {
      read := ReadChunkedBody(stream);
      return;
    }
    if "content-length" in headers {
      var length := FromText(headers["content-length"], 10);
      if length.None? {
        return None;
      }
      var body := stream.ReadExact(length.value);
      read := if body.Some? then Some((body.value, body.value)) else None;
      return;
    }
    read := Some(([], []));
  }

  datatype HttpMessage = HttpMessage(raw: seq<Byte>, headerText: string, headers: map<string, string>, body: seq<Byte>)

  datatype Reading = Message(message: HttpMessage) | NoMessage | Failed

  function MessageIn(s: seq<Byte>): Reading {
    match Head(s)
    case None => NoMessage
    case Some(head) =>
      var text := Lossy(head.taken);
      var headers := HeadersOf(SplitAtCrlf(text)[1..]);
      match BodyIn(head.rest, headers)
      case None => Failed
      case Some(body) => Message(HttpMessage(head.taken + body.raw, text, headers, body.decoded))
  }

  /** Byte fidelity: whatever arrives, the raw bytes of a message that was read are exactly the bytes
      taken from the stream. */
  method ReadHttpMessage(stream: ByteStream) returns (reading: Reading)
    requires stream.Valid()
    modifies stream
    ensures stream.Valid() && reading == MessageIn(old(stream.Rest()))
    ensures reading.Message? ==> old(stream.Rest()) == reading.message.raw + stream.Rest()
  {
    hide Head, BodyIn;
    var head := ReadUntilHeaders(stream);
    if head.None? {
      return NoMessage;
    }
    BodyIsCutOff(stream.Rest(), HeadersOf(SplitAtCrlf(Lossy(head.value))[1..]));
    var text := Lossy(head.value);
    var headers := ParseHeaders(text);
    var body := ReadHttpBody(stream, headers);
    if body.None? {
      return Failed;
    }
    reading := Message(HttpMessage(head.value + body.value.0, text, headers, body.value.1));
  }
}
