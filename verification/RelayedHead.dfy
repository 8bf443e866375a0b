/** What a reader finds in the head of a relayed response: the fields of the Gateway that concern the
    message, the framing the relay chose, and nothing else. */
module RelayedHead {
  import opened HttpFraming
  import opened MessageHead
  import opened Numerals
  import opened ResponseRelay
  import opened ResponseRoundTrip
  import opened Text
  import opened Utf8
  import opened Wrappers

  /** A field that is about one connection, or about its framing, and not about the message. */
  predicate OfTheConnection(name: string) {
    || name == "connection" || name == "keep-alive" || name == "proxy-authenticate" || name == "proxy-authorization"
    || name == "proxy-connection" || name == "te" || name == "trailer" || name == "transfer-encoding" || name == "upgrade"
    || name == "content-length"
  }

  ghost predicate LastOfItsName(fields: seq<Field>, i: nat)
    requires i < |fields|
  {
    forall j :: i < j < |fields| ==> fields[j].name != fields[i].name
  }

  ghost predicate FirstOfItsName(fields: seq<Field>, i: nat)
    requires i < |fields|
  {
    forall j :: 0 <= j < i ==> fields[j].name != fields[i].name
  }

  /** The value a reader finds of a field: without the white space around it. */
  function Shown(value: seq<Byte>): string {
    Trim(" " + Lossy(value))
  }

  /** The fields a reader finds are those of the message, each with its last value. */
  ghost predicate MessageFields(fields: seq<Field>, headers: map<string, string>) {
    && (forall i :: 0 <= i < |fields| && !OfTheConnection(fields[i].name) && LastOfItsName(fields, i) ==>
          fields[i].name in headers && headers[fields[i].name] == Shown(fields[i].value))
    && (forall name :: name in headers && !OfTheConnection(name) ==> exists i :: 0 <= i < |fields| && fields[i].name == name)
  }

  /** Never a body, whatever the Gateway sends: the answer to HEAD, and the statuses without one. */
  predicate Bodiless(isHead: bool, status: nat) {
    isHead || status == 204 || status == 304 || 100 <= status < 200
  }

  /** The length the Gateway announces: its first content-length, when that is readable. */
  ghost predicate Announces(fields: seq<Field>, length: seq<Byte>) {
    exists i :: 0 <= i < |fields| && fields[i].name == "content-length" && FirstOfItsName(fields, i)
                && fields[i].value == length && VisibleAscii(length)
  }

  // ------------------------------------------------------------ the copied fields

  predicate AllFieldsValid(fields: seq<Field>) {
    forall i :: 0 <= i < |fields| ==> fields[i].Valid()
  }

  lemma {:induction false} OneMoreField(fields: seq<Field>, field: Field)
    requires AllFieldsValid(fields) && field.Valid()
    ensures CopiedLines(fields + [field]) == CopiedLines(fields) + (if field.IsCopied() then [field.Line()] else [])
  {
    hide Field.Line;
    if fields == [] {
      assert [] + [field] == [field];
    } else {
      assert (fields + [field])[1..] == fields[1..] + [field];
      OneMoreField(fields[1..], field);
    }
  }

  /** The copied lines carry exactly the fields of the message. */
  lemma {:induction false} CopiedFieldsAreFound(fields: seq<Field>)
    requires AllFieldsValid(fields)
    ensures var headers := HeadersOf(Texts(CopiedLines(fields)));
      && MessageFields(fields, headers) && forall name :: name in headers ==> !OfTheConnection(name)
  {
    if fields != [] {
      hide Lossy, CopiedLines, Shown, HeadersOf, WithHeader, MessageFields, OfTheConnection, Field.IsCopied, Field.Line, Texts;
      var front, last := fields[..|fields| - 1], fields[|fields| - 1];
      assert fields == front + [last];
      CopiedFieldsAreFound(front);
      OneMoreField(front, last);
      CopiedExactly(last);
      var copied := CopiedLines(front);
      var before := HeadersOf(Texts(copied));
      if !OfTheConnection(last.name) {
        OneMoreText(copied, last.Line());
        OneMoreLine(Texts(copied), Lossy(last.Line()));
        OneFieldMore(before, last);
        LastFieldIsFound(front, last, before);
      } else {
        assert copied + [] == copied;
        OtherFieldsStay(front, last, before);
      }
    } else {
      NoFields();
    }
  }

  lemma CopiedExactly(field: Field)
    ensures field.IsCopied() <==> !OfTheConnection(field.name)
  {
  }

  lemma OneMoreText(lines: seq<seq<Byte>>, line: seq<Byte>)
    ensures Texts(lines + [line]) == Texts(lines) + [Lossy(line)]
  {
    hide Lossy;
  }

  lemma NoFields()
    ensures HeadersOf(Texts(CopiedLines([]))) == map[]
  {
    assert Texts([]) == [];
  }

  lemma OneFieldMore(headers: map<string, string>, field: Field)
    requires field.Valid()
    ensures WithHeader(headers, Lossy(field.Line())) == headers[field.name := Shown(field.value)]
  {
    hide Lossy, Trim, WithHeader;
    FieldIsKept(field.name, field.value);
  }

  lemma LastFieldIsFound(front: seq<Field>, last: Field, headers: map<string, string>)
    requires MessageFields(front, headers)
    ensures MessageFields(front + [last], headers[last.name := Shown(last.value)])
  {
    hide Shown, OfTheConnection;
    var fields := front + [last];
    EarlierFields(front, last);
    forall name | name in headers[last.name := Shown(last.value)] && !OfTheConnection(name)
      ensures exists i :: 0 <= i < |fields| && fields[i].name == name
    {
      if name == last.name {
        assert fields[|front|].name == name;
      } else {
        var i :| 0 <= i < |front| && front[i].name == name;
        assert fields[i].name == name;
      }
    }
  }

  lemma EarlierFields(front: seq<Field>, last: Field)
    ensures var fields := front + [last];
      forall i :: 0 <= i < |front| && LastOfItsName(fields, i) ==> LastOfItsName(front, i) && front[i].name != last.name
  {
    var fields := front + [last];
    assert fields[|front|] == last;
    forall i | 0 <= i < |front| && LastOfItsName(fields, i)
      ensures LastOfItsName(front, i) && front[i].name != last.name
    {
      assert forall j :: i < j < |front| ==> fields[j] == front[j];
    }
  }

  lemma OtherFieldsStay(front: seq<Field>, last: Field, headers: map<string, string>)
    requires MessageFields(front, headers) && OfTheConnection(last.name)
    ensures MessageFields(front + [last], headers)
  {
    hide Shown;
    var fields := front + [last];
    EarlierFields(front, last);
    forall name | name in headers && !OfTheConnection(name)
      ensures exists i :: 0 <= i < |fields| && fields[i].name == name
    {
      var i :| 0 <= i < |front| && front[i].name == name;
      assert fields[i].name == name;
    }
  }

  // ------------------------------------------------------------ the framing

  lemma {:induction false} FirstFieldCounts(fields: seq<Field>, name: string)
    ensures FieldValue(fields, name).Some? <==> exists i :: 0 <= i < |fields| && fields[i].name == name
    ensures FieldValue(fields, name).Some? ==>
      exists i :: 0 <= i < |fields| && fields[i].name == name && FirstOfItsName(fields, i) && fields[i].value == FieldValue(fields, name).value
  {
    if fields != [] {
      FirstFieldCounts(fields[1..], name);
      if fields[0].name == name {
        assert FirstOfItsName(fields, 0);
      } else if FieldValue(fields, name).Some? {
        var i :| 0 <= i < |fields[1..]| && fields[1..][i].name == name && FirstOfItsName(fields[1..], i)
                 && fields[1..][i].value == FieldValue(fields, name).value;
        assert fields[i + 1] == fields[1..][i];
        forall j | 0 <= j < i + 1
          ensures fields[j].name != fields[i + 1].name
        {
          assert j > 0 ==> fields[j] == fields[1..][j - 1];
        }
        assert FirstOfItsName(fields, i + 1);
      } else {
        assert forall i :: 1 <= i < |fields| ==> fields[i] == fields[1..][i - 1];
      }
    }
  }

  /** The framing is a matter of the request, the status and the length the Gateway announces. */
  lemma FramingIsExact(isHead: bool, response: Response)
    ensures var framing := FramingOf(isHead, response);
      && (framing.NoBody? <==> Bodiless(isHead, response.status))
      && (framing.Length? ==> Announces(response.fields, framing.length))
      && (framing.NoBody? && framing.announced.Some? ==> Announces(response.fields, framing.announced.value))
      && (framing.Chunked? || framing == NoBody(None) ==> forall length :: !Announces(response.fields, length))
  {
    hide VisibleAscii;
    FirstFieldCounts(response.fields, "content-length");
    OneLengthIsAnnounced(response.fields);
  }

  lemma OneLengthIsAnnounced(fields: seq<Field>)
    ensures forall i, j ::
      (0 <= i < |fields| && 0 <= j < |fields| && fields[i].name == fields[j].name && FirstOfItsName(fields, i) && FirstOfItsName(fields, j)) ==>
        i == j
  {
  }

  // ------------------------------------------------------------ the head that is read

  /** The framing fields a reader finds. */
  predicate FramingFields(framing: Framing, headers: map<string, string>) {
    && "connection" in headers && headers["connection"] == "close"
    && ("transfer-encoding" in headers <==> framing.Chunked?)
    && (framing.Chunked? ==> headers["transfer-encoding"] == "chunked")
    && ("content-length" in headers <==> framing.Length? || (framing.NoBody? && framing.announced.Some?))
    && (framing.Length? ==> headers["content-length"] == Shown(framing.length))
    && (framing.NoBody? && framing.announced.Some? ==> headers["content-length"] == Shown(framing.announced.value))
    && (forall name :: name in headers && OfTheConnection(name) ==>
          name == "connection" || name == "transfer-encoding" || name == "content-length")
  }

  lemma OnlyCloseDecides(response: Response)
    requires response.Valid()
    ensures FieldsOf(HeadLines(response, NoBody(None))) == HeadersOf(Texts(CopiedLines(response.fields)))["connection" := "close"]
  {
    hide WithHeader, Lossy, FieldLine, CopiedLines, Trim;
    var copied := CopiedLines(response.fields);
    var close := FieldLine("connection", Bytes("close"));
    ConnectionClose();
    var lines := HeadLines(response, NoBody(None));
    assert lines[1..] == copied + [close];
    assert Texts(lines[1..]) == Texts(copied) + [Lossy(close)];
    OneMoreLine(Texts(copied), Lossy(close));
  }

  lemma FieldsOfTheHead(response: Response, framing: Framing)
    requires response.Valid()
    ensures var headers := FieldsOf(HeadLines(response, framing));
      MessageFields(response.fields, headers) && FramingFields(framing, headers)
  {
    hide FieldsOf, HeadLines, Lossy, Trim, FieldName, FieldLine, CopiedLines, HeadersOf, MessageFields, Texts, Shown;
    CopiedFieldsAreFound(response.fields);
    var copied := HeadersOf(Texts(CopiedLines(response.fields)));
    KeepsMessageFields(response.fields, copied, "connection", "close");
    match framing
    case Chunked =>
      ChunkedLine();
      LastFieldsDecide(response, framing, "transfer-encoding", Bytes("chunked"));
      WithFraming(response.fields, copied, framing, "transfer-encoding", "chunked");
    case Length(length) =>
      LengthLine(length);
      LastFieldsDecide(response, framing, "content-length", length);
      WithFraming(response.fields, copied, framing, "content-length", Shown(length));
    case NoBody(Some(length)) =>
      LengthLine(length);
      LastFieldsDecide(response, framing, "content-length", length);
      WithFraming(response.fields, copied, framing, "content-length", Shown(length));
    case NoBody(None) =>
      OnlyCloseDecides(response);
  }

  lemma KeepsMessageFields(fields: seq<Field>, headers: map<string, string>, name: string, value: string)
    requires MessageFields(fields, headers) && OfTheConnection(name)
    ensures MessageFields(fields, headers[name := value])
  {
    hide Shown;
  }

  lemma WithFraming(fields: seq<Field>, headers: map<string, string>, framing: Framing, name: string, value: string)
    requires MessageFields(fields, headers) && forall name :: name in headers ==> !OfTheConnection(name)
    requires match framing
             case Chunked => name == "transfer-encoding" && value == "chunked"
             case Length(length) => name == "content-length" && value == Shown(length)
             case NoBody(Some(length)) => name == "content-length" && value == Shown(length)
             case NoBody(None) => false
    ensures var all := headers[name := value]["connection" := "close"]; MessageFields(fields, all) && FramingFields(framing, all)
  {
    KeepsMessageFields(fields, headers, name, value);
    KeepsMessageFields(fields, headers[name := value], "connection", "close");
    hide Shown, MessageFields;
  }

  lemma ChunkedLine()
    ensures FieldName("transfer-encoding") && FramingLines(Chunked) == [FieldLine("transfer-encoding", Bytes("chunked"))]
    ensures Trim(" " + Lossy(Bytes("chunked"))) == "chunked"
  {
    hide FieldName, Bytes, Lossy, Trim;
    TheFieldNames();
    LossyOfBytes("chunked");
    TrimAfterSpace("chunked");
  }

  lemma LengthLine(length: seq<Byte>)
    ensures FieldName("content-length") && Ascii("content-length")
    ensures Bytes("content-length: ") + length == FieldLine("content-length", length)
    ensures Shown(length) == Trim(" " + Lossy(length))
  {
    hide FieldName, Bytes, Lossy, Trim;
    TheFieldNames();
    FieldNameFacts("content-length");
  }

  lemma FirstLineIsRead(lines: seq<seq<Byte>>)
    requires lines != [] && GoodLines(lines)
    ensures SplitAtCrlf(Lossy(HeadBytes(lines)))[0] == Lossy(lines[0])
  {
    hide HeadBytes, SplitAtCrlf, Lossy;
    TextSplits(lines);
  }

  lemma StatusLineIsRead(response: Response)
    requires response.Valid()
    ensures Lossy(response.StatusLine()) == "HTTP/1.1 " + Decimal(response.status) + " " + response.reason
  {
    DecimalIsDigits(response.status);
    LossyOfBytes("HTTP/1.1 " + Decimal(response.status) + " " + response.reason);
  }

  /** Of the fields about the connection there are only `connection: close` and the framing's: chunked
      exactly when there may be a body and no length is announced, otherwise the announced length. */
  ghost predicate ConnectionFields(fields: seq<Field>, bodiless: bool, headers: map<string, string>) {
    && "connection" in headers && headers["connection"] == "close"
    && ("transfer-encoding" in headers <==> !bodiless && forall length :: !Announces(fields, length))
    && ("transfer-encoding" in headers ==> headers["transfer-encoding"] == "chunked")
    && ("content-length" in headers <==> exists length :: Announces(fields, length))
    && ("content-length" in headers ==> exists length :: Announces(fields, length) && headers["content-length"] == Shown(length))
    && (forall name :: name in headers && OfTheConnection(name) ==>
          name == "connection" || name == "transfer-encoding" || name == "content-length")
  }

  lemma FramingIsShown(isHead: bool, response: Response, headers: map<string, string>)
    requires FramingFields(FramingOf(isHead, response), headers)
    ensures ConnectionFields(response.fields, Bodiless(isHead, response.status), headers)
  {
    FramingIsExact(isHead, response);
    hide FramingOf, Announces, Shown, OfTheConnection;
  }

  /** The head of every relayed response, as a reader finds it. Its status line is the Gateway's status
      and reason. Every field of the Gateway that is about the message is there, with its last value, and
      there is no other such field. The fields about the connection are the relay's own. And nothing follows
      the head where there may be no body. A head of more than a mebibyte and one byte is not read at all. */
  lemma HeadIsRelayed(isHead: bool, response: Response, rest: seq<Byte>)
    requires response.Valid()
    ensures Head(Relayed(isHead, response) + rest).Some? <==> |ResponseHead(response, FramingOf(isHead, response))| <= HEAD_LIMIT + 1
    ensures
      var relayed, head := Relayed(isHead, response), Head(Relayed(isHead, response) + rest);
      head.Some? ==>
      && head.value.taken <= relayed
      && var text := Lossy(head.value.taken);
         var headers := HeadersOf(SplitAtCrlf(text)[1..]);
         && SplitAtCrlf(text)[0] == "HTTP/1.1 " + Decimal(response.status) + " " + response.reason
         && MessageFields(response.fields, headers)
         && ConnectionFields(response.fields, Bodiless(isHead, response.status), headers)
         && (Bodiless(isHead, response.status) ==> head.value.taken == relayed)
         && var reading := MessageIn(relayed + rest);
            reading.Message? ==> reading.message.headers == headers && reading.message.headerText == text
  {
    hide Relayed, HeadLines, FramingOf, HeadBytes, HeadersOf, SplitAtCrlf, Lossy, Head, MessageIn, MessageFields, ConnectionFields, FieldsOf, Bodiless;
    hide Response.StatusLine, GoodLines;
    var framing := FramingOf(isHead, response);
    var lines := HeadLines(response, framing);
    HeadIsTaken(isHead, response, rest);
    StatusLineIsRead(response);
    FieldsOfTheHead(response, framing);
    FramingIsShown(isHead, response, FieldsOf(lines));
    if Head(Relayed(isHead, response) + rest).Some? && MessageIn(Relayed(isHead, response) + rest).Message? {
      ReadingHasTheHead(Relayed(isHead, response) + rest);
    }
  }

  lemma HeadIsTaken(isHead: bool, response: Response, rest: seq<Byte>)
    requires response.Valid()
    ensures
      var lines, relayed := HeadLines(response, FramingOf(isHead, response)), Relayed(isHead, response);
      && (Head(relayed + rest).Some? <==> |HeadBytes(lines)| <= HEAD_LIMIT + 1)
      && (Head(relayed + rest).Some? ==> Head(relayed + rest).value.taken == HeadBytes(lines)) && HeadBytes(lines) <= relayed
      && (Bodiless(isHead, response.status) ==> relayed == HeadBytes(lines))
      && SplitAtCrlf(Lossy(HeadBytes(lines)))[0] == Lossy(response.StatusLine())
      && HeadersOf(SplitAtCrlf(Lossy(HeadBytes(lines)))[1..]) == FieldsOf(lines)
  {
    hide Relayed, HeadLines, FramingOf, HeadBytes, HeadersOf, SplitAtCrlf, Lossy, Head, FieldsOf, Response.StatusLine, Announces, GoodLines;
    var lines := HeadLines(response, FramingOf(isHead, response));
    HeadLinesAreGood(isHead, response);
    FirstLine(response, FramingOf(isHead, response));
    FramingIsExact(isHead, response);
    var body := RelayedBody(isHead, response);
    FirstLineIsRead(lines);
    FieldsAreFound(lines);
    assert Relayed(isHead, response) + rest == HeadBytes(lines) + (body + rest);
    if |HeadBytes(lines)| <= HEAD_LIMIT + 1 {
      HeadReads(lines, body + rest);
    } else {
      HeadIsTooLong(lines, body + rest);
    }
  }

  lemma RelayedBody(isHead: bool, response: Response) returns (body: seq<Byte>)
    requires response.Valid()
    ensures Relayed(isHead, response) == HeadBytes(HeadLines(response, FramingOf(isHead, response))) + body
    ensures FramingOf(isHead, response).NoBody? ==> body == []
  {
    hide HeadLines, FramingOf, HeadBytes, Written;
    var framing := FramingOf(isHead, response);
    body := if framing.NoBody? then [] else Written(framing, response.chunks) + (if framing.Chunked? && response.complete then LAST_CHUNK else []);
  }

  lemma ReadingHasTheHead(s: seq<Byte>)
    requires Head(s).Some? && MessageIn(s).Message?
    ensures var text := Lossy(Head(s).value.taken);
            MessageIn(s).message.headerText == text && MessageIn(s).message.headers == HeadersOf(SplitAtCrlf(text)[1..])
  {
    hide Head, BodyIn, HeadersOf, SplitAtCrlf, Lossy;
  }

  lemma FirstLine(response: Response, framing: Framing)
    requires response.Valid()
    ensures HeadLines(response, framing)[0] == response.StatusLine()
  {
  }
}
