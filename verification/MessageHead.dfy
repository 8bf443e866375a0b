/** The head of a message as its lines, and that the reader finds those lines again. */
module MessageHead {
  import opened HttpFraming
  import opened Text
  import opened Utf8
  import opened Wrappers

  predicate GoodLine(line: seq<Byte>) {
    line != [] && CR !in line
  }

  predicate GoodLines(lines: seq<seq<Byte>>) {
    forall i :: 0 <= i < |lines| ==> GoodLine(lines[i])
  }

  function Joined(lines: seq<seq<Byte>>): seq<Byte> {
    if lines == [] then [] else lines[0] + CRLF + Joined(lines[1..])
  }

  function HeadBytes(lines: seq<seq<Byte>>): seq<Byte> {
    Joined(lines) + CRLF
  }

  function Texts(lines: seq<seq<Byte>>): seq<string> {
    seq(|lines|, i requires 0 <= i < |lines| => Lossy(lines[i]))
  }

  // ------------------------------------------------------------ where the head ends

  lemma {:induction false} HeadEndIs(s: seq<Byte>, from: nat, n: nat)
    requires from < n <= |s| && n <= HEAD_LIMIT + 1 && EndsWithEmptyLine(s[..n])
    requires forall k :: from < k < n ==> !EndsWithEmptyLine(s[..k])
    ensures HeadEnd(s, from) == Some(n)
    decreases n - from
  {
    if from + 1 < n {
      HeadEndIs(s, from + 1, n);
    }
  }

  /** Two line breaks in a row come only at the end. */
  lemma {:induction false} BreaksMeetAtTheEnd(lines: seq<seq<Byte>>, p: nat)
    requires lines != [] && GoodLines(lines) && p + 4 <= |HeadBytes(lines)|
    ensures HeadBytes(lines)[p] == CR && HeadBytes(lines)[p + 2] == CR ==> p + 4 == |HeadBytes(lines)|
  {
    var s, first, later := HeadBytes(lines), lines[0], HeadBytes(lines[1..]);
    assert s == first + (CRLF + later);
    assert GoodLine(first);
    if p < |first| {
      assert s[p] == first[p] && first[p] in first;
    } else if p == |first| {
      assert s[p + 2] == later[0];
      assert |lines| > 1 ==> GoodLine(lines[1]) && later[0] == lines[1][0];
    } else if p == |first| + 1 {
      assert s[p] == LF;
    } else {
      var q := p - |first| - 2;
      assert s[p] == later[q] && s[p + 2] == later[q + 2];
      if |lines| > 1 {
        BreaksMeetAtTheEnd(lines[1..], q);
      }
    }
  }

  /** The reader takes the head and no more, unless it is too long. */
  lemma HeadReads(lines: seq<seq<Byte>>, rest: seq<Byte>)
    requires lines != [] && GoodLines(lines) && |HeadBytes(lines)| <= HEAD_LIMIT + 1
    ensures Head(HeadBytes(lines) + rest) == Some(Cut(HeadBytes(lines), rest))
  {
    var head := HeadBytes(lines);
    var s := head + rest;
    assert s[..|head|] == head && s[|head|..] == rest;
    LastBreaks(lines);
    forall k | 0 < k < |head|
      ensures !EndsWithEmptyLine(s[..k])
    {
      if 4 <= k {
        assert s[k - 4] == head[k - 4] && s[k - 2] == head[k - 2];
        BreaksMeetAtTheEnd(lines, k - 4);
      }
    }
    HeadEndIs(s, 0, |head|);
  }

  lemma {:induction false} NoHeadEnd(s: seq<Byte>, from: nat)
    requires from <= HEAD_LIMIT < |s| - 1 && forall k :: from < k <= HEAD_LIMIT + 1 ==> !EndsWithEmptyLine(s[..k])
    ensures HeadEnd(s, from).None?
    decreases HEAD_LIMIT - from
  {
    if from < HEAD_LIMIT {
      NoHeadEnd(s, from + 1);
    }
  }

  /** And one that is too long it does not take at all. */
  lemma HeadIsTooLong(lines: seq<seq<Byte>>, rest: seq<Byte>)
    requires lines != [] && GoodLines(lines) && |HeadBytes(lines)| > HEAD_LIMIT + 1
    ensures Head(HeadBytes(lines) + rest).None?
  {
    var head := HeadBytes(lines);
    var s := head + rest;
    forall k | 0 < k <= HEAD_LIMIT + 1
      ensures !EndsWithEmptyLine(s[..k])
    {
      if 4 <= k {
        assert s[k - 4] == head[k - 4] && s[k - 2] == head[k - 2];
        BreaksMeetAtTheEnd(lines, k - 4);
      }
    }
    NoHeadEnd(s, 0);
  }

  lemma {:induction false} LastBreaks(lines: seq<seq<Byte>>)
    requires lines != []
    ensures EndsWithEmptyLine(HeadBytes(lines))
  {
    if |lines| == 1 {
      assert HeadBytes(lines) == lines[0] + CRLF + [] + CRLF;
    } else {
      LastBreaks(lines[1..]);
      assert HeadBytes(lines) == lines[0] + CRLF + HeadBytes(lines[1..]);
    }
  }

  // ------------------------------------------------------------ the text of the head

  lemma {:induction false} NoBreakInside(bytes: seq<Byte>)
    requires CR !in bytes
    ensures '\r' !in Lossy(bytes)
  {
    if bytes != [] {
      DecodedIsNoBreak(bytes);
      NoBreakInside(bytes[Subpart(bytes)..]);
    }
  }

  lemma DecodedIsNoBreak(bytes: seq<Byte>)
    requires bytes != [] && bytes[0] != CR
    ensures Decoded(bytes) != '\r'
  {
  }

  lemma {:induction false} CutAfter(line: string, rest: string)
    requires '\r' !in line
    ensures CutAtCrlf(line + "\r\n" + rest) == (line, Some(rest))
  {
    if line != "" {
      assert (line + "\r\n" + rest)[0] == line[0];
      assert (line + "\r\n" + rest)[1..] == line[1..] + "\r\n" + rest;
      CutAfter(line[1..], rest);
      assert [line[0]] + line[1..] == line;
    } else {
      assert line + "\r\n" + rest == "\r\n" + rest;
    }
  }

  lemma LineSplits(line: string, rest: string)
    requires '\r' !in line
    ensures SplitAtCrlf(line + "\r\n" + rest) == [line] + SplitAtCrlf(rest)
  {
    CutAfter(line, rest);
  }

  lemma LossyBreak(rest: seq<Byte>)
    ensures Lossy(CRLF + rest) == "\r\n" + Lossy(rest)
  {
    LossyKeepsAscii("\r\n", rest);
    assert Bytes("\r\n") == CRLF;
  }

  lemma NoLines()
    ensures SplitAtCrlf(Lossy(HeadBytes([]))) == ["", ""]
  {
    LossyBreak([]);
    assert HeadBytes([]) == CRLF + [];
    LineSplits("", "");
    assert "" + "\r\n" + "" == "\r\n" + Lossy([]);
    assert SplitAtCrlf("") == [""];
  }

  /** The text of the head splits into the texts of its lines, and two empty ones. */
  lemma {:induction false} TextSplits(lines: seq<seq<Byte>>)
    requires GoodLines(lines)
    ensures SplitAtCrlf(Lossy(HeadBytes(lines))) == Texts(lines) + ["", ""]
  {
    hide SplitAtCrlf, Lossy;
    if lines == [] {
      NoLines();
    } else {
      var rest := HeadBytes(lines[1..]);
      assert HeadBytes(lines) == lines[0] + (CRLF + rest);
      LossySplits(lines[0], CRLF + rest);
      LossyBreak(rest);
      assert Lossy(HeadBytes(lines)) == Lossy(lines[0]) + "\r\n" + Lossy(rest);
      assert GoodLine(lines[0]);
      NoBreakInside(lines[0]);
      LineSplits(Lossy(lines[0]), Lossy(rest));
      TextSplits(lines[1..]);
      assert Texts(lines) == [Lossy(lines[0])] + Texts(lines[1..]);
    }
  }

  // ------------------------------------------------------------ the fields

  lemma EmptyLinesAreIgnored(lines: seq<string>)
    ensures HeadersOf(lines + ["", ""]) == HeadersOf(lines)
  {
    OneMoreLine(lines, "");
    OneMoreLine(lines + [""], "");
    assert lines + ["", ""] == lines + [""] + [""];
  }

  lemma OneMoreLine(lines: seq<string>, line: string)
    ensures HeadersOf(lines + [line]) == WithHeader(HeadersOf(lines), line)
  {
    assert (lines + [line])[..|lines|] == lines;
  }

  /** The fields the reader finds in a head. */
  function FieldsOf(lines: seq<seq<Byte>>): map<string, string>
    requires lines != []
  {
    HeadersOf(Texts(lines[1..]))
  }

  lemma FieldsAreFound(lines: seq<seq<Byte>>)
    requires lines != [] && GoodLines(lines)
    ensures HeadersOf(SplitAtCrlf(Lossy(HeadBytes(lines)))[1..]) == FieldsOf(lines)
  {
    hide HeadBytes, SplitAtCrlf, Lossy, HeadersOf;
    TextSplits(lines);
    EmptyLinesAreIgnored(Texts(lines[1..]));
    assert (Texts(lines) + ["", ""])[1..] == Texts(lines[1..]) + ["", ""];
  }

  lemma {:induction false} ColonAfter(name: string, value: string)
    requires ':' !in name
    ensures Colon(name + ":" + value) == Some(|name|)
  {
    if name != "" {
      assert (name + ":" + value)[1..] == name[1..] + ":" + value;
      ColonAfter(name[1..], value);
    }
  }

  predicate FieldChar(c: char) {
    33 <= c as int < 127 && c != ':' && !('A' <= c <= 'Z')
  }

  /** A field name: visible ASCII in lower case, without a colon. */
  predicate FieldName(name: string) {
    name != "" && forall i :: 0 <= i < |name| ==> FieldChar(name[i])
  }

  lemma FieldNameFacts(name: string)
    requires FieldName(name)
    ensures Ascii(name) && ':' !in name && '\r' !in name && Trim(name) == name && AsciiLower(name) == name
  {
    assert FieldChar(name[0]) && FieldChar(name[|name| - 1]);
    TrimOfTrimmed(name);
  }
}
