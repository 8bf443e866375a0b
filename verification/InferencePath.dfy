/** Which request targets the local proxy forwards to the Gateway: those whose path stays under
    `/v1` however often it is percent-decoded and whenever dot segments are removed from it. */
module InferencePath {
  import opened Numerals
  import opened Utf8
  import opened Wrappers

  const DECODE_ROUNDS: nat := 3

  predicate IsEscape(s: string) {
    |s| >= 3 && s[0] == '%' && DigitValue(s[1], 16).Some? && DigitValue(s[2], 16).Some?
  }

  /** The bytes of a string with every escape replaced by the byte it stands for. */
  function PercentDecoded(s: string): seq<Byte> {
    if s == "" then []
    else if IsEscape(s) then [Escaped(s)] + PercentDecoded(s[3..])
    else Encoded(s[0]) + PercentDecoded(s[1..])
  }

  function Escaped(s: string): Byte
    requires IsEscape(s)
  {
    DigitsAreSmall(s[1]);
    DigitsAreSmall(s[2]);
    DigitValue(s[1], 16).value * 16 + DigitValue(s[2], 16).value
  }

  lemma DigitsAreSmall(c: char)
    ensures DigitValue(c, 16).Some? ==> DigitValue(c, 16).value < 16
  {
  }

  function Decode(path: string): string {
    Lossy(PercentDecoded(path))
  }

  function DecodedWithin(path: string, roundsLeft: nat): Option<string>
    decreases roundsLeft
  {
    var decoded := Decode(path);
    if decoded == path then Some(decoded)
    else if roundsLeft == 0 then None
    else DecodedWithin(decoded, roundsLeft - 1)
  }

  function UpTo(s: string, mark: char): string {
    if s == "" || s[0] == mark then "" else [s[0]] + UpTo(s[1..], mark)
  }

  predicate IsInferencePath(path: string) {
    path == "/v1" || "/v1/" <= path
  }

  function Segments(path: string): (segments: seq<string>)
    ensures segments != []
  {
    if path == "" then [""]
    else if path[0] == '/' then [""] + Segments(path[1..])
    else
      var later := Segments(path[1..]);
      [[path[0]] + later[0]] + later[1..]
  }

  predicate HasDotSegment(path: string) {
    "." in Segments(path) || ".." in Segments(path)
  }

  /** `routePath` is the path the URL parser finds in the target. */
  predicate IsInferenceTarget(target: string, routePath: string) {
    var rawPath := UpTo(target, '?');
    && IsInferencePath(rawPath) && IsInferencePath(routePath)
    && var decoded := DecodedWithin(rawPath, DECODE_ROUNDS);
       decoded.Some? && IsInferencePath(decoded.value) && '\\' !in decoded.value && !HasDotSegment(decoded.value)
  }

  // ------------------------------------------------------------ decoding

  function Escapes(s: string): nat {
    if s == "" then 0
    else if IsEscape(s) then 1 + Escapes(s[3..])
    else Escapes(s[1..])
  }

  /** Each escape decoded shortens the path by at least two characters; without any it stays. */
  lemma {:induction false} DecodingShortens(s: string)
    ensures |Decode(s)| <= |s| - 2 * Escapes(s)
    ensures Escapes(s) == 0 ==> Decode(s) == s
  {
    if s == "" {
    } else if IsEscape(s) {
      DecodingShortens(s[3..]);
      OneMoreByte(Escaped(s), PercentDecoded(s[3..]));
    } else {
      DecodingShortens(s[1..]);
      LossyKeepsEncoded(s[0], PercentDecoded(s[1..]));
    }
  }

  /** A fixed point of decoding is a path without escapes. */
  lemma FixedExactlyWithoutEscapes(s: string)
    ensures Decode(s) == s <==> Escapes(s) == 0
  {
    DecodingShortens(s);
  }

  function Decodes(path: string, rounds: nat): string
    decreases rounds
  {
    if rounds == 0 then path else Decodes(Decode(path), rounds - 1)
  }

  lemma {:induction false} FixedStays(path: string, rounds: nat)
    requires Decode(path) == path
    ensures Decodes(path, rounds) == path
    decreases rounds
  {
    if rounds > 0 {
      FixedStays(path, rounds - 1);
    }
  }

  /** The bounded decoding succeeds exactly when that many rounds reach a path without escapes, and
      then finds that path. */
  lemma {:induction false} DecodedWithinExactly(path: string, rounds: nat)
    ensures DecodedWithin(path, rounds)
         == if Escapes(Decodes(path, rounds)) == 0 then Some(Decodes(path, rounds)) else None
    decreases rounds
  {
    hide Decode, Escapes;
    FixedExactlyWithoutEscapes(path);
    if Decode(path) == path {
      FixedStays(path, rounds);
    } else if rounds > 0 {
      DecodedWithinExactly(Decode(path), rounds - 1);
    }
  }

  // ------------------------------------------------------------ segments

  lemma {:induction false} SegmentsOfSum(a: string, b: string)
    ensures Segments(a + "/" + b) == Segments(a) + Segments(b)
  {
    hide Segments;
    var all := a + "/" + b;
    FirstSegment(all);
    FirstSegment(a);
    if a == "" {
      assert all[1..] == b;
    } else {
      assert all[1..] == a[1..] + "/" + b && all[0] == a[0];
      SegmentsOfSum(a[1..], b);
      assert (Segments(a[1..]) + Segments(b))[1..] == Segments(a[1..])[1..] + Segments(b);
    }
  }

  lemma FirstSegment(s: string)
    ensures Segments(s) ==
      if s == "" then [""]
      else if s[0] == '/' then [""] + Segments(s[1..])
      else [[s[0]] + Segments(s[1..])[0]] + Segments(s[1..])[1..]
  {
  }

  predicate Slash(c: char) {
    c == '/' || c == '\\'
  }

  /** Escapes do not cross a slash. */
  lemma {:induction false} PercentDecodedOfSum(a: string, slash: char, b: string)
    requires Slash(slash)
    ensures PercentDecoded(a + [slash] + b) == PercentDecoded(a) + ([slash as int] + PercentDecoded(b))
  {
    hide IsEscape, Escaped, Encoded, PercentDecoded;
    var all := a + [slash] + b;
    FirstDecoded(all);
    FirstDecoded(a);
    EscapesStayInside(a, slash, b);
    if a == "" {
      assert all[1..] == b;
    } else if IsEscape(a) {
      assert all[3..] == a[3..] + [slash] + b;
      PercentDecodedOfSum(a[3..], slash, b);
    } else {
      assert all[1..] == a[1..] + [slash] + b && all[0] == a[0];
      PercentDecodedOfSum(a[1..], slash, b);
    }
  }

  lemma FirstDecoded(s: string)
    ensures IsEscape(s) ==> |s| >= 3
    ensures PercentDecoded(s) ==
      if s == "" then []
      else if IsEscape(s) then [Escaped(s)] + PercentDecoded(s[3..])
      else Encoded(s[0]) + PercentDecoded(s[1..])
  {
  }

  lemma EscapesStayInside(a: string, slash: char, b: string)
    requires Slash(slash)
    ensures var all := a + [slash] + b;
      if a == "" then !IsEscape(all) && Encoded(all[0]) == [slash as int]
      else IsEscape(all) == IsEscape(a) && (IsEscape(a) ==> |a| >= 3 && Escaped(all) == Escaped(a))
  {
    assert DigitValue(slash, 16).None?;
  }

  lemma DecodeOfSum(a: string, slash: char, b: string)
    requires Slash(slash)
    ensures Decode(a + [slash] + b) == Decode(a) + [slash] + Decode(b)
  {
    hide Lossy, PercentDecoded;
    PercentDecodedOfSum(a, slash, b);
    LossySplits(PercentDecoded(a), [slash as int] + PercentDecoded(b));
    LossyOfSlash(slash, PercentDecoded(b));
    assert Decode(a) + ([slash] + Decode(b)) == Decode(a) + [slash] + Decode(b);
  }

  lemma LossyOfSlash(slash: char, rest: seq<Byte>)
    requires Slash(slash)
    ensures Lossy([slash as int] + rest) == [slash] + Lossy(rest)
  {
    LossyKeepsAscii([slash], rest);
    assert Bytes([slash]) == [slash as int];
  }

  // ------------------------------------------------------------ dot segments (section 5.2.4 of RFC 3986)

  function WithoutLastSegment(output: string): string {
    if output == "" then ""
    else if output[|output| - 1] == '/' then output[..|output| - 1]
    else WithoutLastSegment(output[..|output| - 1])
  }

  /** The first segment with the slash before it, if any. */
  function FirstLength(input: string): (n: nat)
    requires input != ""
    ensures 1 <= n <= |input| && (n < |input| ==> input[n] == '/')
  {
    if |input| == 1 || input[1] == '/' then 1 else 1 + FirstLength(input[1..])
  }

  function RemoveDots(input: string, output: string): string
    decreases |input|
  {
    if input == "" then output
    else if "../" <= input then RemoveDots(input[3..], output)
    else if "./" <= input then RemoveDots(input[2..], output)
    else if "/./" <= input then RemoveDots(input[2..], output)
    else if input == "/." then RemoveDots("/", output)
    else if "/../" <= input then RemoveDots(input[3..], WithoutLastSegment(output))
    else if input == "/.." then RemoveDots("/", WithoutLastSegment(output))
    else if input == "." || input == ".." then output
    else
      var n := FirstLength(input);
      RemoveDots(input[n..], output + input[..n])
  }

  function WithoutDotSegments(path: string): string {
    RemoveDots(path, "")
  }

  /** The segments after the first one, when the path starts with it. */
  lemma SegmentsAfter(path: string, first: string)
    requires first + "/" <= path && '/' !in first
    ensures Segments(path) == [first] + Segments(path[|first| + 1..])
  {
    assert path == first + "/" + path[|first| + 1..];
    SegmentsOfSum(first, path[|first| + 1..]);
    OneSegment(first);
  }

  lemma {:induction false} OneSegment(s: string)
    requires '/' !in s
    ensures Segments(s) == [s]
  {
    hide Segments;
    FirstSegment(s);
    if s != "" {
      OneSegment(s[1..]);
      assert [s[0]] + s[1..] == s;
    }
  }

  lemma {:induction false} FirstIsOne(input: string)
    requires input != ""
    ensures var n := FirstLength(input); '/' !in input[1..n]
  {
    if |input| > 1 && input[1] != '/' {
      FirstIsOne(input[1..]);
      var n := FirstLength(input);
      assert input[1..n] == [input[1]] + input[1..][1..n - 1];
    }
  }

  /** Where no dot segment is, nothing is removed. */
  lemma {:induction false} NothingToRemove(input: string, output: string)
    requires !HasDotSegment(input)
    ensures RemoveDots(input, output) == output + input
    decreases |input|
  {
    hide Segments, FirstLength, RemoveDots;
    NoDotsAhead(input);
    RemoveDotsUnfolds(input, output);
    if input == "" {
      assert output + input == output;
    } else {
      var n := FirstLength(input);
      DotsAfterTheFirst(input);
      NothingToRemove(input[n..], output + input[..n]);
      assert output + input[..n] + input[n..] == output + input;
    }
  }

  predicate StartsWithDots(input: string) {
    || "../" <= input || "./" <= input || "/./" <= input || input == "/."
    || "/../" <= input || input == "/.." || input == "." || input == ".."
  }

  lemma RemoveDotsUnfolds(input: string, output: string)
    requires !StartsWithDots(input)
    ensures RemoveDots(input, output) ==
      if input == "" then output else RemoveDots(input[FirstLength(input)..], output + input[..FirstLength(input)])
  {
  }

  lemma NoDotsAhead(input: string)
    requires !HasDotSegment(input)
    ensures !StartsWithDots(input)
  {
    hide Segments;
    OneSegment("");
    OneSegment(".");
    OneSegment("..");
    if "../" <= input { SegmentsAfter(input, ".."); }
    if "./" <= input { SegmentsAfter(input, "."); }
    if "/" <= input {
      SegmentsAfter(input, "");
      var later := input[1..];
      if "./" <= later { SegmentsAfter(later, "."); }
      if "../" <= later { SegmentsAfter(later, ".."); }
      assert input == "/" + later;
    }
  }

  /** What is left after the first segment has no dot segment either. */
  lemma DotsAfterTheFirst(input: string)
    requires !HasDotSegment(input) && input != ""
    ensures !HasDotSegment(input[FirstLength(input)..])
  {
    hide Segments, FirstLength;
    var n := FirstLength(input);
    FirstIsOne(input);
    if n < |input| {
      var later := input[n + 1..];
      assert input == input[..n] + "/" + later && input[n..] == "" + "/" + later;
      SegmentsOfSum(input[..n], later);
      SegmentsOfSum("", later);
      OneSegment("");
    } else {
      assert input[n..] == "";
      OneSegment("");
    }
  }

  // ------------------------------------------------------------ what a server may do with the path

  /** A path the proxy may forward: under `/v1`, with no backslash and no dot segment. */
  predicate Contained(path: string) {
    IsInferencePath(path) && '\\' !in path && !HasDotSegment(path)
  }

  /** Slashes, and with them segments, outlive decoding. */
  lemma {:induction false} DecodingKeepsDotSegments(path: string, dots: string)
    requires dots in {".", ".."} && dots in Segments(path)
    ensures dots in Segments(Decode(path))
  {
    hide Segments, Decode, Escapes;
    var at := FirstSlash(path);
    if at == |path| {
      OneSegment(path);
      DotsStay(path);
    } else {
      var first, later := path[..at], path[at + 1..];
      assert path == first + "/" + later;
      SegmentsOfSum(first, later);
      OneSegment(first);
      DecodeOfSum(first, '/', later);
      SegmentsOfSum(Decode(first), Decode(later));
      if first == dots {
        DotsStay(dots);
        OneSegment(dots);
      } else {
        DecodingKeepsDotSegments(later, dots);
      }
    }
  }

  function FirstSlash(path: string): (n: nat)
    ensures n <= |path| && '/' !in path[..n] && (n < |path| ==> path[n] == '/')
  {
    if path == "" || path[0] == '/' then 0
    else
      var later := FirstSlash(path[1..]);
      assert path[..later + 1] == [path[0]] + path[1..][..later];
      1 + later
  }

  lemma DotsStay(dots: string)
    requires dots in {".", ".."}
    ensures Decode(dots) == dots
  {
    assert Escapes(dots) == 0;
    DecodingShortens(dots);
  }

  lemma DecodingKeepsBackslash(path: string)
    requires '\\' in path
    ensures '\\' in Decode(path)
  {
    var i :| 0 <= i < |path| && path[i] == '\\';
    assert path == path[..i] + ['\\'] + path[i + 1..];
    DecodeOfSum(path[..i], '\\', path[i + 1..]);
  }

  lemma DecodingKeepsPrefix(path: string)
    requires IsInferencePath(path)
    ensures IsInferencePath(Decode(path))
  {
    assert Escapes("/v1") == 0;
    DecodingShortens("/v1");
    if path != "/v1" {
      assert path == "/v1" + ['/'] + path[4..];
      DecodeOfSum("/v1", '/', path[4..]);
    }
  }

  /** A path whose decoding has no backslash and no dot segment has none itself. */
  lemma ContainedBefore(path: string)
    requires IsInferencePath(path) && '\\' !in Decode(path) && !HasDotSegment(Decode(path))
    ensures Contained(path) && IsInferencePath(Decode(path))
  {
    DecodingKeepsPrefix(path);
    if '\\' in path { DecodingKeepsBackslash(path); }
    if "." in Segments(path) { DecodingKeepsDotSegments(path, "."); }
    if ".." in Segments(path) { DecodingKeepsDotSegments(path, ".."); }
  }

  datatype Step = PercentDecode | RemoveDotSegments

  /** What any server on the way may make of a path. */
  function Handled(path: string, steps: seq<Step>): string
    decreases |steps|
  {
    if steps == [] then path
    else Handled(if steps[0].PercentDecode? then Decode(path) else WithoutDotSegments(path), steps[1..])
  }

  function Decodings(steps: seq<Step>): nat {
    if steps == [] then 0 else (if steps[0].PercentDecode? then 1 else 0) + Decodings(steps[1..])
  }

  /** Along every handling the path stays contained, and after `rounds` decodings it no longer changes. */
  lemma {:induction false} HandlingContains(path: string, rounds: nat, steps: seq<Step>)
    requires IsInferencePath(path) && Escapes(Decodes(path, rounds)) == 0
    requires '\\' !in Decodes(path, rounds) && !HasDotSegment(Decodes(path, rounds))
    ensures Contained(Handled(path, steps))
    ensures Decodings(steps) >= rounds ==> Handled(path, steps) == Decodes(path, rounds)
    decreases |steps|
  {
    hide Decode, Segments, WithoutDotSegments, Escapes, IsInferencePath;
    RoundsContain(path, rounds);
    if steps != [] {
      if steps[0].PercentDecode? {
        DecodingKeepsPrefix(path);
        if rounds == 0 {
          FixedExactlyWithoutEscapes(path);
          HandlingContains(path, 0, steps[1..]);
        } else {
          HandlingContains(Decode(path), rounds - 1, steps[1..]);
        }
      } else {
        NothingRemoved(path);
        HandlingContains(path, rounds, steps[1..]);
      }
    }
  }

  lemma NothingRemoved(path: string)
    requires !HasDotSegment(path)
    ensures WithoutDotSegments(path) == path
  {
    NothingToRemove(path, "");
    assert "" + path == path;
  }

  lemma {:induction false} RoundsContain(path: string, rounds: nat)
    requires IsInferencePath(path)
    requires '\\' !in Decodes(path, rounds) && !HasDotSegment(Decodes(path, rounds))
    ensures Contained(path)
    decreases rounds
  {
    hide Decode, Segments, IsInferencePath;
    if rounds > 0 {
      DecodingKeepsPrefix(path);
      RoundsContain(Decode(path), rounds - 1);
      ContainedBefore(path);
    }
  }

  /** Which targets are accepted: those under `/v1`, to the URL parser too, that three decodings free
      of all escapes without laying open a backslash or a dot segment. */
  lemma AcceptsExactly(target: string, routePath: string)
    ensures IsInferenceTarget(target, routePath) <==>
      var path := UpTo(target, '?');
      && IsInferencePath(path) && IsInferencePath(routePath)
      && Escapes(Decodes(path, 3)) == 0 && Contained(Decodes(path, 3))
  {
    DecodedWithinExactly(UpTo(target, '?'), 3);
  }

  /** However often the path of an accepted target is decoded, and whenever dot segments are removed
      in between, it stays under `/v1`; and from the third decoding on it is the path that was checked. */
  lemma AcceptedPathsStay(target: string, routePath: string, steps: seq<Step>)
    requires IsInferenceTarget(target, routePath)
    ensures var path := UpTo(target, '?');
      && Contained(Handled(path, steps))
      && (Decodings(steps) >= 3 ==> Some(Handled(path, steps)) == DecodedWithin(path, DECODE_ROUNDS))
  {
    var path := UpTo(target, '?');
    DecodedWithinExactly(path, 3);
    HandlingContains(path, 3, steps);
  }
}
