/** Reading the newest events from the end of a log of JSON lines, without reading all of it: a window
    at the end of the file is doubled until it shows enough events. Other processes may append to the
    log, or clear it, between any two reads. */
module EventTail {
  import opened Utf8
  import opened Wrappers

  const NEWLINE: Byte := 10
  const TAIL_WINDOW_BYTES: nat := 256 * 1024
  const U64_MAX: nat := 0xFFFF_FFFF_FFFF_FFFF

  /** What a line of the log parses to; the reader keeps objects only. An empty line is no JSON. */
  datatype Json<!V> = Json(parse: seq<Byte> -> Option<V>, isObject: V -> bool)
  {
    predicate Valid() {
      parse([]).None?
    }

    function Event(line: seq<Byte>): Option<V> {
      if parse(line).Some? && isObject(parse(line).value) then parse(line) else None
    }
  }

  // ------------------------------------------------------------ the simple read

  function Lines(bytes: seq<Byte>): (lines: seq<seq<Byte>>)
    ensures lines != []
  {
    if bytes == [] then [[]]
    else if bytes[0] == NEWLINE then [[]] + Lines(bytes[1..])
    else
      var later := Lines(bytes[1..]);
      [[bytes[0]] + later[0]] + later[1..]
  }

  function Events<V>(json: Json<V>, lines: seq<seq<Byte>>): seq<V> {
    if lines == [] then []
    else (if json.Event(lines[0]).Some? then [json.Event(lines[0]).value] else []) + Events(json, lines[1..])
  }

  function Last<V>(events: seq<V>, limit: nat): seq<V> {
    if |events| <= limit then events else events[|events| - limit..]
  }

  /** Reading the whole file: its last `limit` lines that are JSON objects, in order. */
  function NewestEvents<V>(json: Json<V>, bytes: seq<Byte>, limit: nat): seq<V> {
    Last(Events(json, Lines(bytes)), limit)
  }

  lemma FirstLine(bytes: seq<Byte>)
    ensures Lines(bytes) ==
      if bytes == [] then [[]]
      else if bytes[0] == NEWLINE then [[]] + Lines(bytes[1..])
      else [[bytes[0]] + Lines(bytes[1..])[0]] + Lines(bytes[1..])[1..]
  {
  }

  lemma {:induction false} LinesAfterNewline(a: seq<Byte>, b: seq<Byte>)
    ensures Lines(a + [NEWLINE] + b) == Lines(a) + Lines(b)
  {
    hide Lines;
    var all := a + [NEWLINE] + b;
    FirstLine(all);
    FirstLine(a);
    if a == [] {
      assert all[1..] == b;
    } else {
      assert all[1..] == a[1..] + [NEWLINE] + b && all[0] == a[0];
      LinesAfterNewline(a[1..], b);
      assert (Lines(a[1..]) + Lines(b))[1..] == Lines(a[1..])[1..] + Lines(b);
    }
  }

  lemma {:induction false} EventsOfSum<V>(json: Json<V>, a: seq<seq<Byte>>, b: seq<seq<Byte>>)
    ensures Events(json, a + b) == Events(json, a) + Events(json, b)
  {
    if a == [] {
      assert a + b == b;
    } else {
      assert (a + b)[1..] == a[1..] + b;
      EventsOfSum(json, a[1..], b);
    }
  }

  lemma LastOfSum<V>(a: seq<V>, b: seq<V>, limit: nat)
    requires |Last(b, limit)| == limit
    ensures Last(a + b, limit) == Last(b, limit)
  {
  }

  lemma LastOfNothing<V>(limit: nat)
    ensures Last<V>([], limit) == []
  {
  }

  lemma NothingIsLast<V>(events: seq<V>)
    ensures Last(events, 0) == []
  {
  }

  // ------------------------------------------------------------ the windowed read

  /** Where the first newline is. */
  function Position(bytes: seq<Byte>): (at: Option<nat>)
    ensures at.Some? ==> at.value < |bytes| && bytes[at.value] == NEWLINE
  {
    if bytes == [] then None
    else if bytes[0] == NEWLINE then Some(0)
    else
      match Position(bytes[1..])
      case None => None
      case Some(at) => Some(at + 1)
  }

  /** Scans the lines backwards until `limit` events are found; the newest comes first. */
  function TakeNewest<V>(json: Json<V>, lines: seq<seq<Byte>>, limit: nat): seq<V> {
    if lines == [] || limit == 0 then []
    else
      var event := json.Event(lines[|lines| - 1]);
      var earlier := lines[..|lines| - 1];
      if event.Some? then [event.value] + TakeNewest(json, earlier, limit - 1) else TakeNewest(json, earlier, limit)
  }

  function Reversed<V>(s: seq<V>): seq<V> {
    if s == [] then [] else Reversed(s[1..]) + [s[0]]
  }

  function NewestEventsFrom<V>(json: Json<V>, bytes: seq<Byte>, start: nat, limit: nat): seq<V> {
    var window := if start <= |bytes| then bytes[start..] else [];
    var wholeLines := if start == 0 then window
                      else if Position(window).Some? then window[Position(window).value + 1..] else [];
    Reversed(TakeNewest(json, Lines(wholeLines), limit))
  }

  lemma {:induction false} TakenIsLast<V>(json: Json<V>, lines: seq<seq<Byte>>, limit: nat)
    ensures Reversed(TakeNewest(json, lines, limit)) == Last(Events(json, lines), limit)
  {
    if lines != [] && limit > 0 {
      var earlier, line := lines[..|lines| - 1], lines[|lines| - 1];
      assert lines == earlier + [line];
      EventsOfSum(json, earlier, [line]);
      assert Events(json, [line]) == if json.Event(line).Some? then [json.Event(line).value] else [];
      TakenIsLast(json, earlier, if json.Event(line).Some? then limit - 1 else limit);
    }
  }

  lemma LinesAfter<V>(json: Json<V>, before: seq<Byte>, after: seq<Byte>, limit: nat)
    requires |Last(Events(json, Lines(after)), limit)| == limit
    ensures NewestEvents(json, before + [NEWLINE] + after, limit) == Last(Events(json, Lines(after)), limit)
  {
    hide Lines, Events, Last;
    LinesAfterNewline(before, after);
    EventsOfSum(json, Lines(before), Lines(after));
    LastOfSum(Events(json, Lines(before)), Events(json, Lines(after)), limit);
  }

  /** A window that shows `limit` events, or starts at the beginning, agrees with the whole file,
      although it starts in the middle of a line. */
  lemma WindowAgrees<V>(json: Json<V>, bytes: seq<Byte>, start: nat, limit: nat)
    requires json.Valid()
    requires start == 0 || |NewestEventsFrom(json, bytes, start, limit)| == limit
    ensures NewestEventsFrom(json, bytes, start, limit) == NewestEvents(json, bytes, limit)
  {
    hide Lines, Events, TakeNewest, Reversed, Position, Last;
    var window := if start <= |bytes| then bytes[start..] else [];
    if start == 0 {
      assert window == bytes;
      TakenIsLast(json, Lines(bytes), limit);
    } else if Position(window).Some? {
      var at := start + Position(window).value;
      var before, after := bytes[..at], bytes[at + 1..];
      assert window[Position(window).value + 1..] == after;
      assert bytes == before + [NEWLINE] + after;
      TakenIsLast(json, Lines(after), limit);
      LinesAfter(json, before, after, limit);
    } else {
      TakenIsLast(json, Lines([]), limit);
      EmptyLineIsNoEvent(json);
      LastOfNothing<V>(limit);
      NothingIsLast(Events(json, Lines(bytes)));
    }
  }

  lemma EmptyLineIsNoEvent<V>(json: Json<V>)
    requires json.Valid()
    ensures Events(json, Lines([])) == []
  {
    assert Lines([]) == [[]] && Lines([])[1..] == [];
  }

  class LogFile {
    var bytes: seq<Byte>
    // how often the file system has failed
    ghost var faults: nat

    constructor (bytes: seq<Byte>)
      ensures this.bytes == bytes
    {
      this.bytes := bytes;
      faults := 0;
    }

    /** Another process appends to the log, clears it or leaves it alone. */
    method Interfere()
      modifies this`bytes
    {
      bytes := *;
    }

    /** Opens the file and takes its length. */
    method Length() returns (length: Option<nat>)
      modifies this`faults
      ensures if faults == old(faults) then length == Some(|bytes|) else length.None?
      ensures faults >= old(faults)
    {
      length := Some(|bytes|);
      if * {
        length := None;
        faults := faults + 1;
      }
    }

    /** Reads from `start` to the end of the file, unless the file system fails. */
    method ReadFrom(start: nat) returns (read: Option<seq<Byte>>)
      modifies this`faults
      ensures if faults == old(faults) then read == Some(if start <= |bytes| then bytes[start..] else []) else read.None?
      ensures faults >= old(faults)
    {
      read := Some(if start <= |bytes| then bytes[start..] else []);
      if * {
        read := None;
        faults := faults + 1;
      }
    }

    method NewestFrom<V>(json: Json<V>, start: nat, limit: nat) returns (events: Option<seq<V>>)
      modifies this`faults
      ensures if faults == old(faults) then events == Some(NewestEventsFrom(json, bytes, start, limit)) else events.None?
      ensures faults >= old(faults)
    {
      var read := ReadFrom(start);
      if read.None? {
        return None;
      }
      var wholeLines := read.value;
      if start > 0 {
        var newline := Position(read.value);
        wholeLines := if newline.Some? then read.value[newline.value + 1..] else [];
      }
      events := Some(Reversed(TakeNewest(json, Lines(wholeLines), limit)));
    }
  }

  /** The windowed read ends, and unless the file system fails it returns exactly what reading the
      whole file would have returned at the time of its last read. */
  method ReadEvents<V>(file: LogFile, json: Json<V>, limit: nat) returns (events: seq<V>)
    requires json.Valid()
    requires |file.bytes| <= U64_MAX
    modifies file
    ensures events == if file.faults == old(file.faults) then NewestEvents(json, file.bytes, limit) else []
    ensures file.faults >= old(file.faults)
  {
    var found := file.Length();
    if found.None? {
      return [];
    }
    var length := found.value;
    var window := TAIL_WINDOW_BYTES;
    while true
      invariant 0 < window <= U64_MAX && file.faults == old(file.faults)
      decreases if window < length then length - window else 0
    {
      var start := if length < window then 0 else length - window;
      file.Interfere();
      var read := file.NewestFrom(json, start, limit);
      if read.None? {
        return [];
      }
      if start == 0 || |read.value| == limit {
        WindowAgrees(json, file.bytes, start, limit);
        return read.value;
      }
      window := if window * 2 <= U64_MAX then window * 2 else U64_MAX;
    }
  }
}
