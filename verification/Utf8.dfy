/** Bytes, and what `String::from_utf8_lossy` makes of them: every maximal prefix of a well-formed
    sequence that goes no further becomes one replacement character. */
module Utf8 {
  type Byte = b: int | 0 <= b < 256 witness 0

  const REPLACEMENT: char := '\U{FFFD}'

  /** How long a sequence its first byte announces; 0 if no sequence starts with it. */
  function Announced(first: Byte): nat {
    if first < 0x80 then 1
    else if 0xC2 <= first <= 0xDF then 2
    else if 0xE0 <= first <= 0xEF then 3
    else if 0xF0 <= first <= 0xF4 then 4
    else 0
  }

  predicate Continues(b: Byte) {
    0x80 <= b <= 0xBF
  }

  /** No overlong forms, no surrogates, nothing above U+10FFFF. */
  predicate SecondFits(first: Byte, second: Byte) {
    Continues(second)
    && (first == 0xE0 ==> 0xA0 <= second) && (first == 0xED ==> second <= 0x9F)
    && (first == 0xF0 ==> 0x90 <= second) && (first == 0xF4 ==> second <= 0x8F)
  }

  /** How many bytes at the start are taken together. */
  function Subpart(bytes: seq<Byte>): (n: nat)
    requires bytes != []
    ensures 1 <= n <= |bytes|
  {
    var announced := Announced(bytes[0]);
    if announced <= 1 || |bytes| < 2 || !SecondFits(bytes[0], bytes[1]) then 1
    else if announced == 2 || |bytes| < 3 || !Continues(bytes[2]) then 2
    else if announced == 3 || |bytes| < 4 || !Continues(bytes[3]) then 3
    else 4
  }

  function Decoded(bytes: seq<Byte>): char
    requires bytes != []
  {
    var n := Subpart(bytes);
    if n != Announced(bytes[0]) then REPLACEMENT
    else if n == 1 then bytes[0] as char
    else if n == 2 then ((bytes[0] as int - 0xC0) * 0x40 + Low(bytes[1])) as char
    else if n == 3 then ((bytes[0] as int - 0xE0) * 0x1000 + Low(bytes[1]) * 0x40 + Low(bytes[2])) as char
    else ((bytes[0] as int - 0xF0) * 0x40000 + Low(bytes[1]) * 0x1000 + Low(bytes[2]) * 0x40 + Low(bytes[3])) as char
  }

  function Low(b: Byte): (n: nat)
    ensures Continues(b) ==> n < 0x40
  {
    if Continues(b) then b - 0x80 else 0
  }

  function Lossy(bytes: seq<Byte>): string {
    if bytes == [] then "" else [Decoded(bytes)] + Lossy(bytes[Subpart(bytes)..])
  }

  predicate Ascii(s: string) {
    forall i :: 0 <= i < |s| ==> s[i] as int < 0x80
  }

  function Bytes(s: string): seq<Byte>
    requires Ascii(s)
  {
    seq(|s|, i requires 0 <= i < |s| => s[i] as int)
  }

  /** ASCII is decoded as it stands, whatever follows it. */
  lemma {:induction false} LossyKeepsAscii(s: string, rest: seq<Byte>)
    requires Ascii(s)
    ensures Lossy(Bytes(s) + rest) == s + Lossy(rest)
  {
    if s == "" {
      assert Bytes(s) + rest == rest;
    } else {
      assert (Bytes(s) + rest)[1..] == Bytes(s[1..]) + rest;
      LossyKeepsAscii(s[1..], rest);
    }
  }

  /** The bytes of one character. */
  function Encoded(c: char): (bytes: seq<Byte>)
    ensures bytes != []
  {
    var n := c as int;
    if n < 0x80 then [n]
    else if n < 0x800 then [0xC0 + n / 0x40, 0x80 + n % 0x40]
    else if n < 0x10000 then [0xE0 + n / 0x40 / 0x40, 0x80 + n / 0x40 % 0x40, 0x80 + n % 0x40]
    else [0xF0 + n / 0x40 / 0x40 / 0x40, 0x80 + n / 0x40 / 0x40 % 0x40, 0x80 + n / 0x40 % 0x40, 0x80 + n % 0x40]
  }

  /** A character that was encoded is decoded again, whatever follows it. */
  lemma LossyKeepsEncoded(c: char, rest: seq<Byte>)
    ensures Lossy(Encoded(c) + rest) == [c] + Lossy(rest)
  {
    hide Encoded, Decoded, Subpart;
    EncodedIsWhole(c, rest);
    assert (Encoded(c) + rest)[|Encoded(c)|..] == rest;
  }

  lemma EncodedIsWhole(c: char, rest: seq<Byte>)
    ensures Subpart(Encoded(c) + rest) == |Encoded(c)| && Decoded(Encoded(c) + rest) == c
  {
    EncodedIsWellFormed(c);
    var bytes, all := Encoded(c), Encoded(c) + rest;
    assert forall i :: 0 <= i < |bytes| ==> all[i] == bytes[i];
  }

  lemma EncodedIsWellFormed(c: char)
    ensures var bytes := Encoded(c); Subpart(bytes) == |bytes| == Announced(bytes[0]) && Decoded(bytes) == c
  {
    var n := c as int;
    if n < 0x80 {
    } else if n < 0x800 {
      assert n == n / 0x40 * 0x40 + n % 0x40;
    } else if n < 0x10000 {
      ThreeBytes(n);
    } else {
      assert n / 0x40 / 0x40 == n / 0x40 / 0x40 / 0x40 * 0x40 + n / 0x40 / 0x40 % 0x40;
      ThreeBytes(n);
    }
  }

  lemma ThreeBytes(n: nat)
    ensures n == n / 0x40 / 0x40 * 0x1000 + n / 0x40 % 0x40 * 0x40 + n % 0x40
  {
  }

  /** A character never reaches past a byte that does not continue it. */
  lemma {:induction false} LossySplits(bytes: seq<Byte>, rest: seq<Byte>)
    requires rest == [] || !Continues(rest[0])
    ensures Lossy(bytes + rest) == Lossy(bytes) + Lossy(rest)
  {
    hide Subpart, Decoded;
    if bytes == [] {
      assert bytes + rest == rest;
    } else {
      SubpartStops(bytes, rest);
      var n := Subpart(bytes);
      assert (bytes + rest)[n..] == bytes[n..] + rest;
      LossySplits(bytes[n..], rest);
    }
  }

  lemma SubpartStops(bytes: seq<Byte>, rest: seq<Byte>)
    requires bytes != [] && (rest == [] || !Continues(rest[0]))
    ensures Subpart(bytes + rest) == Subpart(bytes) && Decoded(bytes + rest) == Decoded(bytes)
  {
  }

  /** One more byte in front makes at most one more character. */
  lemma OneMoreByte(b: Byte, rest: seq<Byte>)
    ensures |Lossy([b] + rest)| <= 1 + |Lossy(rest)|
  {
    var n := Subpart([b] + rest);
    assert ([b] + rest)[n..] == rest[n - 1..];
    StrayContinuations(rest, n - 1);
  }

  lemma {:induction false} StrayContinuations(bytes: seq<Byte>, k: nat)
    requires k <= |bytes| && forall i :: 0 <= i < k ==> Continues(bytes[i])
    ensures |Lossy(bytes[k..])| <= |Lossy(bytes)|
  {
    if k > 0 {
      assert bytes[1..][k - 1..] == bytes[k..];
      StrayContinuations(bytes[1..], k - 1);
    }
  }
}
