/** The string operations the config code uses: trimming white space and slashes. */
module Text {
  import opened Wrappers

  /** The Unicode White_Space property, which `str::trim` removes. */
  predicate IsWhiteSpace(c: char) {
    var n := c as int;
    || 9 <= n <= 13 || n == 0x20 || n == 0x85 || n == 0xA0 || n == 0x1680 || 0x2000 <= n <= 0x200A
    || n == 0x2028 || n == 0x2029 || n == 0x202F || n == 0x205F || n == 0x3000
  }

  function TrimStart(s: string): string {
    if s != "" && IsWhiteSpace(s[0]) then TrimStart(s[1..]) else s
  }

  function TrimEnd(s: string): string {
    if s != "" && IsWhiteSpace(s[|s| - 1]) then TrimEnd(s[..|s| - 1]) else s
  }

  function Trim(s: string): string {
    TrimEnd(TrimStart(s))
  }

  function TrimEndSlashes(s: string): string {
    if s != "" && s[|s| - 1] == '/' then TrimEndSlashes(s[..|s| - 1]) else s
  }

  function WithoutTrailingSlash(s: string): string {
    if s != "" && s[|s| - 1] == '/' then s[..|s| - 1] else s
  }

  function NonEmpty(value: Option<string>): Option<string> {
    if value.Some? && Trim(value.value) != "" then Some(Trim(value.value)) else None
  }

  predicate Trimmed(s: string) {
    s != "" ==> !IsWhiteSpace(s[0]) && !IsWhiteSpace(s[|s| - 1])
  }

  lemma TrimEndKeepsTheStart(s: string)
    ensures TrimEnd(s) <= s && (TrimEnd(s) != "" ==> !IsWhiteSpace(TrimEnd(s)[|TrimEnd(s)| - 1]))
  {
  }

  lemma TrimStartDropsWhiteSpace(s: string)
    ensures TrimStart(s) != "" ==> !IsWhiteSpace(TrimStart(s)[0])
  {
  }

  lemma TrimOfTrimmed(s: string)
    requires Trimmed(s)
    ensures Trim(s) == s
  {
  }

  /** Trimming the start leaves what follows the first character that is no white space. */
  lemma {:induction false} TrimStartBefore(s: string, rest: string)
    requires rest != "" && !IsWhiteSpace(rest[0])
    ensures TrimStart(s + rest) == TrimStart(s) + rest
  {
    if s == "" {
      assert s + rest == rest;
    } else if IsWhiteSpace(s[0]) {
      assert (s + rest)[1..] == s[1..] + rest;
      TrimStartBefore(s[1..], rest);
    }
  }

  lemma {:induction false} TrimStartKeepsTheEnd(s: string)
    ensures |TrimStart(s)| <= |s| && TrimStart(s) == s[|s| - |TrimStart(s)|..]
  {
    if s != "" && IsWhiteSpace(s[0]) {
      TrimStartKeepsTheEnd(s[1..]);
    }
  }

  lemma TrimEndSlashesIsAPrefix(s: string)
    ensures TrimEndSlashes(s) <= s && (TrimEndSlashes(s) != "" ==> TrimEndSlashes(s)[|TrimEndSlashes(s)| - 1] != '/')
  {
  }
}
