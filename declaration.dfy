/**
 * The source-encoding declaration comment that the loader looks for when the
 * default decode fails: a line matched from its start by
 * `\s*#.*coding[:=]\s*([-\w.]+).*`, whose group 1 names the encoding.
 */
module Declaration {
  import opened Wrappers

  /** `\s` on text: the characters Python counts as whitespace. */
  predicate IsSpace(c: char) {
    var n := c as int;
    (9 <= n <= 13) || (0x1c <= n <= 0x20) || n == 0x85 || n == 0xa0 || n == 0x1680
    || (0x2000 <= n <= 0x200a) || n == 0x2028 || n == 0x2029 || n == 0x202f || n == 0x205f
    || n == 0x3000
  }

  /** `\w`, restricted to ASCII: letters, digits and `_`. */
  predicate IsWordChar(c: char) {
    ('a' <= c <= 'z') || ('A' <= c <= 'Z') || ('0' <= c <= '9') || c == '_'
  }

  /** `[-\w.]`: a character of an encoding name. */
  predicate IsNameChar(c: char) {
    IsWordChar(c) || c == '-' || c == '.'
  }

  predicate AllSpace(s: string) {
    forall i :: 0 <= i < |s| ==> IsSpace(s[i])
  }

  predicate AllNameChars(s: string) {
    forall i :: 0 <= i < |s| ==> IsNameChar(s[i])
  }

  /** Where a greedy `\s*` that starts at `i` stops. */
  function SkipSpace(s: string, i: nat): (j: nat)
    requires i <= |s|
    ensures i <= j <= |s|
    ensures AllSpace(s[i..j])
    ensures j < |s| ==> !IsSpace(s[j])
    decreases |s| - i
  {
    if i < |s| && IsSpace(s[i]) then
      var j := SkipSpace(s, i + 1);
      assert s[i..j] == [s[i]] + s[i + 1..j];
      j
    else i
  }

  /** Where a greedy `[-\w.]*` that starts at `i` stops. */
  function NameEnd(s: string, i: nat): (j: nat)
    requires i <= |s|
    ensures i <= j <= |s|
    ensures AllNameChars(s[i..j])
    ensures j < |s| ==> !IsNameChar(s[j])
    decreases |s| - i
  {
    if i < |s| && IsNameChar(s[i]) then
      var j := NameEnd(s, i + 1);
      assert s[i..j] == [s[i]] + s[i + 1..j];
      j
    else i
  }

  /** `coding[:=]\s*[-\w.]+` can be matched in `line` starting at position `k`. */
  predicate DeclaresAt(line: string, k: nat) {
    && k + 7 <= |line|
    && line[k..k + 6] == "coding"
    && (line[k + 6] == ':' || line[k + 6] == '=')
    && SkipSpace(line, k + 7) < |line|
    && IsNameChar(line[SkipSpace(line, k + 7)])
  }

  /**
   * `DeclaresAt` without the greedy scan: `coding`, then `:` or `=`, then
   * whitespace up to some position holding a name character.
   */
  lemma DeclaresAtMatches(line: string, k: nat)
    ensures DeclaresAt(line, k) <==>
      && k + 7 <= |line| && line[k..k + 6] == "coding" && (line[k + 6] == ':' || line[k + 6] == '=')
      && exists j :: k + 7 <= j < |line| && AllSpace(line[k + 7..j]) && IsNameChar(line[j])
  {
  }

  /** Group 1 when the `coding` of the match is the one at position `k`: the longest name there. */
  function NameAt(line: string, k: nat): (name: string)
    requires DeclaresAt(line, k)
    ensures |name| > 0 && AllNameChars(name)
  {
    var j := SkipSpace(line, k + 7);
    line[j..NameEnd(line, j)]
  }

  /** The greatest `k` in `[lo, hi)` at which a declaration can be matched. */
  function LastDeclaration(line: string, lo: nat, hi: nat): (k: Option<nat>)
    requires lo <= hi <= |line|
    ensures k.Some? ==> lo <= k.value < hi && DeclaresAt(line, k.value)
    ensures k.Some? ==> forall k' :: k.value < k' < hi ==> !DeclaresAt(line, k')
    ensures k.None? ==> forall k' :: lo <= k' < hi ==> !DeclaresAt(line, k')
    decreases hi - lo
  {
    if hi == lo then None
    else if DeclaresAt(line, hi - 1) then Some(hi - 1)
    else LastDeclaration(line, lo, hi - 1)
  }

  /**
   * `re.match(pattern, line)` and its group 1. `\s*#` must match at the very
   * start; the greedy `.*` after `#` then settles on the LAST `coding` from
   * which the rest of the pattern matches.
   */
  function DeclaredEncoding(line: string): (name: Option<string>)
    ensures name.Some? ==> |name.value| > 0 && AllNameChars(name.value)
  {
    var h := SkipSpace(line, 0);
    if h < |line| && line[h] == '#' then
      match LastDeclaration(line, h + 1, |line|)
      case Some(k) => Some(NameAt(line, k))
      case None => None
    else None
  }

  /** The pattern, stated without search: leading whitespace, `#`, and a declaration after it. */
  ghost predicate MatchesDeclaration(line: string) {
    exists h, k :: 0 <= h < k < |line| && AllSpace(line[..h]) && line[h] == '#' && DeclaresAt(line, k)
  }

  /**
   * A line has a declared encoding exactly when it matches the pattern, and the
   * name is the one at the last `coding` after the comment sign.
   */
  lemma DeclaredEncodingMatches(line: string)
    ensures DeclaredEncoding(line).Some? <==> MatchesDeclaration(line)
    ensures DeclaredEncoding(line).Some? ==>
      exists k :: 0 <= k < |line| && DeclaresAt(line, k) && DeclaredEncoding(line).value == NameAt(line, k)
                  && forall k' :: k < k' < |line| ==> !DeclaresAt(line, k')
  {
    var h := SkipSpace(line, 0);
    if MatchesDeclaration(line) {
      var h', k :| 0 <= h' < k < |line| && AllSpace(line[..h']) && line[h'] == '#' && DeclaresAt(line, k);
      assert h == h';
    }
    if DeclaredEncoding(line).Some? {
      assert line[..h] == line[0..h];
      var k := LastDeclaration(line, h + 1, |line|).value;
      assert 0 <= h < k < |line| && AllSpace(line[..h]) && line[h] == '#' && DeclaresAt(line, k);
    }
  }

  /** The scan at lines 41-45: the name declared by the first line that declares one. */
  function FirstDeclared(lines: seq<string>): (name: Option<string>)
    ensures name.Some? ==> |name.value| > 0 && AllNameChars(name.value)
    decreases |lines|
  {
    if |lines| == 0 then None
    else if DeclaredEncoding(lines[0]).Some? then DeclaredEncoding(lines[0])
    else FirstDeclared(lines[1..])
  }

  /**
   * FirstDeclared gives the name of some line with no declaring line before it,
   * and nothing when no line declares an encoding.
   */
  lemma {:induction false} FirstDeclaredIsFirst(lines: seq<string>)
    ensures FirstDeclared(lines).Some? ==>
      exists i :: 0 <= i < |lines| && DeclaredEncoding(lines[i]) == FirstDeclared(lines)
                  && forall j :: 0 <= j < i ==> DeclaredEncoding(lines[j]).None?
    ensures FirstDeclared(lines).None? <==> forall i :: 0 <= i < |lines| ==> DeclaredEncoding(lines[i]).None?
    decreases |lines|
  {
    if |lines| > 0 && DeclaredEncoding(lines[0]).None? {
      var tail := lines[1..];
      FirstDeclaredIsFirst(tail);
      assert forall i :: 1 <= i < |lines| ==> tail[i - 1] == lines[i];
      if FirstDeclared(tail).Some? {
        var i :| 0 <= i < |tail| && DeclaredEncoding(tail[i]) == FirstDeclared(tail)
                 && forall j :: 0 <= j < i ==> DeclaredEncoding(tail[j]).None?;
        assert DeclaredEncoding(lines[i + 1]) == FirstDeclared(lines);
      }
    }
  }

  /** Lines after the first declaring line are never looked at. */
  lemma {:induction false} LaterLinesIgnored(lines: seq<string>, more: seq<string>)
    requires FirstDeclared(lines).Some?
    ensures FirstDeclared(lines + more) == FirstDeclared(lines)
    decreases |lines|
  {
    assert (lines + more)[0] == lines[0];
    if DeclaredEncoding(lines[0]).None? {
      assert (lines + more)[1..] == lines[1..] + more;
      LaterLinesIgnored(lines[1..], more);
    }
  }
}
