/**
 * The two text operations the loader applies to decoded source: splitting into
 * lines with `str.split("\n")`, and the newline translation that a file opened
 * in text mode (`open(path, "r", encoding=...)`) performs on reading.
 */
module Lines {

  /** `s.split("\n")`: the pieces between newline characters, in order; `""` gives `[""]`. */
  function Split(s: string): (lines: seq<string>)
    ensures |lines| >= 1
    ensures forall i :: 0 <= i < |lines| ==> '\n' !in lines[i]
    decreases |s|
  {
    if |s| == 0 then [""]
    else
      var rest := Split(s[1..]);
      if s[0] == '\n' then [""] + rest
      else [[s[0]] + rest[0]] + rest[1..]
  }

  /** There is one more piece than there are newlines. */
  lemma {:induction false} SplitCount(s: string)
    ensures |Split(s)| == multiset(s)['\n'] + 1
    decreases |s|
  {
    if |s| > 0 {
      SplitCount(s[1..]);
      assert s == [s[0]] + s[1..];
      assert multiset(s) == multiset([s[0]]) + multiset(s[1..]);
    }
  }

  /** `"\n".join(lines)`: the inverse of Split. */
  function Join(lines: seq<string>): string
    requires |lines| >= 1
  {
    if |lines| == 1 then lines[0] else lines[0] + "\n" + Join(lines[1..])
  }

  /** Joining the pieces of a split gives back the text. */
  lemma {:induction false} JoinSplit(s: string)
    ensures Join(Split(s)) == s
    decreases |s|
  {
    if |s| > 0 {
      JoinSplit(s[1..]);
      var rest := Split(s[1..]);
      if s[0] == '\n' {
        assert Split(s) == [""] + rest;
        assert Split(s)[1..] == rest;
      } else {
        var lines := Split(s);
        assert lines == [[s[0]] + rest[0]] + rest[1..];
        if |rest| == 1 {
          assert Join(lines) == [s[0]] + rest[0];
        } else {
          assert lines[1..] == rest[1..];
          assert Join(lines) == [s[0]] + rest[0] + "\n" + Join(rest[1..]);
        }
        assert s == [s[0]] + s[1..];
      }
    }
  }

  /** Splitting a text that starts with a non-newline character extends its first piece. */
  lemma SplitCons(c: char, t: string)
    requires c != '\n'
    ensures Split([c] + t) == [[c] + Split(t)[0]] + Split(t)[1..]
  {
    assert ([c] + t)[1..] == t;
  }

  /** Splitting a text that does not start a new line extends its first piece. */
  lemma {:induction false} SplitPrefix(a: string, s: string)
    requires '\n' !in a
    ensures Split(a + s) == [a + Split(s)[0]] + Split(s)[1..]
    decreases |a|
  {
    if |a| == 0 {
      assert a + s == s;
      var lines := Split(s);
      assert a + lines[0] == lines[0];
      assert lines == [lines[0]] + lines[1..];
    } else {
      var tail := a[1..];
      assert '\n' !in tail by {
        forall i | 0 <= i < |tail| ensures tail[i] != '\n' { assert tail[i] == a[i + 1]; }
      }
      SplitPrefix(tail, s);
      assert a + s == [a[0]] + (tail + s) by { assert a == [a[0]] + tail; }
      SplitCons(a[0], tail + s);
      assert [a[0]] + (tail + Split(s)[0]) == a + Split(s)[0] by { assert a == [a[0]] + tail; }
    }
  }

  /** Splitting the join of newline-free pieces gives back the pieces. */
  lemma {:induction false} SplitJoin(lines: seq<string>)
    requires |lines| >= 1
    requires forall i :: 0 <= i < |lines| ==> '\n' !in lines[i]
    ensures Split(Join(lines)) == lines
    decreases |lines|
  {
    if |lines| == 1 {
      SplitPrefix(lines[0], "");
      assert lines[0] + "" == lines[0];
    } else {
      var tail := Join(lines[1..]);
      SplitJoin(lines[1..]);
      SplitPrefix(lines[0], "\n" + tail);
      assert ("\n" + tail)[1..] == tail;
      assert Split("\n" + tail) == [""] + lines[1..];
      assert lines[0] + ("\n" + tail) == lines[0] + "\n" + tail;
      assert lines[0] + "" == lines[0];
    }
  }

  /**
   * Text-mode reading with the default `newline=None`: every `"\r\n"` and every
   * lone `"\r"` becomes `"\n"`.
   */
  function UniversalNewlines(s: string): (t: string)
    ensures '\r' !in t
    ensures |t| <= |s|
    decreases |s|
  {
    if |s| == 0 then ""
    else if s[0] == '\r' then
      "\n" + UniversalNewlines(if |s| > 1 && s[1] == '\n' then s[2..] else s[1..])
    else
      [s[0]] + UniversalNewlines(s[1..])
  }

  /** A text without carriage returns is read unchanged, so the translation is idempotent. */
  lemma {:induction false} UniversalNewlinesFixed(s: string)
    requires '\r' !in s
    ensures UniversalNewlines(s) == s
    decreases |s|
  {
    if |s| > 0 {
      assert s[0] != '\r';
      assert '\r' !in s[1..] by {
        forall i | 0 <= i < |s[1..]| ensures s[1..][i] != '\r' { assert s[1..][i] == s[i + 1]; }
      }
      UniversalNewlinesFixed(s[1..]);
      assert s == [s[0]] + s[1..];
    }
  }

  lemma UniversalNewlinesIdempotent(s: string)
    ensures UniversalNewlines(UniversalNewlines(s)) == UniversalNewlines(s)
  {
    UniversalNewlinesFixed(UniversalNewlines(s));
  }

  /**
   * The lines of a text as universal-newlines reading sees them: pieces cut
   * at every `\r\n`, every other `\r` and every other `\n`.
   */
  function SplitAtBreaks(s: string): (lines: seq<string>)
    ensures |lines| >= 1
    ensures forall i :: 0 <= i < |lines| ==> '\n' !in lines[i] && '\r' !in lines[i]
    decreases |s|
  {
    if |s| == 0 then [""]
    else if s[0] == '\r' && |s| > 1 && s[1] == '\n' then [""] + SplitAtBreaks(s[2..])
    else if s[0] == '\r' || s[0] == '\n' then [""] + SplitAtBreaks(s[1..])
    else
      var rest := SplitAtBreaks(s[1..]);
      [[s[0]] + rest[0]] + rest[1..]
  }

  /**
   * Splitting the translated text at `\n` gives exactly the lines of the
   * original cut at all three kinds of break: the translation turns each
   * break, and nothing else, into one newline.
   */
  lemma {:induction false} SplitUniversalNewlines(s: string)
    ensures Split(UniversalNewlines(s)) == SplitAtBreaks(s)
    decreases |s|
  {
    if |s| > 0 {
      var rest := if s[0] == '\r' && |s| > 1 && s[1] == '\n' then s[2..] else s[1..];
      SplitUniversalNewlines(rest);
      var t := UniversalNewlines(rest);
      if s[0] == '\r' || s[0] == '\n' {
        assert UniversalNewlines(s) == "\n" + t;
        assert ("\n" + t)[1..] == t;
      } else {
        assert UniversalNewlines(s) == [s[0]] + t;
        SplitCons(s[0], t);
      }
    }
  }
}
