/**
 * How `PythonFile.compile` settles on a text encoding for the script's bytes
 * and turns them into source text and a code unit. Codecs and the byte
 * compiler are not modelled: a `Runtime` value supplies them.
 */
module Encoding {
  import opened Wrappers
  import Lines
  import Declaration

  newtype byte = x: int | 0 <= x < 256

  type Bytes = seq<byte>

  /** What a strict `bytes.decode(encoding)` does. */
  datatype Decoded =
    | Text(text: string)  // decoded
    | InvalidBytes        // raises UnicodeDecodeError
    | NoSuchCodec         // raises LookupError: no codec has that name

  /** The interpreter services the loader calls. */
  datatype Runtime = Runtime(
    decode: (Bytes, string) -> Decoded,         // raw.decode(encoding)
    decodeReplacing: (Bytes, string) -> string, // raw.decode(encoding, errors="replace"), for a known codec
    compiles: string -> bool)                   // compile(text, filename, "exec") succeeds

  /** The exceptions loading can end with. */
  datatype Failure =
    | UnicodeDecodeError(encoding: string)
    | LookupError(encoding: string)
    | UnknowEncodingError    // no declaration comment found (the class at line 9)
    | NoneEncodingTypeError  // `decode(None, ...)` at line 41 as written
    | SyntaxError

  /** The decoded script and the encoding it was decoded with. */
  datatype Source = Source(encoding: string, text: string)

  /** The compiled script; `filename` is what tracebacks report as its origin. */
  datatype CodeUnit = CodeUnit(source: string, filename: string)

  /** `PYTHON_DEFAULT_ENCODING` (line 6): `PYTHONIOENCODING` if set, else `utf-8`. */
  function DefaultEncoding(environ: map<string, string>): (e: string)
    ensures "PYTHONIOENCODING" !in environ ==> e == "utf-8"
    ensures "PYTHONIOENCODING" in environ ==> e == environ["PYTHONIOENCODING"]
  {
    if "PYTHONIOENCODING" in environ then environ["PYTHONIOENCODING"] else "utf-8"
  }

  /** The lines scanned for a declaration: the permissive decode, split at newlines. */
  function ScannedLines(raw: Bytes, default: string, rt: Runtime): seq<string> {
    Lines.Split(rt.decodeReplacing(raw, default))
  }

  /**
   * The encoding `compile` settles on (lines 32-48): the explicit one, else
   * the default when the bytes decode under it, else the first declared one.
   * Line 41 is read as a permissive decode with the default encoding;
   * ChooseAsWritten is the line as it stands.
   */
  function Choose(raw: Bytes, explicit: Option<string>, default: string, rt: Runtime)
    : (r: Result<string, Failure>)
    ensures r.Ok? ==> (explicit.Some? && r.value == explicit.value)
                      || (explicit.None? && (r.value == default || (|r.value| > 0 && Declaration.AllNameChars(r.value))))
    ensures r.Err? ==> explicit.None? && (r.error == LookupError(default) || r.error == UnknowEncodingError)
    ensures r == Err(UnknowEncodingError) <==>
      explicit.None? && rt.decode(raw, default).InvalidBytes?
      && Declaration.FirstDeclared(ScannedLines(raw, default, rt)).None?
  {
    match explicit
    case Some(e) => Ok(e)
    case None =>
      match rt.decode(raw, default)
      case Text(_) => Ok(default)
      case NoSuchCodec => Err(LookupError(default))
      case InvalidBytes =>
        match Declaration.FirstDeclared(ScannedLines(raw, default, rt))
        case Some(name) => Ok(name)
        case None => Err(UnknowEncodingError)
  }

  /**
   * Line 41 as written decodes with `self.encoding`, which is still `None` in
   * that branch: `bytes.decode` rejects `None` with a TypeError before any
   * line is scanned.
   */
  function ChooseAsWritten(raw: Bytes, explicit: Option<string>, default: string, rt: Runtime)
    : (r: Result<string, Failure>)
    ensures r.Ok? ==> r == Choose(raw, explicit, default, rt)
    ensures r.Ok? ==> explicit.Some? || r.value == default
    ensures r.Err? ==> r.error != UnknowEncodingError
  {
    if explicit.None? && rt.decode(raw, default).InvalidBytes? then Err(NoneEncodingTypeError)
    else Choose(raw, explicit, default, rt)
  }

  /**
   * The source text (lines 32-52): a strict decode with the chosen encoding;
   * with an explicit encoding the file is read in text mode, which also
   * translates newlines.
   */
  function Resolve(raw: Bytes, explicit: Option<string>, default: string, rt: Runtime)
    : (r: Result<Source, Failure>)
    ensures r.Ok? ==> Choose(raw, explicit, default, rt) == Ok(r.value.encoding)
                      && rt.decode(raw, r.value.encoding).Text?
    ensures r.Ok? && explicit.None? ==> r.value.text == rt.decode(raw, r.value.encoding).text
    ensures r.Ok? && explicit.Some? ==> '\r' !in r.value.text
    ensures Choose(raw, explicit, default, rt).Err? ==> r.Err? && r.error == Choose(raw, explicit, default, rt).error
  {
    match Choose(raw, explicit, default, rt)
    case Err(f) => Err(f)
    case Ok(enc) =>
      match rt.decode(raw, enc)
      case Text(t) => Ok(Source(enc, if explicit.Some? then Lines.UniversalNewlines(t) else t))
      case InvalidBytes => Err(UnicodeDecodeError(enc))
      case NoSuchCodec => Err(LookupError(enc))
  }

  /** The code unit (line 54), compiled from the resolved text and bound to `abspath`. */
  function Compiled(raw: Bytes, explicit: Option<string>, default: string, abspath: string, rt: Runtime)
    : (r: Result<CodeUnit, Failure>)
    ensures r.Ok? ==> Resolve(raw, explicit, default, rt).Ok?
                      && r.value.source == Resolve(raw, explicit, default, rt).value.text
                      && r.value.filename == abspath && rt.compiles(r.value.source)
    ensures r.Err? ==> (Resolve(raw, explicit, default, rt).Err? && r.error == Resolve(raw, explicit, default, rt).error)
                       || (r.error == SyntaxError && Resolve(raw, explicit, default, rt).Ok?
                           && !rt.compiles(Resolve(raw, explicit, default, rt).value.text))
  {
    match Resolve(raw, explicit, default, rt)
    case Err(f) => Err(f)
    case Ok(src) => if rt.compiles(src.text) then Ok(CodeUnit(src.text, abspath)) else Err(SyntaxError)
  }

  /**
   * An explicit encoding is kept: it is the encoding chosen, no declaration is
   * scanned for (the permissive decode plays no part), and the text is its
   * strict decode read with newline translation.
   */
  lemma ExplicitEncodingKept(raw: Bytes, e: string, default: string, rt: Runtime, other: (Bytes, string) -> string)
    ensures Choose(raw, Some(e), default, rt) == Ok(e)
    ensures Resolve(raw, Some(e), default, rt) == Resolve(raw, Some(e), default, rt.(decodeReplacing := other))
    ensures Resolve(raw, Some(e), default, rt).Ok? <==> rt.decode(raw, e).Text?
    ensures Resolve(raw, Some(e), default, rt).Ok? ==>
      Resolve(raw, Some(e), default, rt).value == Source(e, Lines.UniversalNewlines(rt.decode(raw, e).text))
  {
  }

  /**
   * Without an explicit encoding, bytes that decode under the default encoding
   * are taken as they decode, the default becomes the encoding, and no
   * declaration is scanned for.
   */
  lemma DefaultDecodeWins(raw: Bytes, default: string, rt: Runtime, other: (Bytes, string) -> string)
    requires rt.decode(raw, default).Text?
    ensures Resolve(raw, None, default, rt) == Ok(Source(default, rt.decode(raw, default).text))
    ensures Resolve(raw, None, default, rt) == Resolve(raw, None, default, rt.(decodeReplacing := other))
  {
  }

  /**
   * When the default decode fails, the first scanned line that declares an
   * encoding decides it, and the text is the strict decode with that encoding.
   */
  lemma {:induction false} FirstDeclarationDecides(raw: Bytes, default: string, rt: Runtime, i: nat)
    requires rt.decode(raw, default).InvalidBytes?
    requires i < |ScannedLines(raw, default, rt)|
    requires Declaration.DeclaredEncoding(ScannedLines(raw, default, rt)[i]).Some?
    requires forall j :: 0 <= j < i ==> Declaration.DeclaredEncoding(ScannedLines(raw, default, rt)[j]).None?
    ensures var name := Declaration.DeclaredEncoding(ScannedLines(raw, default, rt)[i]).value;
      && Choose(raw, None, default, rt) == Ok(name)
      && (Resolve(raw, None, default, rt).Ok? <==> rt.decode(raw, name).Text?)
      && (rt.decode(raw, name).Text? ==> Resolve(raw, None, default, rt) == Ok(Source(name, rt.decode(raw, name).text)))
  {
    var lines := ScannedLines(raw, default, rt);
    FirstDeclaredIsAt(lines, i);
  }

  lemma {:induction false} FirstDeclaredIsAt(lines: seq<string>, i: nat)
    requires i < |lines| && Declaration.DeclaredEncoding(lines[i]).Some?
    requires forall j :: 0 <= j < i ==> Declaration.DeclaredEncoding(lines[j]).None?
    ensures Declaration.FirstDeclared(lines) == Declaration.DeclaredEncoding(lines[i])
    decreases i
  {
    if i > 0 {
      assert forall j :: 0 <= j < i - 1 ==> lines[1..][j] == lines[j + 1];
      FirstDeclaredIsAt(lines[1..], i - 1);
    }
  }

  /**
   * When the default decode fails and no scanned line declares an encoding,
   * loading ends with UnknowEncodingError and no code unit exists.
   */
  lemma NoDeclarationFails(raw: Bytes, default: string, abspath: string, rt: Runtime)
    requires rt.decode(raw, default).InvalidBytes?
    requires forall i :: 0 <= i < |ScannedLines(raw, default, rt)| ==>
      Declaration.DeclaredEncoding(ScannedLines(raw, default, rt)[i]).None?
    ensures Compiled(raw, None, default, abspath, rt) == Err(UnknowEncodingError)
  {
    Declaration.FirstDeclaredIsFirst(ScannedLines(raw, default, rt));
  }

  /**
   * A code unit exists only once an encoding is settled: it is compiled from the
   * strict decode with that encoding, it reports `abspath` as its file, and the
   * encoding is the explicit one, the default, or a well-formed declared name.
   */
  lemma CompiledOnlyWithEncoding(raw: Bytes, explicit: Option<string>, default: string, abspath: string, rt: Runtime)
    requires Compiled(raw, explicit, default, abspath, rt).Ok?
    ensures Choose(raw, explicit, default, rt).Ok?
    ensures var enc := Choose(raw, explicit, default, rt).value;
      && rt.decode(raw, enc).Text?
      && Compiled(raw, explicit, default, abspath, rt).value.filename == abspath
      && Compiled(raw, explicit, default, abspath, rt).value.source ==
           (if explicit.Some? then Lines.UniversalNewlines(rt.decode(raw, enc).text) else rt.decode(raw, enc).text)
      && (enc == default || Some(enc) == explicit
          || (|enc| > 0 && Declaration.AllNameChars(enc)))
  {
  }

  /** As written, the scan branch is never reached: every failed default decode is a TypeError. */
  lemma ScanUnreachableAsWritten(raw: Bytes, default: string, rt: Runtime)
    requires rt.decode(raw, default).InvalidBytes?
    ensures ChooseAsWritten(raw, None, default, rt) == Err(NoneEncodingTypeError)
  {
  }

  /** The declaration in `# coding: latin-1` names `latin-1`. */
  lemma Latin1Declaration()
    ensures Declaration.DeclaredEncoding("# coding: latin-1") == Some("latin-1")
  {
    var line := "# coding: latin-1";
    assert Declaration.SkipSpace(line, 0) == 0;
    Latin1DeclaresAt2();
    Latin1OnlyAt2();
    assert Declaration.LastDeclaration(line, 1, |line|) == Some(2);
  }

  lemma Latin1DeclaresAt2()
    ensures Declaration.DeclaresAt("# coding: latin-1", 2)
    ensures Declaration.NameAt("# coding: latin-1", 2) == "latin-1"
  {
    var line := "# coding: latin-1";
    assert |line| == 17;
    assert Declaration.SkipSpace(line, 9) == 10 by {
      assert Declaration.SkipSpace(line, 10) == 10;
    }
    assert line[2..8] == "coding";
    assert line[10..] == "latin-1";
    assert Declaration.AllNameChars(line[10..]);
    NameEndAtEnd(line, 10);
  }

  lemma Latin1OnlyAt2()
    ensures forall k :: 2 < k < 17 ==> !Declaration.DeclaresAt("# coding: latin-1", k)
  {
    var line := "# coding: latin-1";
    forall k | 2 < k < 17 ensures !Declaration.DeclaresAt(line, k) {
      if k <= 10 {
        assert line[k] != 'c';
        assert line[k..k + 6][0] == line[k];
      }
    }
  }

  lemma {:induction false} NameEndAtEnd(s: string, i: nat)
    requires i <= |s| && Declaration.AllNameChars(s[i..])
    ensures Declaration.NameEnd(s, i) == |s|
    decreases |s| - i
  {
    if i < |s| {
      assert s[i..][0] == s[i];
      assert Declaration.AllNameChars(s[i + 1..]) by {
        forall j | i + 1 <= j < |s| ensures Declaration.IsNameChar(s[j]) {
          assert s[j] == s[i..][j - i];
        }
      }
      NameEndAtEnd(s, i + 1);
    }
  }

  /**
   * A file whose bytes are not valid under `utf-8` and whose permissive decode
   * starts with the line `# coding: latin-1`: the corrected choice is
   * `latin-1`, the code as written fails with a TypeError.
   */
  lemma Latin1Header(raw: Bytes, rt: Runtime, rest: string)
    requires rt.decode(raw, "utf-8") == InvalidBytes
    requires rt.decodeReplacing(raw, "utf-8") == "# coding: latin-1\n" + rest
    ensures Choose(raw, None, "utf-8", rt) == Ok("latin-1")
    ensures ChooseAsWritten(raw, None, "utf-8", rt) == Err(NoneEncodingTypeError)
  {
    var line := "# coding: latin-1";
    assert '\n' !in line;
    var text := line + "\n" + rest;
    assert rt.decodeReplacing(raw, "utf-8") == text;
    FirstLine(line, rest);
    var lines := Lines.Split(text);
    assert lines[0] == line;
    Latin1Declaration();
    FirstDeclaredIsAt(lines, 0);
    assert Declaration.FirstDeclared(ScannedLines(raw, "utf-8", rt)) == Some("latin-1");
  }

  lemma FirstLine(line: string, rest: string)
    requires '\n' !in line
    ensures Lines.Split(line + "\n" + rest)[0] == line
  {
    Lines.SplitPrefix(line, "\n" + rest);
    assert line + "\n" + rest == line + ("\n" + rest);
    assert ("\n" + rest)[1..] == rest;
  }
}
