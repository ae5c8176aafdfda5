/**
 * `PythonFile`: one prepared script invocation. It resolves the script's
 * path, settles its encoding and compiles it when built, and runs it inside
 * the ambient-state sandbox.
 */
module Runner {
  import opened Wrappers
  import opened Encoding
  import Lines
  import Declaration
  import Paths
  import opened Ambient
  import opened Sandbox

  /**
   * The scan loop of `compile` (lines 41-45): look at the lines in order and
   * stop at the first one that declares an encoding.
   */
  method ScanDeclarations(lines: seq<string>) returns (found: Option<string>)
    ensures found == Declaration.FirstDeclared(lines)
  {
    found := None;
    var i := 0;
    while i < |lines|
      invariant 0 <= i <= |lines|
      invariant Declaration.FirstDeclared(lines[i..]) == Declaration.FirstDeclared(lines)
    {
      var m := Declaration.DeclaredEncoding(lines[i]);
      if m.Some? {
        found := m;
        return;
      }
      assert lines[i..][1..] == lines[i + 1..];
      i := i + 1;
    }
  }

  /** The script's global namespace before it runs (line 27). */
  function MainGlobals(abspath: string): (globals: map<string, string>)
    ensures globals.Keys == {"__name__", "__file__"}
    ensures globals["__name__"] == "__main__" && globals["__file__"] == abspath
  {
    map["__name__" := "__main__", "__file__" := abspath]
  }

  class PythonFile {
    const path: string
    const cwd: string
    const argv: seq<string>
    const env: map<string, string>
    const abspath: string
    const globals: map<string, string>
    var encoding: Option<string>
    var code: Option<CodeUnit>
    var saved: Option<Saved>  // the `_orig_*` attributes, set by `_before_exec`

    /**
     * Lines 15-27: the script's argument vector is its path as given followed
     * by the caller's arguments, `abspath` is the path resolved against `cwd`,
     * and the namespace marks the script as the main module loaded from `abspath`.
     */
    constructor (path: string, cwd: string, args: seq<string>, env: map<string, string>, encoding: Option<string>)
      ensures this.path == path && this.cwd == cwd && this.env == env && this.encoding == encoding
      ensures |argv| == |args| + 1 && argv[0] == path && argv[1..] == args
      ensures abspath == Paths.AbsPath(path, cwd)
      ensures globals.Keys == {"__name__", "__file__"}
      ensures globals["__name__"] == "__main__" && globals["__file__"] == abspath
      ensures code.None? && saved.None?
    {
      this.path := path;
      this.cwd := cwd;
      this.argv := [path] + args;
      this.env := env;
      this.encoding := encoding;
      this.abspath := Paths.AbsPath(path, cwd);
      this.globals := MainGlobals(Paths.AbsPath(path, cwd));
      this.code := None;
      this.saved := None;
    }

    /**
     * `compile` (lines 31-54). The encoding attribute ends as the chosen
     * encoding whenever one is chosen, even if decoding or compiling then
     * fails; a code unit is stored only when everything succeeds. Line 41 is
     * taken as the permissive decode with the default encoding (see
     * Encoding.ChooseAsWritten for the line as it stands).
     */
    method Compile(raw: Bytes, default: string, rt: Runtime) returns (failure: Option<Failure>)
      modifies this`encoding, this`code
      ensures encoding == (match Choose(raw, old(encoding), default, rt)
                           case Ok(e) => Some(e)
                           case Err(_) => old(encoding))
      ensures failure == (match Compiled(raw, old(encoding), default, abspath, rt)
                          case Ok(_) => None
                          case Err(f) => Some(f))
      ensures code == (match Compiled(raw, old(encoding), default, abspath, rt)
                       case Ok(unit) => Some(unit)
                       case Err(_) => old(code))
    {
      var text: string;
      if encoding.None? {
        match rt.decode(raw, default)
        case Text(t) =>
          text := t;
          encoding := Some(default);
        case NoSuchCodec =>
          return Some(LookupError(default));
        case InvalidBytes =>
          var lines := Lines.Split(rt.decodeReplacing(raw, default));
          encoding := ScanDeclarations(lines);
          if encoding.None? {
            return Some(UnknowEncodingError);
          }
          match rt.decode(raw, encoding.value)
          case Text(t) =>
            text := t;
          case InvalidBytes =>
            return Some(UnicodeDecodeError(encoding.value));
          case NoSuchCodec =>
            return Some(LookupError(encoding.value));
      } else {
        match rt.decode(raw, encoding.value)
        case Text(t) =>
          text := Lines.UniversalNewlines(t);
        case InvalidBytes =>
          return Some(UnicodeDecodeError(encoding.value));
        case NoSuchCodec =>
          return Some(LookupError(encoding.value));
      }
      if !rt.compiles(text) {
        return Some(SyntaxError);
      }
      code := Some(CodeUnit(text, abspath));
      failure := None;
    }

    /**
     * Construction as a whole (lines 14-29): either a prepared invocation
     * holding the compiled script, or the exception that construction raises.
     * The default encoding is the one fixed when the module was imported
     * (line 6), from the environment `importEnviron` of that moment.
     */
    static method Open(path: string, cwd: string, args: seq<string>, env: map<string, string>,
                       encoding: Option<string>, raw: Bytes, importEnviron: map<string, string>, rt: Runtime)
      returns (r: Result<PythonFile, Failure>)
      ensures var default := DefaultEncoding(importEnviron);
        var c := Compiled(raw, encoding, default, Paths.AbsPath(path, cwd), rt);
        && (r.Ok? <==> c.Ok?)
        && (r.Err? ==> r.error == c.error)
        && (r.Ok? ==> fresh(r.value) && r.value.code == Some(c.value) && r.value.saved.None?
                      && r.value.path == path && r.value.argv == [path] + args
                      && r.value.abspath == Paths.AbsPath(path, cwd) && r.value.env == env && r.value.cwd == cwd
                      && r.value.globals == MainGlobals(Paths.AbsPath(path, cwd))
                      && r.value.encoding == Some(Choose(raw, encoding, default, rt).value))
    {
      var f := new PythonFile(path, cwd, args, env, encoding);
      assert f.argv == [path] + args;
      var failure := f.Compile(raw, DefaultEncoding(importEnviron), rt);
      if failure.Some? {
        r := Err(failure.value);
      } else {
        r := Ok(f);
      }
    }

    /**
     * `_before_exec` (lines 56-78): save the ambient state, override it for
     * the script, then run the debugger-attach preamble on the main thread.
     */
    method BeforeExec(host: Interpreter, preamble: Effect) returns (raised: bool)
      modifies this`saved, host
      ensures saved == Some(Capture(old(host.Current())))
      ensures host.Current() == preamble(Overridden(old(host.Current()), path, argv, env, cwd)).state
      ensures raised == preamble(Overridden(old(host.Current()), path, argv, env, cwd)).Raised?
    {
      var origArgv := host.sysArgv;
      host.sysArgv := [path];
      var origIdcArgv := host.idcArgv;
      host.idcArgv := argv;
      var origEnviron := host.environ;
      host.UpdateEnviron(env);
      var origCwd := host.cwd;
      host.cwd := cwd;
      saved := Some(Saved(origArgv, origIdcArgv, origEnviron, origCwd, host.modules));
      raised := host.Run(preamble);
    }

    /**
     * `_after_exec` (lines 87-96): put back what was saved, then evict every
     * module whose name the saved registry does not hold.
     */
    method AfterExec(host: Interpreter)
      requires saved.Some?
      modifies host
      ensures host.Current() == Restored(old(host.Current()), saved.value)
    {
      var orig := saved.value;
      host.sysArgv := orig.argv;
      host.idcArgv := orig.idcArgv;
      host.environ := orig.environ;
      host.environLive := false;
      host.cwd := orig.cwd;
      ghost var before := host.modules;
      var pending := host.modules.Keys;
      while pending != {}
        modifies host`modules
        invariant pending <= before.Keys
        invariant host.modules == map k | k in before && (k in orig.modules || k in pending) :: before[k]
        decreases pending
      {
        var k :| k in pending;
        if k !in orig.modules {
          host.modules := host.modules - {k};
        }
        pending := pending - {k};
      }
      assert host.modules == Evicted(before, orig.modules.Keys);
    }

    /**
     * `exec` (lines 80-85): override, attach, run the script, restore. A
     * preamble or script that raises skips the restore and propagates.
     */
    method Exec(host: Interpreter, preamble: Effect, body: Effect) returns (raised: bool)
      modifies this`saved, host
      ensures saved == Some(Capture(old(host.Current())))
      ensures host.Current() == ExecOutcome(old(host.Current()), path, argv, env, cwd, preamble, body).state
      ensures raised == ExecOutcome(old(host.Current()), path, argv, env, cwd, preamble, body).Raised?
    {
      raised := BeforeExec(host, preamble);
      if raised {
        return;
      }
      raised := host.Run(body);
      if raised {
        return;
      }
      AfterExec(host);
    }
  }
}
