# PythonFile: a verified model of the IDA script runner

`ida/dbg_server/utils.py` runs an external Python script inside IDA's
embedded interpreter. A `PythonFile` works in four steps:

1. It resolves the script's path.
2. It settles the encoding of the script's bytes and compiles them.
3. On each run it saves the interpreter's ambient state and overrides it for the script: `sys.argv`, `idc.ARGV`, `os.environ`, the working directory and `sys.modules`.
4. It runs a debugger-attach preamble and then the script on IDA's main thread, and afterwards puts the saved state back.

When the module is imported, it also puts the empty entry on `sys.path`.

The model is written in Dafny:

- `wrappers.dfy`: `Option` and `Result`.
- `lines.dfy`: `str.split("\n")` and its inverse, plus the newline translation that text-mode reading performs.
- `declaration.dfy`: the encoding-declaration pattern `\s*#.*coding[:=]\s*([-\w.]+).*`, written as functions. Like the greedy regex, it takes the last `coding` on a line. It is checked against a search-free statement of the pattern.
- `encoding.dfy`: how the encoding is chosen (`Choose`), what text results (`Resolve`) and the code unit (`Compiled`), with lemmas for each outcome. Codecs and `compile()` come from a `Runtime` value: strict decode, permissive decode and "compiles". The default encoding is `DefaultEncoding` of the environment at the moment the module was imported: `PYTHONIOENCODING`, or else `utf-8`. `PythonFile.Open` takes that environment as a parameter.
- `paths.dfy`: POSIX `os.path.isabs` and `os.path.join`.
- `ambient.dfy`: the ambient state as a value (`State`) and the host interpreter as a class whose fields are updated in place. Foreign code is an `Effect`, a function from state to `Returned(state)` or `Raised(state)`.
- `sandbox.dfy`: what a run saves, overrides and restores, as functions on states. The corrected restore forms sit beside the ones the source has.
- `runner.dfy`: the `PythonFile` class. Its methods are proved against the functions above, and the method `ScanDeclarations` holds the line-scan loop.

The state model has two parts for the environment: `environ`, what scripts read through `os.environ`, and `processEnv`, what child processes inherit. The flag `environLive` records whether `os.environ` is still the `os` module's own mapping, which writes through to the process. `sys.path` is part of the state, and a run does not restore it.

Where the code and the intended design differ, the model follows the code. The `Compile` method is the exception: it uses the corrected line 41 (see Findings). The differences:

- Restoration runs only when the preamble and the script return.
- The saved `_orig_*` attributes stay on the object after the run.
- The registry keeps the names from before the run that the script did not remove, together with whatever module objects the script left under them. Names the script removed are not added back.
- Only the `os.environ` view of the environment is restored.

## Model

| member | source | states |
|---|---|---|
| Runner.PythonFile.constructor | ida/dbg_server/utils.py:14-27 | `argv` is the path as given (not `abspath`) followed by the caller's arguments in order, one longer than them; `abspath` is `AbsPath(path, cwd)`; the namespace has exactly `__name__ = "__main__"` and `__file__ = abspath`; no code, no saved state yet |
| Paths.AbsPath | ida/dbg_server/utils.py:22-25 | an absolute path is kept; otherwise the result is `join(cwd, path)`; the `isabs` test agrees with `join` in every case; the path is always the tail of the result; the result is absolute if the path or `cwd` is |
| Paths.Join | ida/dbg_server/utils.py:25 | `os.path.join`: an absolute second part replaces the first; otherwise the result starts with the first part and ends with the second |
| Runner.PythonFile.Compile | ida/dbg_server/utils.py:31-54 | the encoding attribute becomes the chosen encoding whenever one is chosen and is untouched otherwise; the failure reported is exactly that of `Compiled`; a code unit is stored only on success |
| Runner.PythonFile.Open | ida/dbg_server/utils.py:6-29 | with the default encoding taken from the environment at import, construction yields an object exactly when `Compiled` succeeds, and otherwise the same exception; the object holds that code unit, the chosen encoding, `argv`, `abspath`, `env`, `cwd`, the `__main__` namespace and no saved state |
| Runner.MainGlobals | ida/dbg_server/utils.py:27 | the namespace has exactly the keys `__name__` and `__file__`, bound to `"__main__"` and the absolute path |
| Encoding.DefaultEncoding | ida/dbg_server/utils.py:6 | `os.getenv` with a default: the value of `PYTHONIOENCODING` whenever it is set, even to the empty string, and `utf-8` only when it is unset |
| Encoding.Choose | ida/dbg_server/utils.py:32-48 | an explicit encoding is kept; without one the result is the default or a non-empty well-formed declared name; the only failures are LookupError for the default and UnknowEncodingError, and the latter occurs exactly when the default decode fails on the bytes and no line declares an encoding; the lines scanned are `ScannedLines`, the corrected reading of line 41 (a permissive decode with the default encoding) |
| Encoding.ChooseAsWritten | ida/dbg_server/utils.py:41 | as written, a success agrees with the corrected choice but is always the explicit or the default encoding, never a declared one, and UnknowEncodingError is never raised |
| Encoding.Resolve | ida/dbg_server/utils.py:32-52 | a text exists only for the chosen encoding and only when the strict decode with it succeeds; without an explicit encoding the text is that decode; with one it has no carriage return; a failed choice fails with the same exception |
| Encoding.Compiled | ida/dbg_server/utils.py:54 | a code unit holds the resolved text, names the absolute path as its file and compiles; a failure is the resolution's failure, or a SyntaxError for resolved text that does not compile |
| Encoding.ExplicitEncodingKept | ida/dbg_server/utils.py:32 | an explicit encoding is the one chosen and no scan takes place: the result does not depend on the permissive decode; loading succeeds exactly when the strict decode does, and the text is that decode after newline translation |
| Encoding.DefaultDecodeWins | ida/dbg_server/utils.py:36-38 | without an explicit encoding, bytes valid under the default encoding give the default encoding and that decode's text, and no scan takes place |
| Encoding.FirstDeclarationDecides | ida/dbg_server/utils.py:39-49 | when the default decode fails, the first scanned line with a declaration decides the encoding; the text is the strict decode with that encoding, not the permissive one |
| Encoding.FirstDeclaredIsAt | ida/dbg_server/utils.py:41-45 | the scan returns the name of a declaring line that has no declaring line before it |
| Encoding.NoDeclarationFails | ida/dbg_server/utils.py:47-48 | with a failed default decode and no declaring line, loading raises UnknowEncodingError and no code unit exists |
| Encoding.CompiledOnlyWithEncoding | ida/dbg_server/utils.py:47-54 | a code unit exists only once an encoding is chosen and the strict decode with it succeeds; it reports `abspath` as its file, and the chosen encoding is the explicit one, the default, or a non-empty well-formed declared name |
| Encoding.ScanUnreachableAsWritten | ida/dbg_server/utils.py:41 | as written, every failed default decode ends with a TypeError before any line is scanned |
| Encoding.Latin1Header | ida/dbg_server/utils.py:37-45 | bytes invalid under utf-8 whose first line is `# coding: latin-1`: the corrected scan chooses `latin-1`, and the code as written raises a TypeError |
| Encoding.Latin1Declaration | ida/dbg_server/utils.py:40-44 | the line `# coding: latin-1` declares `latin-1` |
| Declaration.DeclaredEncoding | ida/dbg_server/utils.py:40-44 | a declared name is non-empty and made only of `[-\w.]` characters |
| Declaration.DeclaredEncodingMatches | ida/dbg_server/utils.py:40-42 | a line declares an encoding exactly when it matches the pattern (whitespace, `#`, then `coding[:=]\s*` and a name character later on), and the name is the one at the last such `coding` |
| Declaration.SkipSpace | ida/dbg_server/utils.py:40 | a greedy `\s*` stops at the first non-whitespace character, or at the end, and everything it passes is whitespace |
| Declaration.NameEnd | ida/dbg_server/utils.py:40 | a greedy `[-\w.]*` stops at the first character outside the class, or at the end, and everything it passes is in the class |
| Declaration.DeclaresAtMatches | ida/dbg_server/utils.py:40 | the tail `coding[:=]\s*[-\w.]` matches at a position exactly when `coding`, then `:` or `=`, then only whitespace up to some name character follow it |
| Declaration.LastDeclaration | ida/dbg_server/utils.py:40 | the position found is the greatest one in range from which the pattern's tail matches, and nothing is found only when no position matches |
| Declaration.NameAt | ida/dbg_server/utils.py:40 | group 1 is non-empty and made only of name characters |
| Declaration.FirstDeclared | ida/dbg_server/utils.py:41-45 | the scan result, when there is one, is a non-empty, well-formed name |
| Declaration.FirstDeclaredIsFirst | ida/dbg_server/utils.py:41-45 | the scan returns the name of a declaring line with no declaring line before it, and returns nothing exactly when no line declares an encoding |
| Declaration.LaterLinesIgnored | ida/dbg_server/utils.py:43-45 | once a declaring line is found, any lines after it leave the result unchanged |
| Runner.ScanDeclarations | ida/dbg_server/utils.py:41-45 | the loop returns the first declared name |
| Lines.Split | ida/dbg_server/utils.py:41 | `split("\n")` gives at least one piece, and no piece contains a newline |
| Lines.SplitCount | ida/dbg_server/utils.py:41 | there is one more piece than there are newlines in the text |
| Lines.JoinSplit | ida/dbg_server/utils.py:41 | joining the pieces with newlines gives back the text |
| Lines.SplitJoin | ida/dbg_server/utils.py:41 | splitting the join of newline-free pieces gives back the pieces |
| Lines.UniversalNewlines | ida/dbg_server/utils.py:51-52 | text read in text mode contains no carriage return and is no longer than the decoded text |
| Lines.UniversalNewlinesFixed | ida/dbg_server/utils.py:51-52 | text without carriage returns is read unchanged |
| Lines.UniversalNewlinesIdempotent | ida/dbg_server/utils.py:51-52 | translating twice is the same as translating once |
| Lines.SplitAtBreaks | ida/dbg_server/utils.py:51-52 | cutting at `\r\n`, `\r` and `\n` gives at least one line, and no line holds either break character |
| Lines.SplitUniversalNewlines | ida/dbg_server/utils.py:51-52 | the lines of the translated text are exactly the lines of the original cut at `\r\n`, `\r` and `\n`: each break, and nothing else, becomes one newline |
| Ambient.EnvironUpdated | ida/dbg_server/utils.py:63 | `os.environ` gains the keys of `env` with `env`'s values and keeps every other entry; a synced environment stays synced; an environment cut off from the process leaves the process environment alone; nothing else changes |
| Ambient.Interpreter.UpdateEnviron | ida/dbg_server/utils.py:63 | `os.environ.update`: the new entries win; the process environment follows only while `os.environ` is live |
| Ambient.Interpreter.Run | ida/dbg_server/utils.py:78 | running foreign code on the main thread leaves exactly the state it produced and reports whether it raised |
| Ambient.Interpreter.EnsureCwdOnPath | ida/dbg_server/utils.py:105-106 | afterwards `""` is on the path; an existing entry leaves the list unchanged; otherwise `""` is at index 0, the list is one longer and the rest is shifted unchanged |
| Ambient.EnsureCwdOnPathTwice | ida/dbg_server/utils.py:105-106 | a second run changes nothing, and nothing but `sys.path` changes |
| Runner.PythonFile.BeforeExec | ida/dbg_server/utils.py:56-78 | the saved state is exactly the state before the call; the preamble runs on `Overridden` of that state, and the host is left as the preamble left it |
| Sandbox.Capture | ida/dbg_server/utils.py:58-66 | the snapshot is complete: restoring it at once gives back the whole state except the live link, and an in-place restore of a synced state gives back the state itself |
| Sandbox.Overridden | ida/dbg_server/utils.py:59-65 | the override keeps the live link, keeps a synced environment synced, and leaves the module registry and `sys.path` alone |
| Sandbox.OverrideView | ida/dbg_server/utils.py:58-65 | what the preamble starts with: `sys.argv == [path]`, `idc.ARGV == argv`, the script's `cwd`; every variable of `env` has its value from `env`; variables outside `env` keep their values; modules and `sys.path` are untouched |
| Sandbox.BodyStartView | ida/dbg_server/utils.py:58-84 | what the script body starts with, for a preamble that leaves `sys.argv`, `idc.ARGV`, `os.environ` and the working directory alone (as the fixed preamble text does): the same view, `sys.argv == [path]`, `idc.ARGV == argv`, the script's `cwd` and the `env` overlay |
| Sandbox.Evicted | ida/dbg_server/utils.py:93-96 | the names kept are exactly those both present now and saved, each still mapping to its current module object |
| Sandbox.Restored | ida/dbg_server/utils.py:89-96 | `sys.argv`, `idc.ARGV`, `os.environ` and the working directory are the saved ones; the registry keeps only names both saved and present; `os.environ` is cut off from the process and the process environment is left as the run left it; `sys.path` is untouched |
| Sandbox.RestoredInPlace | ida/dbg_server/utils.py:89-96 | the corrected restore: `os.environ` is the saved one and keeps its live link, a synced state stays synced (so the process environment is the saved one), and everything else is as in `Restored` |
| Runner.PythonFile.AfterExec | ida/dbg_server/utils.py:87-96 | the host state becomes `Restored` of the state before the call; the eviction loop removes exactly the names the saved registry lacks, in any order |
| Runner.PythonFile.Exec | ida/dbg_server/utils.py:80-85 | the host ends in `ExecOutcome`'s state, restored only when the preamble and the script returned, and the call reports whether they raised |
| Sandbox.ExecOutcome | ida/dbg_server/utils.py:80-85 | as written, `exec` returns exactly when both the preamble and the script return |
| Sandbox.RaisedExecNotRestored | ida/dbg_server/utils.py:80-85 | as written, an `exec` that raised leaves exactly the state the foreign code left: the preamble's if it raised, else the script's |
| Sandbox.GuardedExecOutcome | ida/dbg_server/utils.py:80-96 | the corrected `exec` raises exactly when the preamble or the script raises, and either way gives back `sys.argv`, `os.environ` and the working directory |
| Sandbox.ReturnedExecRestores | ida/dbg_server/utils.py:80-96 | after a run that returned, `sys.argv`, `idc.ARGV`, `os.environ` and `cwd` equal their values before the run; the registry holds only names held before; every such name the script left in place keeps the module object the script left there |
| Sandbox.RaisingScriptKeepsOverride | ida/dbg_server/utils.py:80-85 | a script that raises leaves `sys.argv` overridden: nothing is restored |
| Sandbox.RebindingLeaksOverlay | ida/dbg_server/utils.py:62-91 | a run that sets `X` ends with `os.environ` showing no `X`, while the process environment still holds `X=1` and `os.environ` no longer writes through |
| Sandbox.GuardedExecRestores | ida/dbg_server/utils.py:80-96 | with a guarded, in-place restore, every run gives back `sys.argv`, `idc.ARGV`, `os.environ` and `cwd`, whether or not it raised, and keeps no module imported during the run; when the foreign code changed the environment only through `os.environ`, the process environment and the live link are also as before |

## Findings

| source | as written | input that shows it | evidently intended | confidence | as-written member | corrected member |
|---|---|---|---|---|---|---|
| ida/dbg_server/utils.py:41 | `raw.decode(self.encoding, errors="replace")` runs while `self.encoding` is still `None`; `bytes.decode` rejects `None` with a TypeError, so no line is ever scanned | a file whose first line is `# coding: latin-1` and whose bytes are not valid utf-8 (for example byte 0xE9) | a permissive decode with the default encoding, then the scan for a declaration | high, not executed | Encoding.ScanUnreachableAsWritten | Encoding.FirstDeclarationDecides |
| ida/dbg_server/utils.py:91 | `os.environ = self._orig_env` rebinds `os.environ` to the plain dict that `os.environ.copy()` made. The variables written by `os.environ.update` at line 63 stay in the process environment, and later writes to `os.environ` no longer reach it | `env = {"X": "1"}`, with `X` unset before the run and a script that returns: afterwards child processes still inherit `X=1` | put the saved variables back into the live mapping, so the process environment is restored too | medium, not executed | Sandbox.RebindingLeaksOverlay | Sandbox.GuardedExecRestores |
| ida/dbg_server/utils.py:80-85 | `_after_exec` is called only after `execute_sync` returns normally | a script that raises at once: `sys.argv`, `idc.ARGV`, the environment, the working directory and its imports stay in place | restore in a `finally` clause, on every exit | medium, not executed; holds if `execute_sync` passes the exception on (see Ambient.Interpreter.Run under Left out) | Sandbox.RaisingScriptKeepsOverride | Sandbox.GuardedExecRestores |

The functions behind these lemmas:

- As written: `Encoding.ChooseAsWritten`, `Sandbox.Restored` and `Sandbox.ExecOutcome`. The `PythonFile` methods use the last two.
- Corrected: `Encoding.Choose`, which `PythonFile.Compile` uses and whose scan reads `Encoding.ScannedLines` (the permissive decode with the default encoding in place of line 41's `None`), plus `Sandbox.RestoredInPlace` and `Sandbox.GuardedExecOutcome`.

## Left out

- Reading the file (`open(...)`, lines 33-34 and 51-52): the raw bytes are a parameter. A missing or unreadable file is not modelled.
- Codec tables and Python's `compile()`: the `Runtime` value stands for them. It decides whether a strict decode succeeds, fails on the bytes or names no codec, what the permissive decode yields, and whether the text compiles. Decoding is taken to be deterministic.
- The debugger-attach preamble (lines 68-76) and `ida_kernwin.execute_sync` (lines 78 and 82-84): they are foreign, blocking hand-offs to IDA and debugpy. The preamble and the script are arbitrary `Effect`s run to completion. The script's namespace (`globals`) and the modules the preamble imports belong to those effects.
- Runner.PythonFile.constructor: `cwd` is a string. The source's default `cwd=None` makes `os.path.join` (for a relative path) and `os.chdir` raise a TypeError, and that case is not modelled.
- Paths.Join: POSIX semantics only. On Windows, `ntpath` treats drive letters and backslashes differently.
- Declaration.IsWordChar: `\w` is taken as ASCII letters, digits and `_`. Python also counts non-ASCII letters and digits. The model cuts a name at its first non-ASCII word character: for `# coding: utf-8é` it finds `utf-8` where Python finds `utf-8é` (and line 49 would then raise LookupError). A `coding` is passed over only when its name starts with such a character, and then an earlier `coding` on the same line may be chosen instead of the last one: for `# coding: utf-8 coding: é` the model finds `utf-8` where Python finds `é`. `\s` is Python's full whitespace set.
- Ambient.Interpreter.Run: the model assumes that `execute_sync` passes an exception raised by the code it runs on to its caller. If IDA instead reports the exception and returns normally, `exec` would go on to `_after_exec`, and the third Findings row would not apply.
- Sandbox.OverrideView: the view is stated for the state the preamble receives. What the script body receives is stated only under `KeepsView` (by `Sandbox.BodyStartView`), since the preamble is arbitrary foreign code. The working directory is recorded as the string passed to `os.chdir`, not as the canonical absolute directory that `os.getcwd()` returns. For a relative or symlinked `cwd` the two differ; the saved value that the restore passes back to `os.chdir` is unaffected.
- Runner.PythonFile.BeforeExec: lines 63-65 are taken to complete. In the source each can raise part-way: `os.environ.update` at line 63 (see Ambient.Interpreter.UpdateEnviron), `os.getcwd()` at line 64 when the host's working directory has been removed, and `os.chdir` at line 65 for a missing directory. Any of these leaves `sys.argv` and `idc.ARGV` overridden (lines 59 and 61), with whatever part of the environment was already written, and `exec` raises with nothing restored. Sandbox.ExecOutcome and Runner.PythonFile.Exec inherit this: their "returns exactly when both foreign runs return" holds for an override that completes.
- Ambient.Interpreter.UpdateEnviron: the update is taken to complete. While `os.environ` is live, each key goes through `putenv`, which raises ValueError for an empty name, a name containing `=`, or a name or value holding a NUL; the keys written before that one stay in both `os.environ` and the process environment. Validity of environment names is a property of the C library and the operating system, which the model leaves out.
- Runner.PythonFile.AfterExec: `os.chdir(self._orig_cwd)` (line 92) is taken to succeed. If the run removed or renamed the saved directory, the source raises FileNotFoundError there, after `sys.argv`, `idc.ARGV` and `os.environ` are put back but before the working directory changes and before the eviction loop (lines 93-96) runs; the model always sets the saved directory and evicts.
- Aliasing: `idc.ARGV` is the same list object as `self.argv`, and the default `env={}` is shared between calls. The model treats both as values, so a script that mutates `idc.ARGV` in place does not change the object's `argv` here.
- The iteration order of `sys.modules` in the eviction loop: the model picks any remaining name at each step. The result does not depend on the order.
- Concurrent invocations: the shared state is not locked, and interleaved runs are out of scope.
