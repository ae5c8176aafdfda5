/**
 * The ambient-state sandbox around one script run, as functions on state
 * values: what `_before_exec` saves and overrides, what `_after_exec` puts
 * back, and the whole of `exec`. The corrected forms of the restore step sit
 * beside the forms the source has.
 */
module Sandbox {
  import opened Ambient

  /** The `_orig_*` attributes: the state saved before a run. */
  datatype Saved = Saved(
    argv: seq<string>,
    idcArgv: seq<string>,
    environ: map<string, string>,
    cwd: string,
    modules: map<string, nat>)

  /**
   * What `_before_exec` saves (lines 58-66): enough that restoring it straight
   * away gives back every saved part of the state, and, done in place on a
   * synced state, the whole state.
   */
  function Capture(s: State): (saved: Saved)
    ensures Restored(s, saved) == s.(environLive := false)
    ensures Synced(s) ==> RestoredInPlace(s, saved) == s
  {
    Saved(s.sysArgv, s.idcArgv, s.environ, s.cwd, s.modules)
  }

  /**
   * The state `_before_exec` sets up for the script (lines 59-65): `sys.argv`
   * holds only the path, `idc.ARGV` the full argument vector, the script's
   * variables are laid over the environment, and the working directory is the
   * script's.
   */
  function Overridden(s: State, path: string, argv: seq<string>, env: map<string, string>, cwd: string): (o: State)
    ensures o.environLive == s.environLive
    ensures Synced(s) ==> Synced(o)
    ensures o.modules == s.modules && o.sysPath == s.sysPath
  {
    EnvironUpdated(s.(sysArgv := [path], idcArgv := argv), env).(cwd := cwd)
  }

  /** The module registry after eviction (lines 93-96): the entries whose names are in `keep`. */
  function Evicted(modules: map<string, nat>, keep: set<string>): (r: map<string, nat>)
    ensures r.Keys == modules.Keys * keep
    ensures forall k :: k in r ==> r[k] == modules[k]
  {
    map k | k in modules && k in keep :: modules[k]
  }

  /**
   * `_after_exec` as written (lines 89-96). Line 91 rebinds `os.environ` to the
   * plain dict that `copy()` made: the names scripts read come back, but the
   * process environment is left as it is and os.environ no longer reaches it.
   */
  function Restored(s: State, saved: Saved): (r: State)
    ensures r.sysArgv == saved.argv && r.idcArgv == saved.idcArgv && r.environ == saved.environ && r.cwd == saved.cwd
    ensures r.modules.Keys <= saved.modules.Keys && r.modules.Keys <= s.modules.Keys
    ensures !r.environLive && r.processEnv == s.processEnv
    ensures r.sysPath == s.sysPath
  {
    s.(sysArgv := saved.argv,
       idcArgv := saved.idcArgv,
       environ := saved.environ,
       environLive := false,
       cwd := saved.cwd,
       modules := Evicted(s.modules, saved.modules.Keys))
  }

  /**
   * `_after_exec` with the environment put back in place
   * (`os.environ.clear(); os.environ.update(saved)`), so that the process
   * environment follows and os.environ stays the os module's mapping.
   */
  function RestoredInPlace(s: State, saved: Saved): (r: State)
    ensures r.environ == saved.environ && r.environLive == s.environLive
    ensures Synced(s) ==> Synced(r)
    ensures !s.environLive ==> r.processEnv == s.processEnv
    ensures r.(environLive := false, processEnv := s.processEnv) == Restored(s, saved)
  {
    Restored(s, saved).(
      environLive := s.environLive,
      processEnv := if s.environLive then (s.processEnv - s.environ.Keys) + saved.environ else s.processEnv)
  }

  /** `exec` as written (lines 80-85): the restore runs only when neither the preamble nor the body raised. */
  function ExecOutcome(s: State, path: string, argv: seq<string>, env: map<string, string>, cwd: string,
                       preamble: Effect, body: Effect): (r: Outcome)
    ensures r.Returned? <==> preamble(Overridden(s, path, argv, env, cwd)).Returned?
                             && body(preamble(Overridden(s, path, argv, env, cwd)).state).Returned?
  {
    var pre := preamble(Overridden(s, path, argv, env, cwd));
    if pre.Raised? then pre
    else
      var run := body(pre.state);
      if run.Raised? then run else Returned(Restored(run.state, Capture(s)))
  }

  /** The state the script body ends in, whenever the preamble returned. */
  function BodyExit(s: State, path: string, argv: seq<string>, env: map<string, string>, cwd: string,
                    preamble: Effect, body: Effect): State
  {
    body(preamble(Overridden(s, path, argv, env, cwd)).state).state
  }

  /**
   * `exec` with the restore in a `finally` clause around everything after the
   * snapshot, and with the environment put back in place.
   */
  function GuardedExecOutcome(s: State, path: string, argv: seq<string>, env: map<string, string>, cwd: string,
                              preamble: Effect, body: Effect): (r: Outcome)
    ensures r.Raised? <==> preamble(Overridden(s, path, argv, env, cwd)).Raised?
                           || body(preamble(Overridden(s, path, argv, env, cwd)).state).Raised?
    ensures r.state.sysArgv == s.sysArgv && r.state.environ == s.environ && r.state.cwd == s.cwd
  {
    var pre := preamble(Overridden(s, path, argv, env, cwd));
    if pre.Raised? then Raised(RestoredInPlace(pre.state, Capture(s)))
    else
      var run := body(pre.state);
      var after := RestoredInPlace(run.state, Capture(s));
      if run.Raised? then Raised(after) else Returned(after)
  }

  /** Foreign code that changes the environment only through os.environ. */
  ghost predicate KeepsSync(e: Effect) {
    forall t :: Synced(t) ==> Synced(e(t).state)
  }

  /**
   * What the preamble starts with (the state `Overridden` hands it): `sys.argv` is just the
   * path, `idc.ARGV` is the full argument vector, the working directory is the
   * script's, every variable of `env` has its value from `env`, every other
   * variable keeps its value, and the module registry and search path are untouched.
   */
  lemma OverrideView(s: State, path: string, argv: seq<string>, env: map<string, string>, cwd: string)
    ensures var o := Overridden(s, path, argv, env, cwd);
      && o.sysArgv == [path] && o.idcArgv == argv && o.cwd == cwd
      && o.environ.Keys == s.environ.Keys + env.Keys
      && (forall k :: k in env ==> o.environ[k] == env[k])
      && (forall k :: k in s.environ && k !in env ==> o.environ[k] == s.environ[k])
      && o.modules == s.modules && o.sysPath == s.sysPath
  {
  }

  /**
   * Foreign code that leaves `sys.argv`, `idc.ARGV`, os.environ and the
   * working directory as it finds them, as the fixed preamble of lines 68-75,
   * which only imports and calls the debugger and the host's UI, does.
   */
  ghost predicate KeepsView(e: Effect) {
    forall t :: var u := e(t).state;
      u.sysArgv == t.sysArgv && u.idcArgv == t.idcArgv && u.environ == t.environ && u.cwd == t.cwd
  }

  /**
   * What the script body starts with (the state the preamble leaves), when the
   * preamble keeps the view: the same override the preamble started with.
   */
  lemma BodyStartView(s: State, path: string, argv: seq<string>, env: map<string, string>, cwd: string,
                      preamble: Effect)
    requires KeepsView(preamble)
    ensures var b := preamble(Overridden(s, path, argv, env, cwd)).state;
      && b.sysArgv == [path] && b.idcArgv == argv && b.cwd == cwd
      && b.environ.Keys == s.environ.Keys + env.Keys
      && (forall k :: k in env ==> b.environ[k] == env[k])
      && (forall k :: k in s.environ && k !in env ==> b.environ[k] == s.environ[k])
  {
  }

  /**
   * After an `exec` that returned, `sys.argv`, `idc.ARGV`, os.environ and the
   * working directory are what they were before; the module registry holds
   * only names it held before, and every such name the script left in place
   * still maps to the module object the script left there.
   */
  lemma ReturnedExecRestores(s: State, path: string, argv: seq<string>, env: map<string, string>, cwd: string,
                             preamble: Effect, body: Effect)
    requires ExecOutcome(s, path, argv, env, cwd, preamble, body).Returned?
    ensures var r := ExecOutcome(s, path, argv, env, cwd, preamble, body).state;
      var b := BodyExit(s, path, argv, env, cwd, preamble, body);
      && r.sysArgv == s.sysArgv && r.idcArgv == s.idcArgv && r.environ == s.environ && r.cwd == s.cwd
      && r.modules.Keys <= s.modules.Keys
      && (forall k :: k in s.modules && k in b.modules ==> k in r.modules && r.modules[k] == b.modules[k])
  {
  }

  /**
   * As written, an `exec` that raised did no restore: the state is exactly the
   * one the foreign code left, the preamble's if it raised, else the body's.
   */
  lemma RaisedExecNotRestored(s: State, path: string, argv: seq<string>, env: map<string, string>, cwd: string,
                              preamble: Effect, body: Effect)
    requires ExecOutcome(s, path, argv, env, cwd, preamble, body).Raised?
    ensures var pre := preamble(Overridden(s, path, argv, env, cwd));
      ExecOutcome(s, path, argv, env, cwd, preamble, body).state
        == if pre.Raised? then pre.state else BodyExit(s, path, argv, env, cwd, preamble, body)
  {
  }

  /**
   * As written, a script that raises leaves the override in place: here one
   * that raises straight away, started with a `sys.argv` other than `[path]`.
   */
  lemma RaisingScriptKeepsOverride(s: State, path: string, argv: seq<string>, env: map<string, string>, cwd: string,
                                   preamble: Effect, body: Effect)
    requires forall t :: preamble(t) == Returned(t)
    requires forall t :: body(t) == Raised(t)
    requires s.sysArgv != [path]
    ensures ExecOutcome(s, path, argv, env, cwd, preamble, body).Raised?
    ensures ExecOutcome(s, path, argv, env, cwd, preamble, body).state.sysArgv != s.sysArgv
  {
    var o := Overridden(s, path, argv, env, cwd);
    assert preamble(o) == Returned(o);
    assert body(o) == Raised(o);
  }

  /**
   * As written, the overlay stays in the process environment: a run that
   * sets X, started from an environment without X, ends with os.environ
   * showing no X while child processes still inherit X, and with os.environ
   * cut off from the process environment.
   */
  lemma RebindingLeaksOverlay(s: State, path: string, argv: seq<string>, cwd: string,
                              preamble: Effect, body: Effect)
    requires Synced(s) && "X" !in s.environ
    requires forall t :: preamble(t) == Returned(t)
    requires forall t :: body(t) == Returned(t)
    ensures var r := ExecOutcome(s, path, argv, map["X" := "1"], cwd, preamble, body);
      && r.Returned?
      && "X" !in r.state.environ
      && "X" in r.state.processEnv && r.state.processEnv["X"] == "1"
      && !r.state.environLive
  {
    var o := Overridden(s, path, argv, map["X" := "1"], cwd);
    assert preamble(o) == Returned(o);
    assert body(o) == Returned(o);
  }

  /**
   * With the restore guarded and done in place, every run, whether it raised
   * or not, gives back `sys.argv`, `idc.ARGV`, os.environ, its link to the
   * process and the working directory, keeps no module imported during the
   * run, and, when the foreign code went through os.environ, leaves the
   * process environment as it found it.
   */
  lemma GuardedExecRestores(s: State, path: string, argv: seq<string>, env: map<string, string>, cwd: string,
                            preamble: Effect, body: Effect)
    ensures var r := GuardedExecOutcome(s, path, argv, env, cwd, preamble, body).state;
      && r.sysArgv == s.sysArgv && r.idcArgv == s.idcArgv && r.environ == s.environ && r.cwd == s.cwd
      && r.modules.Keys <= s.modules.Keys
    ensures Synced(s) && KeepsSync(preamble) && KeepsSync(body) ==>
      var r := GuardedExecOutcome(s, path, argv, env, cwd, preamble, body).state;
      r.environLive && r.processEnv == s.processEnv
  {
    if Synced(s) && KeepsSync(preamble) && KeepsSync(body) {
      var o := Overridden(s, path, argv, env, cwd);
      assert Synced(o);
      var pre := preamble(o);
      assert Synced(pre.state);
      var last := if pre.Raised? then pre.state else body(pre.state).state;
      assert Synced(last);
      assert last.processEnv - last.environ.Keys == map[];
      assert map[] + s.environ == s.environ;
    }
  }
}
