/**
 * The process-wide interpreter state that a script run inside the host can
 * see and change, and the host interpreter object that holds it.
 */
module Ambient {

  /** A value of the whole ambient state. */
  datatype State = State(
    sysArgv: seq<string>,            // sys.argv
    idcArgv: seq<string>,            // idc.ARGV, the host's own argument vector
    environ: map<string, string>,    // os.environ, as scripts read it
    environLive: bool,               // os.environ is still the os module's mapping, whose writes reach the process
    processEnv: map<string, string>, // the process environment, which child processes inherit
    cwd: string,                     // the working directory, as last passed to os.chdir
    modules: map<string, nat>,       // sys.modules: module name to the identity of the module object
    sysPath: seq<string>)            // sys.path

  /** How a piece of foreign code (the debugger preamble, the script body) ended, and the state it left. */
  datatype Outcome = Returned(state: State) | Raised(state: State)

  /** Foreign code run on the host's main thread: it may change anything, and may raise. */
  type Effect = State -> Outcome

  /** os.environ is the os module's mapping and agrees with the process environment. */
  ghost predicate Synced(s: State) {
    s.environLive && s.processEnv == s.environ
  }

  /**
   * `os.environ.update(env)`: the entries of `env` win. While os.environ is the
   * os module's mapping, each write also reaches the process environment.
   */
  function EnvironUpdated(s: State, env: map<string, string>): (r: State)
    ensures r.environ.Keys == s.environ.Keys + env.Keys
    ensures forall k :: k in env ==> r.environ[k] == env[k]
    ensures forall k :: k in s.environ && k !in env ==> r.environ[k] == s.environ[k]
    ensures Synced(s) ==> Synced(r)
    ensures !s.environLive ==> r.processEnv == s.processEnv
    ensures r.(environ := s.environ, processEnv := s.processEnv) == s
  {
    s.(environ := s.environ + env,
       processEnv := if s.environLive then s.processEnv + env else s.processEnv)
  }

  /** The embedded interpreter: its state is updated in place. */
  class Interpreter {
    var sysArgv: seq<string>
    var idcArgv: seq<string>
    var environ: map<string, string>
    var environLive: bool
    var processEnv: map<string, string>
    var cwd: string
    var modules: map<string, nat>
    var sysPath: seq<string>

    function Current(): State
      reads this
    {
      State(sysArgv, idcArgv, environ, environLive, processEnv, cwd, modules, sysPath)
    }

    constructor (s: State)
      ensures Current() == s
    {
      sysArgv, idcArgv, environ, environLive := s.sysArgv, s.idcArgv, s.environ, s.environLive;
      processEnv, cwd, modules, sysPath := s.processEnv, s.cwd, s.modules, s.sysPath;
    }

    /** `os.environ.update(env)`. */
    method UpdateEnviron(env: map<string, string>)
      modifies this`environ, this`processEnv
      ensures Current() == EnvironUpdated(old(Current()), env)
    {
      environ := environ + env;
      if environLive {
        processEnv := processEnv + env;
      }
    }

    /** `ida_kernwin.execute_sync(...)`: run foreign code to completion on the main thread. */
    method Run(effect: Effect) returns (raised: bool)
      modifies this
      ensures Current() == effect(old(Current())).state
      ensures raised == effect(old(Current())).Raised?
    {
      var outcome := effect(Current());
      sysArgv, idcArgv, environ, environLive := outcome.state.sysArgv, outcome.state.idcArgv, outcome.state.environ, outcome.state.environLive;
      processEnv, cwd, modules, sysPath := outcome.state.processEnv, outcome.state.cwd, outcome.state.modules, outcome.state.sysPath;
      raised := outcome.Raised?;
    }

    /**
     * The import-time set-up of utils.py (lines 105-106): make sure the empty
     * entry, "search the current directory", is on the module search path.
     * An existing entry leaves the path as it was; otherwise the entry goes
     * in front and every other entry keeps its place relative to the rest.
     */
    method EnsureCwdOnPath()
      modifies this`sysPath
      ensures "" in sysPath
      ensures "" in old(sysPath) ==> sysPath == old(sysPath)
      ensures "" !in old(sysPath) ==> |sysPath| == |old(sysPath)| + 1 && sysPath[0] == "" && sysPath[1..] == old(sysPath)
    {
      if "" !in sysPath {
        sysPath := [""] + sysPath;
      }
    }
  }

  /** Running the set-up twice leaves the search path as one run does. */
  method EnsureCwdOnPathTwice(host: Interpreter)
    modifies host
    ensures "" in host.sysPath
    ensures host.sysPath == (if "" in old(host.sysPath) then old(host.sysPath) else [""] + old(host.sysPath))
    ensures host.Current() == old(host.Current()).(sysPath := host.sysPath)
  {
    host.EnsureCwdOnPath();
    ghost var once := host.sysPath;
    host.EnsureCwdOnPath();
    assert host.sysPath == once;
  }
}
