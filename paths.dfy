/** The POSIX path operations the constructor uses (`os.path.isabs`, `os.path.join`). */
module Paths {

  /** `os.path.isabs`: the path starts with `/`. */
  predicate IsAbs(p: string) {
    |p| > 0 && p[0] == '/'
  }

  /** `os.path.join(a, b)` for two components. */
  function Join(a: string, b: string): (r: string)
    ensures IsAbs(b) ==> r == b
    ensures !IsAbs(b) ==> a <= r && |b| <= |r| && r[|r| - |b|..] == b
    ensures IsAbs(a) ==> IsAbs(r)
  {
    if IsAbs(b) then b
    else if a == "" || a[|a| - 1] == '/' then a + b
    else a + "/" + b
  }

  /**
   * The `abspath` of the script (lines 22-25): the path itself when it is
   * absolute, otherwise the path joined onto the working directory. The
   * `isabs` test agrees with what `join` would do anyway, the given path is
   * always the tail of the result, and the result is absolute when either
   * input is.
   */
  function AbsPath(path: string, cwd: string): (r: string)
    ensures IsAbs(path) ==> r == path
    ensures r == Join(cwd, path)
    ensures |path| <= |r| && r[|r| - |path|..] == path
    ensures IsAbs(cwd) || IsAbs(path) ==> IsAbs(r)
  {
    if IsAbs(path) then path else Join(cwd, path)
  }
}
