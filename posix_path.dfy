/** `os.path.join` as POSIX Python defines it, for two components. */
module PosixPath {

  predicate IsAbsolute(p: string) {
    |p| > 0 && p[0] == '/'
  }

  /**
   * `os.path.join(a, b)`: an absolute `b` replaces `a`; otherwise `b` is
   * appended, with a `/` in between unless `a` is empty or already ends in one.
   */
  function Join(a: string, b: string): string {
    if IsAbsolute(b) then b
    else if a == [] || a[|a| - 1] == '/' then a + b
    else a + "/" + b
  }

  /**
   * The joined path ends with `b`; it is `b` when `b` is absolute, and
   * otherwise starts with `a` and adds at most one `/`.
   */
  lemma JoinShape(a: string, b: string)
    ensures var r := Join(a, b);
            && |b| <= |r| && r[|r| - |b|..] == b
            && (IsAbsolute(b) ==> r == b)
            && (!IsAbsolute(b) ==> |a| <= |r| <= |a| + 1 + |b| && r[..|a|] == a)
            && (!IsAbsolute(b) ==> r == a + b || r == a + "/" + b)
            && (!IsAbsolute(b) ==> (r == a + "/" + b <==> a != [] && a[|a| - 1] != '/'))
  {
  }
}
