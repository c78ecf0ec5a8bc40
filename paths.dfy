/** POSIX path joining, as Python's `os.path.join` does it for two components. */
module Paths {
  import opened Text

  /**
   * `os.path.join(a, b)`: an absolute `b` replaces `a`; otherwise `b` is appended,
   * with a `/` in between unless `a` is empty or already ends in `/`.
   */
  function PathJoin(a: string, b: string): (r: string)
    ensures EndsWith(r, b)
    ensures !StartsWith(b, "/") && a != "" && !EndsWith(a, "/") ==> r == a + "/" + b
    ensures !StartsWith(b, "/") ==> StartsWith(r, a)
  {
    if StartsWith(b, "/") then b
    else if a == "" || EndsWith(a, "/") then a + b
    else a + "/" + b
  }
}
