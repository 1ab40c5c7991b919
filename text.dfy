/** The string and path operations the loader takes from Go's strings and path/filepath packages. */
module Text {

  /** strings.HasPrefix, case-sensitive; Go compares bytes, this compares characters, which agree on valid UTF-8. */
  predicate HasPrefix(s: string, prefix: string) {
    |prefix| <= |s| && s[..|prefix|] == prefix
  }

  /** strings.HasSuffix, case-sensitive; Go compares bytes, this compares characters, which agree on valid UTF-8. */
  predicate HasSuffix(s: string, suffix: string) {
    |suffix| <= |s| && s[|s| - |suffix|..] == suffix
  }

  /** filepath.Join of two elements, without the lexical cleaning Go applies. */
  function JoinPath(dir: string, name: string): string {
    dir + "/" + name
  }

  /** filepath.Base: what follows the last separator. */
  function BaseName(path: string): string
    decreases |path|
  {
    if path == [] || path[|path| - 1] == '/' then []
    else BaseName(path[..|path| - 1]) + [path[|path| - 1]]
  }
}
