/**
 * `StaticFS`: a file-serving route registered under a pattern that ends in
 * '/', with a permanent redirect from the pattern as written when it did
 * not; and the file system wrapper that refuses a directory without an
 * index.html.
 */
module Static {
  import opened Wrappers
  import opened Strings

  // ---------------------------------------------------------------- patterns

  /**
   * The pattern `StaticHandlerFS` returns: "/" and patterns already ending in
   * '/' are kept, any other gets a '/' appended. Go indexes the last byte, so
   * an empty pattern is refused.
   */
  function NormalizePattern(pattern: string): (p: string)
    requires |pattern| > 0
    ensures |p| > 0 && p[|p| - 1] == '/'
    ensures pattern[|pattern| - 1] == '/' ==> p == pattern
    ensures pattern[|pattern| - 1] != '/' ==> p == pattern + "/"
  {
    if pattern != "/" && pattern[|pattern| - 1] != '/' then pattern + "/" else pattern
  }

  lemma NormalizePatternIdempotent(pattern: string)
    requires |pattern| > 0
    ensures NormalizePattern(NormalizePattern(pattern)) == NormalizePattern(pattern)
  {
  }

  /** A normalised pattern is the original with at most one '/' added, so it still starts with it. */
  lemma NormalizePatternExtends(pattern: string)
    requires |pattern| > 0
    ensures NormalizePattern(pattern) == pattern <==> pattern[|pattern| - 1] == '/'
    ensures NormalizePattern(pattern)[..|pattern|] == pattern
  {
  }

  // ---------------------------------------------------------------- registration

  /** What `StaticFS` hands to the mux for one pattern. */
  datatype Route =
    | Redirect(target: string, code: int)   // `http.RedirectHandler(target, code)`
    | Files(prefix: string)                 // `StripPrefix(prefix, FileServer(...))`

  datatype Registration = Registration(pattern: string, route: Route)

  /** The `m.Handle` calls `StaticFS(m, pattern, fs)` makes, in order. */
  function StaticFS(pattern: string): (regs: seq<Registration>)
    requires |pattern| > 0
  {
    var p := NormalizePattern(pattern);
    (if pattern != p then [Registration(pattern, Redirect(p, 301))] else [])
    + [Registration(p, Files(p))]
  }

  /**
   * The file handler is always registered last, on the normalised pattern; a
   * 301 redirect to it from the pattern as written comes first exactly when
   * the two differ.
   */
  lemma StaticFSRegistrations(pattern: string)
    requires |pattern| > 0
    ensures var regs := StaticFS(pattern); var p := NormalizePattern(pattern);
      |regs| >= 1 && regs[|regs| - 1] == Registration(p, Files(p))
      && (|regs| == 2 <==> pattern != p)
      && (|regs| == 2 ==> regs[0] == Registration(pattern, Redirect(p, 301)))
      && |regs| <= 2
  {
  }

  /** Every registered pattern is the one written or its normalised form, and no two coincide. */
  lemma StaticFSDistinctPatterns(pattern: string)
    requires |pattern| > 0
    ensures var regs := StaticFS(pattern);
      forall i, j :: 0 <= i < j < |regs| ==> regs[i].pattern != regs[j].pattern
  {
  }

  // ---------------------------------------------------------------- opening files

  /** What the underlying file system holds under a name. */
  datatype Node = File | Dir

  /** The underlying file system, as a map from name to node; a missing name fails to open. */
  type FileSystem = map<string, Node>

  /** The index file of a directory: `path.Join(strings.TrimSuffix(name, "/"), "index.html")`. */
  function IndexPath(name: string): (index: string)
    ensures HasSuffix(index, "index.html")
  {
    var dir := TrimSuffix(name, "/");
    if dir == "" then "index.html" else dir + "/index.html"
  }

  /** `fileSystem.Open`: a directory opens only when its index.html opens too. */
  function Open(fs: FileSystem, name: string): (r: Option<Node>)
    ensures r.Some? <==> name in fs && (fs[name] == Dir ==> IndexPath(name) in fs)
    ensures r.Some? ==> r.value == fs[name]
  {
    if name !in fs then None
    else if fs[name] == Dir && IndexPath(name) !in fs then None
    else Some(fs[name])
  }

  /** Files open exactly as the underlying file system opens them. */
  lemma OpenFile(fs: FileSystem, name: string)
    requires name in fs && fs[name] == File
    ensures Open(fs, name) == Some(File)
  {
  }

  /** With or without its trailing '/', a directory is checked for the same index file. */
  lemma IndexPathIgnoresTrailingSlash(dir: string)
    requires dir != "" && dir[|dir| - 1] != '/'
    ensures IndexPath(dir + "/") == IndexPath(dir)
  {
    assert HasSuffix(dir + "/", "/");
    assert (dir + "/")[..|dir|] == dir;
    assert !HasSuffix(dir, "/");
  }

  /** A file system without any index.html refuses every directory, the root included. */
  lemma NoIndexNoDirectory(fs: FileSystem, name: string)
    requires forall n :: n in fs ==> !HasSuffix(n, "index.html")
    requires name in fs && fs[name] == Dir
    ensures Open(fs, name) == None
  {
  }
}
