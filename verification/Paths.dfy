/** Relative paths as text. */
module Paths {
  // Where the path component starting at `from` ends.
  function PartEnd(path: string, from: nat): (end: nat)
    requires from <= |path|
    ensures from <= end <= |path|
    decreases |path| - from
  {
    if from == |path| || path[from] == '/' then from else PartEnd(path, from + 1)
  }

  predicate NoPartIn(path: string, start: nat, refused: seq<string>)
    requires start <= |path|
    decreases |path| - start
  {
    var end := PartEnd(path, start);
    path[start..end] !in refused && (end < |path| ==> NoPartIn(path, end + 1, refused))
  }

  // A non-empty relative path that never climbs; empty and dot components are ignored.
  predicate RelativePath(path: string) { path != "" && path[0] != '/' && NoPartIn(path, 0, [".."]) }

  // A path whose every component is a plain name, absolute on no platform.
  predicate StrictRelative(path: string) {
    && path != "" && '\\' !in path && path[0] != '/' && !(|path| >= 3 && path[1] == ':' && path[2] == '/')
    && NoPartIn(path, 0, ["", ".", ".."])
  }

  function Join(part: string, rest: string): string { part + "/" + rest }
}
