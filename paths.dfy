/**
 * Paths as the supervisor sees them after canonicalisation, and the split of an
 * executable path into its working directory and its file name
 * (`impl From<CommandLineArguments> for Config` in src/config.rs).
 */
module Paths {
  import opened Wrappers

  /** An absolute, canonical path, written as its components below the root:
      `/opt/app/run.exe` is `["opt", "app", "run.exe"]` and the root itself is `[]`. */
  type Path = seq<string>

  /** Where the executable lives: its parent directory and its file name. */
  datatype Location = Location(directory: Path, fileName: string)

  /** A file name has an extension when some '.' in it stands after its first character. */
  predicate HasExtension(name: string)
  {
    exists i :: 0 < i < |name| && name[i] == '.'
  }

  /** Index of the last '.' in `name`, or -1 when there is none. */
  function LastDot(name: string): (i: int)
    ensures -1 <= i < |name|
    ensures i >= 0 ==> name[i] == '.'
    ensures forall j :: i < j < |name| ==> name[j] != '.'
  {
    if name == [] then -1
    else if name[|name| - 1] == '.' then |name| - 1
    else LastDot(name[..|name| - 1])
  }

  /** The extension of a file name as Rust's `Path::extension` computes it: the text
      after the last '.', unless there is no '.' or the last one is the first character
      (a hidden file such as ".profile" has none). */
  function Extension(name: string): (ext: Option<string>)
    ensures ext.Some? <==> HasExtension(name)
    ensures ext.Some? ==> '.' !in ext.value
    ensures ext.Some? ==> |ext.value| + 1 < |name|
    ensures ext.Some? ==> name[|name| - |ext.value| - 1] == '.'
    ensures ext.Some? ==> name[|name| - |ext.value|..] == ext.value
  {
    var d := LastDot(name);
    if d <= 0 then None else Some(name[d + 1..])
  }

  /** The split `Config::from` makes once the path is canonical: when the path has an
      extension, the whole last component (extension included) becomes the file name and
      the parent becomes the directory; otherwise the conversion panics (None here). As Rust's
      `Path::file_name` does, the root and a path ending in ".." have no file name. */
  function SplitExecutablePath(path: Path): (r: Option<Location>)
    ensures r.Some? <==> path != [] && path[|path| - 1] != ".." && HasExtension(path[|path| - 1])
    ensures r.Some? ==> r.value.directory + [r.value.fileName] == path
    ensures r.Some? ==> HasExtension(r.value.fileName)
  {
    if path != [] && path[|path| - 1] != ".." && Extension(path[|path| - 1]).Some? then
      Some(Location(path[..|path| - 1], path[|path| - 1]))
    else
      None
  }
}
