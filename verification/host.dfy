/** The parts of the machine the scanner reads: the file system (as the
    answer of `File.Exists` and `File.ReadAllLinesAsync` per path), the
    application base directory and the current directory, with the
    Windows `Path.Combine` rule used to build paths from them. */
module Host {
  import opened Text

  /** A file's contents as read by `File.ReadAllLinesAsync`, or a file that
      exists but whose read throws. */
  datatype FileEntry = Readable(lines: seq<string>) | Unreadable

  /** The files that exist, by path. */
  type FileSystem = map<string, FileEntry>

  datatype HostEnv = HostEnv(baseDirectory: string, currentDirectory: string, fs: FileSystem)

  /** `File.Exists`. */
  predicate FileExists(fs: FileSystem, path: string) {
    path in fs
  }

  predicate IsDirectorySeparator(c: char) {
    c == '\\' || c == '/'
  }

  /** `Path.IsPathRooted` on Windows: a leading separator or a drive letter. */
  predicate IsPathRooted(path: string) {
    || (|path| >= 1 && IsDirectorySeparator(path[0]))
    || (|path| >= 2 && (('a' <= path[0] <= 'z') || ('A' <= path[0] <= 'Z')) && path[1] == ':')
  }

  /** The two-argument `Path.Combine` on Windows. The scanner's three- to
      five-argument calls combine non-empty, non-rooted segments, for which
      the multi-argument overloads agree with nesting this one. */
  function Combine(first: string, second: string): (r: string)
    ensures second != [] && !IsPathRooted(second) ==> |r| >= |second| && r[|r| - |second|..] == second
    ensures first != [] && !IsPathRooted(second) ==> |r| >= |first| && r[..|first|] == first
  {
    if first == [] then second
    else if second == [] then first
    else if IsPathRooted(second) then second
    else if IsDirectorySeparator(first[|first| - 1]) || IsDirectorySeparator(second[0]) then first + second
    else first + "\\" + second
  }
}
