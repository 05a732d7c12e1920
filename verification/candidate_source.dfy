/** Candidate ingestion (`LoadIPListAsync`, `IsValidIP`): the first of seven
    candidate list files that exists is read, and its lines are filtered to
    the trimmed lines that look like an address. */
module CandidateSource {
  import opened Text
  import opened Host

  /** The list file name every fallback candidate uses. */
  const ListFileName: string := "ipv4.txt"

  /** Whether a path names the list file. */
  predicate EndsWithListFile(path: string) {
    |path| >= |ListFileName| && path[|path| - |ListFileName|..] == ListFileName
  }

  /** The list file inside a directory. */
  function InDirectory(directory: string): (path: string)
    ensures EndsWithListFile(path)
  {
    assert !IsPathRooted(ListFileName);
    Combine(directory, ListFileName)
  }

  /** The directory `levels` steps above `directory`, written with "..". */
  function Above(directory: string, levels: nat): string {
    if levels == 0 then directory else Combine(Above(directory, levels - 1), "..")
  }

  /** The seven places searched, in order: the configured path, the list
      file in the base directory and one, two and three levels above it,
      the bare file name, and the list file in the current directory. */
  function CandidatePaths(filePath: string, env: HostEnv): (paths: seq<string>)
    ensures |paths| == 7
    ensures paths[0] == filePath && paths[5] == ListFileName
  {
    [ filePath,
      InDirectory(env.baseDirectory),
      InDirectory(Above(env.baseDirectory, 1)),
      InDirectory(Above(env.baseDirectory, 2)),
      InDirectory(Above(env.baseDirectory, 3)),
      ListFileName,
      InDirectory(env.currentDirectory) ]
  }

  /** The position of the first path that exists, or `|paths|` if none does. */
  function FirstExisting(paths: seq<string>, fs: FileSystem): (i: nat)
    ensures i <= |paths|
    ensures i < |paths| ==> FileExists(fs, paths[i])
    ensures forall j :: 0 <= j < i ==> !FileExists(fs, paths[j])
  {
    if |paths| == 0 then 0
    else if FileExists(fs, paths[0]) then 0
    else 1 + FirstExisting(paths[1..], fs)
  }

  /** `IsValidIP`: not blank and containing a '.' or a ':'. */
  predicate IsValidIP(ip: string) {
    !IsBlank(ip) && ('.' in ip || ':' in ip)
  }

  /** Whether a line survives the filter: not blank, and valid once trimmed. */
  predicate Keep(line: string) {
    !IsBlank(line) && IsValidIP(Trim(line))
  }

  /** The filter amounts to asking for a '.' or a ':' anywhere on the line:
      neither is white space, so trimming keeps them and they make the line
      non-blank. */
  lemma KeepIffDotOrColon(line: string)
    ensures Keep(line) <==> '.' in line || ':' in line
  {
    TrimKeepsNonWhiteSpace(line, '.');
    TrimKeepsNonWhiteSpace(line, ':');
    if '.' in line || ':' in line {
      var c := if '.' in line then '.' else ':';
      var k :| 0 <= k < |line| && line[k] == c;
      assert !IsWhiteSpace(line[k]);
      var t := Trim(line);
      var j :| 0 <= j < |t| && t[j] == c;
      assert !IsWhiteSpace(t[j]);
    }
  }

  /** The blank-line filter, the trim and the address filter, in order. */
  function ValidLines(lines: seq<string>): (ips: seq<string>)
    ensures |ips| <= |lines|
  {
    if |lines| == 0 then []
    else
      var rest := ValidLines(lines[1..]);
      if Keep(lines[0]) then [Trim(lines[0])] + rest else rest
  }

  /** Every loaded address is valid and already trimmed. */
  lemma ValidLinesAreAddresses(lines: seq<string>)
    ensures forall k :: 0 <= k < |ValidLines(lines)| ==>
              IsValidIP(ValidLines(lines)[k]) && Trim(ValidLines(lines)[k]) == ValidLines(lines)[k]
  {
    var ips := ValidLines(lines);
    forall k | 0 <= k < |ips|
      ensures IsValidIP(ips[k]) && Trim(ips[k]) == ips[k]
    {
      var j := ValidLinesSource(lines, ips[k]);
      TrimIdempotent(lines[j]);
    }
  }

  /** The filter works line by line: filtering a concatenation concatenates
      the filtered parts, so the input order is kept. */
  lemma {:induction false} ValidLinesAppend(a: seq<string>, b: seq<string>)
    ensures ValidLines(a + b) == ValidLines(a) + ValidLines(b)
  {
    if |a| == 0 {
      assert a + b == b;
    } else {
      assert (a + b)[0] == a[0];
      assert (a + b)[1..] == a[1..] + b;
      ValidLinesAppend(a[1..], b);
    }
  }

  /** One line gives its trimmed text when it has a '.' or a ':', and
      nothing otherwise. */
  lemma ValidLinesSingle(line: string)
    ensures ValidLines([line]) == if '.' in line || ':' in line then [Trim(line)] else []
  {
    KeepIffDotOrColon(line);
    assert [line][1..] == [];
  }

  /** Every kept line is loaded, trimmed. */
  lemma {:induction false} ValidLinesKeeps(lines: seq<string>, j: nat)
    requires j < |lines| && Keep(lines[j])
    ensures Trim(lines[j]) in ValidLines(lines)
  {
    var head := if Keep(lines[0]) then [Trim(lines[0])] else [];
    assert ValidLines(lines) == head + ValidLines(lines[1..]);
    if j > 0 {
      ValidLinesKeeps(lines[1..], j - 1);
      assert lines[1..][j - 1] == lines[j];
    } else {
      assert Trim(lines[0]) in head;
    }
  }

  /** Every loaded address comes from a kept line: `j` is one. */
  lemma {:induction false} ValidLinesSource(lines: seq<string>, ip: string) returns (j: nat)
    requires ip in ValidLines(lines)
    ensures j < |lines| && Keep(lines[j]) && Trim(lines[j]) == ip
  {
    var head := if Keep(lines[0]) then [Trim(lines[0])] else [];
    assert ValidLines(lines) == head + ValidLines(lines[1..]);
    if ip in head {
      j := 0;
    } else {
      var k := ValidLinesSource(lines[1..], ip);
      assert lines[1..][k] == lines[k + 1];
      j := k + 1;
    }
  }

  /** An address is loaded exactly when some kept line trims to it. */
  lemma ValidLinesMembership(lines: seq<string>, ip: string)
    ensures ip in ValidLines(lines) <==> exists j :: 0 <= j < |lines| && Keep(lines[j]) && Trim(lines[j]) == ip
  {
    if ip in ValidLines(lines) {
      var j := ValidLinesSource(lines, ip);
    }
    if exists j :: 0 <= j < |lines| && Keep(lines[j]) && Trim(lines[j]) == ip {
      var j :| 0 <= j < |lines| && Keep(lines[j]) && Trim(lines[j]) == ip;
      ValidLinesKeeps(lines, j);
    }
  }

  /** The valid lines of the first file of `paths` that exists; nothing
      when none exists or its read fails. */
  function LoadFirstExisting(paths: seq<string>, fs: FileSystem): (ips: seq<string>)
    ensures (forall k :: 0 <= k < |paths| ==> !FileExists(fs, paths[k])) ==> ips == []
    ensures forall k :: 0 <= k < |ips| ==> IsValidIP(ips[k]) && Trim(ips[k]) == ips[k]
  {
    var i := FirstExisting(paths, fs);
    if i == |paths| || fs[paths[i]].Unreadable? then []
    else
      var ips := ValidLines(fs[paths[i]].lines);
      ValidLinesAreAddresses(fs[paths[i]].lines);
      ips
  }

  /** The file read is the first path that exists, whatever the later paths
      hold. */
  lemma LoadReadsFirstExisting(paths: seq<string>, fs: FileSystem, k: nat)
    requires k < |paths| && FileExists(fs, paths[k])
    requires forall j :: 0 <= j < k ==> !FileExists(fs, paths[j])
    ensures fs[paths[k]].Readable? ==> LoadFirstExisting(paths, fs) == ValidLines(fs[paths[k]].lines)
    ensures fs[paths[k]].Unreadable? ==> LoadFirstExisting(paths, fs) == []
  {
    assert FirstExisting(paths, fs) == k;
  }

  /** `LoadIPListAsync`: the valid lines of the first candidate file that
      exists. */
  function LoadIPList(filePath: string, env: HostEnv): (ips: seq<string>)
    ensures (forall k :: 0 <= k < 7 ==> !FileExists(env.fs, CandidatePaths(filePath, env)[k])) ==> ips == []
    ensures forall k :: 0 <= k < |ips| ==> IsValidIP(ips[k]) && Trim(ips[k]) == ips[k]
    ensures FileExists(env.fs, filePath) && env.fs[filePath].Readable? ==> ips == ValidLines(env.fs[filePath].lines)
  {
    var paths := CandidatePaths(filePath, env);
    var ips := LoadFirstExisting(paths, env.fs);
    assert FileExists(env.fs, filePath) && env.fs[filePath].Readable? ==> ips == ValidLines(env.fs[filePath].lines) by {
      if FileExists(env.fs, filePath) {
        LoadReadsFirstExisting(paths, env.fs, 0);
      }
    }
    ips
  }
}
