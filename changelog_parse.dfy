/** The changelog generator's view of a diff: the records it builds from the
    two text outputs of `git diff --numstat -M` and `git diff --name-status -M`,
    and the `Path(...).stem` it takes of their paths. */
module DiffParsing {
  import opened Text

  /** One changed file. `status` is the first character of the status field
      (A, M, D, R, ...); `oldPath` is set only for a rename line with both paths. */
  datatype FileChange = FileChange(
    path: string,
    status: char,
    insertions: int,
    deletions: int,
    oldPath: Option<string>)

  /** What makes the parse raise: `int()` on a count that is not a number
      (ValueError), or a status field that is empty (IndexError on `parts[0][0]`). */
  datatype ParseError = BadCount(text: string) | EmptyStatus(line: string)

  datatype Result<T> = Ok(value: T) | Err(error: ParseError)

  /** Path -> (insertions, deletions), as read from the numstat output. */
  type StatsTable = map<string, (int, int)>

  /** The lines the script iterates over: `output.strip().split('\n')`. */
  function OutputLines(output: string): seq<string> {
    Split(Strip(output), '\n')
  }

  /** A numstat count: `-` (a binary file) reads as 0, anything else goes through `int()`. */
  function CountOf(field: string): Option<int> {
    if field == "-" then Some(0) else ParseInt(field)
  }

  /** The effect of one numstat line on the table: blank lines and lines with
      fewer than three tab-separated fields are skipped; otherwise the last
      field is the path and a later line for the same path overwrites. */
  function NumstatStep(stats: StatsTable, line: string): Result<StatsTable> {
    if line == "" then Ok(stats)
    else
      var parts := Split(line, '\t');
      if |parts| < 3 then Ok(stats)
      else
        match CountOf(parts[0])
        case None => Err(BadCount(parts[0]))
        case Some(ins) =>
          match CountOf(parts[1])
          case None => Err(BadCount(parts[1]))
          case Some(dels) => Ok(stats[parts[|parts| - 1] := (ins, dels)])
  }

  /** The table after reading `lines` in order; the first bad count is the error. */
  function NumstatTable(lines: seq<string>): Result<StatsTable>
    decreases |lines|
  {
    if lines == [] then Ok(map[])
    else
      match NumstatTable(lines[..|lines| - 1])
      case Err(e) => Err(e)
      case Ok(t) => NumstatStep(t, lines[|lines| - 1])
  }

  /** `stats.get(path, (0, 0))`. */
  function Lookup(stats: StatsTable, path: string): (int, int) {
    if path in stats then stats[path] else (0, 0)
  }

  /** The record one name-status line yields, if any. */
  function StatusEntry(stats: StatsTable, line: string): Result<Option<FileChange>> {
    if line == "" then Ok(None)
    else
      var parts := Split(line, '\t');
      if |parts| < 2 then Ok(None)
      else if parts[0] == "" then Err(EmptyStatus(line))
      else
        var status := parts[0][0];
        if status == 'R' && |parts| >= 3 then
          var counts := Lookup(stats, parts[2]);
          Ok(Some(FileChange(parts[2], status, counts.0, counts.1, Some(parts[1]))))
        else
          var path := parts[|parts| - 1];
          var counts := Lookup(stats, path);
          Ok(Some(FileChange(path, status, counts.0, counts.1, None)))
  }

  /** The records of `lines` in order; the first malformed status is the error. */
  function StatusChanges(stats: StatsTable, lines: seq<string>): Result<seq<FileChange>>
    decreases |lines|
  {
    if lines == [] then Ok([])
    else
      match StatusChanges(stats, lines[..|lines| - 1])
      case Err(e) => Err(e)
      case Ok(cs) =>
        match StatusEntry(stats, lines[|lines| - 1])
        case Err(e) => Err(e)
        case Ok(None) => Ok(cs)
        case Ok(Some(c)) => Ok(cs + [c])
  }

  /** What `get_file_changes` returns for the two outputs. */
  function FileChanges(numstatOutput: string, statusOutput: string): Result<seq<FileChange>> {
    match NumstatTable(OutputLines(numstatOutput))
    case Err(e) => Err(e)
    case Ok(stats) => StatusChanges(stats, OutputLines(statusOutput))
  }

  lemma {:induction false} NumstatErrorSticks(lines: seq<string>, k: nat, e: ParseError)
    requires k <= |lines| && NumstatTable(lines[..k]) == Err(e)
    ensures NumstatTable(lines) == Err(e)
    decreases |lines| - k
  {
    if k < |lines| {
      assert lines[..k + 1][..k] == lines[..k];
      NumstatErrorSticks(lines, k + 1, e);
    } else {
      assert lines[..k] == lines;
    }
  }

  lemma {:induction false} StatusErrorSticks(stats: StatsTable, lines: seq<string>, k: nat, e: ParseError)
    requires k <= |lines| && StatusChanges(stats, lines[..k]) == Err(e)
    ensures StatusChanges(stats, lines) == Err(e)
    decreases |lines| - k
  {
    if k < |lines| {
      assert lines[..k + 1][..k] == lines[..k];
      StatusErrorSticks(stats, lines, k + 1, e);
    } else {
      assert lines[..k] == lines;
    }
  }

  /** The first loop of `get_file_changes`: fills the `stats` dict. */
  method ReadNumstat(lines: seq<string>) returns (r: Result<StatsTable>)
    ensures r == NumstatTable(lines)
  {
    var stats: StatsTable := map[];
    var i := 0;
    while i < |lines|
      invariant 0 <= i <= |lines|
      invariant NumstatTable(lines[..i]) == Ok(stats)
    {
      assert lines[..i + 1][..i] == lines[..i];
      var line := lines[i];
      if line != "" {
        var parts := Split(line, '\t');
        if |parts| >= 3 {
          var ins := CountOf(parts[0]);
          if ins.None? {
            NumstatErrorSticks(lines, i + 1, BadCount(parts[0]));
            return Err(BadCount(parts[0]));
          }
          var dels := CountOf(parts[1]);
          if dels.None? {
            NumstatErrorSticks(lines, i + 1, BadCount(parts[1]));
            return Err(BadCount(parts[1]));
          }
          stats := stats[parts[|parts| - 1] := (ins.value, dels.value)];
        }
      }
      i := i + 1;
    }
    assert lines[..i] == lines;
    r := Ok(stats);
  }

  /** The second loop of `get_file_changes`: fills the `changes` list. */
  method ReadNameStatus(stats: StatsTable, lines: seq<string>) returns (r: Result<seq<FileChange>>)
    ensures r == StatusChanges(stats, lines)
  {
    var changes: seq<FileChange> := [];
    var i := 0;
    while i < |lines|
      invariant 0 <= i <= |lines|
      invariant StatusChanges(stats, lines[..i]) == Ok(changes)
    {
      assert lines[..i + 1][..i] == lines[..i];
      var line := lines[i];
      if line != "" {
        var parts := Split(line, '\t');
        if |parts| >= 2 {
          if parts[0] == "" {
            StatusErrorSticks(stats, lines, i + 1, EmptyStatus(line));
            return Err(EmptyStatus(line));
          }
          var status := parts[0][0];
          if status == 'R' && |parts| >= 3 {
            var counts := Lookup(stats, parts[2]);
            changes := changes + [FileChange(parts[2], status, counts.0, counts.1, Some(parts[1]))];
          } else {
            var path := parts[|parts| - 1];
            var counts := Lookup(stats, path);
            changes := changes + [FileChange(path, status, counts.0, counts.1, None)];
          }
        }
      }
      i := i + 1;
    }
    assert lines[..i] == lines;
    r := Ok(changes);
  }

  /** `get_file_changes` with the two git outputs as inputs. */
  method GetFileChanges(numstatOutput: string, statusOutput: string) returns (r: Result<seq<FileChange>>)
    ensures r == FileChanges(numstatOutput, statusOutput)
  {
    var stats := ReadNumstat(OutputLines(numstatOutput));
    if stats.Err? {
      return Err(stats.error);
    }
    r := ReadNameStatus(stats.value, OutputLines(statusOutput));
  }

  // -----------------------------------------------------------------------
  // Path(...).stem

  /** `Path(p).name`: the last component, where empty and `.` components
      do not count (pathlib drops them). */
  function PathName(p: string): string {
    LastComponent(Split(p, '/'))
  }

  function LastComponent(parts: seq<string>): string
    decreases |parts|
  {
    if parts == [] then ""
    else
      var last := parts[|parts| - 1];
      if last == "" || last == "." then LastComponent(parts[..|parts| - 1]) else last
  }

  /** Index of the last occurrence of `c` in `s`, or -1 (`str.rfind`). */
  function RFind(s: string, c: char): (i: int)
    ensures -1 <= i < |s|
    ensures 0 <= i ==> s[i] == c
    ensures forall j :: i < j < |s| ==> s[j] != c
    decreases |s|
  {
    if s == [] then -1
    else if s[|s| - 1] == c then |s| - 1
    else RFind(s[..|s| - 1], c)
  }

  /** `Path(p).stem`: the name without its last suffix, where a suffix needs
      a dot that is neither the name's first nor its last character. */
  function Stem(p: string): string {
    var name := PathName(p);
    var i := RFind(name, '.');
    if 0 < i < |name| - 1 then name[..i] else name
  }

  /** The stem of `dir/base.ext` is `base`, whatever `base` holds besides '/'. */
  lemma StemOfFile(dir: string, base: string, ext: string)
    requires base != [] && '/' !in base
    requires ext != [] && '/' !in ext && '.' !in ext
    ensures Stem(dir + "/" + base + "." + ext) == base
    ensures Stem(base + "." + ext) == base
  {
    var file := base + "." + ext;
    assert '/' !in file;
    SplitWithoutSeparator(file, '/');
    assert dir + "/" + base + "." + ext == dir + ['/'] + file;
    SplitAtSeparator(dir, file, '/');
    var parts := Split(dir, '/') + [file];
    assert parts[|parts| - 1] == file;
    assert file != "" && file != ".";
    assert PathName(dir + "/" + file) == file;
    assert PathName(file) == file;
    assert file[|base|] == '.';
    assert file[|base| + 1..] == ext;
    assert RFind(file, '.') == |base|;
  }

  // -----------------------------------------------------------------------
  // Rendering a change list the way git prints it, and reading it back

  predicate NoBreaks(s: string) { '\t' !in s && '\n' !in s }

  /** The changes git can print and the parser can read back unchanged: one
      status letter, counts that are not negative, paths without tabs or
      newlines that do not end in whitespace, a source path only on renames,
      and each path reported once. */
  predicate Printable(cs: seq<FileChange>) {
    && (forall c :: c in cs ==>
          && !IsSpace(c.status)
          && c.insertions >= 0 && c.deletions >= 0
          && c.path != "" && NoBreaks(c.path) && !IsSpace(c.path[|c.path| - 1])
          && (c.oldPath.Some? ==> c.status == 'R' && NoBreaks(c.oldPath.value)))
    && (forall i, j :: 0 <= i < j < |cs| ==> cs[i].path != cs[j].path)
  }

  function NumstatFields(c: FileChange): seq<string> {
    [IntToString(c.insertions), IntToString(c.deletions), c.path]
  }

  function StatusFields(c: FileChange): seq<string> {
    [[c.status]] + (if c.oldPath.Some? then [c.oldPath.value] else []) + [c.path]
  }

  function NumstatLines(cs: seq<FileChange>): seq<string>
    decreases |cs|
  {
    if cs == [] then [] else NumstatLines(cs[..|cs| - 1]) + [Join(NumstatFields(cs[|cs| - 1]), "\t")]
  }

  function StatusLines(cs: seq<FileChange>): seq<string>
    decreases |cs|
  {
    if cs == [] then [] else StatusLines(cs[..|cs| - 1]) + [Join(StatusFields(cs[|cs| - 1]), "\t")]
  }

  function NumstatOutput(cs: seq<FileChange>): string { Join(NumstatLines(cs), "\n") }

  function StatusOutput(cs: seq<FileChange>): string { Join(StatusLines(cs), "\n") }

  /** The table the numstat lines of `cs` describe. */
  function TableOf(cs: seq<FileChange>): StatsTable
    decreases |cs|
  {
    if cs == [] then map[]
    else TableOf(cs[..|cs| - 1])[cs[|cs| - 1].path := (cs[|cs| - 1].insertions, cs[|cs| - 1].deletions)]
  }

  lemma {:induction false} NumstatLinesShape(cs: seq<FileChange>)
    ensures |NumstatLines(cs)| == |cs|
    ensures forall i :: 0 <= i < |cs| ==> NumstatLines(cs)[i] == Join(NumstatFields(cs[i]), "\t")
    decreases |cs|
  {
    if cs != [] {
      var init := cs[..|cs| - 1];
      NumstatLinesShape(init);
      assert NumstatLines(cs) == NumstatLines(init) + [Join(NumstatFields(cs[|cs| - 1]), "\t")];
    }
  }

  lemma {:induction false} StatusLinesShape(cs: seq<FileChange>)
    ensures |StatusLines(cs)| == |cs|
    ensures forall i :: 0 <= i < |cs| ==> StatusLines(cs)[i] == Join(StatusFields(cs[i]), "\t")
    decreases |cs|
  {
    if cs != [] {
      var init := cs[..|cs| - 1];
      StatusLinesShape(init);
      assert StatusLines(cs) == StatusLines(init) + [Join(StatusFields(cs[|cs| - 1]), "\t")];
    }
  }

  lemma CountOfPrinted(n: int)
    requires n >= 0
    ensures CountOf(IntToString(n)) == Some(n)
  {
    ParseIntToString(n);
    assert IsDigit(IntToString(n)[0]);
  }

  lemma NumstatLineReadsBack(stats: StatsTable, c: FileChange)
    requires c.insertions >= 0 && c.deletions >= 0 && c.path != "" && NoBreaks(c.path)
    ensures NumstatStep(stats, Join(NumstatFields(c), "\t"))
            == Ok(stats[c.path := (c.insertions, c.deletions)])
  {
    var fields := NumstatFields(c);
    assert forall p :: p in fields ==> '\t' !in p by {
      assert '\t' !in IntToString(c.insertions) && '\t' !in IntToString(c.deletions);
    }
    SplitJoin(fields, '\t');
    JoinEnds(fields, "\t");
    CountOfPrinted(c.insertions);
    CountOfPrinted(c.deletions);
  }

  lemma StatusLineReadsBack(stats: StatsTable, c: FileChange)
    requires c.path != "" && NoBreaks(c.path) && c.status != '\t'
    requires c.oldPath.Some? ==> c.status == 'R' && NoBreaks(c.oldPath.value)
    requires Lookup(stats, c.path) == (c.insertions, c.deletions)
    ensures StatusEntry(stats, Join(StatusFields(c), "\t")) == Ok(Some(c))
  {
    var fields := StatusFields(c);
    SplitJoin(fields, '\t');
    JoinEnds(fields, "\t");
  }

  lemma {:induction false} NumstatTableOfLines(cs: seq<FileChange>)
    requires Printable(cs)
    ensures NumstatTable(NumstatLines(cs)) == Ok(TableOf(cs))
    decreases |cs|
  {
    if cs != [] {
      var init := cs[..|cs| - 1];
      assert Printable(init);
      NumstatTableOfLines(init);
      var lines := NumstatLines(cs);
      assert lines[..|lines| - 1] == NumstatLines(init);
      NumstatLineReadsBack(TableOf(init), cs[|cs| - 1]);
    }
  }

  lemma {:induction false} TableOfLookup(cs: seq<FileChange>, i: nat)
    requires Printable(cs) && i < |cs|
    ensures Lookup(TableOf(cs), cs[i].path) == (cs[i].insertions, cs[i].deletions)
    decreases |cs|
  {
    if i < |cs| - 1 {
      var init := cs[..|cs| - 1];
      assert Printable(init);
      TableOfLookup(init, i);
      assert cs[i].path != cs[|cs| - 1].path;
    }
  }

  lemma {:induction false} StatusChangesOfLines(cs: seq<FileChange>, stats: StatsTable)
    requires Printable(cs)
    requires forall i :: 0 <= i < |cs| ==> Lookup(stats, cs[i].path) == (cs[i].insertions, cs[i].deletions)
    ensures StatusChanges(stats, StatusLines(cs)) == Ok(cs)
    decreases |cs|
  {
    if cs != [] {
      var init := cs[..|cs| - 1];
      assert Printable(init);
      StatusChangesOfLines(init, stats);
      var lines := StatusLines(cs);
      assert lines[..|lines| - 1] == StatusLines(init);
      var c := cs[|cs| - 1];
      assert c in cs;
      StatusLineReadsBack(stats, c);
      assert init + [c] == cs;
    }
  }

  lemma OutputReadsBack(lines: seq<string>)
    requires |lines| >= 1 && forall l :: l in lines ==> '\n' !in l
    requires lines[0] != "" && !IsSpace(lines[0][0])
    requires lines[|lines| - 1] != "" && !IsSpace(lines[|lines| - 1][|lines[|lines| - 1]| - 1])
    ensures OutputLines(Join(lines, "\n")) == lines
  {
    var j := Join(lines, "\n");
    JoinEnds(lines, "\n");
    assert j[0] == lines[0][0];
    var last := lines[|lines| - 1];
    assert j[|j| - 1] == j[|j| - |last|..][|last| - 1];
    StripNoSpaceEnds(j);
    SplitJoin(lines, '\n');
  }

  lemma NumstatLineShape(c: FileChange)
    requires c.insertions >= 0 && c.path != "" && NoBreaks(c.path)
    ensures var l := Join(NumstatFields(c), "\t");
            l != "" && IsDigit(l[0]) && '\n' !in l && l[|l| - 1] == c.path[|c.path| - 1]
  {
    var f := NumstatFields(c);
    var l := Join(f, "\t");
    JoinEnds(f, "\t");
    assert IsDigit(IntToString(c.insertions)[0]);
    assert '\n' !in IntToString(c.insertions) && '\n' !in IntToString(c.deletions);
    JoinNoChar(f, "\t", '\n');
    assert l[|l| - 1] == l[|l| - |c.path|..][|c.path| - 1];
  }

  lemma NumstatOutputReadsBack(cs: seq<FileChange>)
    requires Printable(cs) && cs != []
    ensures OutputLines(NumstatOutput(cs)) == NumstatLines(cs)
  {
    NumstatLinesShape(cs);
    var n := NumstatLines(cs);
    forall l | l in n ensures '\n' !in l {
      var i :| 0 <= i < |n| && n[i] == l;
      assert cs[i] in cs;
      NumstatLineShape(cs[i]);
    }
    assert cs[0] in cs && cs[|cs| - 1] in cs;
    NumstatLineShape(cs[0]);
    NumstatLineShape(cs[|cs| - 1]);
    OutputReadsBack(n);
  }

  lemma StatusLineShape(c: FileChange)
    requires !IsSpace(c.status) && c.path != "" && NoBreaks(c.path)
    requires c.oldPath.Some? ==> NoBreaks(c.oldPath.value)
    ensures var l := Join(StatusFields(c), "\t");
            l != "" && l[0] == c.status && '\n' !in l && l[|l| - 1] == c.path[|c.path| - 1]
  {
    var f := StatusFields(c);
    var l := Join(f, "\t");
    JoinEnds(f, "\t");
    JoinNoChar(f, "\t", '\n');
    assert l[|l| - 1] == l[|l| - |c.path|..][|c.path| - 1];
  }

  lemma StatusOutputReadsBack(cs: seq<FileChange>)
    requires Printable(cs) && cs != []
    ensures OutputLines(StatusOutput(cs)) == StatusLines(cs)
  {
    StatusLinesShape(cs);
    var s := StatusLines(cs);
    forall l | l in s ensures '\n' !in l {
      var i :| 0 <= i < |s| && s[i] == l;
      assert cs[i] in cs;
      StatusLineShape(cs[i]);
    }
    assert cs[0] in cs && cs[|cs| - 1] in cs;
    StatusLineShape(cs[0]);
    StatusLineShape(cs[|cs| - 1]);
    OutputReadsBack(s);
  }

  /** Reading back this model's rendering of a change list gives that list:
      the parser inverts the two output formats as rendered here, with a bare
      status letter and the new path alone in the numstat line of a rename.
      Git's own rename lines differ; see GitRenameCountsLost. */
  lemma ParseRenderedOutputs(cs: seq<FileChange>)
    requires Printable(cs)
    ensures FileChanges(NumstatOutput(cs), StatusOutput(cs)) == Ok(cs)
  {
    if cs == [] {
      assert OutputLines("") == [""];
      assert [""][..0] == [];
    } else {
      NumstatOutputReadsBack(cs);
      StatusOutputReadsBack(cs);
      NumstatTableOfLines(cs);
      forall i | 0 <= i < |cs| ensures Lookup(TableOf(cs), cs[i].path) == (cs[i].insertions, cs[i].deletions) {
        TableOfLookup(cs, i);
      }
      StatusChangesOfLines(cs, TableOf(cs));
    }
  }

  /** The rename lines git actually prints: the name-status line carries a
      similarity score after the `R`, and the numstat line names the path as
      `old => new`. The score is dropped correctly, but the numstat counts are
      stored under `old => new`, so the lookup of the new path misses and the
      rename is reported with (0, 0) whatever its counts were. */
  lemma GitRenameCountsLost(ins: string, dels: string, i: int, d: int, score: string, oldPath: string, newPath: string)
    requires CountOf(ins) == Some(i) && CountOf(dels) == Some(d)
    requires NoBreaks(ins) && NoBreaks(dels) && NoBreaks(score) && NoBreaks(oldPath) && NoBreaks(newPath)
    ensures var key := oldPath + " => " + newPath;
            && key != newPath
            && NumstatStep(map[], Join([ins, dels, key], "\t")) == Ok(map[key := (i, d)])
            && StatusEntry(map[key := (i, d)], Join(["R" + score, oldPath, newPath], "\t"))
               == Ok(Some(FileChange(newPath, 'R', 0, 0, Some(oldPath))))
  {
    var key := oldPath + " => " + newPath;
    assert |key| > |newPath|;
    assert '\t' !in key by {
      assert key == oldPath + (" => " + newPath);
    }
    SplitJoin([ins, dels, key], '\t');
    var status := ["R" + score, oldPath, newPath];
    assert ("R" + score)[0] == 'R';
    SplitJoin(status, '\t');
  }

  lemma {:induction false} JoinNoChar(parts: seq<string>, sep: string, c: char)
    requires c !in sep && forall p :: p in parts ==> c !in p
    ensures c !in Join(parts, sep)
    decreases |parts|
  {
    if |parts| > 1 { JoinNoChar(parts[1..], sep, c); }
  }
}
