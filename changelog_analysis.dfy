/** The changelog generator's analysis of a change list: the functional
    area of each path, the split by status and by area, and the detectors for
    deleted interfaces, new projects, renames and deleted classes. */
module ChangeAnalysis {
  import opened Text
  import opened Sequences
  import opened DiffParsing

  // -----------------------------------------------------------------------
  // categorize_path

  /** The area labels, in the order the rules are tried; "other" is the fallback. */
  const AreaLabels: seq<string> := [
    "ci", "tests", "benchmarks", "examples", "docs", "analyzers", "skills",
    "signalr", "semantickernel", "sourcegen", "reflection", "scrutor", "bundle",
    "aspnet", "injection", "syringe", "scripts", "core"]

  /** The outcome of each rule on the lower-cased path `p`, in table order. */
  function AreaRules(p: string): (r: seq<bool>)
    ensures |r| == |AreaLabels|
  {
    [ Contains(p, ".github/"),
      Contains(p, "/test") || EndsWith(p, "tests.cs"),
      Contains(p, "/benchmark"),
      Contains(p, "/example"),
      Contains(p, "/docs/") || (EndsWith(p, ".md") && !Contains(p, "/src/")),
      Contains(p, "/analyzers/") || Contains(p, "analyzer"),
      Contains(p, "/skills/"),
      Contains(p, "signalr"),
      Contains(p, "semantickernel"),
      Contains(p, "sourcegen") || Contains(p, "generator"),
      Contains(p, ".reflection"),
      Contains(p, "scrutor"),
      Contains(p, ".bundle"),
      Contains(p, "aspnet") || Contains(p, "webapp"),
      Contains(p, ".injection"),
      Contains(p, "syringe"),
      Contains(p, "/scripts/"),
      Contains(p, "nexuslabs.needlr/") && Contains(p, ".cs") ]
  }

  /** The index of the first true entry from `k` on, or `|bs|` when there is none. */
  function FirstTrue(bs: seq<bool>, k: nat): (r: nat)
    requires k <= |bs|
    ensures k <= r <= |bs|
    decreases |bs| - k
  {
    if k == |bs| then k
    else if bs[k] then k
    else FirstTrue(bs, k + 1)
  }

  /** The label of a rule index; past the last rule, "other". */
  function AreaLabel(k: nat): string {
    if k < |AreaLabels| then AreaLabels[k] else "other"
  }

  /** `categorize_path`: the rules are tried in order over the lower-cased
      path and the first that holds gives the label; "other" when none does. */
  function CategorizePath(path: string): string {
    AreaLabel(FirstTrue(AreaRules(Lower(path)), 0))
  }

  /** The walk from `k` stops at `m` exactly when entry `m` is true (or `m`
      is the end) and no entry between `k` and `m` is. */
  lemma {:induction false} FirstTrueMeaning(bs: seq<bool>, k: nat, m: nat)
    requires k <= m <= |bs|
    ensures FirstTrue(bs, k) == m <==> (m < |bs| ==> bs[m]) && forall j :: k <= j < m ==> !bs[j]
    decreases |bs| - k
  {
    if k < m {
      FirstTrueMeaning(bs, k + 1, m);
      if bs[k] {
        assert FirstTrue(bs, k) == k;
      } else {
        assert FirstTrue(bs, k) == FirstTrue(bs, k + 1);
      }
    }
  }

  /** The rule an area label belongs to; `|AreaLabels|` for "other". */
  function AreaIndex(area: string): nat {
    if area == "ci" then 0
    else if area == "tests" then 1
    else if area == "benchmarks" then 2
    else if area == "examples" then 3
    else if area == "docs" then 4
    else if area == "analyzers" then 5
    else if area == "skills" then 6
    else if area == "signalr" then 7
    else if area == "semantickernel" then 8
    else if area == "sourcegen" then 9
    else if area == "reflection" then 10
    else if area == "scrutor" then 11
    else if area == "bundle" then 12
    else if area == "aspnet" then 13
    else if area == "injection" then 14
    else if area == "syringe" then 15
    else if area == "scripts" then 16
    else if area == "core" then 17
    else |AreaLabels|
  }

  /** Labels name their rules one to one. */
  lemma AreaIndexOfLabel(k: nat)
    requires k <= |AreaLabels|
    ensures AreaIndex(AreaLabel(k)) == k
  {
    if k == 0 {
      assert AreaLabel(0) == "ci";
    } else if k == 1 {
      assert AreaLabel(1) == "tests";
    } else if k == 2 {
      assert AreaLabel(2) == "benchmarks";
    } else if k == 3 {
      assert AreaLabel(3) == "examples";
    } else if k == 4 {
      assert AreaLabel(4) == "docs";
    } else if k == 5 {
      assert AreaLabel(5) == "analyzers";
    } else if k == 6 {
      assert AreaLabel(6) == "skills";
    } else if k == 7 {
      assert AreaLabel(7) == "signalr";
    } else if k == 8 {
      assert AreaLabel(8) == "semantickernel";
    } else if k == 9 {
      assert AreaLabel(9) == "sourcegen";
    } else if k == 10 {
      assert AreaLabel(10) == "reflection";
    } else if k == 11 {
      assert AreaLabel(11) == "scrutor";
    } else if k == 12 {
      assert AreaLabel(12) == "bundle";
    } else if k == 13 {
      assert AreaLabel(13) == "aspnet";
    } else if k == 14 {
      assert AreaLabel(14) == "injection";
    } else if k == 15 {
      assert AreaLabel(15) == "syringe";
    } else if k == 16 {
      assert AreaLabel(16) == "scripts";
    } else if k == 17 {
      assert AreaLabel(17) == "core";
    }
  }

  /** `categorize_path` answers with the label of rule `m` (or "other" for
      `m` past the last rule) exactly when rule `m` matches the lower-cased
      path and no earlier rule does. */
  lemma CategorizeMeaning(path: string, m: nat)
    requires m <= |AreaLabels|
    ensures CategorizePath(path) == AreaLabel(m)
            <==> (m < |AreaLabels| ==> AreaRules(Lower(path))[m])
                 && forall j :: 0 <= j < m ==> !AreaRules(Lower(path))[j]
  {
    var bs := AreaRules(Lower(path));
    FirstTrueMeaning(bs, 0, m);
    AreaIndexOfLabel(m);
    AreaIndexOfLabel(FirstTrue(bs, 0));
  }

  /** The area depends on the path only up to (ASCII) case. */
  lemma CategorizeIgnoresCase(path: string)
    ensures CategorizePath(Lower(path)) == CategorizePath(path)
  {
    LowerIdempotent(path);
  }

  /** Any path under `.github/`, in any case, is CI, whatever else it holds. */
  lemma GithubPathsAreCi(path: string)
    requires Contains(Lower(path), ".github/")
    ensures CategorizePath(path) == "ci"
  {
  }

  /** "core" needs both the package directory and `.cs` somewhere in the path. */
  lemma CoreNeedsPackageAndCs(path: string)
    requires CategorizePath(path) == "core"
    ensures Contains(Lower(path), "nexuslabs.needlr/") && Contains(Lower(path), ".cs")
  {
    CategorizeMeaning(path, 17);
  }

  // -----------------------------------------------------------------------
  // analyze_changes

  datatype Stats = Stats(totalFiles: nat, insertions: int, deletions: int)

  /** The dict `analyze_changes` returns. `byCategory` is the defaultdict of
      lists; only its keys and lists are used, so a map stands for it. */
  datatype Analysis = Analysis(
    addedFiles: seq<FileChange>,
    deletedFiles: seq<FileChange>,
    modifiedFiles: seq<FileChange>,
    renamedFiles: seq<FileChange>,
    byCategory: map<string, seq<FileChange>>,
    stats: Stats)

  predicate IsAdded(c: FileChange) { c.status == 'A' }
  predicate IsDeleted(c: FileChange) { c.status == 'D' }
  predicate IsRenamed(c: FileChange) { c.status == 'R' }
  /** The `else` branch: every status other than A, D and R. */
  predicate IsOtherStatus(c: FileChange) { c.status != 'A' && c.status != 'D' && c.status != 'R' }
  /** `f.status == 'M'`, the test the changelog sections use. */
  predicate IsModified(c: FileChange) { c.status == 'M' }

  function Insertions(c: FileChange): int { c.insertions }
  function Deletions(c: FileChange): int { c.deletions }

  function AreaOf(c: FileChange): string { CategorizePath(c.path) }

  /** The area dict: each area that occurs, with its changes in input order. */
  ghost function AreaMap(cs: seq<FileChange>): map<string, seq<FileChange>> {
    GroupBy(cs, AreaOf)
  }

  /** The analysis as a value. */
  ghost function Analyze(cs: seq<FileChange>): Analysis {
    Analysis(
      Filter(cs, IsAdded), Filter(cs, IsDeleted), Filter(cs, IsOtherStatus), Filter(cs, IsRenamed),
      AreaMap(cs), Stats(|cs|, Sum(cs, Insertions), Sum(cs, Deletions)))
  }

  /** Appending the next change to the list of its area. */
  lemma AreaMapStep(changes: seq<FileChange>, i: nat, category: string)
    requires i < |changes| && category == AreaOf(changes[i])
    ensures var g := AreaMap(changes[..i]);
            AreaMap(changes[..i + 1]) == g[category := (if category in g then g[category] else []) + [changes[i]]]
  {
    assert changes[..i + 1][..i] == changes[..i];
    GroupByStep(changes[..i + 1], AreaOf);
  }

  /** Appending the next change to its status list. */
  lemma StatusStep(changes: seq<FileChange>, i: nat)
    requires i < |changes|
    ensures var c, prefix, next := changes[i], changes[..i], changes[..i + 1];
            && Filter(next, IsAdded) == Filter(prefix, IsAdded) + (if IsAdded(c) then [c] else [])
            && Filter(next, IsDeleted) == Filter(prefix, IsDeleted) + (if IsDeleted(c) then [c] else [])
            && Filter(next, IsRenamed) == Filter(prefix, IsRenamed) + (if IsRenamed(c) then [c] else [])
            && Filter(next, IsOtherStatus) == Filter(prefix, IsOtherStatus) + (if IsOtherStatus(c) then [c] else [])
  {
    assert changes[..i + 1][..i] == changes[..i];
  }

  /** `analyze_changes`: one pass that appends each change to its status
      list and to its area's list. */
  method AnalyzeChanges(changes: seq<FileChange>) returns (a: Analysis)
    ensures a == Analyze(changes)
  {
    var added, deleted, modified, renamed: seq<FileChange> := [], [], [], [];
    var byCategory: map<string, seq<FileChange>> := map[];
    var i := 0;
    while i < |changes|
      invariant 0 <= i <= |changes|
      invariant added == Filter(changes[..i], IsAdded)
      invariant deleted == Filter(changes[..i], IsDeleted)
      invariant modified == Filter(changes[..i], IsOtherStatus)
      invariant renamed == Filter(changes[..i], IsRenamed)
      invariant byCategory == AreaMap(changes[..i])
    {
      var change := changes[i];
      var category := CategorizePath(change.path);
      AreaMapStep(changes, i, category);
      StatusStep(changes, i);
      var old_ := if category in byCategory then byCategory[category] else [];
      byCategory := byCategory[category := old_ + [change]];
      if change.status == 'A' {
        added := added + [change];
      } else if change.status == 'D' {
        deleted := deleted + [change];
      } else if change.status == 'R' {
        renamed := renamed + [change];
      } else {
        modified := modified + [change];
      }
      i := i + 1;
    }
    assert changes[..i] == changes;
    a := Analysis(added, deleted, modified, renamed, byCategory,
                  Stats(|changes|, Sum(changes, Insertions), Sum(changes, Deletions)));
  }

  /** `added_files`, `deleted_files`, `renamed_files` and `modified_files`
      partition the changes, and `total_files` counts them. */
  lemma StatusListsPartition(cs: seq<FileChange>)
    ensures var a := Analyze(cs);
            && |a.addedFiles| + |a.deletedFiles| + |a.renamedFiles| + |a.modifiedFiles| == a.stats.totalFiles
            && multiset(a.addedFiles) + multiset(a.deletedFiles) + multiset(a.renamedFiles)
               + multiset(a.modifiedFiles) == multiset(cs)
  {
    FilterPartition4(cs, IsAdded, IsDeleted, IsRenamed, IsOtherStatus);
  }

  /** The area lists partition the input: each change is in the list of its
      own area and in no other, and each list holds the changes of that area
      in input order. */
  lemma AreaListsPartition(cs: seq<FileChange>, c: FileChange, area: string)
    requires c in cs
    ensures var m := Analyze(cs).byCategory;
            && CategorizePath(c.path) in m
            && c in m[CategorizePath(c.path)]
            && (area in m && area != CategorizePath(c.path) ==> c !in m[area])
            && (area in m <==> exists x :: x in cs && CategorizePath(x.path) == area)
            && (area in m ==> m[area] == Group(cs, AreaOf, area))
            && forall x :: x in Group(cs, AreaOf, area) <==> x in cs && CategorizePath(x.path) == area
  {
    GroupByMember(cs, AreaOf, c, area);
  }

  // -----------------------------------------------------------------------
  // The detectors

  /** The name convention for an interface: `I` followed by an upper-case letter. */
  predicate IsInterfaceName(name: string) {
    |name| > 1 && name[0] == 'I' && IsAsciiUpper(name[1])
  }

  predicate IsDeletedCs(c: FileChange) { c.status == 'D' && EndsWith(c.path, ".cs") }
  predicate IsDeletedInterface(c: FileChange) { IsDeletedCs(c) && IsInterfaceName(Stem(c.path)) }
  predicate IsDeletedClass(c: FileChange) { IsDeletedCs(c) && !IsInterfaceName(Stem(c.path)) }
  predicate IsNewProject(c: FileChange) { c.status == 'A' && EndsWith(c.path, ".csproj") }

  function PathStem(c: FileChange): string { Stem(c.path) }

  /** A source path is truthy: present and non-empty. */
  predicate HasOldPath(c: FileChange) { c.oldPath.Some? && c.oldPath.value != "" }

  predicate IsReportedRename(c: FileChange) {
    c.status == 'R' && HasOldPath(c) && EndsWith(c.path, ".cs") && Stem(c.oldPath.value) != Stem(c.path)
  }

  function RenamePair(c: FileChange): (string, string) {
    (if c.oldPath.Some? then Stem(c.oldPath.value) else "", Stem(c.path))
  }

  function DeletedInterfaces(cs: seq<FileChange>): seq<string> { FilterMap(cs, IsDeletedInterface, PathStem) }
  function DeletedClasses(cs: seq<FileChange>): seq<string> { FilterMap(cs, IsDeletedClass, PathStem) }
  function NewProjects(cs: seq<FileChange>): seq<string> { FilterMap(cs, IsNewProject, PathStem) }
  function Renames(cs: seq<FileChange>): seq<(string, string)> { FilterMap(cs, IsReportedRename, RenamePair) }

  /** `detect_deleted_interfaces` */
  method DetectDeletedInterfaces(changes: seq<FileChange>) returns (names: seq<string>)
    ensures names == DeletedInterfaces(changes)
  {
    names := [];
    for i := 0 to |changes|
      invariant names == DeletedInterfaces(changes[..i])
    {
      assert changes[..i + 1][..i] == changes[..i];
      var change := changes[i];
      if change.status == 'D' && EndsWith(change.path, ".cs") {
        var filename := Stem(change.path);
        if |filename| > 1 && filename[0] == 'I' && IsAsciiUpper(filename[1]) {
          names := names + [filename];
        }
      }
    }
    assert changes[..|changes|] == changes;
  }

  /** `detect_new_projects` */
  method DetectNewProjects(changes: seq<FileChange>) returns (names: seq<string>)
    ensures names == NewProjects(changes)
  {
    names := [];
    for i := 0 to |changes|
      invariant names == NewProjects(changes[..i])
    {
      assert changes[..i + 1][..i] == changes[..i];
      var change := changes[i];
      if change.status == 'A' && EndsWith(change.path, ".csproj") {
        names := names + [Stem(change.path)];
      }
    }
    assert changes[..|changes|] == changes;
  }

  /** `detect_renames` */
  method DetectRenames(changes: seq<FileChange>) returns (renames: seq<(string, string)>)
    ensures renames == Renames(changes)
  {
    renames := [];
    for i := 0 to |changes|
      invariant renames == Renames(changes[..i])
    {
      assert changes[..i + 1][..i] == changes[..i];
      var change := changes[i];
      if change.status == 'R' && change.oldPath.Some? && change.oldPath.value != "" && EndsWith(change.path, ".cs") {
        var oldName := Stem(change.oldPath.value);
        var newName := Stem(change.path);
        if oldName != newName {
          renames := renames + [(oldName, newName)];
        }
      }
    }
    assert changes[..|changes|] == changes;
  }

  /** `detect_deleted_classes` */
  method DetectDeletedClasses(changes: seq<FileChange>) returns (names: seq<string>)
    ensures names == DeletedClasses(changes)
  {
    names := [];
    for i := 0 to |changes|
      invariant names == DeletedClasses(changes[..i])
    {
      assert changes[..i + 1][..i] == changes[..i];
      var change := changes[i];
      if change.status == 'D' && EndsWith(change.path, ".cs") {
        var filename := Stem(change.path);
        if !(|filename| > 1 && filename[0] == 'I' && IsAsciiUpper(filename[1])) {
          names := names + [filename];
        }
      }
    }
    assert changes[..|changes|] == changes;
  }

  /** The two deletion detectors split the stems of the deleted `.cs` files:
      interface-named stems go to one, all others to the other, and together
      they hold each deleted `.cs` stem exactly as often as it occurs. */
  lemma DeletedStemsSplit(cs: seq<FileChange>)
    ensures forall n :: n in DeletedInterfaces(cs) ==> IsInterfaceName(n)
    ensures forall n :: n in DeletedClasses(cs) ==> !IsInterfaceName(n)
    ensures multiset(DeletedInterfaces(cs)) + multiset(DeletedClasses(cs))
            == multiset(FilterMap(cs, (x: FileChange) => IsDeletedInterface(x) || IsDeletedClass(x), PathStem))
    ensures FilterMap(cs, (x: FileChange) => IsDeletedInterface(x) || IsDeletedClass(x), PathStem)
            == FilterMap(cs, IsDeletedCs, PathStem)
  {
    FilterMapMember(cs, IsDeletedInterface, PathStem);
    FilterMapMember(cs, IsDeletedClass, PathStem);
    FilterMapSplits(cs, IsDeletedInterface, IsDeletedClass, PathStem);
    SameFilterMap(cs, (x: FileChange) => IsDeletedInterface(x) || IsDeletedClass(x), IsDeletedCs, PathStem);
  }

  lemma {:induction false} SameFilterMap<T, U>(s: seq<T>, p: T -> bool, q: T -> bool, f: T -> U)
    requires forall x :: p(x) == q(x)
    ensures FilterMap(s, p, f) == FilterMap(s, q, f)
    decreases |s|
  {
    if s != [] { SameFilterMap(s[..|s| - 1], p, q, f); }
  }

  /** A rename is reported exactly for an R change with a non-empty source
      path, a `.cs` destination and a different stem, as (old stem, new stem). */
  lemma RenamesMeaning(cs: seq<FileChange>, oldName: string, newName: string)
    ensures (oldName, newName) in Renames(cs)
            <==> exists i :: 0 <= i < |cs| && IsReportedRename(cs[i])
                   && oldName == Stem(cs[i].oldPath.value) && newName == Stem(cs[i].path)
    ensures (oldName, newName) in Renames(cs) ==> oldName != newName
  {
    FilterMapMember(cs, IsReportedRename, RenamePair);
    if (oldName, newName) in Renames(cs) {
      assert MapsTo(cs, IsReportedRename, RenamePair, (oldName, newName));
    }
    if exists i :: 0 <= i < |cs| && IsReportedRename(cs[i])
                   && oldName == Stem(cs[i].oldPath.value) && newName == Stem(cs[i].path) {
      var i :| 0 <= i < |cs| && IsReportedRename(cs[i])
               && oldName == Stem(cs[i].oldPath.value) && newName == Stem(cs[i].path);
      assert RenamePair(cs[i]) == (oldName, newName);
      assert MapsTo(cs, IsReportedRename, RenamePair, (oldName, newName));
    }
  }

  /** A `.csproj` added under `dir/name.csproj` is reported as `name`. */
  lemma NewProjectReported(cs: seq<FileChange>, i: nat, dir: string, name: string)
    requires i < |cs| && cs[i].status == 'A'
    requires name != [] && '/' !in name
    requires cs[i].path == dir + "/" + name + ".csproj"
    ensures name in NewProjects(cs)
  {
    StemOfFile(dir, name, "csproj");
    assert cs[i].path == dir + "/" + name + "." + "csproj";
    FilterMapMember(cs, IsNewProject, PathStem);
    assert MapsTo(cs, IsNewProject, PathStem, name);
  }

  /** The converse: every reported project name is the stem of an added
      `.csproj` file, and every added `.csproj` file reports its stem. */
  lemma NewProjectsMeaning(cs: seq<FileChange>)
    ensures forall n :: n in NewProjects(cs) <==>
              exists i :: 0 <= i < |cs| && cs[i].status == 'A' && EndsWith(cs[i].path, ".csproj") && Stem(cs[i].path) == n
    ensures |NewProjects(cs)| <= |cs|
  {
    FilterMapMember(cs, IsNewProject, PathStem);
  }
}
