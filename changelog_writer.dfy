/** The semantic changelog section: the fixed heuristics that draft the
    Breaking, Added, Changed and Removed entries from a change list and its
    analysis, the de-duplication of each list, and the Markdown rendering. */
module ChangelogWriter {
  import opened Text
  import opened Sequences
  import opened DiffParsing
  import opened ChangeAnalysis

  // -----------------------------------------------------------------------
  // Entry texts

  const BreakingTitle: string := "### \U{26A0}\U{FE0F} Breaking Changes"
  const AddedTitle: string := "### Added"
  const ChangedTitle: string := "### Changed"
  const RemovedTitle: string := "### Removed"

  const SourcegenProvidersEntry: string := "Source-generation type providers (`GeneratedTypeProvider`, `GeneratedPluginProvider`)"
  const BootstrapEntry: string := "Module initializer bootstrap for zero-reflection startup"
  const SourcegenFactoryEntry: string := "Source-generation plugin factory (`GeneratedPluginFactory`)"
  const SourcegenDefaultEntry: string := "Source generation is now the default pattern (reflection is opt-in)"
  const ReflectionProvidersEntry: string := "Reflection-based type providers (`ReflectionTypeProvider`, `ReflectionPluginProvider`)"
  const ReflectionFactoryEntry: string := "Reflection-based plugin factory (`ReflectionPluginFactory`)"
  const BundleEntry: string := "Bundle package with auto-configuration (source-gen first, reflection fallback)"
  const AnalyzersFallbackEntry: string := "Roslyn analyzers for common Needlr mistakes"
  const SignalrAddedEntry: string := "Source-generation support for SignalR hub registration"
  const SignalrChangedEntry: string := "SignalR now accepts `IPluginFactory` via dependency injection (no hardcoded reflection)"
  const KernelAddedEntry: string := "Source-generation support for Semantic Kernel plugin discovery"
  const KernelChangedEntry: string := "Semantic Kernel now accepts `IPluginFactory` via dependency injection"
  const AspnetChangedEntry: string := "ASP.NET package decoupled from Bundle (explicit strategy choice required)"
  const ProviderArchitectureEntry: string := "Provider-based architecture (`IInjectableTypeProvider`, `IPluginTypeProvider`)"
  const SyringeChangedEntry: string := "Simplified Syringe API with provider-based architecture"
  const ScrutorChangedEntry: string := "`UsingScrutorTypeRegistrar()` renamed to `UsingScrutor()`"
  const AotExampleEntry: string := "AOT/Trimming example applications (console and web)"
  const BundleExampleEntry: string := "Bundle auto-configuration example"
  const BenchmarksEntry: string := "Performance benchmarks comparing source-gen vs reflection"
  const CiEntry: string := "Parallel CI/CD with AOT publish validation"
  const SkillEntry: string := "Changelog generator agent skill"

  /** The churn above which the Syringe API counts as simplified. */
  const ChurnThreshold: int := 200

  function InterfaceRemovedEntry(name: string): string { "Removed `" + name + "` interface" }
  function RenameEntry(oldName: string, newName: string): string { "`" + oldName + "` renamed to `" + newName + "`" }
  /** A removal entry: the stem in backquotes and the reason in parentheses. */
  function Note(name: string, reason: string): string { "`" + name + "` (" + reason + ")" }
  function MovedEntry(name: string): string { Note(name, "moved to explicit package or replaced") }
  function AnalyzersEntry(ids: seq<string>): string { "Roslyn analyzers (" + Join(ids, ", ") + ")" }

  // -----------------------------------------------------------------------
  // Entries drafted from the change list

  /** One Breaking entry per deleted interface, in order. */
  function BreakingEntries(changes: seq<FileChange>): seq<string> {
    var names := DeletedInterfaces(changes);
    seq(|names|, i requires 0 <= i < |names| => InterfaceRemovedEntry(names[i]))
  }

  /** A rename worth reporting: the old stem names a factory, provider or registrar. */
  predicate IsSignificantRename(r: (string, string)) {
    Contains(r.0, "Factory") || Contains(r.0, "Provider") || Contains(r.0, "Registrar")
  }

  function RenameEntryOf(r: (string, string)): string { RenameEntry(r.0, r.1) }

  function RenameEntries(changes: seq<FileChange>): seq<string> {
    FilterMap(Renames(changes), IsSignificantRename, RenameEntryOf)
  }

  /** A deleted `.cs` file of the core package (the test is case-sensitive). */
  predicate IsCoreDeletion(c: FileChange) {
    c.status == 'D' && Contains(c.path, "NexusLabs.Needlr/") && EndsWith(c.path, ".cs")
  }

  /** A core file whose removal is reported: not a deleted interface, and
      named like a factory, provider, registrar or populator. */
  predicate IsReportedCoreRemoval(name: string, interfaces: seq<string>) {
    name !in interfaces
    && (Contains(name, "Factory") || Contains(name, "Provider") || Contains(name, "Registrar") || Contains(name, "Populator"))
  }

  /** The test applied to each core deletion, given the deleted interfaces. */
  function ReportedCoreRemoval(interfaces: seq<string>): FileChange -> bool {
    (c: FileChange) => IsReportedCoreRemoval(Stem(c.path), interfaces)
  }

  function MovedEntryOf(c: FileChange): string { MovedEntry(Stem(c.path)) }

  function CoreRemovals(changes: seq<FileChange>): seq<string> {
    FilterMap(Filter(changes, IsCoreDeletion), ReportedCoreRemoval(DeletedInterfaces(changes)), MovedEntryOf)
  }

  // -----------------------------------------------------------------------
  // Entries drafted from the area lists

  /** `categories.get(area, [])` */
  function Area(categories: map<string, seq<FileChange>>, area: string): seq<FileChange> {
    if area in categories then categories[area] else []
  }

  function WithStatus(files: seq<FileChange>, status: char): seq<FileChange> {
    Filter(files, (f: FileChange) => f.status == status)
  }

  predicate IsCsFile(c: FileChange) { EndsWith(c.path, ".cs") }
  predicate IsAddedCs(c: FileChange) { c.status == 'A' && EndsWith(c.path, ".cs") }

  /** The stems of the `.cs` files among `files`. */
  function CsStems(files: seq<FileChange>): seq<string> { FilterMap(files, IsCsFile, PathStem) }

  /** `any(word in n.lower() for n in names)` */
  predicate AnyNameHas(names: seq<string>, word: string) {
    exists n :: n in names && Contains(Lower(n), word)
  }

  /** `any(word in f.path.lower() for f in files)` */
  predicate AnyPathHas(files: seq<FileChange>, word: string) {
    exists f :: f in files && Contains(Lower(f.path), word)
  }

  function EntryIf(cond: bool, entry: string): seq<string> { if cond then [entry] else [] }

  function SourcegenAdded(categories: map<string, seq<FileChange>>): seq<string> {
    if "sourcegen" !in categories then []
    else
      var sgAdded := WithStatus(categories["sourcegen"], 'A');
      if sgAdded == [] then []
      else
        var names := CsStems(sgAdded);
        EntryIf(AnyNameHas(names, "provider"), SourcegenProvidersEntry)
        + EntryIf(AnyNameHas(names, "bootstrap"), BootstrapEntry)
        + EntryIf(AnyNameHas(names, "factory"), SourcegenFactoryEntry)
  }

  function SourcegenChanged(categories: map<string, seq<FileChange>>): seq<string> {
    if "sourcegen" !in categories then []
    else
      var files := categories["sourcegen"];
      EntryIf(WithStatus(files, 'M') != [] || WithStatus(files, 'A') != [], SourcegenDefaultEntry)
  }

  function ReflectionAdded(categories: map<string, seq<FileChange>>): seq<string> {
    if "reflection" !in categories then []
    else
      var refAdded := WithStatus(categories["reflection"], 'A');
      if refAdded == [] then []
      else
        var names := CsStems(refAdded);
        EntryIf(AnyNameHas(names, "provider"), ReflectionProvidersEntry)
        + EntryIf(AnyNameHas(names, "factory"), ReflectionFactoryEntry)
  }

  function BundleAdded(categories: map<string, seq<FileChange>>): seq<string> {
    if "bundle" !in categories then []
    else EntryIf(WithStatus(categories["bundle"], 'A') != [], BundleEntry)
  }

  // --- `re.search(r'NDLR\d+', path)` -------------------------------------

  /** A match of `NDLR\d+` can start at `i`. */
  predicate NdlrAt(s: string, i: int) {
    0 <= i && i + 5 <= |s| && s[i..i + 4] == "NDLR" && IsDigit(s[i + 4])
  }

  /** The length of the run of digits that starts at `j`. */
  function DigitRun(s: string, j: nat): (n: nat)
    requires j <= |s|
    ensures j + n <= |s|
    ensures forall k :: j <= k < j + n ==> IsDigit(s[k])
    ensures j + n == |s| || !IsDigit(s[j + n])
    decreases |s| - j
  {
    if j < |s| && IsDigit(s[j]) then 1 + DigitRun(s, j + 1) else 0
  }

  /** The leftmost position from `from` on where a match starts. */
  function FindNdlr(s: string, from: nat): (r: Option<nat>)
    requires from <= |s|
    ensures r.Some? ==> from <= r.value && NdlrAt(s, r.value)
                        && forall j :: from <= j < r.value ==> !NdlrAt(s, j)
    ensures r.None? ==> forall j :: from <= j <= |s| ==> !NdlrAt(s, j)
    decreases |s| - from
  {
    if from + 5 > |s| then None
    else if NdlrAt(s, from) then Some(from)
    else FindNdlr(s, from + 1)
  }

  /** `match.group()`: the leftmost match, with its digits taken greedily. */
  function NdlrMatch(s: string): Option<string> {
    match FindNdlr(s, 0)
    case None => None
    case Some(i) => Some(s[i..i + 4 + DigitRun(s, i + 4)])
  }

  /** An analyzer id: `NDLR` and then at least one digit. */
  predicate IsNdlrId(id: string) {
    |id| >= 5 && id[..4] == "NDLR" && forall k :: 4 <= k < |id| ==> IsDigit(id[k])
  }

  predicate HasNdlrMatch(f: FileChange) { NdlrMatch(f.path).Some? }
  function NdlrOf(f: FileChange): string { if NdlrMatch(f.path).Some? then NdlrMatch(f.path).value else "" }

  /** The ids found in the paths, in path order, repeats kept. */
  function AnalyzerIds(files: seq<FileChange>): seq<string> {
    FilterMap(files, HasNdlrMatch, NdlrOf)
  }

  /** The loop that collects the ids into `analyzer_ids`. */
  method CollectAnalyzerIds(files: seq<FileChange>) returns (ids: seq<string>)
    ensures ids == AnalyzerIds(files)
  {
    ids := [];
    for i := 0 to |files|
      invariant ids == AnalyzerIds(files[..i])
    {
      assert files[..i + 1][..i] == files[..i];
      var m := NdlrMatch(files[i].path);
      if m.Some? {
        ids := ids + [m.value];
      }
    }
    assert files[..|files|] == files;
  }

  function AnalyzersAdded(categories: map<string, seq<FileChange>>): seq<string> {
    if "analyzers" !in categories then []
    else
      var analyzerAdded := Filter(categories["analyzers"], IsAddedCs);
      if analyzerAdded == [] then []
      else
        var ids := AnalyzerIds(analyzerAdded);
        if ids != [] then [AnalyzersEntry(SortedDistinct(ids))] else [AnalyzersFallbackEntry]
  }

  // ---------------------------------------------------------------------

  function SignalrAdded(categories: map<string, seq<FileChange>>): seq<string> {
    if "signalr" !in categories then []
    else EntryIf(AnyPathHas(Filter(categories["signalr"], IsAddedCs), "generated"), SignalrAddedEntry)
  }

  function SignalrChanged(categories: map<string, seq<FileChange>>): seq<string> {
    if "signalr" !in categories then []
    else EntryIf(WithStatus(categories["signalr"], 'M') != [], SignalrChangedEntry)
  }

  function KernelAdded(categories: map<string, seq<FileChange>>): seq<string> {
    if "semantickernel" !in categories then []
    else EntryIf(AnyPathHas(Filter(categories["semantickernel"], IsAddedCs), "generated"), KernelAddedEntry)
  }

  function KernelChanged(categories: map<string, seq<FileChange>>): seq<string> {
    if "semantickernel" !in categories then []
    else EntryIf(WithStatus(categories["semantickernel"], 'M') != [], KernelChangedEntry)
  }

  function AspnetChanged(categories: map<string, seq<FileChange>>): seq<string> {
    if "aspnet" !in categories then []
    else EntryIf(WithStatus(categories["aspnet"], 'M') != [], AspnetChangedEntry)
  }

  predicate HasInjectionAreas(categories: map<string, seq<FileChange>>) {
    "injection" in categories || "syringe" in categories
  }

  /** `core_files`: the injection list followed by the Syringe list. */
  function InjectionFiles(categories: map<string, seq<FileChange>>): seq<FileChange> {
    Area(categories, "injection") + Area(categories, "syringe")
  }

  function Churn(f: FileChange): int { f.insertions + f.deletions }

  function InjectionAdded(categories: map<string, seq<FileChange>>): seq<string> {
    if !HasInjectionAreas(categories) then []
    else
      var coreAdded := WithStatus(InjectionFiles(categories), 'A');
      if coreAdded == [] then []
      else EntryIf(AnyNameHas(CsStems(coreAdded), "provider"), ProviderArchitectureEntry)
  }

  function SyringeChanged(categories: map<string, seq<FileChange>>): seq<string> {
    if !HasInjectionAreas(categories) then []
    else
      var coreModified := WithStatus(InjectionFiles(categories), 'M');
      if coreModified == [] then []
      else EntryIf(Sum(coreModified, Churn) > ChurnThreshold, SyringeChangedEntry)
  }

  /** The reason a deleted injection/Syringe file is reported, by its stem,
      tried in order; interface names and anything unmatched give none. */
  function RemovalReason(name: string): Option<string> {
    var lower := Lower(name);
    if Contains(lower, "loader") then Some("assembly loading now handled by providers")
    else if Contains(lower, "sorter") then Some("assembly sorting no longer needed")
    else if Contains(lower, "registrar") then Some("replaced by `IInjectableTypeProvider`")
    else if Contains(lower, "filterer") then Some("no longer needed")
    else if Contains(lower, "populator") then Some("replaced by `ProviderBasedServiceProviderBuilder`")
    else if IsInterfaceName(name) then None
    else if Contains(lower, "extension") then Some("consolidated or moved")
    else None
  }

  /** The removal note for one stem: the stem and its reason. */
  function InjectionRemovalNote(name: string): Option<string> {
    match RemovalReason(name)
    case None => None
    case Some(reason) => Some(Note(name, reason))
  }

  predicate HasRemovalNote(f: FileChange) { EndsWith(f.path, ".cs") && InjectionRemovalNote(Stem(f.path)).Some? }
  function RemovalNoteOf(f: FileChange): string {
    var note := InjectionRemovalNote(Stem(f.path));
    if note.Some? then note.value else ""
  }

  function InjectionRemovals(categories: map<string, seq<FileChange>>): seq<string> {
    if !HasInjectionAreas(categories) then []
    else FilterMap(WithStatus(InjectionFiles(categories), 'D'), HasRemovalNote, RemovalNoteOf)
  }

  /** The loop over `core_deleted`. */
  method DraftInjectionRemovals(coreDeleted: seq<FileChange>) returns (notes: seq<string>)
    ensures notes == FilterMap(coreDeleted, HasRemovalNote, RemovalNoteOf)
  {
    notes := [];
    for i := 0 to |coreDeleted|
      invariant notes == FilterMap(coreDeleted[..i], HasRemovalNote, RemovalNoteOf)
    {
      assert coreDeleted[..i + 1][..i] == coreDeleted[..i];
      var f := coreDeleted[i];
      if EndsWith(f.path, ".cs") {
        var note := InjectionRemovalNote(Stem(f.path));
        if note.Some? {
          notes := notes + [note.value];
        }
      }
    }
    assert coreDeleted[..|coreDeleted|] == coreDeleted;
  }

  function ScrutorChanged(categories: map<string, seq<FileChange>>): seq<string> {
    if "scrutor" !in categories then []
    else EntryIf(WithStatus(categories["scrutor"], 'M') != [], ScrutorChangedEntry)
  }

  function ExamplesAdded(categories: map<string, seq<FileChange>>): seq<string> {
    if "examples" !in categories then []
    else
      var exampleAdded := WithStatus(categories["examples"], 'A');
      EntryIf(AnyPathHas(exampleAdded, "aot"), AotExampleEntry)
      + EntryIf(AnyPathHas(exampleAdded, "bundle"), BundleExampleEntry)
      + EntryIf(AnyPathHas(exampleAdded, "benchmark"), BenchmarksEntry)
  }

  function BenchmarksAdded(categories: map<string, seq<FileChange>>): seq<string> {
    if "benchmarks" !in categories then []
    else EntryIf(WithStatus(categories["benchmarks"], 'A') != [], BenchmarksEntry)
  }

  predicate IsAddedOrModified(f: FileChange) { f.status == 'A' || f.status == 'M' }

  function CiAdded(categories: map<string, seq<FileChange>>): seq<string> {
    if "ci" !in categories then []
    else EntryIf(Filter(categories["ci"], IsAddedOrModified) != [], CiEntry)
  }

  function SkillsAdded(categories: map<string, seq<FileChange>>): seq<string> {
    if "skills" !in categories then []
    else EntryIf(WithStatus(categories["skills"], 'A') != [], SkillEntry)
  }

  // -----------------------------------------------------------------------
  // The four drafts, before de-duplication, in the order the entries are appended

  function DraftBreaking(changes: seq<FileChange>): seq<string> { BreakingEntries(changes) }

  function DraftAdded(categories: map<string, seq<FileChange>>): seq<string> {
    SourcegenAdded(categories) + ReflectionAdded(categories) + BundleAdded(categories)
    + AnalyzersAdded(categories) + SignalrAdded(categories) + KernelAdded(categories)
    + InjectionAdded(categories) + ExamplesAdded(categories) + BenchmarksAdded(categories)
    + CiAdded(categories) + SkillsAdded(categories)
  }

  function AreaChanges(categories: map<string, seq<FileChange>>): seq<string> {
    SourcegenChanged(categories) + SignalrChanged(categories) + KernelChanged(categories)
    + AspnetChanged(categories) + SyringeChanged(categories) + ScrutorChanged(categories)
  }

  function DraftChanged(categories: map<string, seq<FileChange>>, changes: seq<FileChange>): seq<string> {
    RenameEntries(changes) + AreaChanges(categories)
  }

  function DraftRemoved(categories: map<string, seq<FileChange>>, changes: seq<FileChange>): seq<string> {
    CoreRemovals(changes) + InjectionRemovals(categories)
  }

  // -----------------------------------------------------------------------
  // Rendering

  function Header(version: string, releaseDate: string): string {
    "## [" + version + "] - " + releaseDate
  }

  function StatsLine(stats: Stats): string {
    "_(" + IntToString(stats.totalFiles) + " files changed, +" + IntToString(stats.insertions)
    + "/-" + IntToString(stats.deletions) + " lines)_"
  }

  function Bullets(entries: seq<string>): seq<string> {
    seq(|entries|, i requires 0 <= i < |entries| => "- " + entries[i])
  }

  /** A section: its heading, one bullet per entry and a blank line; nothing
      at all when there are no entries. */
  function Section(title: string, entries: seq<string>): seq<string> {
    if entries == [] then [] else [title] + Bullets(entries) + [""]
  }

  /** The output lines: heading, blank line, the four sections in their
      fixed order, the statistics line. */
  function RenderChangelog(header: string, breaking: seq<string>, added: seq<string>, changed: seq<string>,
                           removed: seq<string>, statsLine: string): seq<string> {
    [header, ""]
    + Section(BreakingTitle, breaking) + Section(AddedTitle, added)
    + Section(ChangedTitle, changed) + Section(RemovedTitle, removed)
    + [statsLine]
  }

  function ChangelogLines(analysis: Analysis, changes: seq<FileChange>, version: string, releaseDate: string): seq<string> {
    var categories := analysis.byCategory;
    RenderChangelog(Header(version, releaseDate),
                    Dedup(DraftBreaking(changes)), Dedup(DraftAdded(categories)),
                    Dedup(DraftChanged(categories, changes)), Dedup(DraftRemoved(categories, changes)),
                    StatsLine(analysis.stats))
  }

  /** The text `generate_semantic_changelog` returns. */
  function SemanticChangelog(analysis: Analysis, changes: seq<FileChange>, version: string, releaseDate: string): string {
    Join(ChangelogLines(analysis, changes, version, releaseDate), "\n")
  }

  // -----------------------------------------------------------------------
  // The generator, step by step

  /** The loop over the deleted interfaces. */
  method DraftBreakingEntries(deletedInterfaces: seq<string>) returns (breaking: seq<string>)
    ensures breaking == seq(|deletedInterfaces|, k requires 0 <= k < |deletedInterfaces| => InterfaceRemovedEntry(deletedInterfaces[k]))
  {
    breaking := [];
    for i := 0 to |deletedInterfaces|
      invariant breaking == seq(i, k requires 0 <= k < i => InterfaceRemovedEntry(deletedInterfaces[k]))
    {
      breaking := breaking + [InterfaceRemovedEntry(deletedInterfaces[i])];
    }
  }

  /** The loop over the renames: only significant ones become entries. */
  method DraftRenameEntries(renames: seq<(string, string)>) returns (renamed: seq<string>)
    ensures renamed == FilterMap(renames, IsSignificantRename, RenameEntryOf)
  {
    renamed := [];
    for i := 0 to |renames|
      invariant renamed == FilterMap(renames[..i], IsSignificantRename, RenameEntryOf)
    {
      assert renames[..i + 1][..i] == renames[..i];
      var (oldName, newName) := renames[i];
      if Contains(oldName, "Factory") || Contains(oldName, "Provider") || Contains(oldName, "Registrar") {
        renamed := renamed + [RenameEntry(oldName, newName)];
      }
    }
    assert renames[..|renames|] == renames;
  }

  /** The loop over the core deletions: named ones that are not deleted
      interfaces become entries. */
  method DraftCoreRemovals(coreDeletions: seq<FileChange>, deletedInterfaces: seq<string>) returns (coreRemoved: seq<string>)
    ensures coreRemoved == FilterMap(coreDeletions, ReportedCoreRemoval(deletedInterfaces), MovedEntryOf)
  {
    coreRemoved := [];
    for i := 0 to |coreDeletions|
      invariant coreRemoved == FilterMap(coreDeletions[..i], ReportedCoreRemoval(deletedInterfaces), MovedEntryOf)
    {
      assert coreDeletions[..i + 1][..i] == coreDeletions[..i];
      var name := Stem(coreDeletions[i].path);
      if name !in deletedInterfaces {
        if Contains(name, "Factory") || Contains(name, "Provider") || Contains(name, "Registrar") || Contains(name, "Populator") {
          coreRemoved := coreRemoved + [MovedEntry(name)];
        }
      }
    }
    assert coreDeletions[..|coreDeletions|] == coreDeletions;
  }

  /** The three loops over the change list: deleted interfaces become
      Breaking entries, significant renames Changed entries, and named core
      deletions Removed entries. */
  method DraftFromChanges(changes: seq<FileChange>) returns (breaking: seq<string>, renamed: seq<string>, coreRemoved: seq<string>)
    ensures breaking == DraftBreaking(changes)
    ensures renamed == RenameEntries(changes)
    ensures coreRemoved == CoreRemovals(changes)
  {
    var deletedInterfaces := DetectDeletedInterfaces(changes);
    breaking := DraftBreakingEntries(deletedInterfaces);
    var renames := DetectRenames(changes);
    renamed := DraftRenameEntries(renames);
    var coreDeletions := Filter(changes, IsCoreDeletion);
    coreRemoved := DraftCoreRemovals(coreDeletions, deletedInterfaces);
  }

  /** The source-generation block. */
  method SourcegenBlock(categories: map<string, seq<FileChange>>, added0: seq<string>, changed0: seq<string>)
    returns (added: seq<string>, changed: seq<string>)
    ensures added == added0 + SourcegenAdded(categories)
    ensures changed == changed0 + SourcegenChanged(categories)
  {
    added, changed := added0, changed0;
    if "sourcegen" in categories {
      var sgFiles := categories["sourcegen"];
      var sgAdded := WithStatus(sgFiles, 'A');
      var sgModified := WithStatus(sgFiles, 'M');
      if sgAdded != [] {
        var addedNames := CsStems(sgAdded);
        if AnyNameHas(addedNames, "provider") { added := added + [SourcegenProvidersEntry]; }
        if AnyNameHas(addedNames, "bootstrap") { added := added + [BootstrapEntry]; }
        if AnyNameHas(addedNames, "factory") { added := added + [SourcegenFactoryEntry]; }
      }
      if sgModified != [] || sgAdded != [] {
        changed := changed + [SourcegenDefaultEntry];
      }
    }
  }

  /** The reflection and bundle blocks. */
  method ReflectionAndBundleBlocks(categories: map<string, seq<FileChange>>, added0: seq<string>)
    returns (added: seq<string>)
    ensures added == added0 + ReflectionAdded(categories) + BundleAdded(categories)
  {
    added := added0;
    if "reflection" in categories {
      var refAdded := WithStatus(categories["reflection"], 'A');
      if refAdded != [] {
        var addedNames := CsStems(refAdded);
        if AnyNameHas(addedNames, "provider") { added := added + [ReflectionProvidersEntry]; }
        if AnyNameHas(addedNames, "factory") { added := added + [ReflectionFactoryEntry]; }
      }
    }
    assert added == added0 + ReflectionAdded(categories);
    if "bundle" in categories {
      if WithStatus(categories["bundle"], 'A') != [] { added := added + [BundleEntry]; }
    }
  }

  /** The analyzers block: the sorted distinct ids, or the fixed text when
      no added analyzer path carries one. */
  method AnalyzersBlock(categories: map<string, seq<FileChange>>, added0: seq<string>)
    returns (added: seq<string>)
    ensures added == added0 + AnalyzersAdded(categories)
  {
    added := added0;
    if "analyzers" in categories {
      var analyzerAdded := Filter(categories["analyzers"], IsAddedCs);
      if analyzerAdded != [] {
        var analyzerIds := CollectAnalyzerIds(analyzerAdded);
        if analyzerIds != [] {
          added := added + [AnalyzersEntry(SortedDistinct(analyzerIds))];
        } else {
          added := added + [AnalyzersFallbackEntry];
        }
      }
    }
  }

  /** The SignalR, Semantic Kernel and ASP.NET blocks. */
  method IntegrationBlocks(categories: map<string, seq<FileChange>>, added0: seq<string>, changed0: seq<string>)
    returns (added: seq<string>, changed: seq<string>)
    ensures added == added0 + SignalrAdded(categories) + KernelAdded(categories)
    ensures changed == changed0 + SignalrChanged(categories) + KernelChanged(categories) + AspnetChanged(categories)
  {
    added, changed := added0, changed0;
    if "signalr" in categories {
      var srFiles := categories["signalr"];
      if AnyPathHas(Filter(srFiles, IsAddedCs), "generated") { added := added + [SignalrAddedEntry]; }
      if WithStatus(srFiles, 'M') != [] { changed := changed + [SignalrChangedEntry]; }
    }
    assert added == added0 + SignalrAdded(categories);
    assert changed == changed0 + SignalrChanged(categories);
    if "semantickernel" in categories {
      var skFiles := categories["semantickernel"];
      if AnyPathHas(Filter(skFiles, IsAddedCs), "generated") { added := added + [KernelAddedEntry]; }
      if WithStatus(skFiles, 'M') != [] { changed := changed + [KernelChangedEntry]; }
    }
    assert changed == changed0 + SignalrChanged(categories) + KernelChanged(categories);
    if "aspnet" in categories {
      if WithStatus(categories["aspnet"], 'M') != [] { changed := changed + [AspnetChangedEntry]; }
    }
  }

  /** The core injection block over the injection and Syringe lists. */
  method InjectionBlock(categories: map<string, seq<FileChange>>, added0: seq<string>, changed0: seq<string>)
    returns (added: seq<string>, changed: seq<string>, removed: seq<string>)
    ensures added == added0 + InjectionAdded(categories)
    ensures changed == changed0 + SyringeChanged(categories)
    ensures removed == InjectionRemovals(categories)
  {
    added, changed, removed := added0, changed0, [];
    if "injection" in categories || "syringe" in categories {
      var coreFiles := Area(categories, "injection") + Area(categories, "syringe");
      var coreModified := WithStatus(coreFiles, 'M');
      var coreDeleted := WithStatus(coreFiles, 'D');
      var coreAdded := WithStatus(coreFiles, 'A');
      if coreAdded != [] {
        if AnyNameHas(CsStems(coreAdded), "provider") { added := added + [ProviderArchitectureEntry]; }
      }
      if coreModified != [] {
        var totalChurn := Sum(coreModified, Churn);
        if totalChurn > ChurnThreshold { changed := changed + [SyringeChangedEntry]; }
      }
      if coreDeleted != [] {
        removed := DraftInjectionRemovals(coreDeleted);
      }
    }
  }

  /** The Scrutor block. */
  method ScrutorBlock(categories: map<string, seq<FileChange>>, changed0: seq<string>) returns (changed: seq<string>)
    ensures changed == changed0 + ScrutorChanged(categories)
  {
    changed := changed0;
    if "scrutor" in categories {
      if WithStatus(categories["scrutor"], 'M') != [] { changed := changed + [ScrutorChangedEntry]; }
    }
  }

  /** The examples block. The stems of new example projects are computed
      there but never used, so they are not computed here. */
  method ExamplesBlock(categories: map<string, seq<FileChange>>, added0: seq<string>) returns (added: seq<string>)
    ensures added == added0 + ExamplesAdded(categories)
  {
    added := added0;
    if "examples" in categories {
      var exampleAdded := WithStatus(categories["examples"], 'A');
      if AnyPathHas(exampleAdded, "aot") { added := added + [AotExampleEntry]; }
      if AnyPathHas(exampleAdded, "bundle") { added := added + [BundleExampleEntry]; }
      if AnyPathHas(exampleAdded, "benchmark") { added := added + [BenchmarksEntry]; }
    }
  }

  /** The benchmarks, CI/CD and skills blocks. */
  method ToolingBlocks(categories: map<string, seq<FileChange>>, added0: seq<string>) returns (added: seq<string>)
    ensures added == added0 + BenchmarksAdded(categories) + CiAdded(categories) + SkillsAdded(categories)
  {
    added := added0;
    if "benchmarks" in categories {
      if WithStatus(categories["benchmarks"], 'A') != [] { added := added + [BenchmarksEntry]; }
    }
    if "ci" in categories {
      if Filter(categories["ci"], IsAddedOrModified) != [] { added := added + [CiEntry]; }
    }
    assert added == added0 + BenchmarksAdded(categories) + CiAdded(categories);
    if "skills" in categories {
      if WithStatus(categories["skills"], 'A') != [] { added := added + [SkillEntry]; }
    }
  }

  /** The area blocks, in source order, appending to the Added, Changed and
      Removed drafts. */
  method DraftFromAreas(categories: map<string, seq<FileChange>>)
    returns (added: seq<string>, changed: seq<string>, removed: seq<string>)
    ensures added == DraftAdded(categories)
    ensures changed == AreaChanges(categories)
    ensures removed == InjectionRemovals(categories)
  {
    added, changed := SourcegenBlock(categories, [], []);
    assert added == SourcegenAdded(categories) && changed == SourcegenChanged(categories);
    added := ReflectionAndBundleBlocks(categories, added);
    added := AnalyzersBlock(categories, added);
    added, changed := IntegrationBlocks(categories, added, changed);
    added, changed, removed := InjectionBlock(categories, added, changed);
    changed := ScrutorBlock(categories, changed);
    added := ExamplesBlock(categories, added);
    added := ToolingBlocks(categories, added);
  }

  /** One `if entries:` rendering block: the heading, the bullets, a blank line. */
  method AppendSection(lines: seq<string>, title: string, entries: seq<string>) returns (out: seq<string>)
    ensures out == lines + Section(title, entries)
  {
    out := lines;
    if entries != [] {
      out := out + [title];
      for i := 0 to |entries|
        invariant out == lines + [title] + Bullets(entries[..i])
      {
        assert Bullets(entries[..i + 1]) == Bullets(entries[..i]) + ["- " + entries[i]];
        out := out + ["- " + entries[i]];
      }
      assert entries[..|entries|] == entries;
      out := out + [""];
    }
  }

  /** `generate_semantic_changelog`. The repository and the two refs it is
      given are never read, so they are not parameters here. */
  method GenerateSemanticChangelog(analysis: Analysis, changes: seq<FileChange>, version: string, releaseDate: string)
    returns (text: string)
    ensures text == SemanticChangelog(analysis, changes, version, releaseDate)
  {
    var lines := [Header(version, releaseDate), ""];
    var categories := analysis.byCategory;
    var breaking, renamed, coreRemoved := DraftFromChanges(changes);
    var _ := DetectDeletedClasses(changes);
    var added, areaChanged, areaRemoved := DraftFromAreas(categories);
    var changed := renamed + areaChanged;
    var removed := coreRemoved + areaRemoved;

    added := Dedup(added);
    changed := Dedup(changed);
    removed := Dedup(removed);
    breaking := Dedup(breaking);

    lines := AppendSection(lines, BreakingTitle, breaking);
    lines := AppendSection(lines, AddedTitle, added);
    lines := AppendSection(lines, ChangedTitle, changed);
    lines := AppendSection(lines, RemovedTitle, removed);
    lines := lines + [StatsLine(analysis.stats)];
    text := Join(lines, "\n");
  }
}
