/** What the semantic changelog promises: its frame, the order of its
    sections, the effect of de-duplication, and the meaning of the
    individual heuristics. */
module ChangelogProperties {
  import opened Text
  import opened Sequences
  import opened DiffParsing
  import opened ChangeAnalysis
  import opened ChangelogWriter

  // -----------------------------------------------------------------------
  // Frame and section order

  /** Joining lines that open with a heading and a blank line. */
  lemma JoinAfterBlank(header: string, rest: seq<string>)
    requires rest != []
    ensures Join([header, ""] + rest, "\n") == header + "\n\n" + Join(rest, "\n")
  {
    JoinConcat([header, ""], rest, "\n");
    assert [header, ""][1..] == [""];
  }

  lemma EndsWithAfter(p: string, t: string, suffix: string)
    requires EndsWith(t, suffix)
    ensures EndsWith(p + t, suffix)
  {
    assert (p + t)[|p + t| - |suffix|..] == t[|t| - |suffix|..];
  }

  /** Joined lines whose second line is blank open with the first line and
      a blank line, and close with the last line. */
  lemma JoinFrame(lines: seq<string>)
    requires |lines| >= 3 && lines[1] == ""
    ensures StartsWith(Join(lines, "\n"), lines[0] + "\n\n")
    ensures EndsWith(Join(lines, "\n"), lines[|lines| - 1])
  {
    var rest := lines[2..];
    assert lines == [lines[0], ""] + rest;
    JoinAfterBlank(lines[0], rest);
    JoinEnds(rest, "\n");
    EndsWithAfter(lines[0] + "\n\n", Join(rest, "\n"), rest[|rest| - 1]);
  }

  /** The rendered text opens with the heading line and a blank line and
      closes with the statistics line, whatever the four lists hold. */
  lemma RenderFrame(header: string, breaking: seq<string>, added: seq<string>, changed: seq<string>,
                    removed: seq<string>, statsLine: string)
    ensures var text := Join(RenderChangelog(header, breaking, added, changed, removed, statsLine), "\n");
            StartsWith(text, header + "\n\n") && EndsWith(text, statsLine)
  {
    var lines := RenderChangelog(header, breaking, added, changed, removed, statsLine);
    assert lines[0] == header && lines[1] == "" && lines[|lines| - 1] == statsLine;
    JoinFrame(lines);
  }

  /** The text `generate_semantic_changelog` returns opens with the version
      heading and a blank line and closes with the statistics line. */
  lemma ChangelogFrame(analysis: Analysis, changes: seq<FileChange>, version: string, releaseDate: string)
    ensures StartsWith(SemanticChangelog(analysis, changes, version, releaseDate), Header(version, releaseDate) + "\n\n")
    ensures EndsWith(SemanticChangelog(analysis, changes, version, releaseDate), StatsLine(analysis.stats))
  {
    var categories := analysis.byCategory;
    RenderFrame(Header(version, releaseDate),
                Dedup(DraftBreaking(changes)), Dedup(DraftAdded(categories)),
                Dedup(DraftChanged(categories, changes)), Dedup(DraftRemoved(categories, changes)),
                StatsLine(analysis.stats));
  }

  /** A section heading line. */
  predicate IsHeading(line: string) { StartsWith(line, "### ") }

  function HeadingIf(title: string, entries: seq<string>): seq<string> {
    if entries == [] then [] else [title]
  }

  lemma SectionHeadings(title: string, entries: seq<string>)
    requires IsHeading(title)
    ensures Filter(Section(title, entries), IsHeading) == HeadingIf(title, entries)
  {
    if entries != [] {
      var bullets := Bullets(entries);
      forall i | 0 <= i < |bullets| ensures !IsHeading(bullets[i]) {
        assert bullets[i][1] == ' ';
      }
      FilterNone(bullets, IsHeading);
      FilterConcat([title], bullets, IsHeading);
      FilterConcat([title] + bullets, [""], IsHeading);
    }
  }

  /** The headings of the rendered lines are the four section titles, in the
      order Breaking, Added, Changed, Removed, each present exactly when its
      list is not empty. */
  lemma RenderHeadings(header: string, breaking: seq<string>, added: seq<string>, changed: seq<string>,
                       removed: seq<string>, statsLine: string)
    requires !IsHeading(header) && !IsHeading(statsLine)
    ensures Filter(RenderChangelog(header, breaking, added, changed, removed, statsLine), IsHeading)
            == HeadingIf(BreakingTitle, breaking) + HeadingIf(AddedTitle, added)
               + HeadingIf(ChangedTitle, changed) + HeadingIf(RemovedTitle, removed)
  {
    var top := [header, ""];
    var s1 := Section(BreakingTitle, breaking);
    var s2 := Section(AddedTitle, added);
    var s3 := Section(ChangedTitle, changed);
    var s4 := Section(RemovedTitle, removed);
    var bottom := [statsLine];
    var h1, h2 := HeadingIf(BreakingTitle, breaking), HeadingIf(AddedTitle, added);
    var h3, h4 := HeadingIf(ChangedTitle, changed), HeadingIf(RemovedTitle, removed);
    assert Filter(top + s1, IsHeading) == h1 by {
      FilterNone(top, IsHeading);
      SectionHeadings(BreakingTitle, breaking);
      FilterConcat(top, s1, IsHeading);
    }
    assert Filter(top + s1 + s2, IsHeading) == h1 + h2 by {
      SectionHeadings(AddedTitle, added);
      FilterConcat(top + s1, s2, IsHeading);
    }
    assert Filter(top + s1 + s2 + s3, IsHeading) == h1 + h2 + h3 by {
      SectionHeadings(ChangedTitle, changed);
      FilterConcat(top + s1 + s2, s3, IsHeading);
    }
    assert Filter(top + s1 + s2 + s3 + s4, IsHeading) == h1 + h2 + h3 + h4 by {
      SectionHeadings(RemovedTitle, removed);
      FilterConcat(top + s1 + s2 + s3, s4, IsHeading);
    }
    assert Filter(top + s1 + s2 + s3 + s4 + bottom, IsHeading) == h1 + h2 + h3 + h4 by {
      FilterNone(bottom, IsHeading);
      FilterConcat(top + s1 + s2 + s3 + s4, bottom, IsHeading);
    }
  }

  /** No changes and no areas draft no entries. */
  lemma NoDrafts()
    ensures DraftBreaking([]) == [] && DraftAdded(map[]) == []
    ensures DraftChanged(map[], []) == [] && DraftRemoved(map[], []) == []
  {
    assert Renames([]) == [];
    assert Filter([], IsCoreDeletion) == [];
  }

  /** Four empty lists render as the heading, a blank line and the
      statistics line. */
  lemma RenderEmpty(header: string, statsLine: string)
    ensures Join(RenderChangelog(header, [], [], [], [], statsLine), "\n") == header + "\n\n" + statsLine
  {
    assert RenderChangelog(header, [], [], [], [], statsLine) == [header, ""] + [statsLine];
    JoinAfterBlank(header, [statsLine]);
  }

  /** With no changes at all, the text is the heading, a blank line and the
      statistics line. */
  lemma EmptyChangelog(version: string, releaseDate: string)
    ensures SemanticChangelog(Analyze([]), [], version, releaseDate)
            == Header(version, releaseDate) + "\n\n" + StatsLine(Stats(0, 0, 0))
  {
    var a := Analyze([]);
    assert KeysOf([], AreaOf) == {};
    assert a.byCategory == map[];
    assert a.stats == Stats(0, 0, 0);
    NoDrafts();
    RenderEmpty(Header(version, releaseDate), StatsLine(Stats(0, 0, 0)));
  }

  // -----------------------------------------------------------------------
  // De-duplication

  /** Each rendered list holds every drafted entry once (the order of first
      appearance is Sequences.DedupFirstOccurrences). */
  lemma RenderedListsDistinct(categories: map<string, seq<FileChange>>, changes: seq<FileChange>)
    ensures Distinct(Dedup(DraftBreaking(changes))) && Distinct(Dedup(DraftAdded(categories)))
    ensures Distinct(Dedup(DraftChanged(categories, changes))) && Distinct(Dedup(DraftRemoved(categories, changes)))
    ensures forall e :: e in Dedup(DraftAdded(categories)) <==> e in DraftAdded(categories)
    ensures forall e :: e in Dedup(DraftChanged(categories, changes)) <==> e in DraftChanged(categories, changes)
    ensures forall e :: e in Dedup(DraftRemoved(categories, changes)) <==> e in DraftRemoved(categories, changes)
    ensures forall e :: e in Dedup(DraftBreaking(changes)) <==> e in DraftBreaking(changes)
  {
    DedupCorrect(DraftBreaking(changes));
    DedupCorrect(DraftAdded(categories));
    DedupCorrect(DraftChanged(categories, changes));
    DedupCorrect(DraftRemoved(categories, changes));
  }

  lemma BenchmarksNotFromPatternBlocks(categories: map<string, seq<FileChange>>)
    ensures BenchmarksEntry !in SourcegenAdded(categories) + ReflectionAdded(categories) + BundleAdded(categories)
  {
  }

  lemma BenchmarksNotFromIntegrationBlocks(categories: map<string, seq<FileChange>>)
    ensures BenchmarksEntry !in AnalyzersAdded(categories) + SignalrAdded(categories)
                                + KernelAdded(categories) + InjectionAdded(categories)
  {
    assert BenchmarksEntry[|BenchmarksEntry| - 1] == 'n';
    NotAnAnalyzersEntry(categories, BenchmarksEntry);
  }

  lemma BenchmarksFromExamples(categories: map<string, seq<FileChange>>)
    ensures BenchmarksEntry in ExamplesAdded(categories)
            <==> "examples" in categories && AnyPathHas(WithStatus(categories["examples"], 'A'), "benchmark")
    ensures BenchmarksEntry !in CiAdded(categories) + SkillsAdded(categories)
  {
  }

  /** Only the examples and the benchmarks blocks draft the benchmarks entry. */
  lemma BenchmarksSources(categories: map<string, seq<FileChange>>)
    ensures BenchmarksEntry in DraftAdded(categories)
            <==> ("examples" in categories && AnyPathHas(WithStatus(categories["examples"], 'A'), "benchmark"))
                 || ("benchmarks" in categories && WithStatus(categories["benchmarks"], 'A') != [])
  {
    BenchmarksNotFromPatternBlocks(categories);
    BenchmarksNotFromIntegrationBlocks(categories);
    BenchmarksFromExamples(categories);
  }

  /** The benchmarks entry, which both the examples and the benchmarks
      blocks can draft, is listed under Added at most once, and exactly when
      an added example path mentions a benchmark or a benchmark file was added. */
  lemma BenchmarksEntryOnce(categories: map<string, seq<FileChange>>)
    ensures multiset(Dedup(DraftAdded(categories)))[BenchmarksEntry] <= 1
    ensures BenchmarksEntry in Dedup(DraftAdded(categories))
            <==> ("examples" in categories && AnyPathHas(WithStatus(categories["examples"], 'A'), "benchmark"))
                 || ("benchmarks" in categories && WithStatus(categories["benchmarks"], 'A') != [])
  {
    DedupCorrect(DraftAdded(categories));
    DistinctOccursOnce(Dedup(DraftAdded(categories)), BenchmarksEntry);
    BenchmarksSources(categories);
  }

  /** An entry text that does not close like the analyzers entry with its
      ids can be drafted by the analyzers block only as the fixed text. */
  lemma NotAnAnalyzersEntry(categories: map<string, seq<FileChange>>, e: string)
    requires |e| > 0 && e[|e| - 1] != ')'
    ensures e in AnalyzersAdded(categories) ==> e == AnalyzersFallbackEntry
  {
    if "analyzers" in categories {
      var analyzerAdded := Filter(categories["analyzers"], IsAddedCs);
      var ids := AnalyzerIds(analyzerAdded);
      var entry := AnalyzersEntry(SortedDistinct(ids));
      assert entry[|entry| - 1] == ')';
    }
  }

  // -----------------------------------------------------------------------
  // The Changed list

  /** Every rename entry closes with a backquote. */
  lemma RenameEntriesShape(changes: seq<FileChange>)
    ensures forall e :: e in RenameEntries(changes) ==> |e| > 0 && e[|e| - 1] == '`'
  {
    FilterMapMember(Renames(changes), IsSignificantRename, RenameEntryOf);
    forall e | e in RenameEntries(changes) ensures |e| > 0 && e[|e| - 1] == '`' {
      assert MapsTo(Renames(changes), IsSignificantRename, RenameEntryOf, e);
      var i :| 0 <= i < |Renames(changes)| && IsSignificantRename(Renames(changes)[i])
               && RenameEntryOf(Renames(changes)[i]) == e;
    }
  }

  lemma SyringeFromInjectionBlock(categories: map<string, seq<FileChange>>)
    ensures SyringeChangedEntry in SyringeChanged(categories)
            <==> HasInjectionAreas(categories) && Sum(WithStatus(InjectionFiles(categories), 'M'), Churn) > ChurnThreshold
  {
  }

  lemma SyringeNotFromOtherAreas(categories: map<string, seq<FileChange>>)
    ensures SyringeChangedEntry !in SourcegenChanged(categories) + SignalrChanged(categories) + KernelChanged(categories)
                                    + AspnetChanged(categories) + ScrutorChanged(categories)
  {
  }

  lemma SyringeNotARename(changes: seq<FileChange>)
    ensures SyringeChangedEntry !in RenameEntries(changes)
  {
    RenameEntriesShape(changes);
    assert SyringeChangedEntry[|SyringeChangedEntry| - 1] == 'e';
  }

  lemma SyringeInDraft(categories: map<string, seq<FileChange>>, changes: seq<FileChange>)
    ensures SyringeChangedEntry in DraftChanged(categories, changes)
            <==> HasInjectionAreas(categories) && Sum(WithStatus(InjectionFiles(categories), 'M'), Churn) > ChurnThreshold
  {
    SyringeNotARename(changes);
    SyringeFromInjectionBlock(categories);
    SyringeNotFromOtherAreas(categories);
  }

  /** The Syringe entry is listed under Changed exactly when the modified
      injection and Syringe files together changed more than 200 lines. */
  lemma SyringeEntryIff(categories: map<string, seq<FileChange>>, changes: seq<FileChange>)
    ensures SyringeChangedEntry in Dedup(DraftChanged(categories, changes))
            <==> HasInjectionAreas(categories) && Sum(WithStatus(InjectionFiles(categories), 'M'), Churn) > ChurnThreshold
  {
    DedupCorrect(DraftChanged(categories, changes));
    SyringeInDraft(categories, changes);
  }

  /** A rename reported by `detect_renames` whose old stem names a factory,
      provider or registrar is listed under Changed; a rename entry drafted
      from the renames always comes from such a rename. */
  lemma SignificantRenamesListed(categories: map<string, seq<FileChange>>, changes: seq<FileChange>, oldName: string, newName: string)
    ensures (oldName, newName) in Renames(changes) && IsSignificantRename((oldName, newName))
            ==> RenameEntry(oldName, newName) in Dedup(DraftChanged(categories, changes))
    ensures forall e :: (e in RenameEntries(changes)
                         <==> MapsTo(Renames(changes), IsSignificantRename, RenameEntryOf, e))
  {
    DedupCorrect(DraftChanged(categories, changes));
    FilterMapMember(Renames(changes), IsSignificantRename, RenameEntryOf);
    if (oldName, newName) in Renames(changes) && IsSignificantRename((oldName, newName)) {
      var i :| 0 <= i < |Renames(changes)| && Renames(changes)[i] == (oldName, newName);
      assert MapsTo(Renames(changes), IsSignificantRename, RenameEntryOf, RenameEntry(oldName, newName));
    }
  }

  // -----------------------------------------------------------------------
  // The Breaking and Removed lists

  /** A fixed prefix and suffix around a name determine the name. */
  lemma WrappedInjective(pre: string, a: string, b: string, post: string)
    requires pre + a + post == pre + b + post
    ensures a == b
  {
    var s := pre + a + post;
    assert |a| == |b|;
    assert a == s[|pre|..|pre| + |a|];
    assert b == (pre + b + post)[|pre|..|pre| + |b|];
  }

  lemma NoteInjective(a: string, b: string, reason: string)
    requires Note(a, reason) == Note(b, reason)
    ensures a == b
  {
    assert Note(a, reason) == "`" + a + ("` (" + reason + ")");
    assert Note(b, reason) == "`" + b + ("` (" + reason + ")");
    WrappedInjective("`", a, b, "` (" + reason + ")");
  }

  /** An interface is announced as removed exactly when
      `detect_deleted_interfaces` reports it. */
  lemma BreakingEntryIff(changes: seq<FileChange>, name: string)
    ensures InterfaceRemovedEntry(name) in Dedup(DraftBreaking(changes)) <==> name in DeletedInterfaces(changes)
  {
    DedupCorrect(DraftBreaking(changes));
    var names := DeletedInterfaces(changes);
    if InterfaceRemovedEntry(name) in DraftBreaking(changes) {
      var i :| 0 <= i < |names| && InterfaceRemovedEntry(names[i]) == InterfaceRemovedEntry(name);
      WrappedInjective("Removed `", names[i], name, "` interface");
    }
    if name in names {
      var i :| 0 <= i < |names| && names[i] == name;
      assert DraftBreaking(changes)[i] == InterfaceRemovedEntry(name);
    }
  }

  /** A core deletion is listed under Removed only for a stem that is not a
      deleted interface (interfaces are reported as breaking instead) and
      that names a factory, provider, registrar or populator; every such
      deletion is listed. */
  lemma CoreRemovalSound(changes: seq<FileChange>, name: string)
    ensures MovedEntry(name) in CoreRemovals(changes)
            ==> IsReportedCoreRemoval(name, DeletedInterfaces(changes))
                && exists c :: c in changes && IsCoreDeletion(c) && Stem(c.path) == name
  {
    var keep := ReportedCoreRemoval(DeletedInterfaces(changes));
    var core := Filter(changes, IsCoreDeletion);
    if MovedEntry(name) in CoreRemovals(changes) {
      FilterMapMember(core, keep, MovedEntryOf);
      assert MapsTo(core, keep, MovedEntryOf, MovedEntry(name));
      var i :| 0 <= i < |core| && keep(core[i]) && MovedEntryOf(core[i]) == MovedEntry(name);
      var c := core[i];
      NoteInjective(Stem(c.path), name, "moved to explicit package or replaced");
      FilterMember(changes, IsCoreDeletion);
      assert c in core;
    }
  }

  lemma CoreRemovalComplete(changes: seq<FileChange>, c: FileChange)
    requires c in changes && IsCoreDeletion(c) && IsReportedCoreRemoval(Stem(c.path), DeletedInterfaces(changes))
    ensures MovedEntry(Stem(c.path)) in CoreRemovals(changes)
  {
    var keep := ReportedCoreRemoval(DeletedInterfaces(changes));
    var core := Filter(changes, IsCoreDeletion);
    FilterMember(changes, IsCoreDeletion);
    assert c in core;
    var i :| 0 <= i < |core| && core[i] == c;
    assert MapsTo(core, keep, MovedEntryOf, MovedEntry(Stem(c.path)));
    FilterMapMember(core, keep, MovedEntryOf);
  }

  /** A deleted injection or Syringe file gets no removal note exactly when
      its stem names none of loader, sorter, registrar, filterer and
      populator, and it is an interface name or does not mention
      `extension`. */
  lemma InjectionRemovalNoteNone(name: string)
    ensures var lower := Lower(name);
            InjectionRemovalNote(name).None?
            <==> !Contains(lower, "loader") && !Contains(lower, "sorter") && !Contains(lower, "registrar")
                 && !Contains(lower, "filterer") && !Contains(lower, "populator")
                 && (IsInterfaceName(name) || !Contains(lower, "extension"))
  {
  }

  // -----------------------------------------------------------------------
  // Analyzer ids

  /** The match `re.search(r'NDLR\d+', s)` finds: it is an id, it sits at the
      leftmost position where an id starts, and its digit run is maximal;
      there is no match exactly when no id starts anywhere. */
  lemma NdlrMatchMeaning(s: string)
    ensures NdlrMatch(s).None? <==> forall i :: 0 <= i <= |s| ==> !NdlrAt(s, i)
    ensures NdlrMatch(s).Some? ==>
              var i := FindNdlr(s, 0).value;
              var m := NdlrMatch(s).value;
              && IsNdlrId(m)
              && i + |m| <= |s| && s[i..i + |m|] == m
              && (forall j :: 0 <= j < i ==> !NdlrAt(s, j))
              && (i + |m| == |s| || !IsDigit(s[i + |m|]))
  {
    if FindNdlr(s, 0).Some? {
      var i := FindNdlr(s, 0).value;
      var m := NdlrMatch(s).value;
      assert m[..4] == s[i..i + 4];
    }
  }

  /** The analyzers entry lists the ids strictly sorted, each an id, each
      the match found in some added analyzer file, and every such match. */
  lemma AnalyzerIdsListed(files: seq<FileChange>)
    ensures StrictlySorted(SortedDistinct(AnalyzerIds(files)))
    ensures forall id :: (id in SortedDistinct(AnalyzerIds(files))
                          <==> exists f :: f in files && NdlrMatch(f.path) == Some(id))
    ensures forall id :: id in SortedDistinct(AnalyzerIds(files)) ==> IsNdlrId(id)
  {
    SortedDistinctCorrect(AnalyzerIds(files));
    FilterMapMember(files, HasNdlrMatch, NdlrOf);
    forall id ensures id in AnalyzerIds(files) <==> exists f :: f in files && NdlrMatch(f.path) == Some(id) {
      if id in AnalyzerIds(files) {
        assert MapsTo(files, HasNdlrMatch, NdlrOf, id);
        var i :| 0 <= i < |files| && HasNdlrMatch(files[i]) && NdlrOf(files[i]) == id;
        assert files[i] in files;
      }
      if exists f :: f in files && NdlrMatch(f.path) == Some(id) {
        var f :| f in files && NdlrMatch(f.path) == Some(id);
        var i :| 0 <= i < |files| && files[i] == f;
        assert MapsTo(files, HasNdlrMatch, NdlrOf, id);
      }
    }
    forall id | id in AnalyzerIds(files) ensures IsNdlrId(id) {
      var f :| f in files && NdlrMatch(f.path) == Some(id);
      NdlrMatchMeaning(f.path);
    }
  }

  /** The ids are a set: listing the same ids in another order or with
      other repeats gives the same entry. */
  lemma AnalyzerIdsAreASet(ids: seq<string>, others: seq<string>)
    requires forall id :: id in ids <==> id in others
    ensures AnalyzersEntry(SortedDistinct(ids)) == AnalyzersEntry(SortedDistinct(others))
  {
    SortedDistinctCorrect(ids);
    SortedDistinctCorrect(others);
    StrictlySortedUnique(SortedDistinct(ids), SortedDistinct(others));
  }
}
