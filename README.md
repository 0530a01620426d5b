# Needlr release and documentation scripts, modelled in Dafny

This project models three Python scripts from the Needlr repository. They turn
repository facts into Markdown text.

- **Changelog generator** (`skills/changelog-generator/scripts/generate.py`).
  It reads the two outputs of `git diff --numstat -M` and
  `git diff --name-status -M` into file-change records (`get_file_changes`).
  Each path goes to one of nineteen areas (`categorize_path`). The changes are
  grouped by status and by area (`analyze_changes`). Deleted interfaces, new
  projects, renames and deleted classes are detected (`detect_*`). Finally the
  script writes a "Keep a Changelog" section with Breaking Changes, Added,
  Changed and Removed lists and a statistics line
  (`generate_semantic_changelog`).
- **Articles page** (`scripts/generate-articles.py`). `parse_articles` keeps
  the feed items tagged with the wanted tag that have a title and a link. It
  cleans each description: strip, drop the CDATA wrapper, remove HTML tags,
  strip again. `generate_markdown` lays out the page: a fixed header, one block
  per article (or a "no articles" notice), and a footer.
- **`llms.txt` hook** (`docs/hooks/llms_txt.py`). `on_page_context` records
  each page's title and description in the module's dictionary.
  `on_post_build` walks the site navigation in pre-order. It emits a heading
  per section and a line per page, after a fixed preamble.

Files:

- `text.dfy` (module `Text`): the Python string operations the scripts rely
  on. These are `strip`, `split`, `join`, `replace`, `lower`, `int()`,
  `sorted` and `str(int)`.
- `sequences.dfy` (module `Sequences`): filters, comprehension shapes,
  `dict.fromkeys` deduplication and `defaultdict(list)` grouping.
- `changelog_parse.dfy` (`DiffParsing`), `changelog_analysis.dfy`
  (`ChangeAnalysis`), `changelog_writer.dfy` (`ChangelogWriter`) and
  `changelog_properties.dfy` (`ChangelogProperties`): the changelog generator.
- `articles.dfy` (`Articles`): the articles page.
- `llms_txt.dfy` (`LlmsTxt`): the hook. The module-level `_PAGE_DESCRIPTIONS`
  dictionary is the field of class `LlmsHook`.

How the pieces are built:

- Each loop of the scripts is a method with a loop. The method is proved
  equal to a specification function, for example
  `ensures a == Analyze(changes)`. The properties the scripts promise are
  lemmas about those functions.
- A Python exception that ends the script is an `Err` result. Examples are
  `int('x')` and `parts[0][0]` on an empty status field.
- `None` and empty strings are kept apart wherever the scripts test
  truthiness. An f-string of a `None` title renders "None".

Where each script function is defined (the table below lists the lemmas and
methods that state its properties):

- `categorize_path` (generate.py:101-144): `ChangeAnalysis.CategorizePath`.
- `list(dict.fromkeys(xs))` (generate.py:426-429): `Sequences.Dedup`.
- `str.lower` (generate.py:103): `Text.Lower`.
- The description cleaning of `parse_articles` (generate-articles.py:51-61):
  `Articles.CleanDescription`. Its `re.sub(r'<[^>]+>', '', desc)` is
  `Articles.StripTags`.
- One article's lines in `generate_markdown` (generate-articles.py:94-111):
  `Articles.ArticleBlock`.
- `_url_from_path` (llms_txt.py:73-79): `LlmsTxt.UrlFromPath`.
- `_section_header` (llms_txt.py:45-46): `LlmsTxt.SectionHeader`.
- `_page_line` (llms_txt.py:48-57): `LlmsTxt.PageLine`.
- The description chosen in `on_page_context` (llms_txt.py:30-34):
  `LlmsTxt.ChosenDescription`.

## Model

| member | source | states |
|---|---|---|
| DiffParsing.GetFileChanges | skills/changelog-generator/scripts/generate.py:55-98 | the change list built from the two git outputs: numstat table first, then one record per name-status line, or the error that aborts the script |
| DiffParsing.ReadNumstat | skills/changelog-generator/scripts/generate.py:63-72 | the numstat loop builds the path -> (insertions, deletions) table, with `-` counted as 0, short lines skipped and a later line for a path overriding an earlier one, or fails on a count `int()` rejects |
| DiffParsing.ReadNameStatus | skills/changelog-generator/scripts/generate.py:80-98 | the name-status loop: blank and one-field lines skipped, a rename with both paths keeps its old path and takes the new path's counts, other lines take the last field's counts (0, 0 when absent), an empty status field fails |
| DiffParsing.NumstatErrorSticks | skills/changelog-generator/scripts/generate.py:64-72 | once a numstat line has raised, the whole parse fails with that error, whatever lines follow |
| DiffParsing.StatusErrorSticks | skills/changelog-generator/scripts/generate.py:81-96 | once a name-status line has raised, the whole parse fails with that error, whatever lines follow |
| DiffParsing.RFind | skills/changelog-generator/scripts/generate.py:183 | the suffix search of `Path.stem`: the last position of the character, or -1 when it does not occur |
| DiffParsing.StemOfFile | skills/changelog-generator/scripts/generate.py:183 | `Path(dir/base.ext).stem` and `Path(base.ext).stem` are `base` when `base` is non-empty and has no `/`, and the extension is non-empty with no dot or `/` |
| DiffParsing.CountOfPrinted | skills/changelog-generator/scripts/generate.py:69-70 | a printed non-negative count reads back as itself |
| DiffParsing.NumstatLineReadsBack | skills/changelog-generator/scripts/generate.py:67-72 | a numstat line `ins<TAB>dels<TAB>path` stores exactly (ins, dels) for path |
| DiffParsing.StatusLineReadsBack | skills/changelog-generator/scripts/generate.py:84-96 | a name-status line rebuilt from a record parses back to that record, old path included for a rename |
| DiffParsing.NumstatTableOfLines | skills/changelog-generator/scripts/generate.py:63-72 | the numstat lines of a change list give that list's table |
| DiffParsing.TableOfLookup | skills/changelog-generator/scripts/generate.py:91-95 | every path of a change list looks up its own counts in that table |
| DiffParsing.StatusChangesOfLines | skills/changelog-generator/scripts/generate.py:80-98 | the name-status lines of a change list parse back to the same list, in order |
| DiffParsing.OutputReadsBack | skills/changelog-generator/scripts/generate.py:64 | `strip().split('\n')` of lines joined by newlines gives those lines back, when the first and last line have no outer whitespace |
| DiffParsing.NumstatOutputReadsBack | skills/changelog-generator/scripts/generate.py:64 | the numstat output of a change list splits back into its lines |
| DiffParsing.StatusOutputReadsBack | skills/changelog-generator/scripts/generate.py:81 | the name-status output of a change list splits back into its lines |
| DiffParsing.ParseRenderedOutputs | skills/changelog-generator/scripts/generate.py:55-98 | the round trip over this model's rendering of a change list (one status letter, the new path alone in each numstat line, tab-free paths, non-negative counts): the two outputs parse back to exactly that list |
| DiffParsing.GitRenameCountsLost | skills/changelog-generator/scripts/generate.py:67-72 | for the rename lines git prints (`R<score>` status, `old => new` numstat path) the counts are stored under `old => new`, the status letter is `R`, and the rename is reported with (0, 0) whatever its counts were |
| ChangeAnalysis.CategorizeMeaning | skills/changelog-generator/scripts/generate.py:101-144 | `categorize_path` returns area m exactly when rule m holds on the lower-cased path and no earlier rule does; 'other' when no rule holds |
| ChangeAnalysis.AreaIndexOfLabel | skills/changelog-generator/scripts/generate.py:101-144 | the nineteen area labels are distinct, so the label names the rule that fired |
| ChangeAnalysis.CategorizeIgnoresCase | skills/changelog-generator/scripts/generate.py:103 | the area of a path does not depend on letter case |
| ChangeAnalysis.GithubPathsAreCi | skills/changelog-generator/scripts/generate.py:105-106 | any path containing `.github/` is 'ci' |
| ChangeAnalysis.CoreNeedsPackageAndCs | skills/changelog-generator/scripts/generate.py:140-142 | a 'core' path contains `nexuslabs.needlr/` and `.cs` |
| ChangeAnalysis.AnalyzeChanges | skills/changelog-generator/scripts/generate.py:147-175 | the loop's result is the analysis: status lists in input order, the area map, file count and summed insertions and deletions |
| ChangeAnalysis.StatusListsPartition | skills/changelog-generator/scripts/generate.py:166-173 | the four status lists split the changes: their lengths add up to the file count and together they hold every change exactly once |
| ChangeAnalysis.AreaListsPartition | skills/changelog-generator/scripts/generate.py:162-164 | every change is in the list of its own area and of no other; an area is a key exactly when some change has it; each list holds exactly the changes of its area, in order |
| ChangeAnalysis.DetectDeletedInterfaces | skills/changelog-generator/scripts/generate.py:178-186 | the stems of deleted `.cs` files named like `IName`, in order |
| ChangeAnalysis.DetectNewProjects | skills/changelog-generator/scripts/generate.py:189-196 | the stems of added `.csproj` files, in order |
| ChangeAnalysis.DetectRenames | skills/changelog-generator/scripts/generate.py:199-208 | the (old stem, new stem) pairs of `.cs` renames with a non-empty old path whose stems differ |
| ChangeAnalysis.DetectDeletedClasses | skills/changelog-generator/scripts/generate.py:211-220 | the stems of deleted `.cs` files not named like interfaces |
| ChangeAnalysis.DeletedStemsSplit | skills/changelog-generator/scripts/generate.py:178-220 | deleted interfaces and deleted classes split the deleted `.cs` stems: the first are all interface names, the second none, together they are all of them |
| ChangeAnalysis.RenamesMeaning | skills/changelog-generator/scripts/generate.py:199-208 | a pair is reported exactly when some qualifying rename has those stems, and its two names always differ |
| ChangeAnalysis.NewProjectReported | skills/changelog-generator/scripts/generate.py:189-196 | an added `dir/name.csproj` reports `name` |
| ChangeAnalysis.NewProjectsMeaning | skills/changelog-generator/scripts/generate.py:189-196 | a name is reported exactly when it is the stem of some added `.csproj` path, and there are no more names than changes |
| ChangelogWriter.FindNdlr | skills/changelog-generator/scripts/generate.py:313 | the search for `NDLR\d+`: the first position where it matches, or none when it matches nowhere |
| ChangelogWriter.DigitRun | skills/changelog-generator/scripts/generate.py:313 | the greedy `\d+`: the longest run of digits from a position |
| ChangelogWriter.CollectAnalyzerIds | skills/changelog-generator/scripts/generate.py:310-315 | the loop collects the first `NDLR<digits>` match of each added analyzer path |
| ChangelogWriter.DraftBreakingEntries | skills/changelog-generator/scripts/generate.py:244-246 | one "Removed `I` interface" entry per deleted interface, in order |
| ChangelogWriter.DraftRenameEntries | skills/changelog-generator/scripts/generate.py:249-253 | a "renamed to" entry for each rename whose old name has Factory, Provider or Registrar |
| ChangelogWriter.DraftCoreRemovals | skills/changelog-generator/scripts/generate.py:259-264 | a "moved to explicit package" entry for each deleted core `.cs` file that is not a deleted interface and whose name has Factory, Provider, Registrar or Populator |
| ChangelogWriter.DraftFromChanges | skills/changelog-generator/scripts/generate.py:243-264 | the three entry lists drawn from the changes themselves |
| ChangelogWriter.SourcegenBlock | skills/changelog-generator/scripts/generate.py:267-284 | the source-generation entries |
| ChangelogWriter.ReflectionAndBundleBlocks | skills/changelog-generator/scripts/generate.py:287-302 | the reflection and bundle entries |
| ChangelogWriter.AnalyzersBlock | skills/changelog-generator/scripts/generate.py:305-319 | the analyzer entry: the sorted distinct ids, or the fallback when none is found |
| ChangelogWriter.IntegrationBlocks | skills/changelog-generator/scripts/generate.py:322-346 | the SignalR, Semantic Kernel and ASP.NET entries |
| ChangelogWriter.DraftInjectionRemovals | skills/changelog-generator/scripts/generate.py:365-385 | the removal note of each deleted injection/syringe `.cs` file, chosen by the first matching keyword |
| ChangelogWriter.InjectionBlock | skills/changelog-generator/scripts/generate.py:349-385 | the provider-architecture entry, the churn-over-200 entry and the removal notes |
| ChangelogWriter.ScrutorBlock | skills/changelog-generator/scripts/generate.py:388-392 | the Scrutor entry |
| ChangelogWriter.ExamplesBlock | skills/changelog-generator/scripts/generate.py:395-404 | the example entries |
| ChangelogWriter.ToolingBlocks | skills/changelog-generator/scripts/generate.py:407-423 | the benchmark, CI and skill entries |
| ChangelogWriter.DraftFromAreas | skills/changelog-generator/scripts/generate.py:266-423 | the area blocks in source order give the drafted Added, Changed and Removed lists |
| ChangelogWriter.AppendSection | skills/changelog-generator/scripts/generate.py:432-436 | a section is appended as heading, bullets and a blank line, or not at all when empty |
| ChangelogWriter.GenerateSemanticChangelog | skills/changelog-generator/scripts/generate.py:223-460 | the text is the header, blank line, the four deduplicated sections in fixed order and the statistics line, joined by newlines |
| ChangelogProperties.RenderFrame | skills/changelog-generator/scripts/generate.py:234 | any rendered changelog starts with its header and a blank line and ends with its statistics line |
| ChangelogProperties.ChangelogFrame | skills/changelog-generator/scripts/generate.py:457-460 | the generated changelog starts with `## [version] - date` and a blank line and ends with the statistics line |
| ChangelogProperties.SectionHeadings | skills/changelog-generator/scripts/generate.py:432-454 | a section contributes its heading exactly when it has entries |
| ChangelogProperties.RenderHeadings | skills/changelog-generator/scripts/generate.py:432-454 | the headings of the text are those of the non-empty lists, in the order Breaking, Added, Changed, Removed |
| ChangelogProperties.NoDrafts | skills/changelog-generator/scripts/generate.py:236-423 | with no changes and no areas, no entry is drafted |
| ChangelogProperties.RenderEmpty | skills/changelog-generator/scripts/generate.py:432-460 | with every list empty the text is the header, a blank line and the statistics line |
| ChangelogProperties.EmptyChangelog | skills/changelog-generator/scripts/generate.py:223-460 | the changelog of an empty diff is the header, a blank line and "0 files changed, +0/-0 lines" |
| ChangelogProperties.RenderedListsDistinct | skills/changelog-generator/scripts/generate.py:425-429 | the rendered lists have no repeated entry and keep every drafted entry; their order is the drafts' first occurrences (Sequences.DedupFirstOccurrences) |
| ChangelogProperties.BenchmarksNotFromPatternBlocks | skills/changelog-generator/scripts/generate.py:267-302 | the benchmark entry never comes from the source-generation, reflection or bundle blocks |
| ChangelogProperties.BenchmarksNotFromIntegrationBlocks | skills/changelog-generator/scripts/generate.py:305-358 | the benchmark entry never comes from the analyzer, SignalR, Semantic Kernel or injection blocks |
| ChangelogProperties.BenchmarksFromExamples | skills/changelog-generator/scripts/generate.py:403-404 | the examples block adds the benchmark entry exactly when an added example path mentions "benchmark" |
| ChangelogProperties.BenchmarksSources | skills/changelog-generator/scripts/generate.py:403-410 | the benchmark entry is drafted exactly when an added example mentions "benchmark" or the benchmarks area has an added file |
| ChangelogProperties.BenchmarksEntryOnce | skills/changelog-generator/scripts/generate.py:403-429 | the benchmark entry, which two blocks can add, appears at most once in Added, and exactly under the same condition |
| ChangelogProperties.NotAnAnalyzersEntry | skills/changelog-generator/scripts/generate.py:316-319 | the analyzer block adds nothing but the id entry or the fallback |
| ChangelogProperties.RenameEntriesShape | skills/changelog-generator/scripts/generate.py:253 | every rename entry ends with a backquote |
| ChangelogProperties.SyringeFromInjectionBlock | skills/changelog-generator/scripts/generate.py:360-363 | the Syringe entry comes exactly when the modified injection and syringe files churn more than 200 lines |
| ChangelogProperties.SyringeNotFromOtherAreas | skills/changelog-generator/scripts/generate.py:360-363 | no other area block adds the Syringe entry |
| ChangelogProperties.SyringeNotARename | skills/changelog-generator/scripts/generate.py:253 | no rename entry equals the Syringe entry |
| ChangelogProperties.SyringeInDraft | skills/changelog-generator/scripts/generate.py:360-363 | the drafted Changed list holds the Syringe entry exactly when the churn exceeds 200 |
| ChangelogProperties.SyringeEntryIff | skills/changelog-generator/scripts/generate.py:360-429 | the rendered Changed list holds the Syringe entry exactly when the churn exceeds 200 |
| ChangelogProperties.SignificantRenamesListed | skills/changelog-generator/scripts/generate.py:249-253 | every significant rename is listed under Changed, and the rename entries are exactly those of significant renames |
| ChangelogProperties.NoteInjective | skills/changelog-generator/scripts/generate.py:264 | proof helper for CoreRemovalSound and BreakingEntryIff: two removal notes with the same reason name the same file, so a note identifies its file |
| ChangelogProperties.BreakingEntryIff | skills/changelog-generator/scripts/generate.py:244-246 | "Removed `I` interface" is listed exactly when `I` is a deleted interface |
| ChangelogProperties.CoreRemovalSound | skills/changelog-generator/scripts/generate.py:259-264 | each core removal entry names a deleted core `.cs` file that passes the name test and is not a deleted interface |
| ChangelogProperties.CoreRemovalComplete | skills/changelog-generator/scripts/generate.py:259-264 | every such file gets its entry |
| ChangelogProperties.InjectionRemovalNoteNone | skills/changelog-generator/scripts/generate.py:370-385 | a deleted injection file gets no note exactly when no keyword matches and it is an interface or not an extension |
| ChangelogProperties.NdlrMatchMeaning | skills/changelog-generator/scripts/generate.py:313-315 | the match is absent exactly when `NDLR\d+` occurs nowhere; otherwise it is the leftmost occurrence with all its digits |
| ChangelogProperties.AnalyzerIdsListed | skills/changelog-generator/scripts/generate.py:310-317 | the listed ids are strictly sorted, are `NDLR<digits>`, and are exactly the matches of the added analyzer paths |
| ChangelogProperties.AnalyzerIdsAreASet | skills/changelog-generator/scripts/generate.py:310-317 | the analyzer entry depends only on the set of ids found, not on order or repeats |
| Sequences.DedupCorrect | skills/changelog-generator/scripts/generate.py:426-429 | `list(dict.fromkeys(xs))` has no repeats and keeps exactly the elements of `xs` |
| Sequences.DedupFirstOccurrences | skills/changelog-generator/scripts/generate.py:426-429 | `list(dict.fromkeys(xs))` is the first occurrences of `xs` in input order: the m-th element is at an increasing position of `xs` that is its first occurrence |
| Sequences.DedupOfDistinct | skills/changelog-generator/scripts/generate.py:426-429 | deduplicating a list without repeats changes nothing |
| Sequences.DedupIdempotent | skills/changelog-generator/scripts/generate.py:426-429 | deduplicating twice is deduplicating once |
| Sequences.GroupByMember | skills/changelog-generator/scripts/generate.py:154-164 | `defaultdict(list)` grouping: each element is in its key's list and no other, keys are exactly the keys that occur |
| Sequences.FilterPartition4 | skills/changelog-generator/scripts/generate.py:166-173 | four mutually exclusive and exhaustive tests split a list |
| Text.LowerMeaning | skills/changelog-generator/scripts/generate.py:103 | `str.lower` keeps the length, leaves no ASCII capital, turns each capital into its small letter and leaves every other character as it is |
| Text.LowerIdempotent | skills/changelog-generator/scripts/generate.py:103 | lower-casing twice is lower-casing once |
| Text.Split | skills/changelog-generator/scripts/generate.py:64 | `str.split` always yields at least one piece |
| Text.SplitPiecesHaveNoSeparator | skills/changelog-generator/scripts/generate.py:67 | no piece of a split holds the separator |
| Text.JoinSplit | skills/changelog-generator/scripts/generate.py:67 | joining the pieces of a split with the separator gives the string back |
| Text.SplitJoin | skills/changelog-generator/scripts/generate.py:67 | splitting separator-free pieces joined with the separator gives the pieces back |
| Text.ParseIntToString | skills/changelog-generator/scripts/generate.py:69-70 | `int(str(n)) == n` |
| Text.SortedDistinctCorrect | skills/changelog-generator/scripts/generate.py:317 | `sorted(set(ids))` is strictly sorted and holds exactly the ids |
| Text.StrictlySortedUnique | skills/changelog-generator/scripts/generate.py:317 | two strictly sorted lists with the same elements are equal |
| Articles.DateSources | scripts/generate-articles.py:42-48 | the date is empty without pubDate text; otherwise it is the parser's output, or the raw text when the parser raised |
| Articles.GtIndex | scripts/generate-articles.py:61 | the position of the first '>' (or the end) |
| Articles.StripTagsNoGt | scripts/generate-articles.py:61 | removing tags adds no '>' |
| Articles.StripTagsRemovesTags | scripts/generate-articles.py:61 | after `re.sub(r'<[^>]+>', '', s)` no tag is left anywhere |
| Articles.StripTagsWithoutAngle | scripts/generate-articles.py:61 | text without '<' is left unchanged |
| Articles.CleanDescriptionIsClean | scripts/generate-articles.py:50-61 | a cleaned description holds no tag and has no whitespace at either end |
| Articles.CleanDescriptionOfCdata | scripts/generate-articles.py:53-61 | a CDATA-wrapped body is cleaned as the body alone |
| Articles.DropPrefixOf | scripts/generate-articles.py:55-56 | the CDATA opener is removed exactly |
| Articles.DropSuffixOf | scripts/generate-articles.py:57-58 | the CDATA closer is removed exactly |
| Articles.DescriptionSources | scripts/generate-articles.py:50-61 | a missing or empty description is stored as ""; otherwise the stored text is the cleaned description, tag-free and trimmed |
| Articles.CleanedDescription | scripts/generate-articles.py:51-61 | the step-by-step cleanup gives the cleaned description |
| Articles.ParseArticles | scripts/generate-articles.py:19-72 | the loop keeps each tagged item with title and link, in feed order, as its article record |
| Articles.ParsedArticles | scripts/generate-articles.py:24-70 | an article is produced exactly for each kept item; no more articles than items; no article lists the tag or an empty category; descriptions hold no tags |
| Articles.StoredCategories | scripts/generate-articles.py:26-69 | an article's categories are exactly its item's non-empty category texts other than the tag |
| Articles.ParsedAppend | scripts/generate-articles.py:24-70 | one more item adds its article exactly when it is tagged and has title and link |
| Articles.AppendArticle | scripts/generate-articles.py:93-112 | appending one article adds exactly its block |
| Articles.GenerateMarkdown | scripts/generate-articles.py:75-120 | the page is header, notice or blocks, blank line and footer, joined by newlines |
| Articles.BlocksNonEmpty | scripts/generate-articles.py:99-112 | a non-empty list of articles yields at least four lines |
| Articles.PageFrame | scripts/generate-articles.py:77-118 | every page starts with the fixed header and ends with a blank line and the footer |
| Articles.EmptyNoticeIff | scripts/generate-articles.py:87-91 | the "No articles found yet" notice appears exactly when there are no articles |
| Articles.NoticeNotInBlocks | scripts/generate-articles.py:93-112 | no article block contains the notice line |
| Articles.NoticeNotInBlock | scripts/generate-articles.py:93-112 | a single block never contains the notice line |
| Articles.BlockLines | scripts/generate-articles.py:93-112 | a line is in a block exactly when it is the image, title, date, description or tag line under its condition, a blank line or the rule |
| Articles.BlockLayout | scripts/generate-articles.py:95-112 | the title line follows the image lines when there are any, and the block ends with the rule and a blank line |
| Articles.ImageLineIff | scripts/generate-articles.py:95-97 | the image line appears exactly when the image url is truthy |
| Articles.DateLineIff | scripts/generate-articles.py:101-103 | the date line appears exactly when the date is non-empty |
| Articles.DescriptionLineIff | scripts/generate-articles.py:104-106 | the description line appears exactly when the description is non-empty |
| Articles.TagsLineIff | scripts/generate-articles.py:107-110 | the tag line appears exactly when the article has categories |
| Articles.TitlesListed | scripts/generate-articles.py:99 | every article's title line is on the page |
| Articles.TitlesInBlocks | scripts/generate-articles.py:93-100 | every article's title line is among the blocks |
| Articles.TagsShown | scripts/generate-articles.py:108-109 | the first five categories are shown in backquotes and later ones never change the line |
| LlmsTxt.LlmsHook.constructor | docs/hooks/llms_txt.py:25 | the dictionary starts empty |
| LlmsTxt.LlmsHook.OnPageContext | docs/hooks/llms_txt.py:28-35 | the page's url key now maps to its title and chosen description; other keys are unchanged |
| LlmsTxt.LlmsHook.OnPostBuild | docs/hooks/llms_txt.py:38-84 | the text is the preamble followed by the walk's lines over the whole nav |
| LlmsTxt.WalkNav | docs/hooks/llms_txt.py:59-71 | the walk appends the pre-order lines of a nav list |
| LlmsTxt.WalkEntries | docs/hooks/llms_txt.py:62-68 | the walk over a mapping appends the lines of each pair in order |
| LlmsTxt.WalkEntry | docs/hooks/llms_txt.py:63-68 | a pair adds a section heading and its children's lines, one page line, or nothing |
| LlmsTxt.RecordedLookup | docs/hooks/llms_txt.py:28-35 | after recording a page, its key looks up its title and the front-matter description or else the site's; every other key looks up what it did before |
| LlmsTxt.RepeatedUrlOverwrites | docs/hooks/llms_txt.py:35 | recording two pages with the same url leaves what the second alone would |
| LlmsTxt.PageLineAfterContext | docs/hooks/llms_txt.py:28-57 | a recorded page's line shows its title and, when truthy, its chosen description |
| LlmsTxt.UrlOfPage | docs/hooks/llms_txt.py:73-79 | `p.md` maps to `p/` when `p` has no dot and `index/` does not occur in `p/` |
| LlmsTxt.UrlOfSectionIndex | docs/hooks/llms_txt.py:73-79 | `p/index.md` maps to `p/` when `p` has no dot and `index/` does not occur in `p/index/` before the final one (so `index/index.md`, which the source maps to "", is excluded) |
| LlmsTxt.UrlOfHome | docs/hooks/llms_txt.py:76-77 | `index.md` maps to the empty url |
| LlmsTxt.UrlOfGuideIndex | docs/hooks/llms_txt.py:73-79 | `guide/index.md` maps to `guide/` |
| LlmsTxt.PageUrlShape | docs/hooks/llms_txt.py:49-53 | the link is `site/` for a url of only slashes, otherwise `site/clean/` with no slash at either end of `clean` |
| LlmsTxt.PageUrlLeadingSlash | docs/hooks/llms_txt.py:49 | a leading slash on the url does not change the link |
| LlmsTxt.PageLineShape | docs/hooks/llms_txt.py:48-57 | an unrecorded url shows itself as title with no description; a line has the ` -- description` part exactly when the description is truthy |
| LlmsTxt.NavLinesConcat | docs/hooks/llms_txt.py:60-71 | the walk over two nav lists one after the other is the two walks concatenated |
| LlmsTxt.SectionHeaderKind | docs/hooks/llms_txt.py:45-46 | a section header starts with `## ` and ends with a blank line |
| LlmsTxt.PageLineKind | docs/hooks/llms_txt.py:48-57 | a page line starts with `- [` and ends with a newline |
| LlmsTxt.NavLinesKinds | docs/hooks/llms_txt.py:59-71 | every line the walk emits is a section header or a page line |
| LlmsTxt.ItemLinesKinds | docs/hooks/llms_txt.py:60-71 | the same for one nav item |
| LlmsTxt.EntriesLinesKinds | docs/hooks/llms_txt.py:62-68 | the same for the pairs of a mapping |
| LlmsTxt.EntryLinesKinds | docs/hooks/llms_txt.py:63-68 | the same for one pair |

## Left out

- Subprocess calls to git (`run_git`, `validate_ref`), the `main` functions, argument parsing, file writes, `urllib` fetching and XML parsing. The git outputs are string parameters. The feed is a list of records.
- `get_file_changes`: the `from_ref`, `to_ref` and `repo` arguments only feed `git`, so they are not modelled.
- `generate_semantic_changelog`: the unused `repo`, `from_ref` and `to_ref` arguments and the unused `new_projects` value are not modelled. `analysis['stats']` holds the fields it reads.
- Articles.DateSources: `strptime`/`strftime` are not modelled. The date parser is the parameter `reformat`, and None stands for `ValueError`.
- Text.LowerMeaning: `str.lower` is modelled for ASCII letters only. Other letters are unchanged.
- `Path.stem` follows POSIX `pathlib` on the path text. There is no filesystem access.
- LlmsTxt.WalkNav: the `indent` argument of `_walk_nav` is never read, so it is not modelled.
- LlmsTxt.LlmsHook.OnPostBuild: a `site_url` set to `None` (`None.rstrip` raises) and a `nav` set to `None` (the walk raises `TypeError`) are not modelled. `site_url` is a string, and a missing one is the empty string. The file write to `site_dir/llms.txt` returns the text instead.
- LlmsTxt.NavItem: a nav mapping is a sequence of pairs. Distinct keys are not enforced.
- MkDocs' `page`, `config` and `nav` objects are records holding only the fields the hook reads.
- `hooks/schema.py` is not part of this model.
- ChangelogProperties.RenderHeadings: the headings are stated about the rendered deduplicated lists. There is no statement for each area input.
- LlmsTxt.PageUrlLeadingSlash: only the leading slash is stated as a separate lemma. The trailing side is in PageUrlShape.
- DiffParsing.ParseRenderedOutputs: the round trip covers this model's rendering only. Git prints a rename as `R<score>` in the name-status output and as `old => new` (or `dir/{Old.cs => New.cs}`) in the numstat output. With that output the script looks up the new path, misses, and reports the rename with (0, 0); GitRenameCountsLost states this for the `old => new` form.
- ChangeAnalysis.IsInterfaceName: the test `name[1].isupper()` is modelled for ASCII capitals only. A name such as `IÉtat` is an interface name for the script and not for the model.
- ChangeAnalysis.DetectDeletedInterfaces: inherits the ASCII-only upper-case test of IsInterfaceName, so deleted files whose second letter is a non-ASCII capital are not reported.
- ChangeAnalysis.DetectDeletedClasses: inherits the ASCII-only upper-case test of IsInterfaceName, so deleted files whose second letter is a non-ASCII capital are reported as classes.
- ChangelogWriter.DraftInjectionRemovals: the interface test in the removal notes is the same ASCII-only test.
- ChangelogWriter.FindNdlr: `\d` in `NDLR\d+` is modelled as the ASCII digits 0-9. Python's `re` also accepts other Unicode decimal digits, such as `NDLR١`.
- ChangelogWriter.DigitRun: the greedy digit run counts ASCII digits only, for the same reason.
- Text.ParseInt: `int()` is modelled for ASCII digits only. Python's `int()` also accepts other Unicode decimal digits.
- LlmsTxt.Config: a `nav` set to `None` is not modelled. This happens when mkdocs.yml has no `nav:` key. There the script's loop over `None` raises `TypeError`, while `nav` here is always a list.
