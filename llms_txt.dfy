/** The documentation-site hook that builds `llms.txt`: page descriptions are
    collected while pages are rendered, and after the build the site
    navigation is walked in order, one Markdown line per page and a heading
    per section, after a fixed preamble. MkDocs' page and config objects are
    records here, and the file write is left to the caller. */
module LlmsTxt {
  import opened Text
  import opened Sequences

  const Preamble: string :=
    "# Needlr\n\n"
    + "> Opinionated fluent dependency injection for .NET with source generation.\n\n"
    + "Needlr automates service registration, decorator wiring, hosted service\n"
    + "discovery, keyed services, factories, interceptors, and AI agent integrations\n"
    + "(Semantic Kernel, Microsoft Agent Framework) with compile-time safety.\n"
    + "Author: Nick Cosentino (https://www.devleader.ca).\n\n"

  // ---------------------------------------------------------------------
  // MkDocs objects

  /** A rendered page: `page.url`, `page.title` and, when the front matter
      has one, its `description`. */
  datatype Page = Page(url: Option<string>, title: Option<string>, metaDescription: Option<string>)

  /** One entry of a `nav` list: a bare path, a mapping from titles to
      values, or anything else (which the walk skips). */
  datatype NavItem = PathItem(path: string) | DictItem(entries: seq<NavEntry>) | OtherItem

  /** One `title: value` pair of a nav mapping. */
  datatype NavEntry = NavEntry(title: string, value: NavValue)

  datatype NavValue = Children(items: seq<NavItem>) | PathValue(path: string) | OtherValue

  /** The config keys the hook reads. */
  datatype Config = Config(siteUrl: string, siteDescription: Option<string>, nav: seq<NavItem>)

  /** What is stored per page url: its title and its description. */
  datatype PageEntry = PageEntry(title: string, description: Option<string>)

  // ---------------------------------------------------------------------
  // Paths and lines

  /** `_url_from_path`: every ".md" becomes "/", then "index/" alone gives ""
      and every remaining "index/" is removed. */
  function UrlFromPath(mdPath: string): string {
    var url := ReplaceAll(mdPath, ".md", "/");
    var url' := if url == "index/" then "" else url;
    ReplaceAll(url', "index/", "")
  }

  /** `_section_header` */
  function SectionHeader(title: string): string {
    "## " + title + "\n\n"
  }

  /** The link target of `_page_line`: the site url (already stripped of its
      trailing '/') followed by the url with its surrounding '/' removed. */
  function PageUrl(siteUrl: string, url: string): string {
    var clean := StripChar(url, '/');
    if clean != "" then siteUrl + "/" + clean + "/" else siteUrl + "/"
  }

  /** `_PAGE_DESCRIPTIONS.get(url, (url, ''))` */
  function Lookup(descriptions: map<string, PageEntry>, url: string): PageEntry {
    if url in descriptions then descriptions[url] else PageEntry(url, Some(""))
  }

  /** `_page_line` */
  function PageLine(siteUrl: string, descriptions: map<string, PageEntry>, url: string): string {
    var entry := Lookup(descriptions, url);
    var link := "- [" + entry.title + "](" + PageUrl(siteUrl, url) + ")";
    if Truthy(entry.description) then link + " -- " + entry.description.value + "\n" else link + "\n"
  }

  // ---------------------------------------------------------------------
  // The walk over the navigation, in pre-order

  function NavLines(items: seq<NavItem>, siteUrl: string, descriptions: map<string, PageEntry>): seq<string>
    decreases items
  {
    if items == [] then []
    else NavLines(items[..|items| - 1], siteUrl, descriptions) + ItemLines(items[|items| - 1], siteUrl, descriptions)
  }

  function ItemLines(item: NavItem, siteUrl: string, descriptions: map<string, PageEntry>): seq<string>
    decreases item
  {
    match item
    case DictItem(entries) => EntriesLines(entries, siteUrl, descriptions)
    case PathItem(path) => [PageLine(siteUrl, descriptions, UrlFromPath(path))]
    case OtherItem => []
  }

  function EntriesLines(entries: seq<NavEntry>, siteUrl: string, descriptions: map<string, PageEntry>): seq<string>
    decreases entries
  {
    if entries == [] then []
    else EntriesLines(entries[..|entries| - 1], siteUrl, descriptions) + EntryLines(entries[|entries| - 1], siteUrl, descriptions)
  }

  function EntryLines(entry: NavEntry, siteUrl: string, descriptions: map<string, PageEntry>): seq<string>
    decreases entry
  {
    match entry.value
    case Children(items) => [SectionHeader(entry.title)] + NavLines(items, siteUrl, descriptions)
    case PathValue(path) => [PageLine(siteUrl, descriptions, UrlFromPath(path))]
    case OtherValue => []
  }

  /** `_walk_nav`, appending to the list it is given. The unused `indent`
      argument of the source is not modelled. */
  method WalkNav(lines: seq<string>, items: seq<NavItem>, siteUrl: string, descriptions: map<string, PageEntry>)
    returns (out: seq<string>)
    ensures out == lines + NavLines(items, siteUrl, descriptions)
    decreases items
  {
    out := lines;
    for i := 0 to |items|
      invariant out == lines + NavLines(items[..i], siteUrl, descriptions)
    {
      ghost var before := out;
      match items[i] {
        case DictItem(entries) =>
          out := WalkEntries(out, entries, siteUrl, descriptions);
        case PathItem(path) =>
          out := out + [PageLine(siteUrl, descriptions, UrlFromPath(path))];
        case OtherItem =>
      }
      assert out == before + ItemLines(items[i], siteUrl, descriptions);
      assert items[..i + 1][..i] == items[..i];
      Reassociate(lines, NavLines(items[..i], siteUrl, descriptions), ItemLines(items[i], siteUrl, descriptions));
    }
    assert items[..|items|] == items;
  }

  /** The inner loop of `_walk_nav` over the pairs of one nav mapping. */
  method WalkEntries(lines: seq<string>, entries: seq<NavEntry>, siteUrl: string, descriptions: map<string, PageEntry>)
    returns (out: seq<string>)
    ensures out == lines + EntriesLines(entries, siteUrl, descriptions)
    decreases entries
  {
    out := lines;
    for j := 0 to |entries|
      invariant out == lines + EntriesLines(entries[..j], siteUrl, descriptions)
    {
      ghost var before := out;
      out := WalkEntry(out, entries[j], siteUrl, descriptions);
      assert entries[..j + 1][..j] == entries[..j];
      Reassociate(lines, EntriesLines(entries[..j], siteUrl, descriptions), EntryLines(entries[j], siteUrl, descriptions));
    }
    assert entries[..|entries|] == entries;
  }

  /** The body of the inner loop for one `title: value` pair. */
  method WalkEntry(lines: seq<string>, entry: NavEntry, siteUrl: string, descriptions: map<string, PageEntry>)
    returns (out: seq<string>)
    ensures out == lines + EntryLines(entry, siteUrl, descriptions)
    decreases entry
  {
    out := lines;
    match entry.value {
      case Children(children) =>
        out := out + [SectionHeader(entry.title)];
        out := WalkNav(out, children, siteUrl, descriptions);
        Reassociate(lines, [SectionHeader(entry.title)], NavLines(children, siteUrl, descriptions));
      case PathValue(path) =>
        out := out + [PageLine(siteUrl, descriptions, UrlFromPath(path))];
      case OtherValue =>
    }
  }

  /** The text `on_post_build` writes to `llms.txt`. */
  function LlmsText(config: Config, descriptions: map<string, PageEntry>): string {
    Preamble + Join(NavLines(config.nav, RStripChar(config.siteUrl, '/'), descriptions), "")
  }

  // ---------------------------------------------------------------------
  // The hook's state

  /** `page.url or ''` */
  function KeyOf(page: Page): string {
    OrEmpty(page.url)
  }

  /** The description `on_page_context` stores: the front matter's when it is
      non-empty, otherwise the site's. */
  function ChosenDescription(page: Page, config: Config): Option<string> {
    if Truthy(page.metaDescription) then page.metaDescription else config.siteDescription
  }

  /** The map after `on_page_context` has seen `page`. */
  function Recorded(descriptions: map<string, PageEntry>, page: Page, config: Config): map<string, PageEntry> {
    descriptions[KeyOf(page) := PageEntry(OrEmpty(page.title), ChosenDescription(page, config))]
  }

  /** The module-level `_PAGE_DESCRIPTIONS` dictionary and the two hooks that
      use it. */
  class LlmsHook {
    var descriptions: map<string, PageEntry>

    constructor()
      ensures descriptions == map[]
    {
      descriptions := map[];
    }

    /** `on_page_context` */
    method OnPageContext(page: Page, config: Config)
      modifies this
      ensures descriptions == Recorded(old(descriptions), page, config)
    {
      var desc: Option<string> := Some("");
      if Truthy(page.metaDescription) {
        desc := page.metaDescription;
      } else {
        desc := config.siteDescription;
      }
      descriptions := descriptions[OrEmpty(page.url) := PageEntry(OrEmpty(page.title), desc)];
    }

    /** `on_post_build`, returning the text instead of writing the file. */
    method OnPostBuild(config: Config) returns (text: string)
      ensures text == LlmsText(config, descriptions)
    {
      var siteUrl := RStripChar(config.siteUrl, '/');
      var lines := [Preamble];
      lines := WalkNav(lines, config.nav, siteUrl, descriptions);
      text := Join(lines, "");
      JoinAfterFirst(Preamble, NavLines(config.nav, siteUrl, descriptions));
    }
  }

  lemma JoinAfterFirst(first: string, rest: seq<string>)
    ensures Join([first] + rest, "") == first + Join(rest, "")
  {
    if rest == [] {
      assert [first] + rest == [first];
    } else {
      JoinConcat([first], rest, "");
    }
  }

  // ---------------------------------------------------------------------
  // Properties

  lemma NoDotNoMd(p: string)
    requires '.' !in p
    ensures NoOccurrenceBefore(p + ".md", ".md", |p|)
  {
    forall i | 0 <= i < |p| ensures !Occurs(p + ".md", ".md", i) {
      assert (p + ".md")[i] == p[i];
    }
  }

  /** A page path "p.md" is served at "p/" when p has no '.' and no
      "index/" appears in "p/". */
  lemma UrlOfPage(p: string)
    requires '.' !in p
    requires NoOccurrenceBefore(p + "/", "index/", |p| + 1)
    ensures UrlFromPath(p + ".md") == p + "/"
  {
    NoDotNoMd(p);
    ReplaceAllSkipsPrefix(p, ".md", ".md", "/");
    DotMdToSlash();
    var url := p + "/";
    if url == "index/" {
      assert Occurs(url, "index/", 0);
    }
    ReplaceAllNoOccurrence(url, "index/", "");
  }

  /** A section index "p/index.md" is served at "p/" under the same
      conditions on p. */
  lemma UrlOfSectionIndex(p: string)
    requires '.' !in p
    requires NoOccurrenceBefore(p + "/index/", "index/", |p| + 1)
    ensures UrlFromPath(p + "/index.md") == p + "/"
  {
    var stem := p + "/index";
    assert '.' !in stem;
    NoDotNoMd(stem);
    assert stem + ".md" == p + "/index.md";
    ReplaceAllSkipsPrefix(stem, ".md", ".md", "/");
    DotMdToSlash();
    var url := stem + "/";
    assert url == (p + "/") + "index/";
    assert |url| > 6;
    assert (p + "/") + "index/" == p + "/index/";
    ReplaceAllSkipsPrefix(p + "/", "index/", "index/", "");
    assert ReplaceAll("index/", "index/", "") == "" by {
      assert "index/"[..6] == "index/";
      assert ReplaceAll("index/"[6..], "index/", "") == "";
    }
  }

  lemma DotMdToSlash()
    ensures ReplaceAll(".md", ".md", "/") == "/"
  {
    assert ".md"[..3] == ".md";
    assert ReplaceAll(".md"[3..], ".md", "/") == "";
  }

  /** The home page is served at the site root. */
  lemma UrlOfHome()
    ensures UrlFromPath("index.md") == ""
  {
    NoDotNoMd("index");
    assert "index" + ".md" == "index.md";
    ReplaceAllSkipsPrefix("index", ".md", ".md", "/");
    DotMdToSlash();
    assert "index" + "/" == "index/";
    assert ReplaceAll("", "index/", "") == "";
  }

  /** A section index is served at its directory. */
  lemma UrlOfGuideIndex()
    ensures UrlFromPath("guide/index.md") == "guide/"
  {
    assert NoOccurrenceBefore("guide/index/", "index/", 6) by {
      forall i | 0 <= i < 6 ensures !Occurs("guide/index/", "index/", i) {
        assert "guide/index/"[i + 1] != 'n';
        assert "index/"[1] == 'n';
        assert "guide/index/"[i..i + 6][1] == "guide/index/"[i + 1];
      }
    }
    assert "guide" + "/index/" == "guide/index/";
    UrlOfSectionIndex("guide");
    assert "guide" + "/index.md" == "guide/index.md";
  }

  /** The link target is the site url and "/" alone, or followed by the url
      stripped of its surrounding '/' and a final "/". */
  lemma PageUrlShape(siteUrl: string, url: string)
    ensures var clean := StripChar(url, '/');
            && (clean == "" ==> PageUrl(siteUrl, url) == siteUrl + "/")
            && (clean != "" ==> PageUrl(siteUrl, url) == siteUrl + "/" + clean + "/"
                                && clean[0] != '/' && clean[|clean| - 1] != '/')
  {
    var left := TrimLeft(url, x => x == '/');
    var clean := TrimRight(left, x => x == '/');
    if clean != "" {
      assert clean[0] == left[0];
    }
  }

  /** A leading '/' does not change the link target. */
  lemma PageUrlLeadingSlash(siteUrl: string, url: string)
    ensures PageUrl(siteUrl, "/" + url) == PageUrl(siteUrl, url)
  {
    assert ("/" + url)[1..] == url;
  }

  /** A url without an entry is shown under its own name; the " -- "
      suffix appears exactly when the description is non-empty. */
  lemma PageLineShape(siteUrl: string, descriptions: map<string, PageEntry>, url: string)
    ensures var entry := Lookup(descriptions, url);
            var link := "- [" + entry.title + "](" + PageUrl(siteUrl, url) + ")";
            && (url !in descriptions ==> PageLine(siteUrl, descriptions, url) == "- [" + url + "](" + PageUrl(siteUrl, url) + ")\n")
            && (PageLine(siteUrl, descriptions, url) == link + "\n" <==> !Truthy(entry.description))
            && (Truthy(entry.description) ==> PageLine(siteUrl, descriptions, url) == link + " -- " + entry.description.value + "\n")
  {
    var entry := Lookup(descriptions, url);
    var link := "- [" + entry.title + "](" + PageUrl(siteUrl, url) + ")";
    if Truthy(entry.description) {
      assert |link + " -- " + entry.description.value + "\n"| > |link + "\n"|;
    }
  }

  /** The walk over a concatenation of nav lists is the concatenation of the
      walks: sections and pages come out in nav order. */
  lemma {:induction false} NavLinesConcat(a: seq<NavItem>, b: seq<NavItem>, siteUrl: string, descriptions: map<string, PageEntry>)
    ensures NavLines(a + b, siteUrl, descriptions) == NavLines(a, siteUrl, descriptions) + NavLines(b, siteUrl, descriptions)
    decreases |b|
  {
    if b == [] {
      assert a + b == a;
    } else {
      var init := b[..|b| - 1];
      NavLinesConcat(a, init, siteUrl, descriptions);
      assert (a + b)[..|a + b| - 1] == a + init;
      assert (a + b)[|a + b| - 1] == b[|b| - 1];
    }
  }

  /** A line of the walk is a section heading or a page line. */
  predicate IsNavLine(line: string) {
    || (StartsWith(line, "## ") && EndsWith(line, "\n\n"))
    || (StartsWith(line, "- [") && EndsWith(line, "\n"))
  }

  lemma SectionHeaderKind(title: string)
    ensures IsNavLine(SectionHeader(title))
  {
    var h := SectionHeader(title);
    assert h[..3] == "## " && h[|h| - 2..] == "\n\n";
  }

  lemma PageLineKind(siteUrl: string, descriptions: map<string, PageEntry>, url: string)
    ensures IsNavLine(PageLine(siteUrl, descriptions, url))
  {
    var entry := Lookup(descriptions, url);
    var pageUrl := PageUrl(siteUrl, url);
    LinkLineKind(entry.title, pageUrl, entry.description);
  }

  lemma LinkLineKind(title: string, pageUrl: string, description: Option<string>)
    ensures var link := "- [" + title + "](" + pageUrl + ")";
            var line := if Truthy(description) then link + " -- " + description.value + "\n" else link + "\n";
            StartsWith(line, "- [") && EndsWith(line, "\n")
  {
    var body := title + "](" + pageUrl + ")";
    var link := "- [" + title + "](" + pageUrl + ")";
    assert link == "- [" + body;
    if Truthy(description) {
      BulletFrame("- [", body + " -- " + description.value, "\n");
      assert link + " -- " + description.value + "\n" == "- [" + (body + " -- " + description.value) + "\n";
    } else {
      BulletFrame("- [", body, "\n");
    }
  }

  /** A line made of a head, a body and a tail starts with the head and ends
      with the tail. */
  lemma BulletFrame(head: string, body: string, tail: string)
    ensures StartsWith(head + body + tail, head) && EndsWith(head + body + tail, tail)
  {
    var l := head + body + tail;
    assert l[..|head|] == head && l[|l| - |tail|..] == tail;
  }

  lemma {:induction false} NavLinesKinds(items: seq<NavItem>, siteUrl: string, descriptions: map<string, PageEntry>)
    ensures forall line :: line in NavLines(items, siteUrl, descriptions) ==> IsNavLine(line)
    decreases items
  {
    if items != [] {
      NavLinesKinds(items[..|items| - 1], siteUrl, descriptions);
      ItemLinesKinds(items[|items| - 1], siteUrl, descriptions);
    }
  }

  lemma {:induction false} ItemLinesKinds(item: NavItem, siteUrl: string, descriptions: map<string, PageEntry>)
    ensures forall line :: line in ItemLines(item, siteUrl, descriptions) ==> IsNavLine(line)
    decreases item
  {
    match item
    case DictItem(entries) => EntriesLinesKinds(entries, siteUrl, descriptions);
    case PathItem(path) => PageLineKind(siteUrl, descriptions, UrlFromPath(path));
    case OtherItem =>
  }

  lemma {:induction false} EntriesLinesKinds(entries: seq<NavEntry>, siteUrl: string, descriptions: map<string, PageEntry>)
    ensures forall line :: line in EntriesLines(entries, siteUrl, descriptions) ==> IsNavLine(line)
    decreases entries
  {
    if entries != [] {
      EntriesLinesKinds(entries[..|entries| - 1], siteUrl, descriptions);
      EntryLinesKinds(entries[|entries| - 1], siteUrl, descriptions);
    }
  }

  lemma {:induction false} EntryLinesKinds(entry: NavEntry, siteUrl: string, descriptions: map<string, PageEntry>)
    ensures forall line :: line in EntryLines(entry, siteUrl, descriptions) ==> IsNavLine(line)
    decreases entry
  {
    match entry.value
    case Children(items) =>
      NavLinesKinds(items, siteUrl, descriptions);
      SectionHeaderKind(entry.title);
    case PathValue(path) => PageLineKind(siteUrl, descriptions, UrlFromPath(path));
    case OtherValue =>
  }

  /** The page's own entry is replaced and every other entry is kept. */
  lemma RecordedLookup(descriptions: map<string, PageEntry>, page: Page, config: Config)
    ensures Lookup(Recorded(descriptions, page, config), KeyOf(page))
            == PageEntry(OrEmpty(page.title),
                         if Truthy(page.metaDescription) then page.metaDescription else config.siteDescription)
    ensures forall url :: url != KeyOf(page) ==>
              Lookup(Recorded(descriptions, page, config), url) == Lookup(descriptions, url)
  {
  }

  /** A second page with the same url overwrites the first one's entry. */
  lemma RepeatedUrlOverwrites(descriptions: map<string, PageEntry>, first: Page, second: Page, config1: Config, config2: Config)
    requires KeyOf(first) == KeyOf(second)
    ensures Recorded(Recorded(descriptions, first, config1), second, config2) == Recorded(descriptions, second, config2)
  {
  }

  /** After a page has been seen, its line shows its title and its chosen
      description. */
  lemma PageLineAfterContext(siteUrl: string, descriptions: map<string, PageEntry>, page: Page, config: Config)
    ensures var chosen := ChosenDescription(page, config);
            var link := "- [" + OrEmpty(page.title) + "](" + PageUrl(siteUrl, KeyOf(page)) + ")";
            PageLine(siteUrl, Recorded(descriptions, page, config), KeyOf(page))
            == if Truthy(chosen) then link + " -- " + chosen.value + "\n" else link + "\n"
  {
    RecordedLookup(descriptions, page, config);
  }
}
