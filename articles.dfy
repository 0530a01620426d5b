/** The Articles page builder: the feed-item filter and the description
    cleanup of `parse_articles`, and the Markdown page of `generate_markdown`.
    The RSS XML is given as records that say which child elements an item had
    and what text each held; the date parser is a parameter. */
module Articles {
  import opened Text
  import opened Sequences

  // ---------------------------------------------------------------------
  // Feed items and articles

  /** A child element found in an item, with its `.text` (None when empty). */
  datatype Element = Element(text: Option<string>)

  /** One `<item>` of the feed: the `.text` of each `<category>` child, the
      `title`, `link`, `description` and `pubDate` children when present, and
      the `url` attribute of `media:content` when that element carries one. */
  datatype FeedItem = FeedItem(
    categories: seq<Option<string>>,
    title: Option<Element>,
    link: Option<Element>,
    description: Option<Element>,
    pubDate: Option<Element>,
    imageUrl: Option<string>)

  /** The record `parse_articles` appends; `title`/`link` are the elements'
      `.text`, which may be None. */
  datatype Article = Article(
    title: Option<string>,
    link: Option<string>,
    description: string,
    date: string,
    imageUrl: Option<string>,
    categories: seq<string>)

  /** `[cat.text for cat in item.findall('category') if cat.text]` */
  function CategoryTexts(item: FeedItem): seq<string> {
    FilterMap(item.categories, Truthy, OrEmpty)
  }

  function IsNot(tag: string): string -> bool {
    (c: string) => c != tag
  }

  /** The item passes the tag test and has both a title and a link. */
  function Kept(tag: string): FeedItem -> bool {
    (item: FeedItem) => tag in CategoryTexts(item) && item.title.Some? && item.link.Some?
  }

  // ---------------------------------------------------------------------
  // Dates

  /** The `date` field: "" unless `pubDate` has text; then the reformatted
      date, or the raw text when the parser rejects it. `reformat` stands for
      `strptime` followed by `strftime`, None meaning a `ValueError`. */
  function DateText(pubDate: Option<Element>, reformat: string -> Option<string>): string {
    if pubDate.Some? && Truthy(pubDate.value.text) then
      var raw := pubDate.value.text.value;
      match reformat(raw)
      case Some(formatted) => formatted
      case None => raw
    else ""
  }

  /** A date is never made up: it is empty, the parser's output, or the raw
      text that the parser rejected; and an item without date text has none. */
  lemma DateSources(pubDate: Option<Element>, reformat: string -> Option<string>)
    ensures !(pubDate.Some? && Truthy(pubDate.value.text)) ==> DateText(pubDate, reformat) == ""
    ensures pubDate.Some? && Truthy(pubDate.value.text) ==>
              var raw := pubDate.value.text.value;
              || (reformat(raw) == Some(DateText(pubDate, reformat)))
              || (reformat(raw).None? && DateText(pubDate, reformat) == raw)
  {
  }

  // ---------------------------------------------------------------------
  // Description cleanup

  /** Index of the first '>' in `s`, or |s| when there is none. */
  function GtIndex(s: string): (r: nat)
    ensures r <= |s|
    ensures r < |s| ==> s[r] == '>'
    ensures forall j :: 0 <= j < r ==> s[j] != '>'
    decreases |s|
  {
    if s == [] || s[0] == '>' then 0 else 1 + GtIndex(s[1..])
  }

  /** `s` starts with a match of the regular expression `<[^>]+>`. */
  predicate TagAt(s: string) {
    |s| > 0 && s[0] == '<' && 2 <= GtIndex(s) < |s|
  }

  /** No match of `<[^>]+>` starts anywhere in `s`. */
  predicate NoTags(s: string) {
    forall i :: 0 <= i < |s| ==> !TagAt(s[i..])
  }

  /** `re.sub(r'<[^>]+>', '', s)`: scans left to right and deletes each
      leftmost match, resuming after it. */
  function StripTags(s: string): string
    decreases |s|
  {
    if s == [] then ""
    else if TagAt(s) then StripTags(s[GtIndex(s) + 1..])
    else [s[0]] + StripTags(s[1..])
  }

  /** Lines 52-61: strip, drop a leading `<![CDATA[` and a trailing `]]>`,
      delete the tags, strip again. */
  function CleanDescription(text: string): string {
    Strip(StripTags(DropSuffix(DropPrefix(Strip(text), "<![CDATA["), "]]>")))
  }

  /** `d[len(p):]` when `d.startswith(p)`. */
  function DropPrefix(d: string, p: string): string {
    if StartsWith(d, p) then d[|p|..] else d
  }

  /** `d[:-len(p)]` when `d.endswith(p)`. */
  function DropSuffix(d: string, p: string): string {
    if EndsWith(d, p) then d[..|d| - |p|] else d
  }

  /** The `description` field: "" unless the element has text. */
  function DescriptionText(description: Option<Element>): string {
    if description.Some? && Truthy(description.value.text) then
      CleanDescription(description.value.text.value)
    else ""
  }

  lemma {:induction false} StripTagsNoGt(s: string)
    requires '>' !in s
    ensures '>' !in StripTags(s)
    decreases |s|
  {
    if s != [] {
      StripTagsNoGt(s[1..]);
    }
  }

  /** A leading match survives appending more text. */
  lemma NoTagBeforeNoTag(p: string, q: string)
    requires !TagAt(p + q)
    ensures !TagAt(p)
  {
    if p != [] && GtIndex(p) < |p| {
      var k := GtIndex(p);
      assert (p + q)[k] == '>';
      assert forall j :: 0 <= j < k ==> (p + q)[j] == p[j];
    }
  }

  lemma NoTagsSuffix(s: string, a: nat)
    requires NoTags(s) && a <= |s|
    ensures NoTags(s[a..])
  {
    forall i | 0 <= i < |s[a..]| ensures !TagAt(s[a..][i..]) {
      assert s[a..][i..] == s[a + i..];
    }
  }

  lemma NoTagsPrefix(s: string, b: nat)
    requires NoTags(s) && b <= |s|
    ensures NoTags(s[..b])
  {
    forall i | 0 <= i < b ensures !TagAt(s[..b][i..]) {
      assert s[..b][i..] + s[b..] == s[i..];
      NoTagBeforeNoTag(s[..b][i..], s[b..]);
    }
  }

  /** After `re.sub` no match of `<[^>]+>` is left. */
  lemma {:induction false} StripTagsRemovesTags(s: string)
    ensures NoTags(StripTags(s))
    decreases |s|
  {
    if s == [] {
    } else if TagAt(s) {
      StripTagsRemovesTags(s[GtIndex(s) + 1..]);
    } else {
      var rest := StripTags(s[1..]);
      StripTagsRemovesTags(s[1..]);
      var r := [s[0]] + rest;
      assert r == StripTags(s);
      if s[0] == '<' {
        if GtIndex(s) < |s| {
          // the '<' is directly followed by '>', which the scan keeps
          assert s[1] == '>';
          assert rest == [s[1]] + StripTags(s[2..]) by {
            assert !TagAt(s[1..]);
            assert s[1..][1..] == s[2..];
          }
          assert GtIndex(r) == 1;
        } else {
          assert '>' !in s[1..];
          StripTagsNoGt(s[1..]);
          assert GtIndex(r) == |r|;
        }
      }
      assert !TagAt(r);
      forall i | 1 <= i < |r| ensures !TagAt(r[i..]) {
        assert r[i..] == rest[i - 1..];
      }
    }
  }

  /** The cleaned description carries no tag and no surrounding whitespace. */
  lemma CleanDescriptionIsClean(text: string)
    ensures NoTags(CleanDescription(text))
    ensures var r := CleanDescription(text);
            r == "" || (!IsSpace(r[0]) && !IsSpace(r[|r| - 1]))
  {
    var d2 := DropSuffix(DropPrefix(Strip(text), "<![CDATA["), "]]>");
    StripTagsRemovesTags(d2);
    StripKeepsNoTags(StripTags(d2));
  }

  /** Trimming whitespace creates no tag and leaves none at either end. */
  lemma StripKeepsNoTags(t: string)
    requires NoTags(t)
    ensures NoTags(Strip(t))
    ensures var r := Strip(t); r == "" || (!IsSpace(r[0]) && !IsSpace(r[|r| - 1]))
  {
    var left := TrimLeft(t, IsSpace);
    NoTagsSuffix(t, |t| - |left|);
    var r := TrimRight(left, IsSpace);
    NoTagsPrefix(left, |r|);
    if r != [] {
      assert r[0] == left[0];
    }
  }

  /** The CDATA wrapper is removed before the tags are. */
  lemma CleanDescriptionOfCdata(body: string)
    ensures CleanDescription("<![CDATA[" + body + "]]>") == Strip(StripTags(body))
  {
    var text := "<![CDATA[" + body + "]]>";
    assert text[0] == '<' && text[|text| - 1] == '>';
    StripNoSpaceEnds(text);
    assert text == "<![CDATA[" + (body + "]]>");
    DropPrefixOf("<![CDATA[", body + "]]>");
    DropSuffixOf(body, "]]>");
  }

  lemma DropPrefixOf(p: string, x: string)
    ensures DropPrefix(p + x, p) == x
  {
    assert (p + x)[..|p|] == p;
  }

  lemma DropSuffixOf(x: string, p: string)
    ensures DropSuffix(x + p, p) == x
  {
    assert (x + p)[|x|..] == p;
  }

  /** Text without a '<' goes through the tag removal unchanged. */
  lemma {:induction false} StripTagsWithoutAngle(s: string)
    requires '<' !in s
    ensures StripTags(s) == s
    decreases |s|
  {
    if s != [] {
      StripTagsWithoutAngle(s[1..]);
      assert s == [s[0]] + s[1..];
    }
  }

  // ---------------------------------------------------------------------
  // parse_articles

  /** The article recorded for a kept item (lines 41-70). */
  function ArticleFrom(tag: string, reformat: string -> Option<string>): FeedItem -> Article {
    (item: FeedItem) => Article(
      if item.title.Some? then item.title.value.text else None,
      if item.link.Some? then item.link.value.text else None,
      DescriptionText(item.description),
      DateText(item.pubDate, reformat),
      item.imageUrl,
      Filter(CategoryTexts(item), IsNot(tag)))
  }

  /** The stored description: "" when the item has no description text,
      otherwise its cleaned text, which holds no tag and is trimmed. */
  lemma DescriptionSources(item: FeedItem, tag: string, reformat: string -> Option<string>)
    ensures var d := ArticleFrom(tag, reformat)(item).description;
            && (!(item.description.Some? && Truthy(item.description.value.text)) ==> d == "")
            && (item.description.Some? && Truthy(item.description.value.text) ==>
                  && d == CleanDescription(item.description.value.text.value)
                  && NoTags(d) && (d == "" || (!IsSpace(d[0]) && !IsSpace(d[|d| - 1]))))
  {
    if item.description.Some? && Truthy(item.description.value.text) {
      CleanDescriptionIsClean(item.description.value.text.value);
    }
  }

  /** The list `parse_articles` returns for the feed's items in document order. */
  function Parsed(items: seq<FeedItem>, tag: string, reformat: string -> Option<string>): seq<Article> {
    FilterMap(items, Kept(tag), ArticleFrom(tag, reformat))
  }

  /** The reassignments of `desc` in lines 53-61. */
  method CleanedDescription(text: string) returns (desc: string)
    ensures desc == CleanDescription(text)
  {
    desc := Strip(text);
    if StartsWith(desc, "<![CDATA[") {
      desc := desc[9..];
    }
    assert desc == DropPrefix(Strip(text), "<![CDATA[");
    if EndsWith(desc, "]]>") {
      desc := desc[..|desc| - 3];
    }
    assert desc == DropSuffix(DropPrefix(Strip(text), "<![CDATA["), "]]>");
    desc := Strip(StripTags(desc));
  }

  /** The loop of `parse_articles` over the items. */
  method ParseArticles(items: seq<FeedItem>, tag: string, reformat: string -> Option<string>)
    returns (articles: seq<Article>)
    ensures articles == Parsed(items, tag, reformat)
  {
    articles := [];
    for i := 0 to |items|
      invariant articles == Parsed(items[..i], tag, reformat)
    {
      var item := items[i];
      assert items[..i + 1][..i] == items[..i];
      var categories := CategoryTexts(item);
      if tag !in categories {
        continue;
      }
      if item.title.Some? && item.link.Some? {
        var date := "";
        if item.pubDate.Some? && Truthy(item.pubDate.value.text) {
          var raw := item.pubDate.value.text.value;
          match reformat(raw) {
            case Some(formatted) => date := formatted;
            case None => date := raw;
          }
        }
        var desc := "";
        if item.description.Some? && Truthy(item.description.value.text) {
          desc := CleanedDescription(item.description.value.text.value);
        }
        articles := articles + [Article(item.title.value.text, item.link.value.text, desc, date,
                                        item.imageUrl, Filter(categories, IsNot(tag)))];
      }
    }
    assert items[..|items|] == items;
  }

  /** Which items become articles, and what each article keeps of its item:
      exactly the items carrying the tag among their non-empty category texts
      and having both a title and a link; their categories are the non-empty
      texts other than the tag, and their descriptions are cleaned. */
  lemma {:induction false} ParsedArticles(items: seq<FeedItem>, tag: string, reformat: string -> Option<string>)
    ensures |Parsed(items, tag, reformat)| <= |items|
    ensures forall a :: a in Parsed(items, tag, reformat) <==>
              exists i :: 0 <= i < |items| && Kept(tag)(items[i]) && ArticleFrom(tag, reformat)(items[i]) == a
    ensures forall a :: a in Parsed(items, tag, reformat) ==>
              && tag !in a.categories
              && (forall c :: c in a.categories ==> c != "")
              && NoTags(a.description)
  {
    FilterMapMember(items, Kept(tag), ArticleFrom(tag, reformat));
    forall a | a in Parsed(items, tag, reformat)
      ensures tag !in a.categories && (forall c :: c in a.categories ==> c != "") && NoTags(a.description)
    {
      var i :| 0 <= i < |items| && Kept(tag)(items[i]) && ArticleFrom(tag, reformat)(items[i]) == a;
      StoredCategories(items[i], tag, reformat);
      var d := items[i].description;
      if d.Some? && Truthy(d.value.text) {
        CleanDescriptionIsClean(d.value.text.value);
      }
    }
  }

  /** An article's categories are the item's non-empty category texts other
      than the tag. */
  lemma StoredCategories(item: FeedItem, tag: string, reformat: string -> Option<string>)
    ensures forall c :: c in ArticleFrom(tag, reformat)(item).categories <==>
              Some(c) in item.categories && c != "" && c != tag
  {
    var texts := CategoryTexts(item);
    FilterMember(texts, IsNot(tag));
    FilterMapMember(item.categories, Truthy, OrEmpty);
    forall c ensures c in texts <==> Some(c) in item.categories && c != "" {
      if Some(c) in item.categories && c != "" {
        var i :| 0 <= i < |item.categories| && item.categories[i] == Some(c);
        assert MapsTo(item.categories, Truthy, OrEmpty, c);
      }
    }
  }

  /** An item without the tag, or without a title or link, adds nothing;
      any other item adds its article after those of the earlier items. */
  lemma ParsedAppend(items: seq<FeedItem>, item: FeedItem, tag: string, reformat: string -> Option<string>)
    ensures Parsed(items + [item], tag, reformat) ==
              if tag in CategoryTexts(item) && item.title.Some? && item.link.Some?
              then Parsed(items, tag, reformat) + [ArticleFrom(tag, reformat)(item)]
              else Parsed(items, tag, reformat)
  {
    FilterMapConcat(items, [item], Kept(tag), ArticleFrom(tag, reformat));
    assert FilterMap([item], Kept(tag), ArticleFrom(tag, reformat))
        == (if Kept(tag)(item) then [ArticleFrom(tag, reformat)(item)] else []) by {
      assert [item][..0] == [];
    }
  }

  // ---------------------------------------------------------------------
  // generate_markdown

  const PageHeader: seq<string> := [
    "# Articles & Blog Posts",
    "",
    "Blog posts and articles about Needlr from [Dev Leader](https://devleader.ca).",
    "",
    "!!! tip \"Stay Updated\"",
    "    Follow the [Needlr tag on Dev Leader](https://devleader.ca/tags/Needlr) for the latest articles.",
    ""
  ]

  const EmptyNotice: string := "No articles found yet. Check back soon!"

  const PageFooter: string := "*This page is automatically generated from the Dev Leader RSS feed.*"

  /** How an f-string shows a text that may be None. */
  function Shown(t: Option<string>): string {
    if t.Some? then t.value else "None"
  }

  function ImageLine(a: Article, url: string): string {
    "[![" + Shown(a.title) + "](" + url + ")](" + Shown(a.link) + ")"
  }

  function TitleLine(a: Article): string {
    "## [" + Shown(a.title) + "](" + Shown(a.link) + ")"
  }

  function DateLine(a: Article): string {
    "*Published: " + a.date + "*"
  }

  function DescriptionLine(a: Article): string {
    "> " + a.description
  }

  function Quoted(cats: seq<string>): (r: seq<string>)
    ensures |r| == |cats|
  {
    seq(|cats|, i requires 0 <= i < |cats| => "`" + cats[i] + "`")
  }

  /** The first five categories, or all of them when there are fewer. */
  function FirstFive(cats: seq<string>): seq<string> {
    if |cats| <= 5 then cats else cats[..5]
  }

  function TagsLine(cats: seq<string>): string {
    "**Tags:** " + Join(Quoted(FirstFive(cats)), ", ")
  }

  /** A line followed by a blank line, or nothing. */
  function LinePair(present: bool, line: string): seq<string> {
    if present then [line, ""] else []
  }

  /** The lines one article contributes (lines 93-112). */
  function ArticleBlock(a: Article): seq<string> {
    LinePair(Truthy(a.imageUrl), ImageLine(a, OrEmpty(a.imageUrl)))
      + LinePair(true, TitleLine(a))
      + LinePair(a.date != "", DateLine(a))
      + LinePair(a.description != "", DescriptionLine(a))
      + LinePair(a.categories != [], TagsLine(a.categories))
      + LinePair(true, "---")
  }

  /** The lines of all articles, in order. */
  function Blocks(articles: seq<Article>): seq<string> {
    Flatten(articles, ArticleBlock)
  }

  /** The page as a list of lines. */
  function PageLines(articles: seq<Article>): seq<string> {
    PageHeader + (if articles == [] then [EmptyNotice, ""] else Blocks(articles)) + ["", PageFooter]
  }

  /** `if present: lines.append(line); lines.append("")` */
  method AppendLinePair(lines: seq<string>, present: bool, line: string) returns (out: seq<string>)
    ensures out == lines + LinePair(present, line)
  {
    out := lines;
    if present {
      out := out + [line];
      out := out + [""];
    }
  }

  /** The appends of lines 94-112 for one article. */
  method AppendArticle(lines: seq<string>, a: Article) returns (out: seq<string>)
    ensures out == lines + ArticleBlock(a)
  {
    out := AppendLinePair(lines, Truthy(a.imageUrl), ImageLine(a, OrEmpty(a.imageUrl)));
    out := AppendLinePair(out, true, TitleLine(a));
    out := AppendLinePair(out, a.date != "", DateLine(a));
    out := AppendLinePair(out, a.description != "", DescriptionLine(a));
    out := AppendLinePair(out, a.categories != [], TagsLine(a.categories));
    out := AppendLinePair(out, true, "---");
    Regroup(lines, LinePair(Truthy(a.imageUrl), ImageLine(a, OrEmpty(a.imageUrl))), LinePair(true, TitleLine(a)),
            LinePair(a.date != "", DateLine(a)), LinePair(a.description != "", DescriptionLine(a)),
            LinePair(a.categories != [], TagsLine(a.categories)), LinePair(true, "---"));
  }

  lemma Regroup<T>(s: seq<T>, p1: seq<T>, p2: seq<T>, p3: seq<T>, p4: seq<T>, p5: seq<T>, p6: seq<T>)
    ensures s + p1 + p2 + p3 + p4 + p5 + p6 == s + (p1 + p2 + p3 + p4 + p5 + p6)
  {
  }

  /** `generate_markdown`. */
  method GenerateMarkdown(articles: seq<Article>) returns (page: string)
    ensures page == Join(PageLines(articles), "\n")
  {
    var lines := PageHeader;
    if articles == [] {
      lines := lines + [EmptyNotice, ""];
    } else {
      for i := 0 to |articles|
        invariant lines == PageHeader + Blocks(articles[..i])
      {
        lines := AppendArticle(lines, articles[i]);
        BlocksStep(articles, i);
        Reassociate(PageHeader, Blocks(articles[..i]), ArticleBlock(articles[i]));
      }
      assert articles[..|articles|] == articles;
    }
    lines := lines + ["", PageFooter];
    page := Join(lines, "\n");
  }

  lemma BlocksStep(articles: seq<Article>, i: nat)
    requires i < |articles|
    ensures Blocks(articles[..i + 1]) == Blocks(articles[..i]) + ArticleBlock(articles[i])
  {
    assert articles[..i + 1][..i] == articles[..i];
  }

  lemma BlocksNonEmpty(articles: seq<Article>)
    requires articles != []
    ensures |Blocks(articles)| >= 4
  {
    assert |ArticleBlock(articles[|articles| - 1])| >= 4;
  }

  /** Every page opens with the seven header lines and closes with a blank
      line and the footer. */
  lemma PageFrame(articles: seq<Article>)
    ensures StartsWith(Join(PageLines(articles), "\n"), Join(PageHeader, "\n") + "\n")
    ensures EndsWith(Join(PageLines(articles), "\n"), "\n\n" + PageFooter)
  {
    var middle := if articles == [] then [EmptyNotice, ""] else Blocks(articles);
    if articles != [] {
      BlocksNonEmpty(articles);
    }
    assert PageLines(articles) == PageHeader + middle + ["", PageFooter];
    PageJoinFrame(PageHeader, middle, PageFooter);
  }

  lemma PageJoinFrame(head: seq<string>, middle: seq<string>, footer: string)
    requires head != [] && middle != []
    ensures StartsWith(Join(head + middle + ["", footer], "\n"), Join(head, "\n") + "\n")
    ensures EndsWith(Join(head + middle + ["", footer], "\n"), "\n\n" + footer)
  {
    var tail := ["", footer];
    assert head + middle + tail == head + (middle + tail);
    JoinConcat(head, middle + tail, "\n");
    JoinConcat(middle, tail, "\n");
    assert Join(tail, "\n") == "\n" + footer by {
      assert tail[1..] == [footer];
    }
    var body := Join(middle + tail, "\n");
    var page := Join(head + middle + tail, "\n");
    var front := Join(head, "\n") + "\n";
    assert page == front + body;
    assert page[..|front|] == front;
    var back := "\n\n" + footer;
    assert body == Join(middle, "\n") + back;
    assert page == front + Join(middle, "\n") + back;
    assert page[|page| - |back|..] == back;
  }

  /** The notice line appears exactly when there are no articles. */
  lemma EmptyNoticeIff(articles: seq<Article>)
    ensures EmptyNotice in PageLines(articles) <==> articles == []
  {
    assert EmptyNotice[0] == 'N' && |EmptyNotice| == 39;
    assert EmptyNotice !in PageHeader;
    if articles != [] {
      NoticeNotInBlocks(articles);
    }
  }

  lemma NoticeNotInBlocks(articles: seq<Article>)
    ensures EmptyNotice !in Blocks(articles)
  {
    FlattenMember(articles, ArticleBlock);
    forall i | 0 <= i < |articles| ensures EmptyNotice !in ArticleBlock(articles[i]) {
      NoticeNotInBlock(articles[i]);
    }
  }

  lemma NoticeNotInBlock(a: Article)
    ensures EmptyNotice !in ArticleBlock(a)
  {
    var n := EmptyNotice;
    assert n[0] == 'N' && |n| == 39;
    LineMarks(a);
    BlockLines(a, n);
  }

  /** The first characters that tell the lines of a block apart. */
  lemma LineMarks(a: Article)
    ensures forall url :: ImageLine(a, url)[0] == '['
    ensures TitleLine(a)[0] == '#'
    ensures DateLine(a)[0] == '*' && DateLine(a)[1] == 'P'
    ensures DescriptionLine(a)[0] == '>'
    ensures forall cats :: TagsLine(cats)[0] == '*' && TagsLine(cats)[1] == '*'
  {
  }

  /** The lines a block can hold, each under its condition. */
  lemma BlockLines(a: Article, x: string)
    ensures x in ArticleBlock(a) <==>
              || (Truthy(a.imageUrl) && x == ImageLine(a, a.imageUrl.value))
              || x == TitleLine(a) || x == "" || x == "---"
              || (a.date != "" && x == DateLine(a))
              || (a.description != "" && x == DescriptionLine(a))
              || (a.categories != [] && x == TagsLine(a.categories))
  {
  }

  /** Each block holds the title line, after the image lines when there are
      any, and ends with the rule and a blank line. */
  lemma BlockLayout(a: Article)
    ensures var b := ArticleBlock(a);
            var k := if Truthy(a.imageUrl) then 2 else 0;
            && k + 2 <= |b| && b[k] == TitleLine(a) && b[k + 1] == ""
            && b[|b| - 2] == "---" && b[|b| - 1] == ""
  {
  }

  /** The image line appears exactly when the article has an image url. */
  lemma ImageLineIff(a: Article)
    ensures (exists url :: ImageLine(a, url) in ArticleBlock(a)) <==> Truthy(a.imageUrl)
  {
    LineMarks(a);
    if Truthy(a.imageUrl) {
      BlockLines(a, ImageLine(a, a.imageUrl.value));
    } else {
      forall url ensures ImageLine(a, url) !in ArticleBlock(a) {
        BlockLines(a, ImageLine(a, url));
      }
    }
  }

  /** The date line appears exactly when the article has a date. */
  lemma DateLineIff(a: Article)
    ensures DateLine(a) in ArticleBlock(a) <==> a.date != ""
  {
    LineMarks(a);
    BlockLines(a, DateLine(a));
  }

  /** The description line appears exactly when the description is non-empty. */
  lemma DescriptionLineIff(a: Article)
    ensures DescriptionLine(a) in ArticleBlock(a) <==> a.description != ""
  {
    LineMarks(a);
    BlockLines(a, DescriptionLine(a));
  }

  /** The tag line appears exactly when the article has categories. */
  lemma TagsLineIff(a: Article)
    ensures TagsLine(a.categories) in ArticleBlock(a) <==> a.categories != []
  {
    var t := TagsLine(a.categories);
    LineMarks(a);
    BlockLines(a, t);
    if a.categories == [] {
      assert |t| == 10;
    }
  }

  /** Every article of the list has its title line on the page. */
  lemma TitlesListed(articles: seq<Article>)
    ensures forall i :: 0 <= i < |articles| ==> TitleLine(articles[i]) in PageLines(articles)
  {
    TitlesInBlocks(articles);
  }

  lemma TitleInBlock(a: Article)
    ensures TitleLine(a) in ArticleBlock(a)
  {
  }

  lemma TitlesInBlocks(articles: seq<Article>)
    ensures forall i :: 0 <= i < |articles| ==> TitleLine(articles[i]) in Blocks(articles)
  {
    FlattenMember(articles, ArticleBlock);
    forall i | 0 <= i < |articles| ensures TitleLine(articles[i]) in Blocks(articles) {
      TitleInBlock(articles[i]);
    }
  }

  lemma {:induction false} JoinHasPart(parts: seq<string>, sep: string, i: nat)
    requires i < |parts|
    ensures Contains(Join(parts, sep), parts[i])
    decreases |parts|
  {
    ContainsIffOccurs(Join(parts, sep), parts[i]);
    if i == 0 {
      JoinEnds(parts, sep);
      assert Occurs(Join(parts, sep), parts[0], 0);
    } else {
      var rest := Join(parts[1..], sep);
      JoinHasPart(parts[1..], sep, i - 1);
      ContainsIffOccurs(rest, parts[i]);
      var k :| Occurs(rest, parts[i], k);
      var off := |parts[0] + sep|;
      assert Join(parts, sep) == parts[0] + sep + rest;
      assert Join(parts, sep)[off + k..off + k + |parts[i]|] == rest[k..k + |parts[i]|];
      assert Occurs(Join(parts, sep), parts[i], off + k);
    }
  }

  /** The tag line shows at most five categories, each of them in backticks,
      and nothing of the categories after the fifth. */
  lemma TagsShown(cats: seq<string>)
    ensures |FirstFive(cats)| <= 5
    ensures forall i :: 0 <= i < |cats| && i < 5 ==> Contains(TagsLine(cats), "`" + cats[i] + "`")
    ensures forall more :: |cats| >= 5 ==> TagsLine(cats + more) == TagsLine(cats[..5])
  {
    var shown := Quoted(FirstFive(cats));
    forall i | 0 <= i < |cats| && i < 5 ensures Contains(TagsLine(cats), "`" + cats[i] + "`") {
      JoinHasPart(shown, ", ", i);
      ContainsSuffix("**Tags:** ", Join(shown, ", "), shown[i]);
    }
    forall more | |cats| >= 5 ensures TagsLine(cats + more) == TagsLine(cats[..5]) {
      assert FirstFive(cats + more) == cats[..5] by {
        if |cats + more| > 5 {
          assert (cats + more)[..5] == cats[..5];
        } else {
          assert cats + more == cats[..5];
        }
      }
      assert FirstFive(cats[..5]) == cats[..5];
    }
  }

  lemma {:induction false} ContainsSuffix(p: string, s: string, sub: string)
    requires Contains(s, sub)
    ensures Contains(p + s, sub)
    decreases |p|
  {
    if p != [] {
      ContainsSuffix(p[1..], s, sub);
      assert (p + s)[1..] == p[1..] + s;
    } else {
      assert p + s == s;
    }
  }
}
