/** The news endpoint: a tolerant pattern scan of RSS 2.0 feed text into articles, one feed per
    search query, and the aggregation of all feeds into the twenty newest articles. */
module NewsRoute {
  import opened Wrappers
  import opened Text

  datatype Article = Article(title: string, description: string, source: string, url: string, publishedAt: string)

  // ---------------------------------------------------------------------------------------------
  // The patterns. Each regular expression of the extractor is one `Pattern`, interpreted by a
  // scanner that tries it at one position (`MatchAt`) and by a leftmost search (`Search`).
  // ---------------------------------------------------------------------------------------------

  /** `Element(o, c)` is `o(.*?)c`; `Attributed(p, c)` is `p[^>]*>(.*?)c`; `Either(a, b)` is `a|b`,
      whose one capture is the capture of the branch that matched. */
  datatype Pattern =
    | Element(open: string, close: string)
    | Attributed(prefix: string, close: string)
    | Either(first: Pattern, second: Pattern)

  /** The lazy `(.*?)c` from `j`: the first index where `close` occurs, provided no line terminator
      comes before it. */
  function LineCloseFrom(s: string, close: string, j: nat): (r: Option<nat>)
    decreases |s| - j
    ensures r.Some? ==> j <= r.value && OccursAt(s, close, r.value)
  {
    if OccursAt(s, close, j) then Some(j)
    else if j < |s| && !IsLineTerminator(s[j]) then LineCloseFrom(s, close, j + 1)
    else None
  }

  /** The lazy capture stops at the first `close` and crosses no line terminator. */
  lemma {:induction false} LineCloseFromIsFirst(s: string, close: string, j: nat)
    decreases |s| - j
    ensures var r := LineCloseFrom(s, close, j);
      r.Some? ==> forall k :: j <= k < r.value ==> !IsLineTerminator(s[k]) && !OccursAt(s, close, k)
  {
    if !OccursAt(s, close, j) && j < |s| && !IsLineTerminator(s[j]) {
      LineCloseFromIsFirst(s, close, j + 1);
    }
  }

  /** The lazy capture fails exactly when a line terminator comes before every later `close`. */
  lemma {:induction false} LineCloseFromFails(s: string, close: string, j: nat)
    decreases |s| - j
    ensures LineCloseFrom(s, close, j).None? ==>
      forall k :: j <= k && OccursAt(s, close, k) ==> exists t :: j <= t < k && IsLineTerminator(s[t])
  {
    if !OccursAt(s, close, j) && j < |s| && !IsLineTerminator(s[j]) {
      LineCloseFromFails(s, close, j + 1);
    }
  }

  /** Where a capture begins and ends in the searched text. */
  datatype Bounds = Bounds(begin: nat, end: nat)

  /** The capture of `pat`, as bounds, when the match starts at `p`, if it matches there. */
  function MatchAt(s: string, p: nat, pat: Pattern): (r: Option<Bounds>)
    ensures r.Some? ==> p <= r.value.begin <= r.value.end <= |s|
  {
    match pat
    case Element(open, close) =>
      if !OccursAt(s, open, p) then None
      else
        (match LineCloseFrom(s, close, p + |open|)
         case None => None
         case Some(e) => Some(Bounds(p + |open|, e)))
    case Attributed(prefix, close) =>
      if !OccursAt(s, prefix, p) then None
      else
        (match IndexOfFrom(s, ">", p + |prefix|)
         case None => None
         case Some(g) =>
           (match LineCloseFrom(s, close, g + 1)
            case None => None
            case Some(e) => Some(Bounds(g + 1, e))))
    case Either(a, b) =>
      if MatchAt(s, p, a).Some? then MatchAt(s, p, a) else MatchAt(s, p, b)
  }

  /** Where the leftmost match of `pat` at or after `p` starts. */
  function SearchFrom(s: string, p: nat, pat: Pattern): (r: Option<nat>)
    decreases |s| - p
    ensures r.Some? ==> p <= r.value <= |s| && MatchAt(s, r.value, pat).Some?
  {
    if p > |s| then None
    else if MatchAt(s, p, pat).Some? then Some(p)
    else SearchFrom(s, p + 1, pat)
  }

  /** The search finds the leftmost match: no position between `p` and the answer matches. */
  lemma {:induction false} SearchFromIsLeftmost(s: string, p: nat, pat: Pattern)
    decreases |s| - p
    ensures var r := SearchFrom(s, p, pat);
      r.Some? ==> forall k :: p <= k < r.value ==> MatchAt(s, k, pat).None?
  {
    if p <= |s| && MatchAt(s, p, pat).None? {
      SearchFromIsLeftmost(s, p + 1, pat);
      var r := SearchFrom(s, p + 1, pat);
      assert SearchFrom(s, p, pat) == r;
      if r.Some? {
        forall k | p <= k < r.value ensures MatchAt(s, k, pat).None? {
          if k == p {
            assert MatchAt(s, p, pat).None?;
          }
        }
      }
    }
  }

  /** A search that finds nothing means no position from `p` to the end matches. */
  lemma {:induction false} SearchFromNoneIsNoMatch(s: string, p: nat, pat: Pattern)
    decreases |s| - p
    ensures SearchFrom(s, p, pat).None? ==> forall q :: p <= q <= |s| ==> MatchAt(s, q, pat).None?
  {
    if p <= |s| && MatchAt(s, p, pat).None? {
      SearchFromNoneIsNoMatch(s, p + 1, pat);
      if SearchFrom(s, p + 1, pat).None? {
        forall q | p <= q <= |s| ensures MatchAt(s, q, pat).None? {
          if q == p {
            assert MatchAt(s, p, pat).None?;
          }
        }
      }
    }
  }

  /** `s.match(pat)`: the capture of the leftmost match, if any. */
  function Capture(s: string, pat: Pattern): Option<string> {
    match SearchFrom(s, 0, pat)
    case None => None
    case Some(q) => var b := MatchAt(s, q, pat).value; Some(s[b.begin..b.end])
  }

  const TitlePattern := Either(Element("<title><![CDATA[", "]]>"), Element("<title>", "</title>"))
  const LinkPattern := Element("<link>", "</link>")
  const PubDatePattern := Element("<pubDate>", "</pubDate>")
  const SourcePattern := Attributed("<source", "</source>")
  const DescriptionPattern := Either(Element("<description><![CDATA[", "]]>"), Element("<description>", "</description>"))

  // ---------------------------------------------------------------------------------------------
  // Tag stripping: `.replace(/<[^>]*>/g, '')`.
  // ---------------------------------------------------------------------------------------------

  /** `s` holds no `<` with a `>` somewhere after it, i.e. nothing the tag pattern could match. */
  ghost predicate TagFree(s: string) {
    forall i, j :: 0 <= i < j < |s| && s[i] == '<' ==> s[j] != '>'
  }

  function StripTags(s: string): (r: string)
    ensures |r| <= |s|
    ensures TagFree(r)
    ensures '>' !in s ==> r == s
    decreases |s|
  {
    if s == [] then []
    else if s[0] == '<' then
      IndexOfFromIsFirst(s, ">", 1);
      match IndexOfFrom(s, ">", 1)
      case Some(g) =>
        assert s[g..g + 1][0] == s[g] == '>';
        StripTags(s[g + 1..])
      case None =>
        assert forall k :: 1 <= k < |s| ==> s[k] != '>' by {
          forall k | 1 <= k < |s| ensures s[k] != '>' { assert !OccursAt(s, ">", k); }
        }
        s
    else
      var rest := StripTags(s[1..]);
      assert s == [s[0]] + s[1..];
      assert forall j :: 0 < j < |[s[0]] + rest| ==> ([s[0]] + rest)[j] == rest[j - 1];
      [s[0]] + rest
  }

  /** What is left after stripping cannot be stripped any further. */
  lemma {:induction false} StripTagsOfTagFree(s: string)
    requires TagFree(s)
    ensures StripTags(s) == s
  {
    if s != [] {
      if s[0] == '<' {
        IndexOfFromIsFirst(s, ">", 1);
        forall k | 1 <= k ensures !OccursAt(s, ">", k) {
          if k < |s| {
            assert s[k] != '>';
          }
        }
      } else {
        StripTagsOfTagFree(s[1..]);
      }
    }
  }

  lemma StripTagsIdempotent(s: string)
    ensures StripTags(StripTags(s)) == StripTags(s)
  {
    StripTagsOfTagFree(StripTags(s));
  }

  lemma {:induction false} TagFreeSlice(s: string, i: nat, j: nat)
    requires i <= j <= |s| && TagFree(s)
    ensures TagFree(s[i..j])
  {
    forall a, b | 0 <= a < b < j - i && s[i..j][a] == '<' ensures s[i..j][b] != '>' {
      assert s[i..j][a] == s[i + a] && s[i..j][b] == s[i + b];
    }
  }

  lemma TagFreeTrim(s: string)
    requires TagFree(s)
    ensures TagFree(Trim(s))
  {
    TagFreeSlice(s, TrimOffset(s), TrimOffset(s) + |Trim(s)|);
  }

  // ---------------------------------------------------------------------------------------------
  // Items: `/<item>([\s\S]*?)<\/item>/g`, applied repeatedly from the end of the previous match.
  // ---------------------------------------------------------------------------------------------

  /** The positions of the `<item>` and of the `</item>` of one match. */
  datatype Span = Span(open: nat, close: nat)

  /** The next match at or after `c`: the leftmost `<item>` and the first `</item>` after it,
      newlines included. */
  function NextItem(xml: string, c: nat): (r: Option<Span>)
    ensures r.Some? ==> c <= r.value.open && r.value.open + 6 <= r.value.close && r.value.close + 7 <= |xml|
  {
    match IndexOfFrom(xml, "<item>", c)
    case None => None
    case Some(p) =>
      match IndexOfFrom(xml, "</item>", p + 6)
      case None => None
      case Some(q) => Some(Span(p, q))
  }

  /** `NextItem` finds the leftmost `<item>` and the first `</item>` after it; with none, no
      `<item>` at or after `c` is ever closed. */
  lemma NextItemIsLeftmostShortest(xml: string, c: nat)
    ensures var r := NextItem(xml, c);
      r.Some? ==> OccursAt(xml, "<item>", r.value.open) && OccursAt(xml, "</item>", r.value.close)
    ensures var r := NextItem(xml, c);
      r.Some? ==> forall k :: c <= k < r.value.open ==> !OccursAt(xml, "<item>", k)
    ensures var r := NextItem(xml, c);
      r.Some? ==> forall k :: r.value.open + 6 <= k < r.value.close ==> !OccursAt(xml, "</item>", k)
    ensures NextItem(xml, c).None? ==>
      forall p, q :: c <= p && p + 6 <= q && OccursAt(xml, "<item>", p) ==> !OccursAt(xml, "</item>", q)
  {
    IndexOfFromIsFirst(xml, "<item>", c);
    match IndexOfFrom(xml, "<item>", c)
    case None =>
    case Some(p) => IndexOfFromIsFirst(xml, "</item>", p + 6);
  }

  /** The text between `<item>` and `</item>` of a match. */
  function Content(xml: string, sp: Span): string
    requires sp.open + 6 <= sp.close <= |xml|
  {
    xml[sp.open + 6..sp.close]
  }

  /** The contents of all items from `c` on, in document order. */
  function ItemsFrom(xml: string, c: nat): seq<string>
    requires c <= |xml|
    decreases |xml| - c
  {
    match NextItem(xml, c)
    case None => []
    case Some(sp) => [Content(xml, sp)] + ItemsFrom(xml, sp.close + 7)
  }

  /** The content of a match holds no `</item>`. */
  lemma ContentIsShortest(xml: string, c: nat, sp: Span)
    requires NextItem(xml, c) == Some(sp)
    ensures forall k :: !OccursAt(Content(xml, sp), "</item>", k)
  {
    NextItemIsLeftmostShortest(xml, c);
    var it := Content(xml, sp);
    forall k | OccursAt(it, "</item>", k) ensures false {
      assert xml[sp.open + 6 + k..sp.open + 6 + k + 7] == it[k..k + 7];
      assert OccursAt(xml, "</item>", sp.open + 6 + k);
    }
  }

  lemma {:induction false} ItemsAreShortest(xml: string, c: nat)
    requires c <= |xml|
    ensures forall it :: it in ItemsFrom(xml, c) ==> forall k :: !OccursAt(it, "</item>", k)
    decreases |xml| - c
  {
    match NextItem(xml, c)
    case None =>
    case Some(sp) =>
      ItemsFromStep(xml, c, sp, sp.close + 7);
      ContentIsShortest(xml, c, sp);
      ItemsAreShortest(xml, sp.close + 7);
  }

  /** From a point after which no `</item>` occurs, no more items are found: an unterminated
      trailing `<item>` is dropped. */
  lemma UnclosedItemYieldsNothing(xml: string, c: nat)
    requires c <= |xml|
    requires forall q :: c <= q ==> !OccursAt(xml, "</item>", q)
    ensures ItemsFrom(xml, c) == []
  {
    NextItemIsLeftmostShortest(xml, c);
  }

  // ---------------------------------------------------------------------------------------------
  // Fields of one item, and the article assembled from them.
  // ---------------------------------------------------------------------------------------------

  function Title(item: string): string {
    match Capture(item, TitlePattern)
    case None => ""
    case Some(v) => Trim(v)
  }

  function Link(item: string): string {
    match Capture(item, LinkPattern)
    case None => ""
    case Some(v) => Trim(v)
  }

  function PubDate(item: string): string {
    match Capture(item, PubDatePattern)
    case None => ""
    case Some(v) => Trim(v)
  }

  function Source(item: string, query: string): string {
    match Capture(item, SourcePattern)
    case None => query
    case Some(v) => Trim(v)
  }

  function Description(item: string): string {
    match Capture(item, DescriptionPattern)
    case None => ""
    case Some(v) => Trim(StripTags(v))
  }

  /** The article of one item: emitted only with both a title and a link; the other fields degrade
      to defaults (`now` stands for `new Date().toISOString()`). */
  function Assemble(item: string, query: string, now: string): Option<Article> {
    var title := Title(item);
    var link := Link(item);
    if title != "" && link != "" then
      var description := Description(item);
      var pubDate := PubDate(item);
      Some(Article(title, if description != "" then description else title, Source(item, query), link,
                   if pubDate != "" then pubDate else now))
    else None
  }

  // ---------------------------------------------------------------------------------------------
  // What one item yields.
  // ---------------------------------------------------------------------------------------------

  /** `v` holds no line terminator. */
  ghost predicate OneLine(v: string) {
    forall i :: 0 <= i < |v| ==> !IsLineTerminator(v[i])
  }

  /** `v` neither starts nor ends with white space. */
  predicate Trimmed(v: string) {
    v == [] || (!IsJsSpace(v[0]) && !IsJsSpace(v[|v| - 1]))
  }

  lemma OneLineSlice(v: string, i: nat, j: nat)
    requires i <= j <= |v| && OneLine(v)
    ensures OneLine(v[i..j])
  {
    assert forall k :: 0 <= k < j - i ==> v[i..j][k] == v[i + k];
  }

  /** No line terminator between `j` and `e` makes `s[j..e]` one line. */
  lemma OneLineBetween(s: string, j: nat, e: nat)
    requires j <= e <= |s|
    requires forall k :: j <= k < e ==> !IsLineTerminator(s[k])
    ensures OneLine(s[j..e])
  {
    forall i | 0 <= i < e - j ensures !IsLineTerminator(s[j..e][i]) {
      assert s[j..e][i] == s[j + i];
    }
  }

  lemma OneLineTrim(v: string)
    requires OneLine(v)
    ensures OneLine(Trim(v))
  {
    OneLineSlice(v, TrimOffset(v), TrimOffset(v) + |Trim(v)|);
  }

  /** No line terminator lies within the bounds of a match from `p` on. */
  ghost predicate BoundsOneLine(s: string, p: nat, pat: Pattern) {
    MatchAt(s, p, pat).Some? ==>
      forall k :: MatchAt(s, p, pat).value.begin <= k < MatchAt(s, p, pat).value.end ==> !IsLineTerminator(s[k])
  }

  lemma ElementIsOneLine(s: string, p: nat, open: string, close: string)
    ensures BoundsOneLine(s, p, Element(open, close))
  {
    if OccursAt(s, open, p) {
      LineCloseFromIsFirst(s, close, p + |open|);
    }
  }

  lemma AttributedIsOneLine(s: string, p: nat, prefix: string, close: string)
    ensures BoundsOneLine(s, p, Attributed(prefix, close))
  {
    var m := MatchAt(s, p, Attributed(prefix, close));
    if m.Some? {
      var g := IndexOfFrom(s, ">", p + |prefix|).value;
      var e := LineCloseFrom(s, close, g + 1).value;
      assert m.value == Bounds(g + 1, e);
      LineCloseFromIsFirst(s, close, g + 1);
    }
  }

  /** A capture never spans a line: `(.*?)` does not cross a line terminator. */
  lemma {:induction false} MatchAtIsOneLine(s: string, p: nat, pat: Pattern)
    ensures BoundsOneLine(s, p, pat)
  {
    match pat
    case Element(open, close) => ElementIsOneLine(s, p, open, close);
    case Attributed(prefix, close) => AttributedIsOneLine(s, p, prefix, close);
    case Either(a, b) =>
      MatchAtIsOneLine(s, p, a);
      MatchAtIsOneLine(s, p, b);
  }

  lemma CaptureIsOneLine(s: string, pat: Pattern)
    ensures Capture(s, pat).Some? ==> OneLine(Capture(s, pat).value)
  {
    if SearchFrom(s, 0, pat).Some? {
      var q := SearchFrom(s, 0, pat).value;
      MatchAtIsOneLine(s, q, pat);
      var b := MatchAt(s, q, pat).value;
      OneLineBetween(s, b.begin, b.end);
    }
  }

  /** Title, link and date are trimmed one-line texts. */
  lemma FieldsAreTrimmedLines(item: string)
    ensures OneLine(Title(item)) && Trimmed(Title(item))
    ensures OneLine(Link(item)) && Trimmed(Link(item))
    ensures OneLine(PubDate(item)) && Trimmed(PubDate(item))
  {
    CaptureIsOneLine(item, TitlePattern);
    CaptureIsOneLine(item, LinkPattern);
    CaptureIsOneLine(item, PubDatePattern);
    if Capture(item, TitlePattern).Some? {
      OneLineTrim(Capture(item, TitlePattern).value);
    }
    if Capture(item, LinkPattern).Some? {
      OneLineTrim(Capture(item, LinkPattern).value);
    }
    if Capture(item, PubDatePattern).Some? {
      OneLineTrim(Capture(item, PubDatePattern).value);
    }
  }

  /** The description holds nothing the tag pattern would remove. */
  lemma DescriptionIsTagFree(item: string)
    ensures TagFree(Description(item))
  {
    if Capture(item, DescriptionPattern).Some? {
      TagFreeTrim(StripTags(Capture(item, DescriptionPattern).value));
    }
  }

  /** Every branch of `pat` opens with `lead`. */
  predicate OpensWith(pat: Pattern, lead: string) {
    match pat
    case Element(open, _) => lead <= open
    case Attributed(prefix, _) => lead <= prefix
    case Either(a, b) => OpensWith(a, lead) && OpensWith(b, lead)
  }

  lemma {:induction false} MatchAtNeedsLead(s: string, p: nat, pat: Pattern, lead: string)
    requires OpensWith(pat, lead)
    ensures MatchAt(s, p, pat).Some? ==> OccursAt(s, lead, p)
  {
    match pat
    case Element(open, _) =>
      if OccursAt(s, open, p) {
        assert s[p..p + |lead|] == s[p..p + |open|][..|lead|];
      }
    case Attributed(prefix, _) =>
      if OccursAt(s, prefix, p) {
        assert s[p..p + |lead|] == s[p..p + |prefix|][..|lead|];
      }
    case Either(a, b) =>
      MatchAtNeedsLead(s, p, a, lead);
      MatchAtNeedsLead(s, p, b, lead);
  }

  /** A pattern whose opening never occurs captures nothing. */
  lemma NoLeadNoCapture(s: string, pat: Pattern, lead: string)
    requires OpensWith(pat, lead) && !Contains(s, lead)
    ensures Capture(s, pat).None?
  {
    ContainsIff(s, lead);
    if SearchFrom(s, 0, pat).Some? {
      MatchAtNeedsLead(s, SearchFrom(s, 0, pat).value, pat, lead);
    }
  }

  /** An item lacking `<title>` or `<link>` yields no article. */
  lemma NoTitleOrLinkNoArticle(item: string, query: string, now: string)
    requires !Contains(item, "<title>") || !Contains(item, "<link>")
    ensures Assemble(item, query, now).None?
  {
    if !Contains(item, "<title>") {
      NoLeadNoCapture(item, TitlePattern, "<title>");
    } else {
      NoLeadNoCapture(item, LinkPattern, "<link>");
    }
  }

  /** Without a `<source` element the article is credited to the search query. */
  lemma SourceFallsBackToQuery(item: string, query: string)
    requires !Contains(item, "<source")
    ensures Source(item, query) == query
  {
    NoLeadNoCapture(item, SourcePattern, "<source");
  }

  /** Without a `<description>` the title doubles as description. */
  lemma DescriptionFallsBackToTitle(item: string, query: string, now: string)
    requires !Contains(item, "<description>") && Assemble(item, query, now).Some?
    ensures Assemble(item, query, now).value.description == Assemble(item, query, now).value.title
  {
    NoDescription(item);
  }

  lemma NoDescription(item: string)
    requires !Contains(item, "<description>")
    ensures Description(item) == ""
  {
    NoLeadNoCapture(item, DescriptionPattern, "<description>");
  }

  /** Without a `<pubDate>` the article is stamped with the current time. */
  lemma DateFallsBackToNow(item: string, query: string, now: string)
    requires !Contains(item, "<pubDate>") && Assemble(item, query, now).Some?
    ensures Assemble(item, query, now).value.publishedAt == now
  {
    NoPubDate(item);
  }

  lemma NoPubDate(item: string)
    requires !Contains(item, "<pubDate>")
    ensures PubDate(item) == ""
  {
    NoLeadNoCapture(item, PubDatePattern, "<pubDate>");
  }

  /** What every emitted article satisfies: a one-line trimmed title and link, both present; a
      description that is present and either tag-free or the title; a date or `now`. */
  ghost predicate Presentable(a: Article, now: string) {
    && a.title != "" && OneLine(a.title) && Trimmed(a.title)
    && a.url != "" && OneLine(a.url) && Trimmed(a.url)
    && a.description != "" && (a.description == a.title || TagFree(a.description))
    && (a.publishedAt == now || (a.publishedAt != "" && OneLine(a.publishedAt) && Trimmed(a.publishedAt)))
  }

  /** An item yields an article exactly when it has a title and a link, and that article is
      presentable. */
  lemma AssembleIsPresentable(item: string, query: string, now: string)
    ensures Assemble(item, query, now).Some? <==> Title(item) != "" && Link(item) != ""
    ensures Assemble(item, query, now).Some? ==> Presentable(Assemble(item, query, now).value, now)
  {
    FieldsAreTrimmedLines(item);
    DescriptionIsTagFree(item);
  }

  /** Conversely, the lazy capture reaches the first `close` when no line terminator and no earlier
      `close` lies before it. */
  lemma {:induction false} LineCloseFromReaches(s: string, close: string, j: nat, e: nat)
    requires j <= e && OccursAt(s, close, e)
    requires forall k :: j <= k < e ==> !IsLineTerminator(s[k]) && !OccursAt(s, close, k)
    ensures LineCloseFrom(s, close, j) == Some(e)
    decreases e - j
  {
    if j < e {
      LineCloseFromReaches(s, close, j + 1, e);
    }
  }

  /** A one-line CDATA title without `]` is captured whole, then trimmed. */
  lemma CdataTitle(x: string, rest: string)
    requires ']' !in x && OneLine(x)
    ensures Title("<title><![CDATA[" + x + "]]>" + rest) == Trim(x)
  {
    var open := "<title><![CDATA[";
    var item := open + x + "]]>" + rest;
    assert item[..16] == open;
    assert OccursAt(item, open, 0);
    assert item[16 + |x|..16 + |x| + 3] == "]]>";
    forall k | 16 <= k < 16 + |x| ensures !IsLineTerminator(item[k]) && !OccursAt(item, "]]>", k) {
      assert item[k] == x[k - 16];
    }
    LineCloseFromReaches(item, "]]>", 16, 16 + |x|);
    assert MatchAt(item, 0, TitlePattern) == Some(Bounds(16, 16 + |x|));
    assert item[16..16 + |x|] == x;
  }

  lemma OnlyLeadingTitleTag(x: string)
    requires '<' !in x
    ensures forall q :: OccursAt("<title>" + x + "</title>", "<title>", q) ==> q == 0
  {
    var item := "<title>" + x + "</title>";
    forall q | OccursAt(item, "<title>", q) ensures q == 0 {
      assert item[q..q + 7][0] == '<' && item[q..q + 7][1] == 't';
    }
  }

  lemma NoCdataInMultiLineTitle(x: string)
    requires x != [] && '<' !in x
    ensures !OccursAt("<title>" + x + "</title>", "<title><![CDATA[", 0)
  {
    var item := "<title>" + x + "</title>";
    assert item[7] == x[0];
  }

  lemma MultiLineTitleHasNoClose(x: string, t: nat)
    requires t < |x| && IsLineTerminator(x[t]) && '<' !in x
    ensures LineCloseFrom("<title>" + x + "</title>", "</title>", 7).None?
  {
    var item := "<title>" + x + "</title>";
    TitleBody(x);
    NoCloseAcrossBreak(item, "</title>", 7, 7 + t);
  }

  lemma TitleBody(x: string)
    ensures forall e :: 7 <= e < 7 + |x| ==> ("<title>" + x + "</title>")[e] == x[e - 7]
  {
  }

  lemma OccursAtHead(s: string, pat: string, i: int)
    requires OccursAt(s, pat, i) && pat != []
    ensures s[i] == pat[0]
  {
    assert s[i..i + |pat|][0] == s[i];
  }

  /** A `close` opening with `<` is out of reach of the lazy capture when a line terminator comes
      before the next `<`. */
  lemma NoCloseAcrossBreak(s: string, close: string, j: nat, t: nat)
    requires close != [] && close[0] == '<'
    requires j <= t < |s| && IsLineTerminator(s[t])
    requires forall e :: j <= e <= t ==> s[e] != '<'
    ensures LineCloseFrom(s, close, j).None?
  {
    LineCloseFromIsFirst(s, close, j);
    if LineCloseFrom(s, close, j).Some? {
      OccursAtHead(s, close, LineCloseFrom(s, close, j).value);
    }
  }

  lemma MultiLineTitleFailsAtStart(x: string, t: nat)
    requires t < |x| && IsLineTerminator(x[t]) && '<' !in x
    ensures MatchAt("<title>" + x + "</title>", 0, TitlePattern).None?
  {
    NoCdataInMultiLineTitle(x);
    MultiLineTitleHasNoClose(x, t);
  }

  /** A title broken across lines matches neither branch, so the item yields no article. */
  lemma MultiLineTitleDropsItem(x: string, t: nat, query: string, now: string)
    requires t < |x| && IsLineTerminator(x[t]) && '<' !in x
    ensures Title("<title>" + x + "</title>") == ""
    ensures Assemble("<title>" + x + "</title>", query, now).None?
  {
    var item := "<title>" + x + "</title>";
    OnlyLeadingTitleTag(x);
    MultiLineTitleFailsAtStart(x, t);
    forall q | 0 <= q <= |item| ensures MatchAt(item, q, TitlePattern).None? {
      MatchAtNeedsLead(item, q, TitlePattern, "<title>");
    }
    assert Capture(item, TitlePattern).None?;
  }

  function AsList(o: Option<Article>): (r: seq<Article>)
    ensures |r| <= 1
  {
    match o
    case None => []
    case Some(a) => [a]
  }

  /** The articles of a list of items, in order. */
  function Collect(items: seq<string>, query: string, now: string): (r: seq<Article>)
    ensures |r| <= |items|
  {
    if items == [] then []
    else AsList(Assemble(items[0], query, now)) + Collect(items[1..], query, now)
  }

  /** What `fetchRSSFeed` returns for a feed body. */
  function FeedArticles(xml: string, query: string, now: string): seq<Article> {
    Collect(ItemsFrom(xml, 0), query, now)
  }

  /** The outcome of the outbound request: it threw, or it answered with `ok` and a body. */
  datatype Response = Threw | Replied(ok: bool, body: string)

  function QueryArticles(query: string, response: Response, now: string): seq<Article> {
    if response.Replied? && response.ok then FeedArticles(response.body, query, now) else []
  }

  lemma ItemsFromStep(xml: string, c: nat, sp: Span, next: nat)
    requires c <= |xml| && NextItem(xml, c) == Some(sp) && next == sp.close + 7
    ensures next <= |xml|
    ensures ItemsFrom(xml, c) == [Content(xml, sp)] + ItemsFrom(xml, next)
  {
  }

  lemma CollectCons(item: string, rest: seq<string>, query: string, now: string)
    ensures Collect([item] + rest, query, now) == AsList(Assemble(item, query, now)) + Collect(rest, query, now)
  {
    assert ([item] + rest)[1..] == rest;
  }

  /** Pushing the article of an item, if any, and then the rest is appending the item's list. */
  lemma PushThenRest(done: seq<Article>, a: Option<Article>, rest: seq<Article>)
    ensures (if a.Some? then done + [a.value] else done) + rest == done + (AsList(a) + rest)
  {
    if a.Some? {
      assert (done + [a.value]) + rest == done + ([a.value] + rest);
    } else {
      assert AsList(a) + rest == rest;
    }
  }

  /** After the items before `c` have produced `done`, the rest of the feed completes it. */
  ghost predicate Progress(xml: string, query: string, now: string, c: nat, done: seq<Article>)
    requires c <= |xml|
  {
    done + Collect(ItemsFrom(xml, c), query, now) == FeedArticles(xml, query, now)
  }

  /** One turn of the `exec` loop: from `c`, the match `sp` moves the scan to `next`, and its
      article `a`, if any, is appended to `done`. */
  lemma CollectStep(xml: string, query: string, now: string, c: nat, done: seq<Article>, sp: Span,
                    a: Option<Article>, next: nat, after: seq<Article>)
    requires c <= |xml| && NextItem(xml, c) == Some(sp) && Progress(xml, query, now, c, done)
    requires a == Assemble(Content(xml, sp), query, now) && next == sp.close + 7
    requires after == if a.Some? then done + [a.value] else done
    ensures next <= |xml| && Progress(xml, query, now, next, after)
  {
    ItemsFromStep(xml, c, sp, next);
    var rest := Collect(ItemsFrom(xml, next), query, now);
    CollectCons(Content(xml, sp), ItemsFrom(xml, next), query, now);
    assert Collect(ItemsFrom(xml, c), query, now) == AsList(a) + rest;
    PushThenRest(done, a, rest);
  }

  /** Every article a list of items yields is presentable. */
  lemma {:induction false} CollectIsPresentable(items: seq<string>, query: string, now: string)
    ensures forall a :: a in Collect(items, query, now) ==> Presentable(a, now)
  {
    if items != [] {
      CollectIsPresentable(items[1..], query, now);
      AssembleIsPresentable(items[0], query, now);
    }
  }

  /** Every article one query yields is presentable. */
  lemma QueryIsPresentable(query: string, response: Response, now: string)
    ensures forall a :: a in QueryArticles(query, response, now) ==> Presentable(a, now)
  {
    if response.Replied? && response.ok {
      CollectIsPresentable(ItemsFrom(response.body, 0), query, now);
    }
  }

  // ---------------------------------------------------------------------------------------------
  // `fetchRSSFeed`: the `exec` loop over the items of one response.
  // ---------------------------------------------------------------------------------------------

  method FetchRssFeed(query: string, response: Response, now: string) returns (articles: seq<Article>)
    ensures articles == QueryArticles(query, response, now)
  {
    if response.Threw? || !response.ok {
      return [];
    }
    var xml := response.body;
    articles := [];
    var cursor: nat := 0;
    var m := NextItem(xml, cursor);
    while m.Some?
      invariant cursor <= |xml|
      invariant m == NextItem(xml, cursor)
      invariant Progress(xml, query, now, cursor, articles)
      decreases |xml| - cursor
    {
      var sp := m.value;
      var a := Assemble(Content(xml, sp), query, now);
      ghost var c, done := cursor, articles;
      if a.Some? {
        articles := articles + [a.value];
      }
      cursor := sp.close + 7;
      CollectStep(xml, query, now, c, done, sp, a, cursor, articles);
      m := NextItem(xml, cursor);
    }
  }

  // ---------------------------------------------------------------------------------------------
  // `GET`: the four feeds, gathered in query order, sorted newest first, cut to twenty.
  // ---------------------------------------------------------------------------------------------

  const Queries: seq<string> := ["Jonesboro GA", "Fulton County GA", "Henry County GA", "Fayette County GA"]

  /** How many articles the endpoint answers with at most. */
  const Limit := 20

  /** The flattened results of the queries `qs`, in their order; `fetch` gives each query's
      response. */
  function Gathered(qs: seq<string>, fetch: string -> Response, now: string): seq<Article> {
    if qs == [] then []
    else Gathered(qs[..|qs| - 1], fetch, now) + QueryArticles(qs[|qs| - 1], fetch(qs[|qs| - 1]), now)
  }

  /** Every article a query yields is among the gathered ones, as often as it was found. */
  lemma {:induction false} GatheredKeepsEveryFeed(qs: seq<string>, fetch: string -> Response, now: string)
    ensures forall i :: 0 <= i < |qs| ==>
      multiset(QueryArticles(qs[i], fetch(qs[i]), now)) <= multiset(Gathered(qs, fetch, now))
  {
    if qs != [] {
      var init := qs[..|qs| - 1];
      GatheredKeepsEveryFeed(init, fetch, now);
      forall i | 0 <= i < |qs|
        ensures multiset(QueryArticles(qs[i], fetch(qs[i]), now)) <= multiset(Gathered(qs, fetch, now))
      {
        if i < |qs| - 1 {
          assert qs[i] == init[i];
        }
      }
    }
  }

  /** Every gathered article comes from one of the queries' feeds, and is presentable. */
  lemma {:induction false} GatheredComesFromFeeds(qs: seq<string>, fetch: string -> Response, now: string)
    ensures forall a :: a in Gathered(qs, fetch, now) ==>
      (exists i :: 0 <= i < |qs| && a in QueryArticles(qs[i], fetch(qs[i]), now)) && Presentable(a, now)
  {
    if qs != [] {
      var init := qs[..|qs| - 1];
      var last := |qs| - 1;
      GatheredComesFromFeeds(init, fetch, now);
      QueryIsPresentable(qs[last], fetch(qs[last]), now);
      forall a | a in Gathered(qs, fetch, now)
        ensures (exists i :: 0 <= i < |qs| && a in QueryArticles(qs[i], fetch(qs[i]), now)) && Presentable(a, now)
      {
        if a in Gathered(init, fetch, now) {
          var i :| 0 <= i < |init| && a in QueryArticles(init[i], fetch(init[i]), now);
          assert qs[i] == init[i];
        } else {
          assert a in QueryArticles(qs[last], fetch(qs[last]), now);
        }
      }
    }
  }

  /** The comparator `(a, b) => dateB - dateA`, where `time` stands for `new Date(…).getTime()` with
      `None` for an unparseable date; a `NaN` difference counts as `+0`, as the sort treats it. */
  function Compare(time: string -> Option<int>, x: Article, y: Article): int {
    var dx := time(x.publishedAt);
    var dy := time(y.publishedAt);
    if dx.Some? && dy.Some? then dy.value - dx.value else 0
  }

  /** `x` has a parseable date later than the parseable date of `y`. */
  predicate Newer(time: string -> Option<int>, x: Article, y: Article) {
    time(x.publishedAt).Some? && time(y.publishedAt).Some? && time(x.publishedAt).value > time(y.publishedAt).value
  }

  /** The comparator puts `x` after `y` exactly when `y` is newer, and before it exactly when `x` is. */
  lemma CompareSign(time: string -> Option<int>, x: Article, y: Article)
    ensures Compare(time, x, y) > 0 <==> Newer(time, y, x)
    ensures Compare(time, x, y) < 0 <==> Newer(time, x, y)
  {
  }

  ghost predicate AllDated(s: seq<Article>, time: string -> Option<int>) {
    forall i :: 0 <= i < |s| ==> time(s[i].publishedAt).Some?
  }

  ghost predicate NewestFirst(s: seq<Article>, time: string -> Option<int>) {
    forall i, j :: 0 <= i < j < |s| ==> !Newer(time, s[j], s[i])
  }

  /** The first `n` articles of `s` are newest first. */
  ghost predicate NewestFirstUpTo(s: seq<Article>, time: string -> Option<int>, n: nat) {
    forall k, m :: 0 <= k < m < n <= |s| ==> !Newer(time, s[m], s[k])
  }

  /** Midway through inserting `s[i]`: it now sits at `j`, is newer than everything it passed,
      and the others among the first `i + 1` are newest first. */
  ghost predicate Inserting(s: seq<Article>, time: string -> Option<int>, i: nat, j: nat) {
    j <= i < |s| && AllDated(s, time)
    && (forall k, m :: 0 <= k < m <= i && k != j && m != j ==> !Newer(time, s[m], s[k]))
    && (forall m :: j < m <= i ==> Newer(time, s[j], s[m]))
  }

  lemma InsertStart(s: seq<Article>, time: string -> Option<int>, i: nat)
    requires i < |s| && AllDated(s, time) && NewestFirstUpTo(s, time, i)
    ensures Inserting(s, time, i, i)
  {
  }

  /** Swapping a newer article past its predecessor keeps the insertion going. */
  lemma InsertSwap(s: seq<Article>, time: string -> Option<int>, i: nat, j: nat)
    requires 0 < j && Inserting(s, time, i, j) && Compare(time, s[j - 1], s[j]) > 0
    ensures Inserting(s[j - 1 := s[j]][j := s[j - 1]], time, i, j - 1)
  {
    var t := s[j - 1 := s[j]][j := s[j - 1]];
    assert forall k :: 0 <= k < |s| && k != j - 1 && k != j ==> t[k] == s[k];
    assert t[j - 1] == s[j] && t[j] == s[j - 1];
    forall k | 0 <= k < |t| ensures time(t[k].publishedAt).Some? {
    }
    forall k, m | 0 <= k < m <= i && k != j - 1 && m != j - 1
      ensures !Newer(time, t[m], t[k])
    {
    }
  }

  /** Exchanging two neighbours rearranges a list. */
  lemma SwapPermutes(s: seq<Article>, j: nat)
    requires 0 < j < |s|
    ensures multiset(s[j - 1 := s[j]][j := s[j - 1]]) == multiset(s)
  {
  }

  /** An insertion that stopped at the front or behind an article no older is complete. */
  lemma InsertDone(s: seq<Article>, time: string -> Option<int>, i: nat, j: nat)
    requires Inserting(s, time, i, j)
    requires j == 0 || Compare(time, s[j - 1], s[j]) <= 0
    ensures NewestFirstUpTo(s, time, i + 1)
  {
    forall k, m | 0 <= k < m < i + 1
      ensures !Newer(time, s[m], s[k])
    {
      if m == j && k < j - 1 {
        assert !Newer(time, s[j - 1], s[k]);
      }
    }
  }

  /** `allArticles.sort(…)`, as a stable insertion sort that moves an article forward while the
      comparator says its predecessor belongs after it. When every date parses, the result is
      newest first; in all cases it is a rearrangement. */
  method SortNewestFirst(a: array<Article>, time: string -> Option<int>)
    modifies a
    ensures multiset(a[..]) == multiset(old(a[..]))
    ensures AllDated(old(a[..]), time) ==> NewestFirst(a[..], time)
  {
    ghost var dated := AllDated(a[..], time);
    for i := 0 to a.Length
      invariant multiset(a[..]) == multiset(old(a[..]))
      invariant dated ==> AllDated(a[..], time) && NewestFirstUpTo(a[..], time, i)
    {
      InsertNewest(a, time, i, dated);
    }
  }

  /** One pass of the insertion sort: `a[i]` moves left past every article older than it. When
      `dated` holds (every date parses), the first `i` articles were newest first and the first
      `i + 1` are afterwards. */
  method InsertNewest(a: array<Article>, time: string -> Option<int>, i: nat, ghost dated: bool)
    requires i < a.Length
    requires dated ==> AllDated(a[..], time) && NewestFirstUpTo(a[..], time, i)
    modifies a
    ensures multiset(a[..]) == multiset(old(a[..]))
    ensures dated ==> AllDated(a[..], time) && NewestFirstUpTo(a[..], time, i + 1)
  {
    if dated {
      InsertStart(a[..], time, i);
    }
    var j := i;
    while j > 0 && Compare(time, a[j - 1], a[j]) > 0
      invariant 0 <= j <= i
      invariant multiset(a[..]) == multiset(old(a[..]))
      invariant dated ==> Inserting(a[..], time, i, j)
    {
      ghost var before := a[..];
      SwapPermutes(before, j);
      if dated {
        InsertSwap(before, time, i, j);
      }
      a[j - 1], a[j] := a[j], a[j - 1];
      assert a[..] == before[j - 1 := before[j]][j := before[j - 1]];
      j := j - 1;
    }
    if dated {
      InsertDone(a[..], time, i, j);
    }
  }

  /** `GET`: the first twenty of the gathered articles once sorted. When every date parses they are
      the newest, newest first: nothing left out is newer than anything kept. */
  method Get(fetch: string -> Response, now: string, time: string -> Option<int>) returns (top: seq<Article>)
    ensures var all := Gathered(Queries, fetch, now);
      |top| == (if |all| < Limit then |all| else Limit) && multiset(top) <= multiset(all)
    ensures var all := Gathered(Queries, fetch, now);
      |all| <= Limit ==> multiset(top) == multiset(all)
    ensures var all := Gathered(Queries, fetch, now);
      AllDated(all, time) ==> NewestFirst(top, time)
    ensures var all := Gathered(Queries, fetch, now);
      AllDated(all, time) ==> forall x, y :: x in top && y in multiset(all) - multiset(top) ==> !Newer(time, y, x)
  {
    var all := GatherAll(Queries, fetch, now);
    top := NewestTop(all, time);
  }

  /** The articles of every query, in query order (what `Promise.all` followed by `flat` gives). */
  method GatherAll(qs: seq<string>, fetch: string -> Response, now: string) returns (all: seq<Article>)
    ensures all == Gathered(qs, fetch, now)
  {
    all := [];
    for i := 0 to |qs|
      invariant all == Gathered(qs[..i], fetch, now)
    {
      var found := FetchRssFeed(qs[i], fetch(qs[i]), now);
      assert qs[..i + 1][..i] == qs[..i] && qs[..i + 1][i] == qs[i];
      all := all + found;
    }
    assert qs[..|qs|] == qs;
  }

  /** Sorts a copy of `all` newest first and keeps the first twenty. */
  method NewestTop(all: seq<Article>, time: string -> Option<int>) returns (top: seq<Article>)
    ensures |top| == (if |all| < Limit then |all| else Limit) && multiset(top) <= multiset(all)
    ensures |all| <= Limit ==> multiset(top) == multiset(all)
    ensures AllDated(all, time) ==> NewestFirst(top, time)
    ensures AllDated(all, time) ==> forall x, y :: x in top && y in multiset(all) - multiset(top) ==> !Newer(time, y, x)
  {
    var sorted := new Article[|all|](k requires 0 <= k < |all| => all[k]);
    assert sorted[..] == all;
    SortNewestFirst(sorted, time);
    var n := if sorted.Length < Limit then sorted.Length else Limit;
    top := sorted[..n];
    SliceKeepsNewest(sorted[..], all, n, time);
  }

  /** The first `n` of a newest-first rearrangement of `all` are newest first, and nothing after
      them is newer than anything among them. */
  lemma SliceKeepsNewest(s: seq<Article>, all: seq<Article>, n: nat, time: string -> Option<int>)
    requires n <= |s| && multiset(s) == multiset(all)
    requires AllDated(all, time) ==> NewestFirst(s, time)
    ensures multiset(s[..n]) <= multiset(all)
    ensures n == |s| ==> multiset(s[..n]) == multiset(all)
    ensures AllDated(all, time) ==> NewestFirst(s[..n], time)
    ensures AllDated(all, time) ==>
      forall x, y :: x in s[..n] && y in multiset(all) - multiset(s[..n]) ==> !Newer(time, y, x)
  {
    assert s == s[..n] + s[n..];
    if AllDated(all, time) {
      NewestFirstSlice(s, n, time);
      forall x, y | x in s[..n] && y in multiset(all) - multiset(s[..n])
        ensures !Newer(time, y, x)
      {
        assert y in multiset(s[n..]);
      }
    }
  }

  /** A prefix of a newest-first list is newest first, and comes before the rest. */
  lemma NewestFirstSlice(s: seq<Article>, n: nat, time: string -> Option<int>)
    requires n <= |s| && NewestFirst(s, time)
    ensures NewestFirst(s[..n], time)
    ensures forall x, y :: x in s[..n] && y in s[n..] ==> !Newer(time, y, x)
  {
    forall x, y | x in s[..n] && y in s[n..]
      ensures !Newer(time, y, x)
    {
      var i :| 0 <= i < n && s[..n][i] == x;
      var j :| 0 <= j < |s| - n && s[n..][j] == y;
      assert s[i] == x && s[n + j] == y;
    }
  }
}
