/**
 * Response post-processing of the Wikipedia API client: the existence
 * decision, the link filter and the search-snippet cleaning, each applied
 * to a response that has already been fetched and parsed. A request that
 * throws (network failure, non-OK status, unparsable body, missing
 * `query` object) is the response `None`.
 */
module WikipediaApi {
  import opened Wrappers
  import opened Text

  /** The key the API gives the single page of a title that has no article. */
  const MissingPageId: string := "-1"

  /** The prefix of list articles, which the link filter drops. */
  const ListPrefix: string := "List of"

  /** One element of a page's `links` array. */
  datatype LinkEntry = LinkEntry(title: string)

  /** One member of `query.pages`: its key (the page id) and its optional `links` array. */
  datatype PageEntry = PageEntry(pageId: string, links: Option<seq<LinkEntry>>)

  /** `query.pages` of a parsed response, its members in key order; `None` when the request failed. */
  type PagesResponse = Option<seq<PageEntry>>

  /** One search hit, `{title, snippet}`, as the API returns it and as `searchPages` returns it. */
  datatype SearchHit = SearchHit(title: string, snippet: string)

  // ---------------------------------------------------------------- pageExists

  /**
   * `pageExists`: a failed request means "does not exist"; otherwise the
   * page exists unless the first key of `query.pages` is "-1". With no key
   * at all, `Object.keys(pages)[0]` is `undefined`, which differs from "-1".
   */
  function PageExists(response: PagesResponse): (b: bool)
    ensures response.None? ==> !b
    ensures response.Some? && response.value != [] ==> (b <==> response.value[0].pageId != MissingPageId)
    ensures response == Some([]) ==> b
  {
    match response
    case None => false
    case Some(pages) => pages == [] || pages[0].pageId != MissingPageId
  }

  // -------------------------------------------------------------- getPageLinks

  /** The filter of `getPageLinks`: no namespace colon and not a list article. */
  predicate IsArticleTitle(title: string)
  {
    ':' !in title && !StartsWith(title, ListPrefix)
  }

  /**
   * `titles.filter(IsArticleTitle)`: exactly the article titles of `titles`,
   * in their original order.
   */
  function ArticleTitles(titles: seq<string>): (r: seq<string>)
    ensures IsSubsequence(r, titles)
    ensures forall t :: t in r ==> IsArticleTitle(t)
    ensures forall t :: t in titles && IsArticleTitle(t) ==> t in r
    ensures forall t :: multiset(r)[t] == if IsArticleTitle(t) then multiset(titles)[t] else 0
    decreases |titles|
  {
    if titles == [] then []
    else
      var rest := ArticleTitles(titles[1..]);
      assert forall t :: t in titles ==> t == titles[0] || t in titles[1..];
      assert titles == [titles[0]] + titles[1..];
      if IsArticleTitle(titles[0]) then [titles[0]] + rest else rest
  }

  /** The `title` of every element of a `links` array, in order (`links.map(l => l.title)`). */
  function LinkTitles(links: seq<LinkEntry>): (r: seq<string>)
    ensures |r| == |links| && forall i :: 0 <= i < |links| ==> r[i] == links[i].title
  {
    seq(|links|, i requires 0 <= i < |links| => links[i].title)
  }

  /** True when the response holds a first page that exists and carries a `links` array. */
  predicate HasLinks(response: PagesResponse)
  {
    && response.Some? && response.value != []
    && response.value[0].pageId != MissingPageId
    && response.value[0].links.Some?
  }

  /** The link titles of the response's first page, or nothing when it has none. */
  function ResponseLinkTitles(response: PagesResponse): seq<string>
  {
    if HasLinks(response) then LinkTitles(response.value[0].links.value) else []
  }

  /**
   * `getPageLinks`: the article titles among the first page's links, in
   * the response's order; nothing when the request failed, when
   * `query.pages` is empty (indexing it with `undefined` throws and the
   * error is caught), when the page is missing, or when it has no `links`.
   */
  function GetPageLinks(response: PagesResponse): (r: seq<string>)
    ensures !HasLinks(response) ==> r == []
    ensures !PageExists(response) ==> r == []
    ensures IsSubsequence(r, ResponseLinkTitles(response))
    ensures forall t :: t in r ==> ':' !in t && !StartsWith(t, ListPrefix)
    ensures forall t :: t in ResponseLinkTitles(response) && IsArticleTitle(t) ==> t in r
    ensures forall t :: multiset(r)[t] == if IsArticleTitle(t) then multiset(ResponseLinkTitles(response))[t] else 0
  {
    match response
    case None => []
    case Some(pages) =>
      if pages == [] then []
      else if pages[0].pageId == MissingPageId || pages[0].links.None? then []
      else ArticleTitles(LinkTitles(pages[0].links.value))
  }

  // --------------------------------------------------------------- searchPages

  /** True when `s` has no `<` followed, anywhere later, by `>`: no HTML tag is left. */
  predicate TagFree(s: string)
  {
    forall i, j :: 0 <= i < j < |s| && s[i] == '<' ==> s[j] != '>'
  }

  /** What follows the first `c` in `s`. */
  function After(s: string, c: char): (r: string)
    requires c in s
    ensures |r| < |s| && r == s[|s| - |r|..] && s[|s| - |r| - 1] == c
    decreases |s|
  {
    if s[0] == c then s[1..] else After(s[1..], c)
  }

  /**
   * `s.replace(/<[^>]*>/g, '')`: scanning left to right, a `<` that has a
   * `>` somewhere after it starts a match that runs to the first such `>`;
   * the match is removed and the scan resumes after it. Any other character
   * is kept.
   */
  function StripTags(s: string): (r: string)
    ensures |r| <= |s|
    ensures forall c :: c in r ==> c in s
    ensures TagFree(r)
    ensures '<' !in s ==> r == s
    decreases |s|
  {
    if s == [] then []
    else if s[0] == '<' && '>' in s[1..] then
      var rest := After(s[1..], '>');
      assert forall c :: c in rest ==> c in s[1..] ==> c in s;
      StripTags(rest)
    else
      var rest := StripTags(s[1..]);
      assert forall c :: c in s[1..] ==> c in s;
      var r := [s[0]] + rest;
      assert forall j :: 0 < j < |r| ==> r[j] == rest[j - 1];
      r
  }

  /** What follows the first `c` of `t + [c] + s`, when `t` has no `c`, is `s`. */
  lemma {:induction false} AfterFirst(t: string, c: char, s: string)
    requires c !in t
    ensures After(t + [c] + s, c) == s
    decreases |t|
  {
    if t != [] {
      assert (t + [c] + s)[1..] == t[1..] + [c] + s;
      AfterFirst(t[1..], c, s);
    }
  }

  /** A first character other than `<` is kept. */
  lemma StripTagsCons(c: char, s: string)
    requires c != '<'
    ensures StripTags([c] + s) == [c] + StripTags(s)
  {
    assert ([c] + s)[1..] == s;
  }

  /** Text before the first `<` is kept as it is. */
  lemma {:induction false} StripTagsKeepsText(a: string, s: string)
    requires '<' !in a
    ensures StripTags(a + s) == a + StripTags(s)
    decreases |a|
  {
    if a == [] {
      assert a + s == s;
    } else {
      SplitHead(a, s);
      StripTagsCons(a[0], a[1..] + s);
      StripTagsKeepsText(a[1..], s);
      SplitHead(a, StripTags(s));
    }
  }

  /** A nonempty `a` followed by `t` is its head followed by the rest of `a` and then `t`. */
  lemma SplitHead(a: string, t: string)
    requires a != []
    ensures a + t == [a[0]] + (a[1..] + t)
  {
  }

  /** A tag `<...>` is removed entirely, and the scan goes on after it. */
  lemma StripTagsRemovesTag(t: string, s: string)
    requires '>' !in t
    ensures StripTags(['<'] + t + ['>'] + s) == StripTags(s)
  {
    var x := ['<'] + t + ['>'] + s;
    assert x[1..] == t + ['>'] + s;
    assert x[1..][|t|] == '>';
    AfterFirst(t, '>', s);
  }

  /** A tag-free string is left unchanged. */
  lemma {:induction false} StripTagsTagFree(s: string)
    requires TagFree(s)
    ensures StripTags(s) == s
    decreases |s|
  {
    if s != [] {
      if s[0] == '<' {
        assert forall c :: c in s[1..] ==> c != '>' by {
          forall c | c in s[1..] ensures c != '>' {
            var j :| 0 <= j < |s[1..]| && s[1..][j] == c;
            assert s[j + 1] == c;
          }
        }
      }
      assert TagFree(s[1..]) by {
        forall i, j | 0 <= i < j < |s[1..]| && s[1..][i] == '<' ensures s[1..][j] != '>' {
          assert s[i + 1] == '<';
        }
      }
      StripTagsTagFree(s[1..]);
    }
  }

  /** Stripping twice is stripping once. */
  lemma StripTagsIdempotent(s: string)
    ensures StripTags(StripTags(s)) == StripTags(s)
  {
    StripTagsTagFree(StripTags(s));
  }

  /**
   * `searchPages`: nothing for a blank query (no request is made) or when
   * the request fails; otherwise every hit with its title unchanged and its
   * snippet stripped of HTML tags, in the response's order.
   */
  function SearchPages(query: string, response: Option<seq<SearchHit>>): (r: seq<SearchHit>)
    ensures IsBlank(query) || response.None? ==> r == []
    ensures !IsBlank(query) && response.Some? ==>
      |r| == |response.value| &&
      forall i :: 0 <= i < |r| ==>
        r[i].title == response.value[i].title && r[i].snippet == StripTags(response.value[i].snippet)
    ensures forall i :: 0 <= i < |r| ==> TagFree(r[i].snippet)
  {
    TrimShape(query);
    if Trim(query) == [] then []
    else
      match response
      case None => []
      case Some(hits) =>
        seq(|hits|, i requires 0 <= i < |hits| => SearchHit(hits[i].title, StripTags(hits[i].snippet)))
  }

  /** Snippets without a `<` come back unchanged: only tags are removed. */
  lemma SearchKeepsPlainSnippets(query: string, hits: seq<SearchHit>, i: nat)
    requires !IsBlank(query) && i < |hits| && '<' !in hits[i].snippet
    ensures SearchPages(query, Some(hits))[i] == hits[i]
  {
  }

  /** A blank query yields nothing whatever the server would have answered: no request is needed. */
  lemma BlankQueryIgnoresResponse(query: string, a: Option<seq<SearchHit>>, b: Option<seq<SearchHit>>)
    requires IsBlank(query)
    ensures SearchPages(query, a) == SearchPages(query, b) == []
  {
  }
}
