# Wikipedia pathfinder: a Dafny model

This project models the core of a web application that finds a chain of
Wikipedia links from a start article to an end article. It has two parts:

- **`Pathfinder`** (Pathfinder.dfy) models `WikipediaPathfinder.findPath`
  and `normalizeTitle`. Titles are compared by a normalised key: trimmed,
  spaces replaced by underscores, lower case. When the two endpoints have
  the same key, the answer is the one-title path. Otherwise the two
  endpoints are checked for existence, and a missing one is an error. Then
  a bounded breadth-first search runs over a FIFO queue of
  `{page, path, depth}` entries, with these rules:
  - a visited set holds the keys of every title enqueued;
  - entries at depth `MaxDepth = 3` are dequeued but never expanded;
  - the search stops once `MaxSearchedPages = 1000` link fetches have returned;
  - every dequeued entry produces one progress snapshot;
  - the search returns at the first page whose links contain the end page's key;
  - otherwise the page's first `LinksPerPage = 50` links are taken, and those among them whose key is not yet visited are enqueued.

  The link provider is a parameter of the search: a pair of deterministic
  functions `pageExists` and `pageLinks`, where a `None` result from
  `pageLinks` is a fetch that throws. `FindPath` and its loop (`BreadthFirst`,
  one `Visit` per iteration) are imperative methods over a local queue,
  visited set and counter. The frontier-growth `for` loop is the method
  `EnqueueLinks`. Each is proved against specification functions:
  - `Expansion`: what dequeuing one entry enqueues;
  - `Fetches` and `Successes`: the link fetches made and the count of those that returned;
  - `Snapshot`: the progress report for each dequeued entry.

  Ghost outputs expose the run: every entry enqueued, and how many had been
  enqueued when each entry was dequeued. `SearchOutcome` and
  `ConnectingPath` state what a search returns.
- **`WikipediaApi`** (WikipediaApi.dfy) models the post-processing that
  `pageExists`, `getPageLinks` and `searchPages` apply to an API response
  that has already been parsed. A request that throws is `None`. The
  function `Pathfinder.WikipediaProvider` composes the two parts into the
  provider `findPath` actually uses. Lemmas then state what that provider
  guarantees about found paths.
- `Text` (Text.dfy) holds JavaScript's `trim` over the ECMAScript
  whitespace set, `startsWith`, and an order-preserving subsequence relation.
  `Wrappers` (Wrappers.dfy) holds `Option` and `Result`.

Three details of the code decide edge cases, and the model keeps them:
- `links.find(...)` returns the matching link itself, and `if (targetFound)`
  tests it for truthiness. A first matching link that is the empty string
  therefore counts as a miss. `TargetFound` models this. `TargetFoundIff`
  shows that it matters only for an empty key.
- When `query.pages` is an empty object, `pageExists` answers `true`,
  because `Object.keys(pages)[0]` is `undefined`, which is not `'-1'`.
- In the same case `getPageLinks` throws on `pages[undefined].links`,
  catches the error, and answers `[]`.

## Model

| member | source | states |
|---|---|---|
| Pathfinder.FindPath | src/utils/pathfinder.ts:14-121 | With equal keys: the one-title path, found, counter 0, no provider call. Otherwise: both existence checks first, start before end. It fails exactly when an endpoint is missing, naming the start page when the start page is missing, before any link fetch. On success the counter is within the budget and a path is returned exactly when found; the search outcome holds, and a found path connects the two pages |
| Pathfinder.BreadthFirst | src/utils/pathfinder.ts:46-120 | The loop's outcome: the run is the breadth-first trace, the fetch log is its link fetches in order, the counter counts those that returned, and one snapshot per dequeued entry. On a hit, the last dequeued entry is the first hit and the path is its path plus the end page, spelt as given. Otherwise no dequeued entry was a hit, every considered link was enqueued, the path is empty, and the queue is empty or the budget spent |
| Pathfinder.Visit | src/utils/pathfinder.ts:57-112 | One iteration: the head is reported with the counter and the remaining queue size. At the depth cutoff it is skipped without a fetch; a throwing fetch skips it and leaves the counter unchanged. Otherwise the counter grows by one and the goal is tested on every fetched link. On a miss the head's expansion is enqueued and the keys of its first 50 links are visited |
| Pathfinder.EnqueueLinks | src/utils/pathfinder.ts:91-102 | The queue gains, in order, one child entry per link of the batch whose key was not yet visited (first spelling wins), and the visited set gains the keys of the whole batch |
| Pathfinder.Iterate | src/utils/pathfinder.ts:56-112 | One iteration either ends with a hit and the promised outcome and connecting path, or preserves the loop state: the queue is the enqueued-but-not-dequeued entries, the visited set is their keys, the fetch log is the fetches so far |
| Pathfinder.Start | src/utils/pathfinder.ts:47-54 | The initial queue, visited set and counter satisfy the loop state |
| Pathfinder.StopWithoutHit | src/utils/pathfinder.ts:115-120 | Leaving the loop because the queue is empty or the budget is spent gives the not-found outcome with an empty path |
| Pathfinder.Advance | src/utils/pathfinder.ts:56-74 | An iteration keeps the trace, the well-formedness of what was enqueued, the counter equal to the fetches that returned and within the budget, and one correct snapshot per dequeue |
| Pathfinder.AdvanceSearch | src/utils/pathfinder.ts:56-102 | An iteration without a hit also keeps "no hit so far", "every considered link enqueued" and the queue spanning at most two levels |
| Pathfinder.WellFormedStep | src/utils/pathfinder.ts:91-101 | Enqueuing an expansion keeps every entry valid: its path starts at the start page, ends at its page, has depth + 1 titles along hops, and its depth is at most 3. No two enqueued entries share a key, depths stay non-decreasing, and the visited keys grow by exactly the keys of the links considered |
| Pathfinder.TraceStep | src/utils/pathfinder.ts:57-101 | Dequeuing the next entry and enqueuing its expansion extends the breadth-first trace by one step |
| Pathfinder.FetchesStep | src/utils/pathfinder.ts:68-74 | Dequeuing an entry adds its fetch to the log (none at the cutoff), and the counter grows by one exactly when a fetch above the cutoff returned |
| Pathfinder.SnapshotsStep | src/utils/pathfinder.ts:60-65 | Each snapshot reports the dequeued page, the counter before its fetch, the queue length after the dequeue, and its depth plus one |
| Pathfinder.ProgressMonotone | src/utils/pathfinder.ts:60-65 | The counter in successive snapshots never decreases and never exceeds the counter returned |
| Pathfinder.SuccessesMonotone | src/utils/pathfinder.ts:74 | The count of fetches that returned only grows along the dequeue order |
| Pathfinder.ExpansionBound | src/utils/pathfinder.ts:91-101 | One expansion enqueues at most 50 entries, each one level deeper, with the parent's path extended by the child's page |
| Pathfinder.ExpansionValid | src/utils/pathfinder.ts:91-101 | Enqueued children of a valid entry are valid entries one level deeper |
| Pathfinder.ExpansionKeys | src/utils/pathfinder.ts:92-95 | Enqueued children have fresh, pairwise distinct keys, and the enqueued keys grow by exactly the keys of the links considered |
| Pathfinder.NewLinksSubsequence | src/utils/pathfinder.ts:91-101 | What the loop enqueues is an order-preserving subsequence of the batch |
| Pathfinder.NewLinksFresh | src/utils/pathfinder.ts:92-95 | Enqueued links have keys not previously visited and distinct from each other |
| Pathfinder.NewLinksCover | src/utils/pathfinder.ts:92-95 | Afterwards every key of the batch is visited, and no other key was added |
| Pathfinder.NewLinksLength | src/utils/pathfinder.ts:91-101 | At most one entry is enqueued per link of the batch |
| Pathfinder.NewLinksAppend | src/utils/pathfinder.ts:91-101 | Running the loop over `a + b` is running it over `a`, then over `b` with the keys of `a` visited |
| Pathfinder.EnqueueStep | src/utils/pathfinder.ts:92-100 | One loop step adds the link's key to the visited keys and enqueues its child exactly when the key was not yet visited |
| Pathfinder.Take | src/utils/pathfinder.ts:91 | `slice(0, n)`: a prefix of the links, exactly n long when there are more than n, the whole list otherwise |
| Pathfinder.FirstMatch | src/utils/pathfinder.ts:77-79 | `find`: the link found has the target key and is the first link with it; none is found exactly when no link has the target key |
| Pathfinder.TargetFound | src/utils/pathfinder.ts:77-81 | The goal test: the first link with the target key exists and is not the empty string (JavaScript truthiness) |
| Pathfinder.TargetFoundIff | src/utils/pathfinder.ts:77-81 | A hit implies some fetched link has the target key; for a non-empty key, the converse holds too |
| Pathfinder.FoundPath | src/utils/pathfinder.ts:81-87 | The path returned on a hit starts at the start page, ends with the end page as spelt, has at most 4 titles, runs along hops, and its last page's links contain the end page's key |
| Pathfinder.ChainExtend | src/utils/pathfinder.ts:98 | Appending a hop to a chain gives a chain |
| Pathfinder.NormalizeTitle | src/utils/pathfinder.ts:123-125 | The key of a title: `trim`, then every space to an underscore, then lower case |
| Pathfinder.NormalizeTitleShape | src/utils/pathfinder.ts:123-125 | A key contains no space, has no whitespace at either end, and is empty exactly for a blank title |
| Pathfinder.NormalizeTitleIdempotent | src/utils/pathfinder.ts:123-125 | Normalising a key gives the same key |
| Pathfinder.ReplaceSpacesAt | src/utils/pathfinder.ts:124 | `replace(/ /g, '_')` keeps the length and turns exactly the spaces into underscores |
| Pathfinder.ToLowerAt | src/utils/pathfinder.ts:124 | `toLowerCase` keeps the length and lower-cases each character on its own |
| Pathfinder.ToLowerIdempotent | src/utils/pathfinder.ts:124 | Lower-casing twice is lower-casing once |
| Pathfinder.ReplaceSpacesNoSpace | src/utils/pathfinder.ts:124 | Replacing spaces changes nothing in a string without spaces |
| Pathfinder.KeySetAppend | src/utils/pathfinder.ts:92-95 | The keys of concatenated titles are the union of their keys |
| Pathfinder.DistinctKeysAt | src/utils/pathfinder.ts:94 | In a key-distinct sequence, titles at different positions have different keys |
| Pathfinder.SearchError.Message | src/utils/pathfinder.ts:41-43 | The message of the thrown error, naming the missing start or end page |
| Pathfinder.WikipediaProvider | src/utils/pathfinder.ts:35-73 | The provider `findPath` uses: existence is `pageExists` of the response, and every link fetch returns, with article titles only |
| Pathfinder.WikipediaHop | src/utils/wikipediaApi.ts:76-81 | Through the Wikipedia provider, every hop leads to an article title: no `:` and no `List of` prefix |
| Pathfinder.WikipediaPath | src/utils/wikipediaApi.ts:76-81 | A path found through the Wikipedia provider passes only through article titles between its ends, and the end page's key is the key of an article title among the links `getPageLinks` returns for the last page before it |
| Pathfinder.WikipediaCountsEveryFetch | src/utils/wikipediaApi.ts:82-85 | Since `getPageLinks` catches its own errors, through the Wikipedia provider the counter counts every link fetch |
| WikipediaApi.PageExists | src/utils/wikipediaApi.ts:43-57 | False when the request fails; true when `query.pages` is empty; otherwise true exactly when the first page id is not `-1` |
| WikipediaApi.GetPageLinks | src/utils/wikipediaApi.ts:59-86 | Empty when the request fails, the page is missing or has no `links`. Otherwise an order-preserving subsequence of the page's link titles containing no `:` and no `List of` prefix, and every such title is kept as often as it occurs |
| WikipediaApi.IsArticleTitle | src/utils/wikipediaApi.ts:78-81 | The filter's test: no `:` in the title and no `List of` prefix |
| WikipediaApi.ArticleTitles | src/utils/wikipediaApi.ts:78-81 | The filter keeps exactly the article titles, in order, each as many times as it occurs |
| WikipediaApi.LinkTitles | src/utils/wikipediaApi.ts:77 | `map(link => link.title)`: the titles of the links, position by position |
| WikipediaApi.StripTags | src/utils/wikipediaApi.ts:35 | The result has no `<` followed later by `>`, is no longer than the input, contains only characters of the input, and equals the input when the input has no `<` |
| WikipediaApi.StripTagsCons | src/utils/wikipediaApi.ts:35 | A first character other than `<` is kept, and stripping goes on after it |
| WikipediaApi.StripTagsKeepsText | src/utils/wikipediaApi.ts:35 | Text before the first `<` is kept unchanged |
| WikipediaApi.StripTagsRemovesTag | src/utils/wikipediaApi.ts:35 | A span `<...>` without `>` inside is removed entirely, and stripping goes on after it |
| WikipediaApi.AfterFirst | src/utils/wikipediaApi.ts:35 | A match of `<[^>]*>` ends at the first `>` after the `<` |
| WikipediaApi.StripTagsTagFree | src/utils/wikipediaApi.ts:35 | A string without tags is left unchanged |
| WikipediaApi.StripTagsIdempotent | src/utils/wikipediaApi.ts:35 | Stripping twice is stripping once |
| WikipediaApi.SearchPages | src/utils/wikipediaApi.ts:21-41 | Empty for a blank query or a failed request. Otherwise one hit per response hit, in order, with titles unchanged and each snippet the response's snippet with its tags stripped, hence free of tags |
| WikipediaApi.SearchKeepsPlainSnippets | src/utils/wikipediaApi.ts:33-36 | A hit whose snippet has no `<` comes back unchanged |
| WikipediaApi.BlankQueryIgnoresResponse | src/utils/wikipediaApi.ts:22 | A blank query gives nothing whatever the server would answer, so no request is needed |
| Text.Trim | src/utils/wikipediaApi.ts:22 | `trim`: leading and trailing ECMAScript whitespace and line terminators removed |
| Text.TrimShape | src/utils/wikipediaApi.ts:22 | `trim` gives a string no longer than the input, made of its characters, with no whitespace at either end, and empty exactly for an all-whitespace input |

## Left out

- `timeElapsed` and `Date.now()`: wall-clock time. `SearchResult` has no such field.
- The 100 ms pause after every fifth counted fetch (pathfinder.ts lines 104-107): it only delays, and changes no state the search reads.
- `Promise.all` over the two existence checks is modelled as two calls in order, start page first. Nothing else in the search is concurrent.
- `console.error` logging in the `catch` branches.
- `onProgress` is modelled as the returned sequence of snapshots rather than as a callback.
- `toLowerCase` is modelled on ASCII letters only, and strings are sequences of Dafny characters rather than UTF-16 code units. `trim` uses the ECMAScript whitespace and line-terminator set.
- `makeRequest`, `fetch`, URL building and JSON parsing: responses are modelled as parsed values. `None` stands for any throw (network error, non-OK status, malformed body, missing `query`). The request parameters (`pllimit = 500`, `plnamespace = 0`, `srlimit`) shape what the server sends and are outside the model.
- `getRandomPages`, the React components and src/App.tsx: user interface, random choice and rendering.
- Pathfinder.FindPath: the path found is the first hit in breadth-first order. Being a shortest chain in the link graph is not stated, because the 50-link cap and the budget mean the search does not explore the whole graph.
