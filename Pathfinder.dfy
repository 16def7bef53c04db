/**
 * The bounded breadth-first search of `WikipediaPathfinder.findPath`: a FIFO
 * queue of frontier entries, a visited set of normalised titles, a counter
 * of link fetches, a depth cutoff, a fetch budget, a cap on the children
 * taken from each page, an early return on the first page that links to the
 * target, and one progress snapshot per dequeued entry. The link provider
 * is injected as a pair of deterministic functions.
 */
module Pathfinder {
  import opened Wrappers
  import opened Text
  import WikipediaApi

  /** Entries at this depth are dequeued but never expanded. */
  const MaxDepth: nat := 3
  /** The search stops once this many link fetches have succeeded. */
  const MaxSearchedPages: nat := 1000
  /** At most this many of a page's links (the first ones) are considered for the queue. */
  const LinksPerPage: nat := 50

  // ------------------------------------------------------------ normalizeTitle

  /** `toLowerCase` on one character, over the ASCII letters. */
  function ToLowerChar(c: char): char
  {
    if 'A' <= c <= 'Z' then (c as int - 'A' as int + 'a' as int) as char else c
  }

  /** `s.replace(/ /g, '_')`. */
  function ReplaceSpaces(s: string): string
    decreases |s|
  {
    if s == [] then [] else [if s[0] == ' ' then '_' else s[0]] + ReplaceSpaces(s[1..])
  }

  /** `s.toLowerCase()`. */
  function ToLower(s: string): string
    decreases |s|
  {
    if s == [] then [] else [ToLowerChar(s[0])] + ToLower(s[1..])
  }

  /** `normalizeTitle`: trim, spaces to underscores, lower case; titles are compared by this key. */
  function NormalizeTitle(title: string): string
  {
    ToLower(ReplaceSpaces(Trim(title)))
  }

  /** `replace` maps each character on its own and puts an underscore for every space. */
  lemma {:induction false} ReplaceSpacesAt(s: string)
    ensures |ReplaceSpaces(s)| == |s|
    ensures forall i :: 0 <= i < |s| ==> ReplaceSpaces(s)[i] == if s[i] == ' ' then '_' else s[i]
    decreases |s|
  {
    if s != [] {
      ReplaceSpacesAt(s[1..]);
    }
  }

  /** `toLowerCase` maps each character on its own. */
  lemma {:induction false} ToLowerAt(s: string)
    ensures |ToLower(s)| == |s|
    ensures forall i :: 0 <= i < |s| ==> ToLower(s)[i] == ToLowerChar(s[i])
    decreases |s|
  {
    if s != [] {
      ToLowerAt(s[1..]);
    }
  }

  /**
   * A key has no space and no whitespace at either end, and is empty only
   * for a blank title.
   */
  lemma NormalizeTitleShape(title: string)
    ensures var n := NormalizeTitle(title);
      && ' ' !in n
      && (n != [] ==> !IsWhitespace(n[0]) && !IsWhitespace(n[|n| - 1]))
      && (n == [] <==> IsBlank(title))
  {
    var t := Trim(title);
    TrimShape(title);
    ReplaceSpacesAt(t);
    ToLowerAt(ReplaceSpaces(t));
  }

  /** Replacing spaces changes nothing in a string without spaces. */
  lemma {:induction false} ReplaceSpacesNoSpace(s: string)
    requires ' ' !in s
    ensures ReplaceSpaces(s) == s
    decreases |s|
  {
    if s != [] {
      assert s == [s[0]] + s[1..];
      ReplaceSpacesNoSpace(s[1..]);
    }
  }

  /** Lower-casing twice is lower-casing once. */
  lemma {:induction false} ToLowerIdempotent(s: string)
    ensures ToLower(ToLower(s)) == ToLower(s)
    decreases |s|
  {
    if s != [] {
      ToLowerIdempotent(s[1..]);
      assert ToLower(s)[1..] == ToLower(s[1..]);
    }
  }

  /** Normalising a key gives the key back. */
  lemma NormalizeTitleIdempotent(title: string)
    ensures NormalizeTitle(NormalizeTitle(title)) == NormalizeTitle(title)
  {
    var n := NormalizeTitle(title);
    NormalizeTitleShape(title);
    TrimTrimmed(n);
    ReplaceSpacesNoSpace(n);
    ToLowerIdempotent(ReplaceSpaces(Trim(title)));
  }

  /** The keys of a sequence of titles. */
  function KeySet(titles: seq<string>): set<string>
    decreases |titles|
  {
    if titles == [] then {} else {NormalizeTitle(titles[0])} + KeySet(titles[1..])
  }

  lemma {:induction false} KeySetAppend(a: seq<string>, b: seq<string>)
    ensures KeySet(a + b) == KeySet(a) + KeySet(b)
    decreases |a|
  {
    if a == [] {
      assert a + b == b;
    } else {
      assert (a + b)[1..] == a[1..] + b;
      KeySetAppend(a[1..], b);
    }
  }

  lemma {:induction false} KeySetMember(titles: seq<string>, i: nat)
    requires i < |titles|
    ensures NormalizeTitle(titles[i]) in KeySet(titles)
    decreases i
  {
    if i > 0 {
      KeySetMember(titles[1..], i - 1);
    }
  }

  // ---------------------------------------------------------------- the model

  /** A frontier entry: a page, the chain of titles from the start to it, and its depth. */
  datatype Entry = Entry(page: string, path: seq<string>, depth: nat)

  /** What `onProgress` receives once per dequeued entry. */
  datatype Progress = Progress(currentPage: string, searchedPages: nat, queueSize: nat, depth: nat)

  /** The value `findPath` resolves to (the elapsed time is not modelled). */
  datatype SearchResult = SearchResult(path: seq<string>, found: bool, searchedPages: nat)

  /** The error `findPath` throws when an endpoint does not exist. */
  datatype SearchError = StartNotFound(title: string) | EndNotFound(title: string)
  {
    /** The message of the thrown `Error`. */
    function Message(): string
    {
      match this
      case StartNotFound(t) => "Start page \"" + t + "\" not found"
      case EndNotFound(t) => "End page \"" + t + "\" not found"
    }
  }

  /** One call into the link provider, with whether a link fetch returned or threw. */
  datatype Call = ExistsCall(title: string) | LinksCall(title: string, succeeded: bool)

  /**
   * The link provider: whether a page exists, and the links of a page, where
   * `None` is a fetch that throws (the `catch` branch of the search loop).
   */
  datatype Provider = Provider(pageExists: string -> bool, pageLinks: string -> Option<seq<string>>)

  /** `links.slice(0, n)`. */
  function Take(links: seq<string>, n: nat): (r: seq<string>)
    ensures |r| <= n && |r| <= |links| && r == links[..|r|]
    ensures |links| <= n ==> r == links
    ensures |links| > n ==> |r| == n
  {
    if |links| <= n then links else links[..n]
  }

  // ---------------------------------------------------------------- goal test

  /** `links.find(link => normalizeTitle(link) === target)`. */
  function FirstMatch(links: seq<string>, target: string): (m: Option<string>)
    ensures m.Some? ==> m.value in links && NormalizeTitle(m.value) == target
    ensures m.None? <==> target !in KeySet(links)
    ensures m.Some? ==> exists i :: (0 <= i < |links| && links[i] == m.value &&
                                      forall j :: 0 <= j < i ==> NormalizeTitle(links[j]) != target)
    decreases |links|
  {
    if links == [] then None
    else if NormalizeTitle(links[0]) == target then Some(links[0])
    else
      assert forall t :: t in links ==> t == links[0] || t in links[1..];
      assert forall i :: 0 <= i < |links| - 1 ==> links[1..][i] == links[i + 1];
      FirstMatch(links[1..], target)
  }

  /**
   * The goal test `if (targetFound)`: JavaScript truthiness makes a first
   * matching link that is the empty string a miss.
   */
  predicate TargetFound(links: seq<string>, target: string)
  {
    var m := FirstMatch(links, target);
    m.Some? && m.value != ""
  }

  /**
   * The goal test looks at every fetched link, and for a non-empty key it
   * succeeds exactly when some link has that key.
   */
  lemma TargetFoundIff(links: seq<string>, target: string)
    ensures TargetFound(links, target) ==> target in KeySet(links)
    ensures target != "" ==> (TargetFound(links, target) <==> target in KeySet(links))
  {
    var m := FirstMatch(links, target);
    if m.Some? && target != "" {
      NormalizeTitleShape("");
    }
  }

  // ---------------------------------------------------------- frontier growth

  /**
   * The links the frontier-growth loop enqueues from `batch` when `visited`
   * holds the keys seen so far: each link whose key is not yet visited, the
   * first link with a given key winning.
   */
  function NewLinks(batch: seq<string>, visited: set<string>): seq<string>
    decreases |batch|
  {
    if batch == [] then []
    else if NormalizeTitle(batch[0]) in visited then NewLinks(batch[1..], visited)
    else [batch[0]] + NewLinks(batch[1..], visited + {NormalizeTitle(batch[0])})
  }

  /** What the loop enqueues is a subsequence of the batch, in the batch's order. */
  lemma {:induction false} NewLinksSubsequence(batch: seq<string>, visited: set<string>)
    ensures IsSubsequence(NewLinks(batch, visited), batch)
    decreases |batch|
  {
    if batch != [] {
      var k := NormalizeTitle(batch[0]);
      if k in visited {
        NewLinksSubsequence(batch[1..], visited);
      } else {
        NewLinksSubsequence(batch[1..], visited + {k});
      }
    }
  }

  /** No two of `titles` have the same key. */
  predicate DistinctKeys(titles: seq<string>)
    decreases |titles|
  {
    titles == [] || (NormalizeTitle(titles[0]) !in KeySet(titles[1..]) && DistinctKeys(titles[1..]))
  }

  /** Two titles at different positions of a `DistinctKeys` sequence have different keys. */
  lemma {:induction false} DistinctKeysAt(titles: seq<string>, i: nat, j: nat)
    requires DistinctKeys(titles) && i < j < |titles|
    ensures NormalizeTitle(titles[i]) != NormalizeTitle(titles[j])
    decreases i
  {
    if i == 0 {
      KeySetMember(titles[1..], j - 1);
    } else {
      DistinctKeysAt(titles[1..], i - 1, j - 1);
    }
  }

  /** Two key-distinct sequences with no key in common concatenate to a key-distinct sequence. */
  lemma {:induction false} DistinctKeysAppend(a: seq<string>, b: seq<string>)
    requires DistinctKeys(a) && DistinctKeys(b) && KeySet(a) !! KeySet(b)
    ensures DistinctKeys(a + b)
    decreases |a|
  {
    if a == [] {
      assert a + b == b;
    } else {
      assert (a + b)[1..] == a[1..] + b;
      DistinctKeysAppend(a[1..], b);
      KeySetAppend(a[1..], b);
    }
  }

  /** What the loop enqueues has keys that were not visited and differ from each other. */
  lemma {:induction false} NewLinksFresh(batch: seq<string>, visited: set<string>)
    ensures KeySet(NewLinks(batch, visited)) !! visited
    ensures DistinctKeys(NewLinks(batch, visited))
    decreases |batch|
  {
    if batch != [] {
      var k := NormalizeTitle(batch[0]);
      if k in visited {
        NewLinksFresh(batch[1..], visited);
      } else {
        NewLinksFresh(batch[1..], visited + {k});
        var rest := NewLinks(batch[1..], visited + {k});
        assert ([batch[0]] + rest)[1..] == rest;
      }
    }
  }

  /** After the loop every key of the batch is visited, and only those keys were added. */
  lemma {:induction false} NewLinksCover(batch: seq<string>, visited: set<string>)
    ensures visited + KeySet(NewLinks(batch, visited)) == visited + KeySet(batch)
    decreases |batch|
  {
    if batch != [] {
      var k := NormalizeTitle(batch[0]);
      if k in visited {
        NewLinksCover(batch[1..], visited);
      } else {
        NewLinksCover(batch[1..], visited + {k});
      }
    }
  }

  /** The loop enqueues at most one entry per link of the batch. */
  lemma {:induction false} NewLinksLength(batch: seq<string>, visited: set<string>)
    ensures |NewLinks(batch, visited)| <= |batch|
    decreases |batch|
  {
    if batch != [] {
      NewLinksLength(batch[1..], visited);
      NewLinksLength(batch[1..], visited + {NormalizeTitle(batch[0])});
    }
  }

  /** A new frontier entry for `link`, one hop below `parent`. */
  function Child(parent: Entry, link: string): Entry
  {
    Entry(link, parent.path + [link], parent.depth + 1)
  }

  /** The entries for `links` below `parent`, in order. */
  function Children(parent: Entry, links: seq<string>): (r: seq<Entry>)
    ensures |r| == |links| && forall i :: 0 <= i < |links| ==> r[i] == Child(parent, links[i])
  {
    seq(|links|, i requires 0 <= i < |links| => Child(parent, links[i]))
  }

  /** The pages of a sequence of entries. */
  function Pages(entries: seq<Entry>): (r: seq<string>)
    ensures |r| == |entries| && forall i :: 0 <= i < |entries| ==> r[i] == entries[i].page
  {
    seq(|entries|, i requires 0 <= i < |entries| => entries[i].page)
  }

  /**
   * The `for (const link of links.slice(0, 50))` loop: enqueue, in order, an
   * entry for each link whose key is not yet visited, marking the key visited.
   */
  method EnqueueLinks(current: Entry, batch: seq<string>, queue: seq<Entry>, visited: set<string>)
    returns (queue': seq<Entry>, visited': set<string>)
    ensures queue' == queue + Children(current, NewLinks(batch, visited))
    ensures visited' == visited + KeySet(batch)
  {
    queue', visited' := queue, visited;
    for i := 0 to |batch|
      invariant queue' == queue + Children(current, NewLinks(batch[..i], visited))
      invariant visited' == visited + KeySet(batch[..i])
    {
      var link := batch[i];
      var normalizedLink := NormalizeTitle(link);
      EnqueueStep(current, queue, batch, i, visited);
      if normalizedLink !in visited' {
        visited' := visited' + {normalizedLink};
        queue' := queue' + [Child(current, link)];
      }
    }
    assert batch[..|batch|] == batch;
  }

  /** Enqueuing from `a` then from `b` is enqueuing from `a + b`, the keys of `a` visited meanwhile. */
  lemma {:induction false} NewLinksAppend(a: seq<string>, b: seq<string>, visited: set<string>)
    ensures NewLinks(a + b, visited) == NewLinks(a, visited) + NewLinks(b, visited + KeySet(a))
    decreases |a|
  {
    if a == [] {
      assert a + b == b && visited + KeySet(a) == visited;
      assert NewLinks(a, visited) + NewLinks(b, visited) == NewLinks(b, visited);
    } else {
      var k := NormalizeTitle(a[0]);
      assert (a + b)[0] == a[0] && (a + b)[1..] == a[1..] + b;
      assert KeySet(a) == {k} + KeySet(a[1..]);
      if k in visited {
        NewLinksAppend(a[1..], b, visited);
        assert visited + KeySet(a[1..]) == visited + KeySet(a);
      } else {
        var v := visited + {k};
        NewLinksAppend(a[1..], b, v);
        assert v + KeySet(a[1..]) == visited + KeySet(a);
        calc {
          NewLinks(a + b, visited);
          [a[0]] + NewLinks(a[1..] + b, v);
          [a[0]] + (NewLinks(a[1..], v) + NewLinks(b, v + KeySet(a[1..])));
          ([a[0]] + NewLinks(a[1..], v)) + NewLinks(b, visited + KeySet(a));
        }
      }
    }
  }

  /** The loop over the batch at index `i`: what one more link adds to the queue and to the keys seen. */
  lemma EnqueueStep(current: Entry, queue: seq<Entry>, batch: seq<string>, i: nat, visited: set<string>)
    requires i < |batch|
    ensures var seen, k := visited + KeySet(batch[..i]), NormalizeTitle(batch[i]);
      && visited + KeySet(batch[..i + 1]) == seen + {k}
      && (k in seen ==>
            queue + Children(current, NewLinks(batch[..i + 1], visited))
            == queue + Children(current, NewLinks(batch[..i], visited)))
      && (k !in seen ==>
            queue + Children(current, NewLinks(batch[..i + 1], visited))
            == queue + Children(current, NewLinks(batch[..i], visited)) + [Child(current, batch[i])])
  {
    var link := batch[i];
    assert batch[..i + 1] == batch[..i] + [link];
    KeySetAppend(batch[..i], [link]);
    assert KeySet([link]) == {NormalizeTitle(link)};
    NewLinksAppend(batch[..i], [link], visited);
    var prefix := NewLinks(batch[..i], visited);
    if NormalizeTitle(link) in visited + KeySet(batch[..i]) {
      assert prefix + [] == prefix;
    } else {
      assert NewLinks([link][1..], visited + KeySet(batch[..i]) + {NormalizeTitle(link)}) == [];
      assert Children(current, prefix + [link]) == Children(current, prefix) + [Child(current, link)];
    }
  }

  /** The pages of appended entries are the appended pages. */
  lemma PagesAppend(a: seq<Entry>, b: seq<Entry>)
    ensures Pages(a + b) == Pages(a) + Pages(b)
  {
    assert forall i :: 0 <= i < |a + b| ==> Pages(a + b)[i] == (Pages(a) + Pages(b))[i];
  }

  /** The entries made for some links have those links as pages. */
  lemma PagesChildren(parent: Entry, links: seq<string>)
    ensures Pages(Children(parent, links)) == links
  {
  }

  // ---------------------------------------------------------------- the search

  /** `to` is among the first `LinksPerPage` links fetched from `from`: a hop the frontier can take. */
  predicate Hop(p: Provider, from: string, to: string)
  {
    p.pageLinks(from).Some? && to in Take(p.pageLinks(from).value, LinksPerPage)
  }

  /** Each title of `path` but the last has the next one among its first `LinksPerPage` links. */
  predicate IsChain(p: Provider, path: seq<string>)
  {
    forall i :: 0 <= i < |path| - 1 ==> Hop(p, path[i], path[i + 1])
  }

  /**
   * A frontier entry as the search builds it: its path runs from the start
   * page to its page along hops, has `depth + 1` titles, and the depth is
   * within the cutoff.
   */
  predicate ValidEntry(p: Provider, startPage: string, e: Entry)
  {
    && e.depth <= MaxDepth && |e.path| == e.depth + 1
    && e.path[0] == startPage && e.path[e.depth] == e.page
    && IsChain(p, e.path)
  }

  /**
   * What holds of every entry the search ever enqueued: the first is the
   * start entry, all are valid, no two share a key (a key is enqueued at most
   * once), and they were enqueued in non-decreasing depth (breadth-first order).
   */
  predicate WellFormed(p: Provider, startPage: string, discovered: seq<Entry>)
  {
    && |discovered| >= 1 && discovered[0] == Entry(startPage, [startPage], 0)
    && (forall i :: 0 <= i < |discovered| ==> ValidEntry(p, startPage, discovered[i]))
    && DistinctKeys(Pages(discovered))
    && (forall i, j :: 0 <= i < j < |discovered| ==> discovered[i].depth <= discovered[j].depth)
  }

  /** Dequeuing `e` fetches its links (it is above the cutoff) and the fetch returns. */
  predicate Expanded(p: Provider, e: Entry)
  {
    e.depth < MaxDepth && p.pageLinks(e.page).Some?
  }

  /** Dequeuing `e` ends the search: its fetched links contain the target key. */
  predicate Hit(p: Provider, e: Entry, target: string)
  {
    Expanded(p, e) && TargetFound(p.pageLinks(e.page).value, target)
  }

  /** The entries enqueued when `e` is dequeued while `visited` holds the keys seen so far. */
  function Expansion(p: Provider, e: Entry, target: string, visited: set<string>): seq<Entry>
  {
    if Expanded(p, e) && !Hit(p, e, target) then
      Children(e, NewLinks(Take(p.pageLinks(e.page).value, LinksPerPage), visited))
    else []
  }

  /** The link fetch made when `e` is dequeued: none at or below the depth cutoff. */
  function FetchOf(p: Provider, e: Entry): seq<Call>
  {
    if e.depth < MaxDepth then [LinksCall(e.page, p.pageLinks(e.page).Some?)] else []
  }

  /** The link fetches made for a sequence of dequeued entries, in order. */
  function Fetches(p: Provider, dequeued: seq<Entry>): seq<Call>
    decreases |dequeued|
  {
    if dequeued == [] then []
    else Fetches(p, dequeued[..|dequeued| - 1]) + FetchOf(p, dequeued[|dequeued| - 1])
  }

  /** How many of `calls` are link fetches that returned: what `searchedPages` counts. */
  function Successes(calls: seq<Call>): nat
    decreases |calls|
  {
    if calls == [] then 0
    else
      var c := calls[|calls| - 1];
      Successes(calls[..|calls| - 1]) + if c.LinksCall? && c.succeeded then 1 else 0
  }

  /**
   * The snapshot reported when `discovered[k]` is dequeued, `boundary[k]`
   * entries having been enqueued by then.
   */
  function Snapshot(p: Provider, discovered: seq<Entry>, boundary: seq<nat>, k: nat): Progress
    requires k < |discovered| && k < |boundary| && k < boundary[k]
  {
    Progress(discovered[k].page, Successes(Fetches(p, discovered[..k])), boundary[k] - k - 1, discovered[k].depth + 1)
  }

  /**
   * Dequeuing `discovered[k]` enqueued `discovered[boundary[k]..boundary[k + 1]]`,
   * exactly its `Expansion` given the keys enqueued before.
   */
  predicate StepAt(p: Provider, target: string, discovered: seq<Entry>, boundary: seq<nat>, k: nat)
  {
    && k < |discovered| && k + 1 < |boundary| && boundary[k] <= boundary[k + 1] <= |discovered|
    && discovered[boundary[k]..boundary[k + 1]]
       == Expansion(p, discovered[k], target, KeySet(Pages(discovered[..boundary[k]])))
  }

  /**
   * The `k`-th snapshot is the one `Snapshot` describes, and it was taken
   * with budget left.
   */
  predicate ReportedAt(p: Provider, discovered: seq<Entry>, boundary: seq<nat>, progress: seq<Progress>, k: nat)
  {
    && k < |progress| && k < |discovered| && k < |boundary| && k < boundary[k]
    && progress[k] == Snapshot(p, discovered, boundary, k)
    && progress[k].searchedPages < MaxSearchedPages
  }

  /**
   * The breadth-first run, step by step: `discovered` is every entry
   * enqueued, in enqueue order (the queue is FIFO, so also dequeue order);
   * the first `dequeued` were taken off the queue; `boundary[k]` entries had
   * been enqueued when the `k`-th was taken, so the queue then held
   * `discovered[k + 1..boundary[k]]`; and dequeuing the `k`-th enqueued
   * exactly its `Expansion` given the keys enqueued before.
   */
  predicate Trace(p: Provider, startPage: string, target: string, discovered: seq<Entry>, boundary: seq<nat>, dequeued: nat)
  {
    && |discovered| >= 1 && discovered[0] == Entry(startPage, [startPage], 0)
    && dequeued <= |discovered| && |boundary| == dequeued + 1
    && boundary[0] == 1 && boundary[dequeued] == |discovered|
    && (forall k :: 0 <= k < dequeued ==> k < boundary[k])
    && (forall i, j :: 0 <= i <= j <= dequeued ==> boundary[i] <= boundary[j])
    && (forall k :: 0 <= k < dequeued ==> StepAt(p, target, discovered, boundary, k))
  }

  /**
   * What holds after every step of the search, `n` entries having been
   * dequeued: the trace so far, the well-formedness of what was enqueued,
   * the counter equal to the fetches that returned and within the budget,
   * and one snapshot per dequeued entry.
   */
  predicate StepInvariant(p: Provider, startPage: string, target: string, discovered: seq<Entry>,
                          boundary: seq<nat>, progress: seq<Progress>, searched: nat)
  {
    var n := |progress|;
    && Trace(p, startPage, target, discovered, boundary, n)
    && WellFormed(p, startPage, discovered)
    && searched == Successes(Fetches(p, discovered[..n])) && searched <= MaxSearchedPages
    && (forall k :: 0 <= k < n ==> ReportedAt(p, discovered, boundary, progress, k))
  }

  /**
   * The invariant of the search loop: the step invariant, the last enqueued
   * entry at most one level below the queue's head, no hit so far, and every
   * link a past expansion considered already enqueued.
   */
  predicate SearchInvariant(p: Provider, startPage: string, target: string, discovered: seq<Entry>,
                            boundary: seq<nat>, progress: seq<Progress>, searched: nat)
  {
    var n := |progress|;
    && StepInvariant(p, startPage, target, discovered, boundary, progress, searched)
    && (n < |discovered| ==> discovered[|discovered| - 1].depth <= discovered[n].depth + 1)
    && NoHitBefore(p, target, discovered, n)
    && Explored(p, discovered, n)
  }

  /** None of the first `n` entries is a hit. */
  predicate NoHitBefore(p: Provider, target: string, discovered: seq<Entry>, n: nat)
  {
    n <= |discovered| && forall k :: 0 <= k < n ==> !Hit(p, discovered[k], target)
  }

  /** Every link considered when expanding one of the first `n` entries was enqueued. */
  predicate Explored(p: Provider, discovered: seq<Entry>, n: nat)
  {
    && n <= |discovered|
    && forall k :: 0 <= k < n && Expanded(p, discovered[k]) ==>
         KeySet(Take(p.pageLinks(discovered[k].page).value, LinksPerPage)) <= KeySet(Pages(discovered))
  }

  /** A hop to one of the first links extends a chain. */
  lemma ChainExtend(p: Provider, path: seq<string>, link: string)
    requires IsChain(p, path) && path != [] && Hop(p, path[|path| - 1], link)
    ensures IsChain(p, path + [link])
  {
    var q := path + [link];
    forall i | 0 <= i < |q| - 1 ensures Hop(p, q[i], q[i + 1]) {
      if i < |path| - 1 {
        assert q[i] == path[i] && q[i + 1] == path[i + 1];
      }
    }
  }

  /** Dequeuing `d[n]` and enqueuing its expansion extends the trace by one step. */
  lemma TraceStep(p: Provider, startPage: string, target: string, d: seq<Entry>, b: seq<nat>, n: nat,
                  d': seq<Entry>, b': seq<nat>)
    requires Trace(p, startPage, target, d, b, n) && n < |d|
    requires d' == d + Expansion(p, d[n], target, KeySet(Pages(d))) && b' == b + [|d'|]
    ensures Trace(p, startPage, target, d', b', n + 1)
  {
    assert d'[..|d|] == d;
    forall k | 0 <= k < n + 1 ensures StepAt(p, target, d', b', k) {
      if k < n {
        assert StepAt(p, target, d, b, k);
        assert b'[k] == b[k] && b'[k + 1] == b[k + 1] && b[k + 1] <= b[n];
        assert d'[b[k]..b[k + 1]] == d[b[k]..b[k + 1]];
        assert d'[..b[k]] == d[..b[k]];
      } else {
        assert d'[|d|..|d'|] == Expansion(p, d[n], target, KeySet(Pages(d)));
      }
    }
  }

  /** The children of an entry above the cutoff are valid entries one level deeper. */
  lemma ChildrenValid(p: Provider, startPage: string, e: Entry, links: seq<string>)
    requires ValidEntry(p, startPage, e) && e.depth < MaxDepth
    requires forall l :: l in links ==> Hop(p, e.page, l)
    ensures forall c :: c in Children(e, links) ==> ValidEntry(p, startPage, c) && c.depth == e.depth + 1
  {
    forall c | c in Children(e, links) ensures ValidEntry(p, startPage, c) && c.depth == e.depth + 1 {
      var i :| 0 <= i < |links| && Children(e, links)[i] == c;
      ChainExtend(p, e.path, links[i]);
    }
  }

  /** Appending valid entries one level below the last keeps entries valid and in depth order. */
  lemma AppendLevel(p: Provider, startPage: string, d: seq<Entry>, added: seq<Entry>, depth: nat)
    requires d != []
    requires forall i :: 0 <= i < |d| ==> ValidEntry(p, startPage, d[i])
    requires forall i, j :: 0 <= i < j < |d| ==> d[i].depth <= d[j].depth
    requires d[|d| - 1].depth <= depth
    requires forall c :: c in added ==> ValidEntry(p, startPage, c) && c.depth == depth
    ensures forall i :: 0 <= i < |d + added| ==> ValidEntry(p, startPage, (d + added)[i])
    ensures forall i, j :: 0 <= i < j < |d + added| ==> (d + added)[i].depth <= (d + added)[j].depth
  {
    var d' := d + added;
    forall i | 0 <= i < |d'| ensures ValidEntry(p, startPage, d'[i]) {
      if i >= |d| { assert d'[i] in added; }
    }
    forall i, j | 0 <= i < j < |d'| ensures d'[i].depth <= d'[j].depth {
      if j >= |d| {
        assert d'[j] in added;
        if i < |d| { assert d[i].depth <= d[|d| - 1].depth; }
        else { assert d'[i] in added; }
      }
    }
  }

  /** The entries an expansion enqueues are valid and one level below the expanded entry. */
  lemma ExpansionValid(p: Provider, startPage: string, target: string, visited: set<string>, e: Entry,
                       added: seq<Entry>)
    requires ValidEntry(p, startPage, e) && added == Expansion(p, e, target, visited)
    ensures forall c :: c in added ==> ValidEntry(p, startPage, c) && c.depth == e.depth + 1
  {
    if Expanded(p, e) && !Hit(p, e, target) {
      var batch := Take(p.pageLinks(e.page).value, LinksPerPage);
      var newLinks := NewLinks(batch, visited);
      NewLinksSubsequence(batch, visited);
      SubsequenceElements(newLinks, batch);
      ChildrenValid(p, startPage, e, newLinks);
    }
  }

  /**
   * One expansion enqueues at most `LinksPerPage` entries, each one level
   * below the expanded entry with the expanded entry's path extended by its page.
   */
  lemma ExpansionBound(p: Provider, e: Entry, target: string, visited: set<string>)
    ensures |Expansion(p, e, target, visited)| <= LinksPerPage
    ensures forall c :: c in Expansion(p, e, target, visited) ==> c.depth == e.depth + 1 && c.path == e.path + [c.page]
  {
    if Expanded(p, e) && !Hit(p, e, target) {
      NewLinksLength(Take(p.pageLinks(e.page).value, LinksPerPage), visited);
    }
  }

  /**
   * The entries an expansion enqueues have fresh distinct keys, and add
   * exactly the keys of the links considered.
   */
  lemma ExpansionKeys(p: Provider, target: string, d: seq<Entry>, e: Entry, added: seq<Entry>)
    requires DistinctKeys(Pages(d)) && added == Expansion(p, e, target, KeySet(Pages(d)))
    ensures DistinctKeys(Pages(d + added))
    ensures KeySet(Pages(d + added)) ==
      if Expanded(p, e) && !Hit(p, e, target)
      then KeySet(Pages(d)) + KeySet(Take(p.pageLinks(e.page).value, LinksPerPage))
      else KeySet(Pages(d))
  {
    PagesAppend(d, added);
    if Expanded(p, e) && !Hit(p, e, target) {
      var batch := Take(p.pageLinks(e.page).value, LinksPerPage);
      var newLinks := NewLinks(batch, KeySet(Pages(d)));
      PagesChildren(e, newLinks);
      NewLinksFresh(batch, KeySet(Pages(d)));
      NewLinksCover(batch, KeySet(Pages(d)));
      KeySetAppend(Pages(d), newLinks);
      DistinctKeysAppend(Pages(d), newLinks);
    } else {
      assert d + added == d;
    }
  }

  /**
   * Enqueuing the expansion of `d[n]` keeps what was enqueued well-formed and
   * breadth-first, and adds exactly the keys of the links it considered.
   */
  lemma WellFormedStep(p: Provider, startPage: string, target: string, d: seq<Entry>, n: nat, d': seq<Entry>)
    requires WellFormed(p, startPage, d) && n < |d|
    requires d[|d| - 1].depth <= d[n].depth + 1
    requires d' == d + Expansion(p, d[n], target, KeySet(Pages(d)))
    ensures WellFormed(p, startPage, d')
    ensures n + 1 < |d'| ==> d'[|d'| - 1].depth <= d'[n + 1].depth + 1
    ensures KeySet(Pages(d')) ==
      if Expanded(p, d[n]) && !Hit(p, d[n], target)
      then KeySet(Pages(d)) + KeySet(Take(p.pageLinks(d[n].page).value, LinksPerPage))
      else KeySet(Pages(d))
  {
    var e := d[n];
    var added := Expansion(p, e, target, KeySet(Pages(d)));
    ExpansionKeys(p, target, d, e, added);
    ExpansionValid(p, startPage, target, KeySet(Pages(d)), e, added);
    AppendLevel(p, startPage, d, added, e.depth + 1);
    assert d'[0] == d[0];
    if n + 1 < |d'| {
      assert d'[|d'| - 1].depth <= e.depth + 1 by {
        if |added| > 0 { assert d'[|d'| - 1] in added; }
      }
      assert d'[n + 1].depth >= e.depth;
    }
  }

  /** The fetch log and the counter grow by what dequeuing `d[n]` does. */
  lemma FetchesStep(p: Provider, d: seq<Entry>, n: nat)
    requires n < |d|
    ensures Fetches(p, d[..n + 1]) == Fetches(p, d[..n]) + FetchOf(p, d[n])
    ensures Successes(Fetches(p, d[..n + 1])) == Successes(Fetches(p, d[..n])) + if Expanded(p, d[n]) then 1 else 0
  {
    assert d[..n + 1][..n] == d[..n];
    var c := Fetches(p, d[..n]);
    if d[n].depth < MaxDepth {
      assert (c + FetchOf(p, d[n]))[..|c|] == c;
    } else {
      assert c + FetchOf(p, d[n]) == c;
    }
  }

  /** Reporting the dequeued entry's snapshot extends the snapshots by one. */
  lemma SnapshotsStep(p: Provider, d: seq<Entry>, b: seq<nat>, progress: seq<Progress>, searched: nat,
                      added: seq<Entry>, d': seq<Entry>, b': seq<nat>, progress': seq<Progress>)
    requires |progress| < |d| && |b| == |progress| + 1 && b[|progress|] == |d|
    requires searched == Successes(Fetches(p, d[..|progress|])) && searched < MaxSearchedPages
    requires forall k :: 0 <= k < |progress| ==> ReportedAt(p, d, b, progress, k)
    requires d' == d + added && b' == b + [|d'|]
    requires var n := |progress|;
      progress' == progress + [Progress(d[n].page, searched, |d| - n - 1, d[n].depth + 1)]
    ensures forall k :: 0 <= k < |progress'| ==> ReportedAt(p, d', b', progress', k)
  {
    var n := |progress|;
    assert d'[..|d|] == d && b'[..|b|] == b && progress'[..n] == progress;
    forall k | 0 <= k < n + 1 ensures ReportedAt(p, d', b', progress', k) {
      if k < n {
        ReportedKept(p, d, b, progress, d', b', progress', k);
      } else {
        ReportedNew(p, d, b, progress, searched, d', b', progress');
      }
    }
  }

  /** The snapshot of the entry just dequeued is the one `Snapshot` describes. */
  lemma ReportedNew(p: Provider, d: seq<Entry>, b: seq<nat>, progress: seq<Progress>, searched: nat,
                    d': seq<Entry>, b': seq<nat>, progress': seq<Progress>)
    requires |progress| < |d| && |b| == |progress| + 1 && b[|progress|] == |d|
    requires searched == Successes(Fetches(p, d[..|progress|])) && searched < MaxSearchedPages
    requires |d| <= |d'| && d'[..|d|] == d && |b'| == |b| + 1 && b'[..|b|] == b
    requires var n := |progress|;
      progress' == progress + [Progress(d[n].page, searched, |d| - n - 1, d[n].depth + 1)]
    ensures ReportedAt(p, d', b', progress', |progress|)
  {
    var n := |progress|;
    assert d'[..n] == d[..n] && d'[n] == d[n] && b'[n] == b[n];
  }

  /** A snapshot already reported stays correct when the run grows. */
  lemma ReportedKept(p: Provider, d: seq<Entry>, b: seq<nat>, progress: seq<Progress>,
                     d': seq<Entry>, b': seq<nat>, progress': seq<Progress>, k: nat)
    requires ReportedAt(p, d, b, progress, k)
    requires |d| <= |d'| && d'[..|d|] == d && |b| <= |b'| && b'[..|b|] == b
    requires |progress| <= |progress'| && progress'[..|progress|] == progress
    ensures ReportedAt(p, d', b', progress', k)
  {
    assert d'[..k] == d[..k] && d'[k] == d[k] && b'[k] == b[k] && progress'[k] == progress[k];
  }

  /**
   * The state one iteration of the search loop moves to: `d[n]` dequeued and
   * reported, its expansion enqueued, the counter bumped when it was fetched.
   */
  predicate Next(p: Provider, target: string, d: seq<Entry>, b: seq<nat>, progress: seq<Progress>, searched: nat,
                 d': seq<Entry>, b': seq<nat>, progress': seq<Progress>, searched': nat)
    requires |progress| < |d|
  {
    var n := |progress|;
    && d' == d + Expansion(p, d[n], target, KeySet(Pages(d)))
    && b' == b + [|d'|]
    && progress' == progress + [Progress(d[n].page, searched, |d| - n - 1, d[n].depth + 1)]
    && searched' == searched + if Expanded(p, d[n]) then 1 else 0
  }

  /** One iteration of the search loop keeps the step invariant. */
  lemma Advance(p: Provider, startPage: string, target: string, d: seq<Entry>, b: seq<nat>,
                progress: seq<Progress>, searched: nat,
                d': seq<Entry>, b': seq<nat>, progress': seq<Progress>, searched': nat)
    requires StepInvariant(p, startPage, target, d, b, progress, searched)
    requires |progress| < |d| && searched < MaxSearchedPages
    requires d[|d| - 1].depth <= d[|progress|].depth + 1
    requires Next(p, target, d, b, progress, searched, d', b', progress', searched')
    ensures StepInvariant(p, startPage, target, d', b', progress', searched')
  {
    var n := |progress|;
    AdvanceRun(p, startPage, target, d, b, n, d', b');
    AdvanceReports(p, d, b, progress, searched, Expansion(p, d[n], target, KeySet(Pages(d))), d', b', progress', searched');
  }

  /** Enqueuing the expansion of `d[n]` keeps the trace and the well-formedness of what was enqueued. */
  lemma AdvanceRun(p: Provider, startPage: string, target: string, d: seq<Entry>, b: seq<nat>, n: nat,
                   d': seq<Entry>, b': seq<nat>)
    requires Trace(p, startPage, target, d, b, n) && WellFormed(p, startPage, d) && n < |d|
    requires d[|d| - 1].depth <= d[n].depth + 1
    requires d' == d + Expansion(p, d[n], target, KeySet(Pages(d))) && b' == b + [|d'|]
    ensures Trace(p, startPage, target, d', b', n + 1) && WellFormed(p, startPage, d')
  {
    TraceStep(p, startPage, target, d, b, n, d', b');
    WellFormedStep(p, startPage, target, d, n, d');
  }

  /** Dequeuing `d[n]` keeps the counter equal to the fetches that returned, and adds its snapshot. */
  lemma AdvanceReports(p: Provider, d: seq<Entry>, b: seq<nat>, progress: seq<Progress>, searched: nat,
                       added: seq<Entry>, d': seq<Entry>, b': seq<nat>, progress': seq<Progress>, searched': nat)
    requires |progress| < |d| && |b| == |progress| + 1 && b[|progress|] == |d|
    requires searched == Successes(Fetches(p, d[..|progress|])) && searched < MaxSearchedPages
    requires forall k :: 0 <= k < |progress| ==> ReportedAt(p, d, b, progress, k)
    requires d' == d + added && b' == b + [|d'|]
    requires var n := |progress|;
      && progress' == progress + [Progress(d[n].page, searched, |d| - n - 1, d[n].depth + 1)]
      && searched' == searched + if Expanded(p, d[n]) then 1 else 0
    ensures searched' == Successes(Fetches(p, d'[..|progress'|])) && searched' <= MaxSearchedPages
    ensures forall k :: 0 <= k < |progress'| ==> ReportedAt(p, d', b', progress', k)
  {
    var n := |progress|;
    assert searched' == Successes(Fetches(p, d'[..n + 1])) by {
      FetchesStep(p, d, n);
      assert d'[..n + 1] == d[..n + 1];
    }
    assert forall k :: 0 <= k < |progress'| ==> ReportedAt(p, d', b', progress', k) by {
      SnapshotsStep(p, d, b, progress, searched, added, d', b', progress');
    }
  }

  /** Without a hit, one iteration keeps the whole loop invariant. */
  lemma AdvanceSearch(p: Provider, startPage: string, target: string, d: seq<Entry>, b: seq<nat>,
                      progress: seq<Progress>, searched: nat,
                      d': seq<Entry>, b': seq<nat>, progress': seq<Progress>, searched': nat)
    requires SearchInvariant(p, startPage, target, d, b, progress, searched)
    requires |progress| < |d| && searched < MaxSearchedPages && !Hit(p, d[|progress|], target)
    requires Next(p, target, d, b, progress, searched, d', b', progress', searched')
    ensures SearchInvariant(p, startPage, target, d', b', progress', searched')
  {
    var n := |progress|;
    assert StepInvariant(p, startPage, target, d', b', progress', searched') by {
      Advance(p, startPage, target, d, b, progress, searched, d', b', progress', searched');
    }
    SearchStep(p, startPage, target, d, n, d');
    assert |progress'| == n + 1;
  }

  /**
   * Without a hit, expanding `d[n]` keeps the frontier at most one level
   * deep, no hit behind the queue's head, and every considered link enqueued.
   */
  lemma SearchStep(p: Provider, startPage: string, target: string, d: seq<Entry>, n: nat, d': seq<Entry>)
    requires WellFormed(p, startPage, d) && n < |d| && d[|d| - 1].depth <= d[n].depth + 1
    requires NoHitBefore(p, target, d, n) && Explored(p, d, n) && !Hit(p, d[n], target)
    requires d' == d + Expansion(p, d[n], target, KeySet(Pages(d)))
    ensures n + 1 < |d'| ==> d'[|d'| - 1].depth <= d'[n + 1].depth + 1
    ensures NoHitBefore(p, target, d', n + 1) && Explored(p, d', n + 1)
  {
    WellFormedStep(p, startPage, target, d, n, d');
    assert d'[..|d|] == d;
    ExploredStep(p, d, n, d');
    forall k | 0 <= k < n + 1 ensures !Hit(p, d'[k], target) {
      assert d'[k] == d[k];
    }
  }

  /** Expanding `d[n]` into `d'` leaves every considered link enqueued. */
  lemma ExploredStep(p: Provider, d: seq<Entry>, n: nat, d': seq<Entry>)
    requires Explored(p, d, n) && n < |d| <= |d'| && d'[..|d|] == d
    requires KeySet(Pages(d)) <= KeySet(Pages(d'))
    requires Expanded(p, d[n]) ==> KeySet(Take(p.pageLinks(d[n].page).value, LinksPerPage)) <= KeySet(Pages(d'))
    ensures Explored(p, d', n + 1)
  {
    forall k | 0 <= k < n + 1 && Expanded(p, d'[k])
      ensures KeySet(Take(p.pageLinks(d'[k].page).value, LinksPerPage)) <= KeySet(Pages(d'))
    {
      assert d'[k] == d[k];
    }
  }

  /**
   * A path as `findPath` reports a hit: from the start page along hops to
   * the end page as the caller spelt it, within the depth cutoff, its last
   * hop to a page whose links, all of them, include the end page's key.
   */
  predicate ConnectingPath(p: Provider, startPage: string, endPage: string, path: seq<string>)
  {
    && 2 <= |path| <= MaxDepth + 1
    && path[0] == startPage && path[|path| - 1] == endPage
    && IsChain(p, path[..|path| - 1])
    && p.pageLinks(path[|path| - 2]).Some?
    && NormalizeTitle(endPage) in KeySet(p.pageLinks(path[|path| - 2]).value)
  }

  /** The path returned on a hit at a valid entry connects the two pages. */
  lemma FoundPath(p: Provider, startPage: string, endPage: string, e: Entry)
    requires ValidEntry(p, startPage, e) && Hit(p, e, NormalizeTitle(endPage))
    ensures ConnectingPath(p, startPage, endPage, e.path + [endPage])
  {
    var path := e.path + [endPage];
    assert path[..|path| - 1] == e.path;
    TargetFoundIff(p.pageLinks(e.page).value, NormalizeTitle(endPage));
  }

  /**
   * What the breadth-first loop did, `n` entries having been dequeued: the
   * run is the breadth-first trace, `fetches` are its link fetches in order,
   * the counter counts those that returned and stays within the budget,
   * there is one snapshot per dequeued entry, and every link an expansion
   * considered was enqueued. On a hit, the last entry dequeued is the first
   * hit and the path is its path plus the end page; otherwise no entry
   * dequeued was a hit and the loop stopped because the queue emptied or the
   * budget ran out.
   */
  predicate SearchOutcome(p: Provider, startPage: string, endPage: string, found: bool, path: seq<string>,
                          searched: nat, progress: seq<Progress>, fetches: seq<Call>,
                          discovered: seq<Entry>, boundary: seq<nat>)
  {
    var n := |progress|;
    var target := NormalizeTitle(endPage);
    && Trace(p, startPage, target, discovered, boundary, n)
    && WellFormed(p, startPage, discovered)
    && fetches == Fetches(p, discovered[..n])
    && searched == Successes(fetches) && searched <= MaxSearchedPages
    && (forall k :: 0 <= k < n ==> ReportedAt(p, discovered, boundary, progress, k))
    && if found then
         && n >= 1 && NoHitBefore(p, target, discovered, n - 1) && Explored(p, discovered, n - 1)
         && Hit(p, discovered[n - 1], target) && path == discovered[n - 1].path + [endPage]
       else
         && path == [] && NoHitBefore(p, target, discovered, n) && Explored(p, discovered, n)
         && (n == |discovered| || searched == MaxSearchedPages)
  }

  /** The count of fetches that returned grows along the dequeue order. */
  lemma {:induction false} SuccessesMonotone(p: Provider, d: seq<Entry>, i: nat, j: nat)
    requires i <= j <= |d|
    ensures Successes(Fetches(p, d[..i])) <= Successes(Fetches(p, d[..j]))
    decreases j - i
  {
    if i == j {
      assert d[..i] == d[..j];
    } else {
      SuccessesMonotone(p, d, i, j - 1);
      var before, after := Successes(Fetches(p, d[..j - 1])), Successes(Fetches(p, d[..j]));
      assert before <= after by {
        FetchesStep(p, d, j - 1);
      }
    }
  }

  /**
   * The counter the snapshots report never decreases, and never exceeds the
   * counter the search returns.
   */
  lemma ProgressMonotone(p: Provider, startPage: string, endPage: string, found: bool, path: seq<string>,
                         searched: nat, progress: seq<Progress>, fetches: seq<Call>,
                         discovered: seq<Entry>, boundary: seq<nat>)
    requires SearchOutcome(p, startPage, endPage, found, path, searched, progress, fetches, discovered, boundary)
    ensures forall i, j :: 0 <= i <= j < |progress| ==> progress[i].searchedPages <= progress[j].searchedPages
    ensures forall i :: 0 <= i < |progress| ==> progress[i].searchedPages <= searched
  {
    var n := |progress|;
    forall i, j | 0 <= i <= j < n ensures progress[i].searchedPages <= progress[j].searchedPages {
      assert ReportedAt(p, discovered, boundary, progress, i) && ReportedAt(p, discovered, boundary, progress, j);
      SuccessesMonotone(p, discovered, i, j);
    }
    forall i | 0 <= i < n ensures progress[i].searchedPages <= searched {
      assert ReportedAt(p, discovered, boundary, progress, i);
      SuccessesMonotone(p, discovered, i, n);
    }
  }

  /** `b` with one more boundary `x` recorded. */
  function Extend(b: seq<nat>, x: nat): (r: seq<nat>)
    ensures |r| == |b| + 1 && r[..|b|] == b && r[|b|] == x
  {
    b + [x]
  }

  /**
   * The state of the search loop: the loop invariant, and the concrete
   * queue, visited set and fetch log in step with the run: the queue is
   * what was enqueued and not yet dequeued, the visited set the keys
   * enqueued, the fetch log the fetches of what was dequeued.
   */
  predicate LoopState(p: Provider, startPage: string, target: string,
                      d: seq<Entry>, b: seq<nat>, progress: seq<Progress>, searched: nat,
                      queue: seq<Entry>, visited: set<string>, fetches: seq<Call>)
  {
    && SearchInvariant(p, startPage, target, d, b, progress, searched)
    && queue == d[|progress|..] && visited == KeySet(Pages(d)) && fetches == Fetches(p, d[..|progress|])
  }

  /** The search starts with the start page alone enqueued and visited, nothing dequeued. */
  lemma Start(p: Provider, startPage: string, target: string)
    ensures var d := [Entry(startPage, [startPage], 0)];
      LoopState(p, startPage, target, d, [1], [], 0, d, {NormalizeTitle(startPage)}, [])
  {
    var d := [Entry(startPage, [startPage], 0)];
    assert Pages(d) == [startPage];
    assert d[0..] == d;
  }

  /**
   * What one iteration does to the head `queue[0]` of a nonempty queue:
   * it is reported with the counter and the size of the rest of the queue;
   * it is fetched unless at the depth cutoff; the counter counts a fetch
   * that returned; it is a hit when the fetched links contain the target
   * key, and then the path is its path plus the end page; otherwise the
   * queue loses its head and gains the head's `Expansion`, and the visited
   * set gains the keys of the links considered.
   */
  predicate Visited(p: Provider, endPage: string, queue: seq<Entry>, visited: set<string>, searched: nat,
                    hit: bool, path: seq<string>, report: Progress, fetch: seq<Call>,
                    queue': seq<Entry>, visited': set<string>, searched': nat)
    requires queue != []
  {
    var e, target := queue[0], NormalizeTitle(endPage);
    && report == Progress(e.page, searched, |queue| - 1, e.depth + 1)
    && fetch == FetchOf(p, e)
    && searched' == searched + (if Expanded(p, e) then 1 else 0)
    && hit == Hit(p, e, target)
    && (hit ==> path == e.path + [endPage])
    && (!hit ==>
          && queue' == queue[1..] + Expansion(p, e, target, visited)
          && visited' == if Expanded(p, e)
                         then visited + KeySet(Take(p.pageLinks(e.page).value, LinksPerPage))
                         else visited)
  }

  /**
   * One iteration either ends the search with a hit, with the outcome
   * `BreadthFirst` promises and a path connecting the two pages, or keeps
   * the loop state with the head's expansion enqueued.
   */
  lemma Iterate(p: Provider, startPage: string, endPage: string,
                d: seq<Entry>, b: seq<nat>, progress: seq<Progress>, searched: nat,
                queue: seq<Entry>, visited: set<string>, fetches: seq<Call>,
                hit: bool, path: seq<string>, report: Progress, fetch: seq<Call>,
                queue': seq<Entry>, visited': set<string>, searched': nat, d': seq<Entry>, b': seq<nat>)
    requires LoopState(p, startPage, NormalizeTitle(endPage), d, b, progress, searched, queue, visited, fetches)
    requires queue != [] && searched < MaxSearchedPages
    requires Visited(p, endPage, queue, visited, searched, hit, path, report, fetch, queue', visited', searched')
    requires d' == d + Expansion(p, queue[0], NormalizeTitle(endPage), visited) && b' == Extend(b, |d'|)
    ensures hit ==>
      && SearchOutcome(p, startPage, endPage, true, path, searched', progress + [report], fetches + fetch, d', b')
      && ConnectingPath(p, startPage, endPage, path)
    ensures !hit ==>
      LoopState(p, startPage, NormalizeTitle(endPage), d', b', progress + [report], searched',
                queue', visited', fetches + fetch)
  {
    var n := |progress|;
    var target := NormalizeTitle(endPage);
    assert queue[0] == d[n] && n < |d|;
    if hit {
      assert d' == d;
      StepHit(p, startPage, endPage, d, b, progress, searched, fetches, b',
              progress + [report], searched', fetches + fetch);
    } else {
      StepMiss(p, startPage, target, d, b, progress, searched, queue, visited, fetches,
               d', b', progress + [report], searched', queue', visited', fetches + fetch);
    }
  }

  /** A hit on dequeuing `d[n]` ends the search with the outcome `BreadthFirst` promises. */
  lemma StepHit(p: Provider, startPage: string, endPage: string,
                d: seq<Entry>, b: seq<nat>, progress: seq<Progress>, searched: nat, fetches: seq<Call>,
                b': seq<nat>, progress': seq<Progress>, searched': nat, fetches': seq<Call>)
    requires SearchInvariant(p, startPage, NormalizeTitle(endPage), d, b, progress, searched)
    requires fetches == Fetches(p, d[..|progress|])
    requires |progress| < |d| && searched < MaxSearchedPages && Hit(p, d[|progress|], NormalizeTitle(endPage))
    requires Next(p, NormalizeTitle(endPage), d, b, progress, searched, d, b', progress', searched')
    requires fetches' == fetches + FetchOf(p, d[|progress|])
    ensures SearchOutcome(p, startPage, endPage, true, d[|progress|].path + [endPage], searched',
                          progress', fetches', d, b')
    ensures ConnectingPath(p, startPage, endPage, d[|progress|].path + [endPage])
  {
    var n := |progress|;
    var target := NormalizeTitle(endPage);
    assert StepInvariant(p, startPage, target, d, b', progress', searched') by {
      Advance(p, startPage, target, d, b, progress, searched, d, b', progress', searched');
    }
    assert fetches' == Fetches(p, d[..n + 1]) by {
      FetchesStep(p, d, n);
    }
    assert |progress'| == n + 1;
    FoundPath(p, startPage, endPage, d[n]);
  }

  /** A miss on dequeuing `d[n]` keeps the loop state with its expansion enqueued. */
  lemma StepMiss(p: Provider, startPage: string, target: string,
                 d: seq<Entry>, b: seq<nat>, progress: seq<Progress>, searched: nat,
                 queue: seq<Entry>, visited: set<string>, fetches: seq<Call>,
                 d': seq<Entry>, b': seq<nat>, progress': seq<Progress>, searched': nat,
                 queue': seq<Entry>, visited': set<string>, fetches': seq<Call>)
    requires LoopState(p, startPage, target, d, b, progress, searched, queue, visited, fetches)
    requires |progress| < |d| && searched < MaxSearchedPages && !Hit(p, d[|progress|], target)
    requires Next(p, target, d, b, progress, searched, d', b', progress', searched')
    requires queue' == queue[1..] + Expansion(p, d[|progress|], target, visited)
    requires visited' ==
      if Expanded(p, d[|progress|]) then visited + KeySet(Take(p.pageLinks(d[|progress|].page).value, LinksPerPage))
      else visited
    requires fetches' == fetches + FetchOf(p, d[|progress|])
    ensures LoopState(p, startPage, target, d', b', progress', searched', queue', visited', fetches')
  {
    var n := |progress|;
    AdvanceSearch(p, startPage, target, d, b, progress, searched, d', b', progress', searched');
    AppendSlices(d, Expansion(p, d[n], target, visited), n);
    assert visited' == KeySet(Pages(d')) by {
      WellFormedStep(p, startPage, target, d, n, d');
    }
    FetchesStep(p, d, n);
  }

  /** How the slices of `d` and of `d` extended by `added` relate around index `n`. */
  lemma AppendSlices<T>(d: seq<T>, added: seq<T>, n: nat)
    requires n < |d|
    ensures (d + added)[..n + 1] == d[..n + 1]
    ensures (d + added)[n + 1..] == d[n..][1..] + added
    ensures (d + added)[|d|..] == added
  {
  }

  /** Leaving the loop without a hit is the outcome `BreadthFirst` promises. */
  lemma StopWithoutHit(p: Provider, startPage: string, endPage: string,
                       d: seq<Entry>, b: seq<nat>, progress: seq<Progress>, searched: nat,
                       queue: seq<Entry>, visited: set<string>, fetches: seq<Call>)
    requires LoopState(p, startPage, NormalizeTitle(endPage), d, b, progress, searched, queue, visited, fetches)
    requires queue == [] || searched >= MaxSearchedPages
    ensures SearchOutcome(p, startPage, endPage, false, [], searched, progress, fetches, d, b)
  {
  }

  /**
   * One iteration of the search loop on a nonempty queue: take its head,
   * report it, skip it at the depth cutoff, fetch its links (a throwing
   * fetch skips it), count the fetch, test the goal on every link, and on a
   * miss enqueue the unvisited among the first `LinksPerPage` links.
   */
  method Visit(p: Provider, endPage: string, queue: seq<Entry>, visited: set<string>, searchedPages: nat)
    returns (hit: bool, path: seq<string>, report: Progress, fetch: seq<Call>,
             queue': seq<Entry>, visited': set<string>, searchedPages': nat)
    requires queue != []
    ensures Visited(p, endPage, queue, visited, searchedPages, hit, path, report, fetch, queue', visited', searchedPages')
  {
    var normalizedEnd := NormalizeTitle(endPage);
    var current := queue[0];
    queue', visited', searchedPages' := queue[1..], visited, searchedPages;
    report := Progress(current.page, searchedPages, |queue'|, current.depth + 1);
    hit, path, fetch := false, [], [];
    if current.depth >= MaxDepth {
      assert queue' == queue[1..] + [];
      return;
    }
    var fetched := p.pageLinks(current.page);
    fetch := [LinksCall(current.page, fetched.Some?)];
    if fetched.None? {
      assert queue' == queue[1..] + [];
      return;
    }
    var links := fetched.value;
    searchedPages' := searchedPages' + 1;
    if TargetFound(links, normalizedEnd) {
      hit, path := true, current.path + [endPage];
      return;
    }
    var batch := Take(links, LinksPerPage);
    queue', visited' := EnqueueLinks(current, batch, queue', visited');
  }

  /**
   * The breadth-first search of `findPath`, from its queue holding the start
   * page alone and the start page's key visited, one `Visit` per iteration,
   * until a hit, the queue empties or the counter reaches
   * `MaxSearchedPages`. Besides the outcome it returns the progress
   * snapshots and the link fetches in order; the ghost outputs expose the
   * run: every entry enqueued, and how many had been enqueued when each was
   * dequeued.
   */
  method BreadthFirst(p: Provider, startPage: string, endPage: string)
    returns (found: bool, path: seq<string>, searchedPages: nat, progress: seq<Progress>, fetches: seq<Call>,
             ghost discovered: seq<Entry>, ghost boundary: seq<nat>)
    ensures SearchOutcome(p, startPage, endPage, found, path, searchedPages, progress, fetches, discovered, boundary)
    ensures found ==> ConnectingPath(p, startPage, endPage, path)
  {
    var queue := [Entry(startPage, [startPage], 0)];
    var visited := {NormalizeTitle(startPage)};
    searchedPages, progress, fetches := 0, [], [];
    discovered, boundary := queue, [1];
    Start(p, startPage, NormalizeTitle(endPage));

    while queue != [] && searchedPages < MaxSearchedPages
      invariant LoopState(p, startPage, NormalizeTitle(endPage), discovered, boundary, progress, searchedPages,
                          queue, visited, fetches)
      decreases MaxSearchedPages - searchedPages, |queue|
    {
      ghost var d0, b0, progress0, searched0 := discovered, boundary, progress, searchedPages;
      ghost var queue0, visited0, fetches0 := queue, visited, fetches;
      var hit, hitPath, report, fetch;
      hit, hitPath, report, fetch, queue, visited, searchedPages := Visit(p, endPage, queue, visited, searchedPages);
      discovered := discovered + Expansion(p, queue0[0], NormalizeTitle(endPage), visited0);
      boundary := Extend(boundary, |discovered|);
      Iterate(p, startPage, endPage, d0, b0, progress0, searched0, queue0, visited0, fetches0,
              hit, hitPath, report, fetch, queue, visited, searchedPages, discovered, boundary);
      progress, fetches := progress + [report], fetches + fetch;
      if hit {
        found, path := true, hitPath;
        return;
      }
    }
    StopWithoutHit(p, startPage, endPage, discovered, boundary, progress, searchedPages, queue, visited, fetches);
    found, path := false, [];
  }

  /**
   * `findPath`. The two endpoint titles are compared by key; equal keys
   * answer at once with the one-title path. Otherwise both endpoints are
   * checked for existence, start first, and a missing one is the error; then
   * the breadth-first search runs. Besides the result it returns the
   * progress snapshots and the provider calls in order; the ghost outputs
   * expose the run of the search.
   */
  method FindPath(p: Provider, startPage: string, endPage: string)
    returns (r: Result<SearchResult, SearchError>, progress: seq<Progress>, calls: seq<Call>,
             ghost discovered: seq<Entry>, ghost boundary: seq<nat>)
    // Equal keys: the one-title path, nothing searched, the provider untouched.
    ensures NormalizeTitle(startPage) == NormalizeTitle(endPage) ==>
      r == Success(SearchResult([startPage], true, 0)) && progress == [] && calls == []
    // Different keys: both existence checks come first, start before end.
    ensures NormalizeTitle(startPage) != NormalizeTitle(endPage) ==>
      |calls| >= 2 && calls[..2] == [ExistsCall(startPage), ExistsCall(endPage)]
    // The only error is a missing endpoint; the start page's error wins.
    ensures r.Failure? <==>
      NormalizeTitle(startPage) != NormalizeTitle(endPage) && !(p.pageExists(startPage) && p.pageExists(endPage))
    ensures r.Failure? ==>
      && r.error == (if p.pageExists(startPage) then EndNotFound(endPage) else StartNotFound(startPage))
      && calls == [ExistsCall(startPage), ExistsCall(endPage)] && progress == []
    // Every result respects the budget, and a path is returned exactly when found.
    ensures r.Success? ==> r.value.searchedPages <= MaxSearchedPages && (r.value.found <==> r.value.path != [])
    // The search: the calls after the existence checks are its link fetches.
    ensures r.Success? && NormalizeTitle(startPage) != NormalizeTitle(endPage) ==>
      SearchOutcome(p, startPage, endPage, r.value.found, r.value.path, r.value.searchedPages,
                    progress, calls[2..], discovered, boundary)
    // A found path connects the two pages.
    ensures r.Success? && r.value.found && NormalizeTitle(startPage) != NormalizeTitle(endPage) ==>
      ConnectingPath(p, startPage, endPage, r.value.path)
  {
    progress, calls, discovered, boundary := [], [], [], [];
    if NormalizeTitle(startPage) == NormalizeTitle(endPage) {
      r := Success(SearchResult([startPage], true, 0));
      return;
    }

    var startExists := p.pageExists(startPage);
    var endExists := p.pageExists(endPage);
    calls := [ExistsCall(startPage), ExistsCall(endPage)];
    if !startExists || !endExists {
      r := Failure(if !startExists then StartNotFound(startPage) else EndNotFound(endPage));
      return;
    }

    var found, path, searchedPages, fetches;
    found, path, searchedPages, progress, fetches, discovered, boundary := BreadthFirst(p, startPage, endPage);
    calls := calls + fetches;
    assert calls[2..] == fetches;
    r := Success(SearchResult(path, found, searchedPages));
  }

  // ------------------------------------------------------ the Wikipedia provider

  /**
   * The provider `findPath` uses: `WikipediaApi.pageExists` and
   * `WikipediaApi.getPageLinks`, applied to the parsed response the API
   * gives for each title. `getPageLinks` catches its own errors, so its
   * fetches always return.
   */
  function WikipediaProvider(existsResponse: string -> WikipediaApi.PagesResponse,
                             linksResponse: string -> WikipediaApi.PagesResponse): (p: Provider)
    ensures forall t :: p.pageExists(t) <==> WikipediaApi.PageExists(existsResponse(t))
    ensures forall t :: p.pageLinks(t).Some? && forall l :: l in p.pageLinks(t).value ==> WikipediaApi.IsArticleTitle(l)
  {
    var p := Provider(t => WikipediaApi.PageExists(existsResponse(t)),
                      t => Some(WikipediaApi.GetPageLinks(linksResponse(t))));
    assert forall t :: p.pageLinks(t) == Some(WikipediaApi.GetPageLinks(linksResponse(t)));
    p
  }

  /**
   * Through the Wikipedia provider every hop leads to an article title: no
   * namespace colon, no list article.
   */
  lemma WikipediaHop(existsResponse: string -> WikipediaApi.PagesResponse,
                     linksResponse: string -> WikipediaApi.PagesResponse, from: string, to: string)
    requires Hop(WikipediaProvider(existsResponse, linksResponse), from, to)
    ensures WikipediaApi.IsArticleTitle(to)
  {
    var links := WikipediaApi.GetPageLinks(linksResponse(from));
    var batch := Take(links, LinksPerPage);
    assert to in links by {
      var i :| 0 <= i < |batch| && batch[i] == to;
      assert links[i] == batch[i];
    }
  }

  /**
   * A path found through the Wikipedia provider passes only through article
   * titles between its two ends, and its last hop comes from a page with an
   * article link whose key is the end page's.
   */
  lemma WikipediaPath(existsResponse: string -> WikipediaApi.PagesResponse,
                      linksResponse: string -> WikipediaApi.PagesResponse,
                      startPage: string, endPage: string, path: seq<string>)
    requires ConnectingPath(WikipediaProvider(existsResponse, linksResponse), startPage, endPage, path)
    ensures forall i :: 0 < i < |path| - 1 ==> WikipediaApi.IsArticleTitle(path[i])
    ensures exists t :: (t in WikipediaApi.GetPageLinks(linksResponse(path[|path| - 2])) &&
                         WikipediaApi.IsArticleTitle(t) && NormalizeTitle(t) == NormalizeTitle(endPage))
  {
    var p := WikipediaProvider(existsResponse, linksResponse);
    var chain := path[..|path| - 1];
    forall i | 0 < i < |path| - 1 ensures WikipediaApi.IsArticleTitle(path[i]) {
      assert Hop(p, chain[i - 1], chain[i]);
      WikipediaHop(existsResponse, linksResponse, path[i - 1], path[i]);
    }
    var links := p.pageLinks(path[|path| - 2]).value;
    var j := KeySetWitness(links, NormalizeTitle(endPage));
    assert links[j] in WikipediaApi.GetPageLinks(linksResponse(path[|path| - 2]));
  }

  /** A key of `titles` is the key of one of them. */
  lemma {:induction false} KeySetWitness(titles: seq<string>, key: string) returns (j: nat)
    requires key in KeySet(titles)
    ensures j < |titles| && NormalizeTitle(titles[j]) == key
    decreases |titles|
  {
    if NormalizeTitle(titles[0]) == key {
      j := 0;
    } else {
      var k := KeySetWitness(titles[1..], key);
      j := k + 1;
    }
  }

  /**
   * Through the Wikipedia provider the `catch` branch of the search loop is
   * never taken: every link fetch returns, so the counter counts every fetch.
   */
  lemma {:induction false} WikipediaCountsEveryFetch(existsResponse: string -> WikipediaApi.PagesResponse,
                                                     linksResponse: string -> WikipediaApi.PagesResponse,
                                                     dequeued: seq<Entry>)
    ensures var p := WikipediaProvider(existsResponse, linksResponse);
      Successes(Fetches(p, dequeued)) == |Fetches(p, dequeued)|
    decreases |dequeued|
  {
    var p := WikipediaProvider(existsResponse, linksResponse);
    if dequeued != [] {
      var front := dequeued[..|dequeued| - 1];
      WikipediaCountsEveryFetch(existsResponse, linksResponse, front);
      var calls := Fetches(p, dequeued);
      var last := FetchOf(p, dequeued[|dequeued| - 1]);
      assert calls == Fetches(p, front) + last;
      if last == [] {
        assert calls == Fetches(p, front);
      } else {
        assert calls[..|calls| - 1] == Fetches(p, front);
      }
    }
  }
}
