# Most-played videos page: a Dafny model

This project models the logic in `pages/index.tsx`, the one page of a statically generated
site. The page lists the videos of one or more playlists of a video platform, ranked by view
count. A visitor can search the list and reveal it ten cards at a time.

The model has four parts:

- **Description cut** (`Description`, `description.dfy`). `getMainDescription` cuts a video's
  description at its first marker. A marker is the literal `Subscribe`, the literal
  `Guest Speakers`, or a timestamp `dd:dd` with a word boundary on each side. If the cut is
  empty, the whole description is kept.
- **Search and paging** (`Home`, `home.dfy`). The component state becomes the class
  `Home.VideoList`:
  - fields: the immutable card list `items`, `searchTerm`, `visibleItems` and `currentPage`;
  - methods: `loadMoreItems`, `updateVisibleItems` and `handleSearch`.

  The object invariant `Valid()` says that the revealed cards are exactly the first
  `currentPage` pages of the cards matching the term. A card matches when its title or its
  description contains the term, ignoring case.
- **Collection and ranking** (`Store`, `Ranking`, `Aggregator`). This part models
  `getStaticProps`.
  - The outer `for` loop, the `while (firstTime || hasNextToken)` loop and the `forEach`
    that files videos are methods with loop invariants.
  - `dataMap` is modelled as a JavaScript `Map`: keys keep the order in which they were first
    set, and a later `set` of the same id replaces the value.
  - The ranking is `Array.prototype.sort` with the comparator `b - a` on view counts. That
    sort is stable, so videos with equal view counts stay in the map's key order; the model
    proves this.
- **Continuation test** (`Aggregator.HasNextPage`). It decides whether to request another
  page of a playlist.

Shared helpers: `Text` (`text.dfy`) holds ASCII lower-casing and substring search. `Videos`
(`videos.dfy`) holds the record shapes. `Wrappers` (`wrappers.dfy`) holds `Option`.

The video platform is outside the model. Each playlist is given as the finite sequence of
responses the platform returns to successive page requests for it. Each response holds its
`nextPageToken` and `prevPageToken`, and the videos that the batched metadata request
returned for that page's ids.

Two facts about the code are worth stating up front:

- Videos with equal view counts keep the order in which their ids were first set into the
  map. The map iterates keys in first-insertion order and the sort is stable
  (`Store.SetAllOrder`, `Ranking.SortIsStable`, `Aggregator.Ranked`).
- The continuation test compares a response's own `nextPageToken` with its own
  `prevPageToken`. It does not compare against the token of the request that produced the
  response (`Aggregator.HasNextPage`).

## Model

| member | source | states |
|---|---|---|
| `Description.TimestampAt` | pages/index.tsx:116 | The `\b\d{2}:\d{2}\b` alternative needs five characters from `i` on. It never starts where `Subscribe` or `Guest Speakers` starts. |
| `Description.MarkerAt` | pages/index.tsx:116 | One of the three alternatives of the split pattern matches at `i`. A marker starts inside the string, with `S`, `G` or a digit. |
| `Description.FirstMarkerFrom` | pages/index.tsx:116 | Gives the leftmost index at or after `i` where `Subscribe`, `Guest Speakers` or a word-bounded `dd:dd` starts, or the length when there is none. No marker starts between `i` and the result. |
| `Description.SplitHead` | pages/index.tsx:116 | Element 0 of the split is a prefix of the description. It stops where a marker starts, unless there is no marker, and no marker starts inside it. |
| `Description.MainDescription` | pages/index.tsx:113-120 | The result is a prefix of the description. It is the whole description exactly when no marker occurs or a marker starts at index 0. Otherwise it is non-empty, a marker starts right after it, and no marker starts inside it. |
| `Description.SplitHeadIsLeftmost` | pages/index.tsx:116 | Any marker position with no marker before it is where element 0 of the split ends. |
| `Description.NoMarkerKeepsDescription` | pages/index.tsx:116-119 | A description without markers is returned unchanged. |
| `Description.LeadingMarkerKeepsDescription` | pages/index.tsx:118 | A description that starts with a marker gives an empty cut, so it is returned unchanged. |
| `Description.TimestampExample` | pages/index.tsx:113-120 | `"Intro text 12:34 more stuff"` becomes `"Intro text "`. |
| `Text.LowerString` | pages/index.tsx:39 | `toLowerCase` on ASCII: same length, each character lower-cased, and no upper-case letter is left. |
| `Text.Contains` | pages/index.tsx:39-40 | `includes`: some index holds an occurrence. A prefix (so also the empty string) is always contained, and a contained string is never longer than the text. |
| `Home.Matches` | pages/index.tsx:37-41 | A card matches when its lower-cased title or description contains the lower-cased term. The empty term matches every card, and a matching term fits in the title or the description. |
| `Home.Filter` | pages/index.tsx:51-55 | The result holds exactly the cards whose lower-cased title or description contains the lower-cased term. It is no longer than the input. |
| `Home.FilterEmptyTerm` | pages/index.tsx:37-41 | The empty term matches every card, so filtering by it returns the list unchanged. |
| `Home.FilterAppend` | pages/index.tsx:51-55 | Filtering distributes over concatenation, so matching cards keep their original order. |
| `Home.Slice` | pages/index.tsx:42 | `slice(start, end)` clamps `end` to the length. It returns `min(end, n) - start` elements from `start` on, or none when `start` is past the clamped end. |
| `Home.WindowStep` | pages/index.tsx:31-47 | The next page slice extends the first `p` pages of matches to the first `p + 1` pages. It is empty exactly when the first `p` pages already hold every match. |
| `Home.VideoList.constructor` | pages/index.tsx:27-29 | Initially the term is empty, the page is 1 and the first ten cards are shown. The invariant holds. |
| `Home.VideoList.LoadMoreItems` | pages/index.tsx:31-48 | Takes the slice `[page*10, (page+1)*10)` of the matches for the current term. If it is non-empty, it is appended and the page advances by one; if it is empty, nothing changes. The revealed cards only grow, by at most 10, and the invariant is kept. |
| `Home.VideoList.UpdateVisibleItems` | pages/index.tsx:50-59 | Shows the first ten cards matching the given term and resets the page to 1. When the term is the current search term, the invariant holds. |
| `Home.VideoList.HandleSearch` | pages/index.tsx:61-64 | Records the term, shows the first page of its matches, sets the page to 1 and establishes the invariant. |
| `Home.ExampleTitleMatches` | pages/index.tsx:37-41 | Of "Keynote", "Workshop" and "Fireside Chat", only "Workshop" contains "work", ignoring case. |
| `Home.SearchExample` | pages/index.tsx:50-57 | Filtering those three cards by "work" yields exactly the "Workshop" card. |
| `Home.ScrollExample` | pages/index.tsx:27-64 | With 25 cards matching the term, the revealed count goes 10, 20, 25. A further load changes nothing. |
| `Ranking.Insert` | pages/index.tsx:176 | Inserting a video adds exactly that video to the list. |
| `Ranking.InsertSorted` | pages/index.tsx:176 | Inserting into a list sorted by descending view count keeps it sorted. |
| `Ranking.SortByViews` | pages/index.tsx:176 | The result is a permutation of the input. View counts never increase from one video to the next. |
| `Ranking.SortIsStable` | pages/index.tsx:176 | For every view count, the videos with that count appear in the same relative order as in the input. |
| `Store.Set` | pages/index.tsx:170 | `set` maps the video's id to the video and leaves the other entries alone. The key order only grows, by at most one key. |
| `Store.SetValid` | pages/index.tsx:170 | After `set`, each key is still listed once and each video is still filed under its own id. |
| `Store.Values` | pages/index.tsx:176 | `Array.from(values())` lists one video per key, in key order. A video is listed exactly when it is the value of its own id. No two listed videos share an id. |
| `Store.SetAll` | pages/index.tsx:169-171 | The `forEach` fold of `set` calls: the key order only grows, by at most one key per video, and no key is removed. |
| `Store.LastSet` | pages/index.tsx:169-171 | Gives the last video with the given id in a sequence of `set` calls, or none when the id never occurs. |
| `Store.SetAllLastWins` | pages/index.tsx:169-171 | After every video is set into an empty map, the map is well formed and holds exactly the ids that occurred. Each id maps to the last video set for it. |
| `Store.FirstIds` | pages/index.tsx:169-171 | Lists the ids of the filed videos in the order of their first occurrence, each once, and nothing else. |
| `Store.SetAllOrder` | pages/index.tsx:169-171 | The map's keys iterate in the order in which the ids were first set. |
| `Store.Latest` | pages/index.tsx:176 | For each id in order of first occurrence, gives the last video filed under it. |
| `Store.ValuesInFirstOrder` | pages/index.tsx:176 | `Array.from(dataMap.values())` is exactly that reference list, in that order. |
| `Aggregator.HasNextPage` | pages/index.tsx:152-158 | Another page is requested only with a next-page token. It is never requested when the next token equals the previous one. It is always requested when a next token is present and differs from the previous one, or the previous one is absent. |
| `Aggregator.FetchedCount` | pages/index.tsx:140-158 | The loop consumes at least the first response. Every consumed response but the last asks for another page. The last consumed one does not, unless the trace ran out. |
| `Aggregator.FileVideos` | pages/index.tsx:169-171 | Filing a batch yields the map of all videos filed so far followed by the batch. |
| `Aggregator.FetchPlaylist` | pages/index.tsx:136-172 | One playlist's loop files the videos of exactly the responses the continuation test lets it consume, in order. |
| `Aggregator.Ranked` | pages/index.tsx:176 | The ranked map values are sorted by descending view count, with ids pairwise distinct. A video appears exactly when it is the last one filed under its id. Videos with equal view counts appear in the order their ids were first set. |
| `Aggregator.EqualViewsKeepFirstSetOrder` | pages/index.tsx:176 | When every filed video has the same view count, the ranking is the map's values in key order. |
| `Aggregator.TieExample` | pages/index.tsx:169-176 | Two videos with different ids and equal view counts are ranked in the order they were filed. |
| `Aggregator.CollectVideos` | pages/index.tsx:131-176 | The nested loops followed by the sort return the ranking of the map built from all filed videos, playlist by playlist. |
| `Aggregator.ToVideoData` | pages/index.tsx:189 | A card keeps the video's id and view count. Its description is a prefix of the full description. |
| `Aggregator.GetStaticProps` | pages/index.tsx:131-189 | The cards are sorted by descending plays and have distinct ids. Each card is built from the last video filed under its id, and every filed id has a card. With no playlists there are no cards. Card `i` is built from video `i` of the ranking, so ties keep first-set order. |

## Left out

- The platform calls `playlistItems.list` and `videos.list`, the API key and `process.env`
  are network I/O and configuration. They are replaced by the given response traces. An
  unset `PLAYLIST` variable is the empty list of playlists.
- The `next` token passed as `pageToken` is not modelled. Which page the platform returns
  for a token is fixed by the given trace.
- Termination of the fetch loop for a real platform is not modelled. The code only compares
  a response's own two tokens, so a platform that cycles tokens could make it loop forever.
  The model's traces are finite, and the loop also stops when a trace has no response left.
  The source would request another page at that point.
- An empty trace files nothing, while the source always requests at least one page.
- The splitting of `PLAYLIST` on commas is not modelled. An empty entry there would request
  a playlist with an empty id.
- `getRandomSize` and the `cardSize` field: random and cosmetic.
- `lastUpdated`: wall-clock time with locale and time-zone formatting.
- `revalidate: 3600`: the hosting platform's regeneration schedule.
- `Number(...)` coercion of view counts and the NaN case of the comparator: view counts are
  natural numbers in the model.
- `toLowerCase` and `\b`/`\d` are modelled on ASCII only. Unicode case mapping is not
  modelled, and the string is a sequence of characters.
- The `result == null` test of `getMainDescription` is not modelled. Element 0 of a split
  always exists, so that test is never true.
- The regular-expression engine itself is not modelled. Only the pattern's match positions
  are stated, and element 0 of the split depends only on the leftmost one.
- Stale closures are not modelled. Each handler is assumed to read the state the previous
  one committed. Two `next` calls within one render would both read the same `currentPage`,
  and the functional update at pages/index.tsx:45 would then append the same slice twice.
  The invariant `Valid()` does not cover that interleaving.
- React rendering, `useState`/`useEffect` scheduling, `InfiniteScroll` and its `hasMore`
  hint are UI only. `hasMore` compares the revealed count with the unfiltered list, so it
  does not affect the state.
- `components/VideoCard.tsx` (`highlightText` with a pattern built from the raw term, and
  `window.open`) and `components/SearchBar.tsx` are UI and are not part of this model.
