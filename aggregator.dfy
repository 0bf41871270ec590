/**
 * `getStaticProps` (pages/index.tsx): for each configured playlist, request pages of the
 * playlist until the continuation test says stop; for each page, file the videos returned
 * by the batched metadata request under their ids (a later video replaces an earlier one);
 * then rank the collected videos by view count and turn each into a card.
 *
 * The platform is outside the model. Each playlist is given as the finite sequence of
 * responses the platform returns to successive page requests for it, each response holding
 * its continuation tokens and the videos the metadata request returned for that page.
 */
module Aggregator {
  import opened Wrappers
  import opened Videos
  import opened Store
  import opened Ranking
  import Description

  datatype PageResponse = PageResponse(
    nextPageToken: Option<string>,
    prevPageToken: Option<string>,
    videos: seq<Record>)

  /**
   * The continuation test: request another page only when the response carries a next-page
   * token that differs from its previous-page token. A `null` previous token compares unequal
   * to any string, so it acts like an absent one.
   */
  function HasNextPage(nextPageToken: Option<string>, prevPageToken: Option<string>): (b: bool)
    ensures b ==> nextPageToken.Some?
    ensures nextPageToken.Some? && prevPageToken == nextPageToken ==> !b
    ensures nextPageToken.Some? && prevPageToken != nextPageToken ==> b
  {
    match nextPageToken
    case None => false
    case Some(next) => prevPageToken.None? || next != prevPageToken.value
  }

  /**
   * How many responses of a playlist's trace the fetch loop consumes: the first one always,
   * then one more for as long as the last one consumed asks for another page.
   */
  function FetchedCount(pages: seq<PageResponse>): (n: nat)
    ensures n <= |pages|
    ensures |pages| > 0 ==> n > 0
    ensures forall j :: 0 <= j < n - 1 ==> HasNextPage(pages[j].nextPageToken, pages[j].prevPageToken)
    ensures 0 < n < |pages| ==> !HasNextPage(pages[n - 1].nextPageToken, pages[n - 1].prevPageToken)
  {
    if pages == [] then 0
    else if !HasNextPage(pages[0].nextPageToken, pages[0].prevPageToken) then 1
    else 1 + FetchedCount(pages[1..])
  }

  /** The videos of the given responses, in the order the loop files them. */
  function BatchRecords(pages: seq<PageResponse>): seq<Record> {
    if pages == [] then []
    else BatchRecords(pages[..|pages| - 1]) + pages[|pages| - 1].videos
  }

  /** The videos filed for one playlist. */
  function PlaylistRecords(pages: seq<PageResponse>): seq<Record> {
    BatchRecords(pages[..FetchedCount(pages)])
  }

  /** The videos filed for all playlists, playlist by playlist. */
  function AllRecords(playlists: seq<seq<PageResponse>>): seq<Record> {
    if playlists == [] then []
    else AllRecords(playlists[..|playlists| - 1]) + PlaylistRecords(playlists[|playlists| - 1])
  }

  /**
   * The fetch loops and the ranking: the result holds, for every id that was filed, the
   * last video filed under it, once, ordered by view count from highest to lowest.
   */
  method CollectVideos(playlists: seq<seq<PageResponse>>) returns (data: seq<Record>)
    ensures data == Ranked(AllRecords(playlists))
  {
    var dataMap := EMPTY;
    ghost var seen: seq<Record> := [];
    for p := 0 to |playlists|
      invariant seen == AllRecords(playlists[..p])
      invariant dataMap == SetAll(EMPTY, seen)
    {
      dataMap := FetchPlaylist(dataMap, seen, playlists[p]);
      AllRecordsStep(playlists, p);
      seen := seen + PlaylistRecords(playlists[p]);
    }
    assert playlists[..|playlists|] == playlists;
    SetAllLastWins(seen);
    data := SortByViews(Values(dataMap));
  }

  /**
   * The `while (firstTime || hasNextToken)` loop for one playlist: file the videos of each
   * response until one says there is no further page (or the trace ends).
   */
  method FetchPlaylist(dataMap: Store, ghost seen: seq<Record>, pages: seq<PageResponse>) returns (dataMap': Store)
    requires dataMap == SetAll(EMPTY, seen)
    ensures dataMap' == SetAll(EMPTY, seen + PlaylistRecords(pages))
  {
    dataMap' := dataMap;
    var firstTime := true;
    var hasNextToken := false;
    var k := 0;
    ghost var filed := seen;
    BatchRecordsStep(seen, pages, 0);
    while (firstTime || hasNextToken) && k < |pages|
      invariant 0 <= k <= |pages|
      invariant firstTime <==> k == 0
      invariant k > 0 ==> hasNextToken == HasNextPage(pages[k - 1].nextPageToken, pages[k - 1].prevPageToken)
      invariant forall j :: 0 <= j < k - 1 ==> HasNextPage(pages[j].nextPageToken, pages[j].prevPageToken)
      invariant filed == seen + BatchRecords(pages[..k])
      invariant dataMap' == SetAll(EMPTY, filed)
      decreases |pages| - k
    {
      assert k > 0 ==> HasNextPage(pages[k - 1].nextPageToken, pages[k - 1].prevPageToken);
      firstTime := false;
      var page := pages[k];
      hasNextToken := HasNextPage(page.nextPageToken, page.prevPageToken);
      dataMap' := FileVideos(dataMap', filed, page.videos);
      BatchRecordsStep(seen, pages, k);
      filed := filed + page.videos;
      k := k + 1;
    }
    assert k == FetchedCount(pages);
  }

  /** `result.data.items?.forEach(element => dataMap.set(element.id, element))`. */
  method FileVideos(dataMap: Store, ghost seen: seq<Record>, videos: seq<Record>) returns (dataMap': Store)
    requires dataMap == SetAll(EMPTY, seen)
    ensures dataMap' == SetAll(EMPTY, seen + videos)
  {
    dataMap' := dataMap;
    assert seen + videos[..0] == seen;
    for m := 0 to |videos|
      invariant dataMap' == SetAll(EMPTY, seen + videos[..m])
    {
      assert seen + videos[..m + 1] == (seen + videos[..m]) + [videos[m]];
      SetAllSnoc(seen + videos[..m], videos[m]);
      dataMap' := Set(dataMap', videos[m]);
    }
    assert videos[..|videos|] == videos;
  }

  /** `getStaticProps` up to the page props: the ranked videos as cards. */
  method GetStaticProps(playlists: seq<seq<PageResponse>>) returns (items: seq<VideoData>)
    ensures forall i, j :: 0 <= i < j < |items| ==> items[i].videoPlays >= items[j].videoPlays
    ensures forall i, j :: 0 <= i < j < |items| ==> items[i].id != items[j].id
    ensures forall i :: 0 <= i < |items| ==>
              && LastSet(AllRecords(playlists), items[i].id).Some?
              && items[i] == ToVideoData(LastSet(AllRecords(playlists), items[i].id).value)
    ensures forall id :: LastSet(AllRecords(playlists), id).Some? ==>
              exists i :: 0 <= i < |items| && items[i].id == id
    ensures playlists == [] ==> items == []
    ensures |items| == |Ranked(AllRecords(playlists))|
    ensures forall i :: 0 <= i < |items| ==> items[i] == ToVideoData(Ranked(AllRecords(playlists))[i])
  {
    var data := CollectVideos(playlists);
    items := seq(|data|, i requires 0 <= i < |data| => ToVideoData(data[i]));
    ghost var all := AllRecords(playlists);
    forall i | 0 <= i < |items|
      ensures LastSet(all, items[i].id) == Some(data[i])
    {
      assert data[i] in data;
    }
    forall id | LastSet(all, id).Some?
      ensures exists i :: 0 <= i < |items| && items[i].id == id
    {
      var r := LastSet(all, id).value;
      assert r in data;
      var i :| 0 <= i < |data| && data[i] == r;
      assert items[i].id == id;
    }
  }

  /** One card: the description is cut by `getMainDescription`; the cosmetic size tag is not modelled. */
  function ToVideoData(r: Record): (v: VideoData)
    ensures v.id == r.id && v.videoPlays == r.viewCount
    ensures v.videoDescription <= r.description
  {
    VideoData(r.id, r.thumbnail, r.title, Description.MainDescription(r.description), r.viewCount)
  }

  lemma BatchRecordsStep(seen: seq<Record>, pages: seq<PageResponse>, k: nat)
    requires k <= |pages|
    ensures k == 0 ==> seen + BatchRecords(pages[..k]) == seen
    ensures k < |pages| ==>
              seen + BatchRecords(pages[..k + 1]) == (seen + BatchRecords(pages[..k])) + pages[k].videos
  {
    assert pages[..0] == [];
    if k < |pages| {
      assert pages[..k + 1][..k] == pages[..k];
    }
  }

  lemma AllRecordsStep(playlists: seq<seq<PageResponse>>, p: nat)
    requires p < |playlists|
    ensures AllRecords(playlists[..p + 1]) == AllRecords(playlists[..p]) + PlaylistRecords(playlists[p])
  {
    assert playlists[..p + 1][..p] == playlists[..p];
  }

  /** Filing one more video is one more `set` on the map. */
  lemma SetAllSnoc(rs: seq<Record>, x: Record)
    ensures SetAll(EMPTY, rs + [x]) == Set(SetAll(EMPTY, rs), x)
  {
  }

  /**
   * `Array.from(dataMap.values()).sort(...)` for the map built by filing `rs`: each filed
   * id once, with the last video filed under it, ordered by view count from highest to lowest.
   */
  function Ranked(rs: seq<Record>): (data: seq<Record>)
    ensures SortedByViews(data)
    ensures forall i, j :: 0 <= i < j < |data| ==> data[i].id != data[j].id
    ensures forall r: Record :: r in data <==> LastSet(rs, r.id) == Some(r)
    ensures forall views: nat :: WithViews(data, views) == WithViews(Latest(rs), views)
  {
    SetAllLastWins(rs);
    ValuesInFirstOrder(rs);
    var values := Values(SetAll(EMPTY, rs));
    var data := SortByViews(values);
    assert forall r :: r in data <==> r in values by {
      forall r ensures r in data <==> r in values {
        assert r in data <==> r in multiset(data);
        assert r in values <==> r in multiset(values);
      }
    }
    DistinctIdsPermutation(values, data);
    assert forall views: nat :: WithViews(data, views) == WithViews(values, views) by {
      forall views: nat
        ensures WithViews(data, views) == WithViews(values, views)
      {
        SortIsStable(values, views);
      }
    }
    data
  }

  /** When every filed video has the same view count, the ranking keeps the map's key order. */
  lemma EqualViewsKeepFirstSetOrder(rs: seq<Record>, views: nat)
    requires forall r :: r in rs ==> r.viewCount == views
    ensures Ranked(rs) == Latest(rs)
  {
    var data := Ranked(rs);
    var latest := Latest(rs);
    forall r | r in data
      ensures r.viewCount == views
    {
      assert LastSet(rs, r.id) == Some(r);
    }
    forall k | 0 <= k < |latest|
      ensures latest[k].viewCount == views
    {
      assert LastSet(rs, FirstIds(rs)[k]) == Some(latest[k]);
    }
    AllWithViews(data, views);
    AllWithViews(latest, views);
  }

  /** Two videos with equal view counts are ranked in the order their ids were first filed. */
  lemma TieExample(a: Record, b: Record)
    requires a.id != b.id && a.viewCount == b.viewCount
    ensures Ranked([a, b]) == [a, b]
  {
    assert [a, b][..1] == [a];
    assert FirstIds([a]) == [a.id];
    assert FirstIds([a, b]) == [a.id, b.id];
    assert LastSet([a, b], a.id) == Some(a);
    assert Latest([a, b]) == [a, b];
    EqualViewsKeepFirstSetOrder([a, b], a.viewCount);
  }

  /** When no element has another view count, selecting that count keeps the whole list. */
  lemma {:induction false} AllWithViews(s: seq<Record>, views: nat)
    requires forall r :: r in s ==> r.viewCount == views
    ensures WithViews(s, views) == s
  {
    if s != [] {
      assert s == [s[0]] + s[1..];
      AllWithViews(s[1..], views);
    }
  }

  /** A video occurring at two indices occurs at least twice. */
  lemma TwiceCounted(s: seq<Record>, i: nat, j: nat)
    requires i < j < |s| && s[i] == s[j]
    ensures multiset(s)[s[i]] >= 2
  {
    assert s == s[..j] + s[j..];
    assert s[i] in s[..j];
    assert s[j] in s[j..];
  }

  /** A video occurs at most once in a list whose ids are distinct. */
  lemma {:induction false} OnceCounted(s: seq<Record>, x: Record)
    requires forall i, j :: 0 <= i < j < |s| ==> s[i].id != s[j].id
    ensures multiset(s)[x] <= 1
  {
    if s != [] {
      assert s == [s[0]] + s[1..];
      OnceCounted(s[1..], x);
      if s[0] == x {
        assert x !in s[1..];
      }
    }
  }

  /** Reordering a list with distinct ids keeps the ids distinct. */
  lemma DistinctIdsPermutation(a: seq<Record>, b: seq<Record>)
    requires multiset(a) == multiset(b)
    requires forall i, j :: 0 <= i < j < |a| ==> a[i].id != a[j].id
    ensures forall i, j :: 0 <= i < j < |b| ==> b[i].id != b[j].id
  {
    forall i, j | 0 <= i < j < |b|
      ensures b[i].id != b[j].id
    {
      if b[i].id == b[j].id {
        assert b[i] in multiset(a) && b[j] in multiset(a);
        var p :| 0 <= p < |a| && a[p] == b[i];
        var q :| 0 <= q < |a| && a[q] == b[j];
        assert p == q;
        TwiceCounted(b, i, j);
        OnceCounted(a, b[i]);
      }
    }
  }
}
