/**
 * The `Home` page component (pages/index.tsx): the full, ranked list of cards, a search
 * term, and the cards revealed so far, one page of `PAGE_SIZE` matching cards at a time.
 */
module Home {
  import opened Text
  import opened Videos

  const PAGE_SIZE: nat := 10

  function Min(a: int, b: int): int {
    if a <= b then a else b
  }

  /** A card matches a term when its title or its description contains it, ignoring case. */
  function Matches(video: VideoData, term: string): (b: bool)
    ensures term == "" ==> b
    ensures b ==> |term| <= |video.videoTitle| || |term| <= |video.videoDescription|
  {
    || Contains(LowerString(video.videoTitle), LowerString(term))
    || Contains(LowerString(video.videoDescription), LowerString(term))
  }

  /** `items.filter(...)` with the match test above. */
  function Filter(items: seq<VideoData>, term: string): (r: seq<VideoData>)
    ensures |r| <= |items|
    ensures forall v :: v in r <==> v in items && Matches(v, term)
  {
    if items == [] then []
    else (if Matches(items[0], term) then [items[0]] else []) + Filter(items[1..], term)
  }

  /** `Array.prototype.slice(start, end)` for non-negative bounds: out-of-range bounds are clamped. */
  function Slice<T>(s: seq<T>, start: nat, end: nat): (r: seq<T>)
    ensures |r| == if start < Min(end, |s|) then Min(end, |s|) - start else 0
    ensures forall i :: 0 <= i < |r| ==> r[i] == s[start + i]
  {
    if start < Min(end, |s|) then s[start..Min(end, |s|)] else []
  }

  /** The cards that `page` pages reveal out of the matching cards. */
  function Window(filtered: seq<VideoData>, page: nat): seq<VideoData> {
    filtered[..Min(page * PAGE_SIZE, |filtered|)]
  }

  class VideoList {
    const items: seq<VideoData>
    var searchTerm: string
    var visibleItems: seq<VideoData>
    var currentPage: nat

    /** The revealed cards are exactly the first `currentPage` pages of the matching cards. */
    ghost predicate Valid()
      reads this
    {
      currentPage >= 1 && visibleItems == Window(Filter(items, searchTerm), currentPage)
    }

    /** The initial state, which the mount effect sets again: no term, the first page of all cards. */
    constructor (items: seq<VideoData>)
      ensures this.items == items && searchTerm == "" && currentPage == 1
      ensures visibleItems == Slice(items, 0, PAGE_SIZE)
      ensures Valid()
    {
      this.items := items;
      searchTerm := "";
      visibleItems := Slice(items, 0, PAGE_SIZE);
      currentPage := 1;
      new;
      FilterEmptyTerm(items);
    }

    /** `loadMoreItems`: append the next page of matching cards, if there is one. */
    method LoadMoreItems()
      modifies this`visibleItems, this`currentPage
      ensures var additional :=
                Slice(Filter(items, searchTerm), old(currentPage) * PAGE_SIZE, (old(currentPage) + 1) * PAGE_SIZE);
              if additional != [] then
                visibleItems == old(visibleItems) + additional && currentPage == old(currentPage) + 1
              else
                visibleItems == old(visibleItems) && currentPage == old(currentPage)
      ensures old(visibleItems) <= visibleItems
      ensures |visibleItems| <= |old(visibleItems)| + PAGE_SIZE
      ensures old(Valid()) ==> Valid()
    {
      var nextPage := currentPage + 1;
      var startIndex := (nextPage - 1) * PAGE_SIZE;
      var endIndex := nextPage * PAGE_SIZE;
      var additionalItems := Slice(Filter(items, searchTerm), startIndex, endIndex);
      if |additionalItems| > 0 {
        WindowStep(Filter(items, searchTerm), currentPage);
        visibleItems := visibleItems + additionalItems;
        currentPage := nextPage;
      } else {
        WindowStep(Filter(items, searchTerm), currentPage);
      }
    }

    /** `updateVisibleItems(term)`: show the first page of the cards matching `term`. */
    method UpdateVisibleItems(term: string)
      modifies this`visibleItems, this`currentPage
      ensures visibleItems == Slice(Filter(items, term), 0, PAGE_SIZE) && currentPage == 1
      ensures searchTerm == term ==> Valid()
    {
      var filteredItems := Filter(items, term);
      visibleItems := Slice(filteredItems, 0, PAGE_SIZE);
      currentPage := 1;
    }

    /** `handleSearch(term)`: record the term, then show the first page of its matches. */
    method HandleSearch(term: string)
      modifies this`searchTerm, this`visibleItems, this`currentPage
      ensures searchTerm == term && currentPage == 1
      ensures visibleItems == Window(Filter(items, term), 1)
      ensures Valid()
    {
      searchTerm := term;
      UpdateVisibleItems(term);
    }
  }

  /** The empty term matches every card, so filtering by it keeps the list as it is. */
  lemma {:induction false} FilterEmptyTerm(items: seq<VideoData>)
    ensures Filter(items, "") == items
  {
    if items != [] {
      assert OccursAt(LowerString(items[0].videoTitle), LowerString(""), 0);
      FilterEmptyTerm(items[1..]);
    }
  }

  /** Filtering keeps the original order: it distributes over concatenation. */
  lemma {:induction false} FilterAppend(a: seq<VideoData>, b: seq<VideoData>, term: string)
    ensures Filter(a + b, term) == Filter(a, term) + Filter(b, term)
  {
    if a == [] {
      assert a + b == b;
    } else {
      assert (a + b)[0] == a[0];
      assert (a + b)[1..] == a[1..] + b;
      FilterAppend(a[1..], b, term);
    }
  }

  /**
   * One `loadMoreItems` step over the matching cards: the next slice extends the window by
   * one page, and it is empty exactly when the window already holds every match.
   */
  lemma WindowStep(filtered: seq<VideoData>, page: nat)
    ensures var additional := Slice(filtered, page * PAGE_SIZE, (page + 1) * PAGE_SIZE);
            && Window(filtered, page) + additional == Window(filtered, page + 1)
            && (additional == [] <==> |Window(filtered, page)| == |filtered|)
  {
  }

  /** A text in which the first character of `needle` never appears does not contain it. */
  lemma AbsentFirstChar(hay: string, needle: string)
    requires |needle| > 0 && needle[0] !in hay
    ensures !Contains(hay, needle)
  {
  }

  /** Which of the three example titles contain "work", ignoring case. */
  lemma ExampleTitleMatches()
    ensures !Matches(VideoData("1", "", "Keynote", "", 0), "work")
    ensures Matches(VideoData("2", "", "Workshop", "", 0), "work")
    ensures !Matches(VideoData("3", "", "Fireside Chat", "", 0), "work")
  {
    assert LowerString("work") == "work";
    assert LowerString("") == "";
    AbsentFirstChar("", "work");
    assert OccursAt(LowerString("Workshop"), "work", 0) by {
      assert LowerString("Workshop")[..4] == "work";
    }
    assert LowerString("Keynote") == "keynote";
    AbsentFirstChar("keynote", "work");
    assert LowerString("Fireside Chat") == "fireside chat";
    AbsentFirstChar("fireside chat", "work");
  }

  /** The search example: of "Keynote", "Workshop" and "Fireside Chat", only "Workshop" contains "work". */
  lemma SearchExample()
    ensures var keynote := VideoData("1", "", "Keynote", "", 0);
            var workshop := VideoData("2", "", "Workshop", "", 0);
            var fireside := VideoData("3", "", "Fireside Chat", "", 0);
            Filter([keynote, workshop, fireside], "work") == [workshop]
  {
    var keynote := VideoData("1", "", "Keynote", "", 0);
    var workshop := VideoData("2", "", "Workshop", "", 0);
    var fireside := VideoData("3", "", "Fireside Chat", "", 0);
    ExampleTitleMatches();
    assert [keynote, workshop, fireside][1..] == [workshop, fireside];
    assert [workshop, fireside][1..] == [fireside];
    assert Filter([fireside], "work") == [];
    assert Filter([workshop, fireside], "work") == [workshop];
  }

  /**
   * The scrolling example: with 25 cards matching the term, the revealed count goes
   * 10, 20, 25, and a further request changes nothing.
   */
  method ScrollExample(items: seq<VideoData>, term: string) returns (counts: seq<nat>)
    requires |Filter(items, term)| == 25
    ensures counts == [10, 20, 25, 25]
  {
    var list := new VideoList(items);
    list.HandleSearch(term);
    counts := [|list.visibleItems|];
    list.LoadMoreItems();
    counts := counts + [|list.visibleItems|];
    list.LoadMoreItems();
    counts := counts + [|list.visibleItems|];
    list.LoadMoreItems();
    counts := counts + [|list.visibleItems|];
  }
}
