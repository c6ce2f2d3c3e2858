// Feed page items and their timeline order (domain/feed/entity.go).
module FeedDomain {
  import opened Base
  import opened Ranking

  const BIG_CREATOR_FOLLOWER_THRESHOLD: int := 10000
  const MAX_LIMIT: int := 100
  const NANOS: int := 1000000000

  // Times are nanoseconds since the epoch; this is Go's zero time.
  const ZERO_TIME: int := -62135596800 * NANOS

  // A page item, and at the same time the sorted-set member written for it.
  datatype Item = Item(videoID: int, authorID: int, publishedAt: int)

  datatype Cursor = Cursor(publishedAt: int, videoID: int)

  // published_at DESC, id DESC: `a` is shown after `b`. Video ids are unique, so
  // the author never decides.
  predicate Timeline(a: Item, b: Item) {
    || a.publishedAt < b.publishedAt
    || (a.publishedAt == b.publishedAt && a.videoID < b.videoID)
    || (a.publishedAt == b.publishedAt && a.videoID == b.videoID && a.authorID < b.authorID)
  }

  lemma TimelineIsTotal()
    ensures StrictTotal(Timeline)
  {
  }

  function CursorOf(item: Item): Cursor {
    Cursor(item.publishedAt, item.videoID)
  }

  // The items a cursor leaves: published before it, or at the same time with a
  // smaller id.
  function BelowCursor(s: set<Item>, cursor: Option<Cursor>): set<Item> {
    set e | e in s && (cursor.Some? ==>
      e.publishedAt < cursor.value.publishedAt ||
      (e.publishedAt == cursor.value.publishedAt && e.videoID < cursor.value.videoID))
  }

  ghost predicate UniqueVideos(s: set<Item>) {
    forall a, b :: a in s && b in s && a.videoID == b.videoID ==> a == b
  }

  lemma CursorContinues(s: set<Item>, item: Item)
    requires UniqueVideos(s) && item in s
    ensures BelowCursor(s, Some(CursorOf(item))) == Below(Timeline, s, Some(item))
  {
  }

  // ----- pages of a timeline -----

  // The page of n items a cursor asks for, and whether more follow.
  ghost predicate IsTimelinePage(u: set<Item>, cursor: Option<Cursor>, n: nat, page: seq<Item>, hasMore: bool) {
    var rest := BelowCursor(u, cursor);
    Lists(Timeline, page, Top(Timeline, rest, n)) && (hasMore <==> |rest| > n)
  }

  // The cursor a page ends with: none at the start, then that of its last item.
  function CursorAt(item: Option<Item>): Option<Cursor> {
    match item
    case None => None
    case Some(x) => Some(CursorOf(x))
  }

  // A page asked for with the cursor of an item is the page below that item.
  lemma TimelinePageIsPage(u: set<Item>, from: Option<Item>, n: nat, page: seq<Item>, hasMore: bool)
    requires UniqueVideos(u) && (from.Some? ==> from.value in u)
    ensures IsTimelinePage(u, CursorAt(from), n, page, hasMore) <==> IsPage(Timeline, u, from, n, page, hasMore)
  {
    if from.Some? {
      CursorContinues(u, from.value);
    } else {
      assert BelowCursor(u, None) == u;
    }
  }

  // Pages that follow each other's cursors until one announces no more.
  ghost predicate IsTimelineWalk(u: set<Item>, from: Option<Item>, n: nat, pages: seq<seq<Item>>)
    decreases |pages|
  {
    && pages != []
    && IsTimelinePage(u, CursorAt(from), n, pages[0], |pages| > 1)
    && (|pages| > 1 ==>
          pages[0] != [] && IsTimelineWalk(u, Some(pages[0][|pages[0]| - 1]), n, pages[1..]))
  }

  lemma {:induction false} TimelineWalkIsWalk(u: set<Item>, from: Option<Item>, n: nat, pages: seq<seq<Item>>)
    requires UniqueVideos(u) && (from.Some? ==> from.value in u) && IsTimelineWalk(u, from, n, pages)
    ensures IsWalk(Timeline, u, from, n, pages)
    decreases |pages|
  {
    TimelinePageIsPage(u, from, n, pages[0], |pages| > 1);
    if |pages| > 1 {
      var last := pages[0][|pages[0]| - 1];
      assert last in Elements(pages[0]);
      TimelineWalkIsWalk(u, Some(last), n, pages[1..]);
    }
  }

  // Following the cursors from the first page on shows every item exactly once, in
  // timeline order, and a page that announces more is full.
  lemma TimelineWalkShowsAll(u: set<Item>, n: nat, pages: seq<seq<Item>>)
    requires UniqueVideos(u) && n > 0 && IsTimelineWalk(u, None, n, pages)
    ensures Lists(Timeline, Flatten(pages), u)
    ensures |pages| > 1 ==> |pages[0]| == n
  {
    TimelineIsTotal();
    TimelineWalkIsWalk(u, None, n, pages);
    WalkVisitsAll(Timeline, u, None, n, pages);
    if |pages| > 1 {
      MoreMeansProgress(Timeline, u, None, n, pages[0]);
    }
  }

  // Fetching one item more than the page shows tells exactly whether more follow.
  lemma OneMoreTells(rest: set<Item>, n: nat, fetched: seq<Item>)
    requires Lists(Timeline, fetched, Top(Timeline, rest, n + 1))
    ensures |fetched| > n <==> |rest| > n
    ensures Lists(Timeline, if |fetched| > n then fetched[..n] else fetched, Top(Timeline, rest, n))
  {
    TimelineIsTotal();
    var top := Top(Timeline, rest, n + 1);
    TopSize(Timeline, rest, n + 1);
    ListingSize(Timeline, fetched, top);
    PrefixListsTop(Timeline, fetched, top, n);
    TopOfTop(rest, n);
    assert fetched[..|fetched|] == fetched;
  }

  lemma TopOfTop(rest: set<Item>, n: nat)
    ensures Top(Timeline, Top(Timeline, rest, n + 1), n) == Top(Timeline, rest, n)
  {
    TimelineIsTotal();
    forall e | e in rest ensures
      e in Top(Timeline, Top(Timeline, rest, n + 1), n) <==> e in Top(Timeline, rest, n)
    {
      TopKeepsAbove(Timeline, rest, n + 1, e);
    }
  }

  predicate HasSmallAuthors(followed: seq<int>, pull: seq<int>) {
    exists a :: a in followed && a !in pull
  }

  // The in-place sort of the page items.
  method SortPageItemsByTimeline(a: array<Item>)
    modifies a
    ensures a[..] == Sorted(Timeline, old(a[..]))
  {
    TimelineIsTotal();
    SortInPlace(Timeline, a);
  }
}
