// The following feed as the client sees it: the index when it is usable, the
// plain query otherwise (application/feed/strategy_following.go).
module FollowingStrategy {
  import opened Base
  import opened Ranking
  import opened FeedDomain
  import opened FollowingIndex
  import opened FeedRepo

  datatype Page = Page(items: seq<Item>, next: Option<Cursor>, hasMore: bool)

  // encodeTimelineCursor: no cursor for an id that is not positive or a zero time.
  function NextCursor(items: seq<Item>): Option<Cursor> {
    if items == [] then None
    else
      var last := items[|items| - 1];
      if last.videoID <= 0 || last.publishedAt == ZERO_TIME then None else Some(CursorOf(last))
  }

  // ----- following the cursors -----

  // A page of u and the cursor it ends with.
  ghost predicate Reads(u: set<Item>, cursor: Option<Cursor>, n: nat, page: Page) {
    IsTimelinePage(u, cursor, n, page.items, page.hasMore) && page.next == NextCursor(page.items)
  }

  // The page made of one item more than it shows.
  function PageOf(fetched: seq<Item>, limit: nat): Page {
    var items := if |fetched| > limit then fetched[..limit] else fetched;
    Page(items, NextCursor(items), |fetched| > limit)
  }

  lemma CutPage(u: set<Item>, cursor: Option<Cursor>, limit: nat, fetched: seq<Item>)
    ensures var page := PageOf(fetched, limit);
            Lists(Timeline, fetched, Top(Timeline, BelowCursor(u, cursor), limit + 1)) ==>
              && Reads(u, cursor, limit, page)
              && (PlainItems(u) && page.items != [] ==> page.next == Some(CursorOf(page.items[|page.items| - 1])))
  {
    var rest := BelowCursor(u, cursor);
    if Lists(Timeline, fetched, Top(Timeline, rest, limit + 1)) {
      OneMoreTells(rest, limit, fetched);
      var items := PageOf(fetched, limit).items;
      if items != [] {
        assert items[|items| - 1] in Elements(items);
      }
    }
  }

  // A client's walk over a source that does not change: each request carries the
  // cursor of the page before, until a page announces no more.
  ghost predicate IsPageWalk(u: set<Item>, cursor: Option<Cursor>, n: nat, pages: seq<Page>)
    decreases |pages|
  {
    && pages != [] && Reads(u, cursor, n, pages[0]) && (pages[0].hasMore <==> |pages| > 1)
    && (|pages| > 1 ==> IsPageWalk(u, pages[0].next, n, pages[1..]))
  }

  function ItemsOf(pages: seq<Page>): seq<seq<Item>> {
    if pages == [] then [] else [pages[0].items] + ItemsOf(pages[1..])
  }

  lemma {:induction false} PageWalkIsTimelineWalk(u: set<Item>, from: Option<Item>, n: nat, pages: seq<Page>)
    requires PlainItems(u) && n > 0 && (from.Some? ==> from.value in u) && IsPageWalk(u, CursorAt(from), n, pages)
    ensures IsTimelineWalk(u, from, n, ItemsOf(pages)) && |ItemsOf(pages)| == |pages|
    decreases |pages|
  {
    var page := pages[0];
    if |pages| == 1 {
      assert pages[1..] == [] && ItemsOf(pages) == [page.items];
    } else {
      TimelineIsTotal();
      TimelinePageIsPage(u, from, n, page.items, page.hasMore);
      MoreMeansProgress(Timeline, u, from, n, page.items);
      var last := page.items[|page.items| - 1];
      assert last in Elements(page.items);
      PageWalkIsTimelineWalk(u, Some(last), n, pages[1..]);
      assert ItemsOf(pages)[1..] == ItemsOf(pages[1..]);
    }
  }

  // Following NextCursor shows every plain item of the source once, in timeline order.
  lemma PageWalkShowsAll(u: set<Item>, n: nat, pages: seq<Page>)
    requires PlainItems(u) && n > 0 && IsPageWalk(u, None, n, pages)
    ensures Lists(Timeline, Flatten(ItemsOf(pages)), u)
  {
    PageWalkIsTimelineWalk(u, None, n, pages);
    TimelineWalkShowsAll(u, n, ItemsOf(pages));
  }

  class Strategy {
    const repo: FeedRepository
    const index: FollowingIndexCache?

    constructor (repo: FeedRepository, index: FollowingIndexCache?)
      ensures this.repo == repo && this.index == index
    {
      this.repo, this.index := repo, index;
    }

    ghost predicate Valid()
      reads index
    {
      index == null || index.Valid()
    }

    // What the plain query ranges over.
    ghost function Shown(viewerID: int): set<Item>
      reads repo, repo.relations
    {
      FollowedVideos(repo.videos, repo.relations.follows, viewerID)
    }

    // Whenever the index would be used it holds exactly the viewer's videos.
    ghost predicate IndexFaithful(viewerID: int)
      reads repo, repo.relations, index
    {
      index == null || forall pull, followed ::
        Lists(Ascending, followed, Followed(repo.relations.follows, viewerID)) &&
        Lists(Ascending, pull, BigCreators(Followed(repo.relations.follows, viewerID), repo.relations.stats)) &&
        index.Usable(viewerID, pull, followed) ==>
          index.IndexSet(viewerID, pull) == Shown(viewerID)
    }

    // The author ids the repository lists for a viewer.
    ghost predicate Listed(viewerID: int, pull: seq<int>, followed: seq<int>)
      reads repo, repo.relations
    {
      && Lists(Ascending, followed, Followed(repo.relations.follows, viewerID))
      && Lists(Ascending, pull, BigCreators(Followed(repo.relations.follows, viewerID), repo.relations.stats))
    }

    ghost predicate FromIndex(viewerID: int, pull: seq<int>, followed: seq<int>)
      reads index
    {
      index != null && viewerID > 0 && index.Usable(viewerID, pull, followed)
    }

    // What the pages range over: a usable index, whatever it holds, or the plain query.
    ghost function Source(viewerID: int, pull: seq<int>, followed: seq<int>): set<Item>
      reads repo, repo.relations, index
    {
      if FromIndex(viewerID, pull, followed) then index.IndexSet(viewerID, pull) else Shown(viewerID)
    }

    // An empty inbox although some followed author is below the threshold: the index
    // has only part of what the viewer follows.
    ghost predicate HalfBuilt(viewerID: int)
      reads repo, repo.relations, index
    {
      index != null && KeyOf(index.inboxes, viewerID) == [] &&
      exists a :: a in Followed(repo.relations.follows, viewerID) &&
                  a !in BigCreators(Followed(repo.relations.follows, viewerID), repo.relations.stats)
    }

    // When the index is read: it holds something in the inbox, or in the outbox of a
    // big creator while nobody else is followed.
    lemma FromIndexIff(viewerID: int, pull: seq<int>, followed: seq<int>)
      requires Listed(viewerID, pull, followed)
      ensures FromIndex(viewerID, pull, followed) <==>
              && index != null && viewerID > 0
              && (KeyOf(index.inboxes, viewerID) != [] ||
                  (SomeOutbox(index.outboxes, pull) && forall a :: a in followed ==> a in pull))
      ensures HalfBuilt(viewerID) ==> !FromIndex(viewerID, pull, followed)
    {
      if index != null {
        KeysHold(KeyOf(index.inboxes, viewerID), index.outboxes, pull);
        var all := Followed(repo.relations.follows, viewerID);
        forall a ensures a in followed <==> a in all {
          assert a in followed <==> a in Elements(followed);
        }
        forall a ensures a in pull <==> a in BigCreators(all, repo.relations.stats) {
          assert a in pull <==> a in Elements(pull);
        }
      }
    }

    // The plain query, or an index of followed authors' plain items.
    ghost predicate CleanSource(viewerID: int, pull: seq<int>, followed: seq<int>, cursor: Option<Cursor>)
      reads repo, repo.relations, index
    {
      && Listed(viewerID, pull, followed)
      && (FromIndex(viewerID, pull, followed) ==> index.Clean(viewerID, pull, followed, cursor))
    }

    // The repository's lists are the only ones.
    lemma ListedOnce(viewerID: int, pull: seq<int>, followed: seq<int>, pull': seq<int>, followed': seq<int>)
      requires Listed(viewerID, pull, followed) && Listed(viewerID, pull', followed')
      ensures pull == pull' && followed == followed'
    {
      ListingUnique(Ascending, followed, followed', Followed(repo.relations.follows, viewerID));
      ListingUnique(Ascending, pull, pull',
                    BigCreators(Followed(repo.relations.follows, viewerID), repo.relations.stats));
    }

    lemma InboxMeansIndex(viewerID: int, cursor: Option<Cursor>)
      ensures index != null && viewerID > 0 && KeyOf(index.inboxes, viewerID) != [] ==>
                forall pull, followed ::
                  Listed(viewerID, pull, followed) && index.Clean(viewerID, pull, followed, cursor) ==>
                    CleanSource(viewerID, pull, followed, cursor)
                    && Source(viewerID, pull, followed) == index.IndexSet(viewerID, pull)
    {
      if index != null {
        forall pull, followed | Listed(viewerID, pull, followed)
          ensures KeyOf(index.inboxes, viewerID) != [] && viewerID > 0 ==> FromIndex(viewerID, pull, followed)
        {
          FromIndexIff(viewerID, pull, followed);
        }
      }
    }

    // Whatever lists a statement about the source speaks of are those just read.
    lemma OnlyThese(viewerID: int, pull: seq<int>, followed: seq<int>, cursor: Option<Cursor>)
      requires Listed(viewerID, pull, followed)
      ensures forall p, f :: CleanSource(viewerID, p, f, cursor) ==> p == pull && f == followed
      ensures forall a :: a in followed <==> a in Followed(repo.relations.follows, viewerID)
    {
      forall p, f | CleanSource(viewerID, p, f, cursor) ensures p == pull && f == followed {
        ListedOnce(viewerID, p, f, pull, followed);
      }
      forall a ensures a in followed <==> a in Followed(repo.relations.follows, viewerID) {
        assert a in followed <==> a in Elements(followed);
      }
    }

    method ListFollowingItems(viewerID: int, cursor: Option<Cursor>, limit: nat) returns (items: seq<Item>)
      requires Valid()
      ensures viewerID > 0 && limit > 0 && IndexFaithful(viewerID) && PlainItems(Shown(viewerID)) &&
              (cursor.Some? ==> PlainTime(cursor.value.publishedAt, cursor.value.videoID)) ==>
                Lists(Timeline, items, Top(Timeline, BelowCursor(Shown(viewerID), cursor), limit))
      ensures index == null ==> Lists(Timeline, items, Top(Timeline, BelowCursor(Shown(viewerID), cursor), limit))
      ensures HalfBuilt(viewerID) ==>
                Lists(Timeline, items, Top(Timeline, BelowCursor(Shown(viewerID), cursor), limit))
      ensures limit > 0 ==> forall pull, followed :: CleanSource(viewerID, pull, followed, cursor) ==>
                Lists(Timeline, items, Top(Timeline, BelowCursor(Source(viewerID, pull, followed), cursor), limit))
    {
      if index != null {
        var pull := repo.ListFollowingPullAuthorIDs(viewerID);
        var followed := repo.ListFollowingAuthorIDs(viewerID);
        OnlyThese(viewerID, pull, followed, cursor);
        FromIndexIff(viewerID, pull, followed);
        var fromIndex, ok := index.ListFollowingIndexPage(viewerID, pull, followed, cursor, limit);
        if ok {
          return fromIndex;
        }
      }
      items := repo.ListFollowingPage(viewerID, cursor, limit);
    }

    // A page of the source, with exact HasMore and the cursor of its last item; read
    // through a faithful index it is the page of the plain query.
    method ListPage(viewerID: int, cursor: Option<Cursor>, limit: nat) returns (page: Page)
      requires Valid()
      ensures page.next == NextCursor(page.items)
      ensures index == null ==> IsTimelinePage(Shown(viewerID), cursor, limit, page.items, page.hasMore)
      ensures HalfBuilt(viewerID) ==> IsTimelinePage(Shown(viewerID), cursor, limit, page.items, page.hasMore)
      ensures viewerID > 0 && index != null && KeyOf(index.inboxes, viewerID) != [] ==>
                forall pull, followed ::
                  Listed(viewerID, pull, followed) && index.Clean(viewerID, pull, followed, cursor) ==>
                    Reads(index.IndexSet(viewerID, pull), cursor, limit, page)
      ensures viewerID > 0 && IndexFaithful(viewerID) && PlainItems(Shown(viewerID)) &&
              (cursor.Some? ==> PlainTime(cursor.value.publishedAt, cursor.value.videoID)) ==>
                && IsTimelinePage(Shown(viewerID), cursor, limit, page.items, page.hasMore)
                && (page.items != [] ==> page.next == Some(CursorOf(page.items[|page.items| - 1])))
      ensures forall pull, followed :: CleanSource(viewerID, pull, followed, cursor) ==>
                Reads(Source(viewerID, pull, followed), cursor, limit, page)
    {
      var items := ListFollowingItems(viewerID, cursor, limit + 1);
      ghost var fetched := items;
      var hasMore := |items| > limit;
      if hasMore {
        items := items[..limit];
      }
      page := Page(items, NextCursor(items), hasMore);
      CutPage(Shown(viewerID), cursor, limit, fetched);
      forall pull, followed | CleanSource(viewerID, pull, followed, cursor)
        ensures Reads(Source(viewerID, pull, followed), cursor, limit, page)
      {
        CutPage(Source(viewerID, pull, followed), cursor, limit, fetched);
      }
      InboxMeansIndex(viewerID, cursor);
    }
  }
}
