// Fan-out of a published video to its author's followers, page by page
// (application/video/fanout_worker.go).
module Fanout {
  import opened Base
  import opened Ranking
  import opened FeedDomain
  import opened FollowingIndex
  import opened FeedRepo
  import Rel = RelationRepo

  const DEFAULT_FOLLOWER_BATCH_SIZE: nat := 500
  const INBOX_MAX_LEN: nat := 1000
  const OUTBOX_MAX_LEN: nat := 500

  // One page of followers leaves exactly the followers after its last id.
  lemma PageOfFollowers(followers: set<int>, cursor: int, limit: nat, ids: seq<int>)
    requires limit > 0 && (forall u :: u in followers ==> u > 0) && cursor >= 0
    requires Lists(Ascending, ids, Top(Ascending, Past(followers, cursor), limit))
    ensures ids == [] ==> Past(followers, cursor) == {}
    ensures ids != [] ==>
              var last := ids[|ids| - 1];
              && last > cursor && last in followers
              && (forall u :: u in ids ==> u > 0)
              && (forall u :: u in Past(followers, cursor) ==> (u in ids <==> u <= last))
              && (set u | u in ids) == Past(followers, cursor) - Past(followers, last)
              && Past(followers, last) <= Past(followers, cursor)
              && (|ids| < limit ==> Past(followers, last) == {})
  {
    var rest := Past(followers, cursor);
    TopSize(Ascending, rest, limit);
    ListingSize(Ascending, ids, Top(Ascending, rest, limit));
    forall u ensures u in ids <==> u in Elements(ids) {
    }
    if ids != [] {
      var last := ids[|ids| - 1];
      assert last in Elements(ids);
      forall u | u in rest ensures u in ids <==> u <= last {
        if u in ids {
          var i :| 0 <= i < |ids| && ids[i] == u;
          assert i < |ids| - 1 ==> Ascending(ids[|ids| - 1], ids[i]);
        } else {
          KeptAboveDropped(Ascending, rest, limit, last, u);
        }
      }
    } else {
      NonEmpty(rest);
    }
  }

  ghost predicate Delivered(
    lt: Order<Item>, was: map<int, seq<Item>>, now: map<int, seq<Item>>,
    users: set<int>, authorID: int, event: Option<Item>)
  {
    if Accepted(authorID, event) then Added(lt, was, now, users, event.value.(authorID := authorID), INBOX_MAX_LEN)
    else was == now
  }

  lemma DeliveredPage(
    lt: Order<Item>, was: map<int, seq<Item>>, mid: map<int, seq<Item>>, now: map<int, seq<Item>>,
    done: set<int>, ids: seq<int>, authorID: int, event: Option<Item>)
    requires StrictTotal(lt) && (forall u :: u in ids ==> u > 0) && Delivered(lt, was, mid, done, authorID, event)
    requires Delivered(lt, mid, now, Recipients(ids), authorID, event)
    ensures Delivered(lt, was, now, done + (set u | u in ids), authorID, event)
  {
    if Accepted(authorID, event) {
      AddedTwice(lt, was, mid, now, done, Recipients(ids), event.value.(authorID := authorID), INBOX_MAX_LEN);
      assert Recipients(ids) == (set u | u in ids);
    }
  }

  class FanoutWorker {
    const repo: FeedRepository
    const index: FollowingIndexCache
    const batchSize: nat

    constructor (repo: FeedRepository, index: FollowingIndexCache, batchSize: int)
      ensures this.repo == repo && this.index == index
      ensures this.batchSize == if batchSize > 0 then batchSize else DEFAULT_FOLLOWER_BATCH_SIZE
    {
      this.repo, this.index := repo, index;
      this.batchSize := if batchSize > 0 then batchSize else DEFAULT_FOLLOWER_BATCH_SIZE;
    }

    // However many pages of followers it takes, every follower's inbox gets the
    // item once and nobody else's changes; big creators write their outbox instead.
    method HandleVideoPublished(event: Option<Item>)
      requires index.Valid() && batchSize > 0
      // Follow rows exist for positive ids only (NewFollow).
      requires event.Some? ==> forall u :: u in Followers(repo.relations.follows, event.value.authorID) ==> u > 0
      modifies index
      ensures index.Valid()
      ensures event.Some? && event.value.authorID > 0 && event.value.videoID > 0 ==>
                var authorID := event.value.authorID;
                if FollowerCount(repo.relations.stats, authorID) >= BIG_CREATOR_FOLLOWER_THRESHOLD then
                  && index.inboxes == old(index.inboxes)
                  && (forall a :: index.Outbox(a) ==
                        if Accepted(authorID, event) && a == authorID
                        then Top(RedisOrder(index.memberLess), old(index.Outbox(a)) + {event.value}, OUTBOX_MAX_LEN)
                        else old(index.Outbox(a)))
                else
                  && index.outboxes == old(index.outboxes)
                  && Delivered(RedisOrder(index.memberLess), old(index.inboxes), index.inboxes,
                               Followers(repo.relations.follows, authorID), authorID, event)
      ensures event.None? || event.value.authorID <= 0 || event.value.videoID <= 0 ==>
                index.inboxes == old(index.inboxes) && index.outboxes == old(index.outboxes)
    {
      if event.None? || event.value.videoID <= 0 || event.value.authorID <= 0 {
        return;
      }
      var authorID := event.value.authorID;
      var followerCount := repo.CountFollowers(authorID);
      if followerCount >= BIG_CREATOR_FOLLOWER_THRESHOLD {
        index.AddAuthorOutboxItem(authorID, event, OUTBOX_MAX_LEN);
        return;
      }
      FanOut(authorID, event);
    }

    // The follower-page loop.
    method FanOut(authorID: int, event: Option<Item>)
      requires index.Valid() && batchSize > 0
      requires forall u :: u in Followers(repo.relations.follows, authorID) ==> u > 0
      modifies index`inboxes
      ensures index.Valid()
      ensures Delivered(RedisOrder(index.memberLess), old(index.inboxes), index.inboxes,
                        Followers(repo.relations.follows, authorID), authorID, event)
    {
      ghost var followers := Followers(repo.relations.follows, authorID);
      ghost var was, lt := index.inboxes, RedisOrder(index.memberLess);
      RedisOrderIsTotal(index.memberLess);
      var cursor := 0;
      var done := false;
      assert Past(followers, 0) == followers && followers - followers == {};
      while !done
        invariant index.Valid() && cursor >= 0
        invariant done ==> Past(followers, cursor) == {}
        invariant Delivered(lt, was, index.inboxes, followers - Past(followers, cursor), authorID, event)
        decreases !done, |Past(followers, cursor)|
      {
        var ids := repo.ListFollowerIDs(authorID, cursor, batchSize);
        PageOfFollowers(followers, cursor, batchSize, ids);
        if ids == [] {
          done := true;
        } else {
          ghost var before := Past(followers, cursor);
          ghost var mid := index.inboxes;
          index.AddInboxItems(authorID, ids, event, INBOX_MAX_LEN);
          DeliveredPage(lt, was, mid, index.inboxes, followers - before, ids, authorID, event);
          cursor := ids[|ids| - 1];
          assert followers - before + (set u | u in ids) == followers - Past(followers, cursor);
          assert cursor in before - Past(followers, cursor);
          SubsetSize(Past(followers, cursor), before);
          done := |ids| < batchSize;
        }
      }
      assert followers - Past(followers, cursor) == followers;
    }
  }
}
