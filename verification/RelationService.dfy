// Follow and un-follow with their effect on the follower's inbox: backfill of the
// author's recent videos, clean-up of the author's entries
// (application/relation/service.go, domain/relation/entity.go).
module RelationService {
  import opened Base
  import opened Ranking
  import opened FeedDomain
  import opened FollowingIndex
  import opened FeedRepo
  import Rel = RelationRepo

  const BACKFILL_VIDEO_LIMIT: nat := 100
  const BACKFILL_INBOX_MAX_LEN: nat := 1000
  const MAX_IDEMPOTENCY_KEY_LENGTH: nat := 128

  datatype FollowError =
    InvalidUserID | InvalidTargetUserID | FollowSelfForbidden | IdempotencyKeyTooLong | TargetUserNotFound

  // NewFollow: what a request must satisfy before anything is written.
  function Invalid(edge: Rel.Edge, idem: string): (r: Option<FollowError>)
    ensures r.None? <==> edge.userID > 0 && edge.targetID > 0 && edge.userID != edge.targetID
                         && |idem| <= MAX_IDEMPOTENCY_KEY_LENGTH
    ensures r == Some(FollowSelfForbidden) <==> edge.userID == edge.targetID > 0
  {
    if edge.userID <= 0 then Some(InvalidUserID)
    else if edge.targetID <= 0 then Some(InvalidTargetUserID)
    else if edge.userID == edge.targetID then Some(FollowSelfForbidden)
    else if |idem| > MAX_IDEMPOTENCY_KEY_LENGTH then Some(IdempotencyKeyTooLong)
    else None
  }

  // The videos a backfill adds: the author's most recent ones that an inbox accepts.
  ghost function Recent(videos: set<Item>, authorID: int): set<Item> {
    set x | x in Top(Timeline, VideosOf(videos, authorID), BACKFILL_VIDEO_LIMIT) && Accepted(authorID, Some(x))
  }

  // An inbox after adding some members one by one, in any order.
  ghost function WithItems(lt: Order<Item>, s: set<Item>, items: set<Item>): set<Item> {
    if |items| > 0 then Top(lt, s + items, BACKFILL_INBOX_MAX_LEN) else s
  }

  ghost predicate Backfilled(
    lt: Order<Item>, was: map<int, seq<Item>>, now: map<int, seq<Item>>, userID: int, items: set<Item>)
  {
    forall u :: Elements(KeyOf(now, u)) ==
                if u == userID then WithItems(lt, Elements(KeyOf(was, u)), items) else Elements(KeyOf(was, u))
  }

  // One more member, added and trimmed, is one more member added to all of them.
  lemma OneMore(lt: Order<Item>, s: set<Item>, items: set<Item>, x: Item)
    requires StrictTotal(lt)
    ensures Top(lt, WithItems(lt, s, items) + {x}, BACKFILL_INBOX_MAX_LEN) == WithItems(lt, s, items + {x})
  {
    assert x in items + {x} && |items + {x}| > 0;
    assert s + items + {x} == s + (items + {x});
    if |items| > 0 {
      TopUnion(lt, s + items, {x}, BACKFILL_INBOX_MAX_LEN);
    } else {
      assert items == {};
    }
  }

  lemma BackfilledMore(
    lt: Order<Item>, was: map<int, seq<Item>>, mid: map<int, seq<Item>>, now: map<int, seq<Item>>,
    userID: int, items: set<Item>, x: Item)
    requires StrictTotal(lt) && Backfilled(lt, was, mid, userID, items)
    requires Added(lt, mid, now, {userID}, x, BACKFILL_INBOX_MAX_LEN)
    ensures Backfilled(lt, was, now, userID, items + {x})
  {
    OneMore(lt, Elements(KeyOf(was, userID)), items, x);
  }

  // What a successful request does to the inboxes.
  ghost predicate InboxEffect(
    lt: Order<Item>, was: map<int, seq<Item>>, now: map<int, seq<Item>>,
    edge: Rel.Edge, active: bool, took: bool, big: bool, recent: set<Item>)
  {
    if !active then Cleared(was, now, edge.userID, edge.targetID)
    else if took && !big then Backfilled(lt, was, now, edge.userID, recent)
    else now == was
  }

  class Service {
    const repo: Rel.Repository
    const feed: FeedRepository
    const index: FollowingIndexCache?

    constructor (repo: Rel.Repository, feed: FeedRepository, index: FollowingIndexCache?)
      requires feed.relations == repo
      ensures this.repo == repo && this.feed == feed && this.index == index
    {
      this.repo, this.feed, this.index := repo, feed, index;
    }

    method SetFollow(edge: Rel.Edge, active: bool, idem: string) returns (r: Result<Rel.FollowOutcome, FollowError>)
      requires feed.relations == repo && (index != null ==> index.Valid())
      modifies repo, if index != null then {index} else {}
      ensures index != null ==> index.Valid() && index.outboxes == old(index.outboxes)
      ensures Invalid(edge, idem).Some? ==> r == Err(Invalid(edge, idem).value) && repo.View() == old(repo.View())
      ensures Invalid(edge, idem).None? ==>
                var (db, outcome) := Rel.AfterSetFollow(old(repo.View()), edge, active, idem);
                repo.View() == db && r == (if outcome.Ok? then Ok(outcome.value) else Err(TargetUserNotFound))
      ensures index != null && r.Err? ==> index.inboxes == old(index.inboxes)
      ensures index != null && r.Ok? ==>
                InboxEffect(RedisOrder(index.memberLess), old(index.inboxes), index.inboxes, edge, active,
                            r.value.active,
                            FollowerCount(repo.stats, edge.targetID) >= BIG_CREATOR_FOLLOWER_THRESHOLD,
                            Recent(feed.videos, edge.targetID))
      // An un-follow clears the author out of the inbox; a follow that took adds the
      // author's recent videos, unless the author is pulled from.
      ensures index != null && r.Ok? && !active ==>
                Cleared(old(index.inboxes), index.inboxes, edge.userID, edge.targetID)
      ensures index != null && r.Ok? && active && r.value.active ==>
                if FollowerCount(repo.stats, edge.targetID) >= BIG_CREATOR_FOLLOWER_THRESHOLD
                then index.inboxes == old(index.inboxes)
                else Backfilled(RedisOrder(index.memberLess), old(index.inboxes), index.inboxes, edge.userID,
                                Recent(feed.videos, edge.targetID))
    {
      var invalid := Invalid(edge, idem);
      if invalid.Some? {
        return Err(invalid.value);
      }
      var outcome := repo.SetFollow(edge, active, idem);
      if outcome.Err? {
        return Err(TargetUserNotFound);
      }
      if active && outcome.value.active {
        BackfillFollowFeed(edge.userID, edge.targetID);
      }
      if !active && index != null {
        index.RemoveInboxAuthor(edge.userID, edge.targetID);
      }
      r := Ok(outcome.value);
    }

    method BackfillFollowFeed(userID: int, targetID: int)
      requires feed.relations == repo && userID > 0 && targetID > 0 && (index != null ==> index.Valid())
      modifies if index != null then {index} else {}
      ensures index != null ==>
                && index.Valid() && index.outboxes == old(index.outboxes)
                && (if FollowerCount(repo.stats, targetID) >= BIG_CREATOR_FOLLOWER_THRESHOLD
                    then index.inboxes == old(index.inboxes)
                    else Backfilled(RedisOrder(index.memberLess), old(index.inboxes), index.inboxes, userID,
                                    Recent(feed.videos, targetID)))
    {
      if index == null {
        return;
      }
      var followerCount := feed.CountFollowers(targetID);
      if followerCount >= BIG_CREATOR_FOLLOWER_THRESHOLD {
        return;
      }
      var items := feed.ListAuthorRecentVideos(targetID, BACKFILL_VIDEO_LIMIT);
      AddItems(index, userID, targetID, items);
      assert AcceptedOf(items, targetID) == Recent(feed.videos, targetID);
    }

    static ghost function AcceptedOf(items: seq<Item>, authorID: int): set<Item> {
      set x | x in Elements(items) && Accepted(authorID, Some(x))
    }

    static lemma AcceptedSnoc(items: seq<Item>, i: nat, authorID: int)
      requires i < |items|
      ensures AcceptedOf(items[..i + 1], authorID) ==
              AcceptedOf(items[..i], authorID) + (if Accepted(authorID, Some(items[i])) then {items[i]} else {})
      ensures items[i] in Elements(items)
    {
      assert items[..i + 1][..i] == items[..i];
      ElementsSnoc(items[..i + 1]);
    }

    // The loop over the recent videos.
    static method AddItems(index: FollowingIndexCache, userID: int, authorID: int, items: seq<Item>)
      requires index.Valid() && userID > 0 && forall x :: x in Elements(items) ==> x.authorID == authorID
      modifies index`inboxes
      ensures index.Valid()
      ensures Backfilled(RedisOrder(index.memberLess), old(index.inboxes), index.inboxes, userID,
                         AcceptedOf(items, authorID))
    {
      ghost var was := index.inboxes;
      var i := 0;
      assert AcceptedOf(items[..0], authorID) == {};
      while i < |items|
        invariant 0 <= i <= |items|
        invariant index.Valid()
        invariant Backfilled(RedisOrder(index.memberLess), was, index.inboxes, userID, AcceptedOf(items[..i], authorID))
      {
        AcceptedSnoc(items, i, authorID);
        AddItem(index, userID, authorID, items[i], was, AcceptedOf(items[..i], authorID));
        i := i + 1;
      }
      assert items[..i] == items;
    }

    static method AddItem(
      index: FollowingIndexCache, userID: int, authorID: int, x: Item,
      ghost was: map<int, seq<Item>>, ghost done: set<Item>)
      requires index.Valid() && userID > 0 && x.authorID == authorID
      requires Backfilled(RedisOrder(index.memberLess), was, index.inboxes, userID, done)
      modifies index`inboxes
      ensures index.Valid()
      ensures Backfilled(RedisOrder(index.memberLess), was, index.inboxes, userID,
                         done + (if Accepted(authorID, Some(x)) then {x} else {}))
    {
      ghost var mid := index.inboxes;
      index.AddInboxItems(authorID, [userID], Some(x), BACKFILL_INBOX_MAX_LEN);
      if Accepted(authorID, Some(x)) {
        RedisOrderIsTotal(index.memberLess);
        assert Recipients([userID]) == {userID};
        BackfilledMore(RedisOrder(index.memberLess), was, mid, index.inboxes, userID, done, x);
      } else {
        assert done + {} == done;
      }
    }
  }
}
