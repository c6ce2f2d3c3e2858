// The database queries the feed uses: followers, followed authors, recent videos
// and the plain following page (infra/persistence/feed/gorm.go).
module FeedRepo {
  import opened Base
  import opened Ranking
  import opened FeedDomain
  import Rel = RelationRepo

  // `a` is listed after `b` in an ascending id list.
  predicate Ascending(a: int, b: int) {
    a > b
  }

  function Followers(follows: map<Rel.Edge, Rel.FollowRow>, authorID: int): set<int> {
    set e | e in Rel.In(follows, authorID) :: e.userID
  }

  function Followed(follows: map<Rel.Edge, Rel.FollowRow>, userID: int): set<int> {
    set e | e in Rel.Out(follows, userID) :: e.targetID
  }

  // The published videos of the authors a user follows: what the following feed
  // is meant to show.
  function FollowedVideos(videos: set<Item>, follows: map<Rel.Edge, Rel.FollowRow>, userID: int): set<Item> {
    set x | x in videos && x.authorID in Followed(follows, userID)
  }

  function VideosOf(videos: set<Item>, authorID: int): set<Item> {
    set x | x in videos && x.authorID == authorID
  }

  // Ids after a positive cursor; all ids without one.
  function Past(ids: set<int>, cursor: int): set<int> {
    set u | u in ids && (cursor > 0 ==> u > cursor)
  }

  function BigCreators(ids: set<int>, stats: map<int, Rel.RelationStat>): set<int> {
    set a | a in ids && a in stats && stats[a].follower >= BIG_CREATOR_FOLLOWER_THRESHOLD
  }

  function FollowerCount(stats: map<int, Rel.RelationStat>, authorID: int): int {
    if authorID in stats then stats[authorID].follower else 0
  }

  // The authors whose outboxes are pulled are those whose videos go there: followed,
  // and with a follower count at or above the threshold the fan-out tests.
  lemma PulledIffBig(ids: set<int>, stats: map<int, Rel.RelationStat>, authorID: int)
    ensures authorID in BigCreators(ids, stats) <==>
            authorID in ids && FollowerCount(stats, authorID) >= BIG_CREATOR_FOLLOWER_THRESHOLD
  {
  }

  lemma FollowersIffEdge(follows: map<Rel.Edge, Rel.FollowRow>, userID: int, authorID: int)
    ensures userID in Followers(follows, authorID) <==> Rel.ActiveEdge(follows, Rel.Edge(userID, authorID))
    ensures authorID in Followed(follows, userID) <==> Rel.ActiveEdge(follows, Rel.Edge(userID, authorID))
  {
    var edge := Rel.Edge(userID, authorID);
    if Rel.ActiveEdge(follows, edge) {
      assert edge in Rel.In(follows, authorID) && edge in Rel.Out(follows, userID);
    }
  }

  // The counter kept with the rows is the number of followers.
  lemma FollowerCountIsCardinality(db: Rel.Db, authorID: int)
    requires Rel.Inv(db)
    ensures FollowerCount(db.stats, authorID) == |Followers(db.follows, authorID)|
  {
    assert Rel.UserExact(db, authorID);
    ImageSize(Rel.In(db.follows, authorID), authorID);
  }

  lemma {:induction false} ImageSize(edges: set<Rel.Edge>, authorID: int)
    requires forall e :: e in edges ==> e.targetID == authorID
    ensures |set e | e in edges :: e.userID| == |edges|
    decreases |edges|
  {
    if e :| e in edges {
      ImageSize(edges - {e}, authorID);
      var image, smaller := set x | x in edges :: x.userID, set x | x in edges - {e} :: x.userID;
      assert e.userID !in smaller;
      assert image == smaller + {e.userID};
    } else {
      assert edges == {};
    }
  }

  class FeedRepository {
    const relations: Rel.Repository
    var videos: set<Item>

    constructor (relations: Rel.Repository)
      ensures this.relations == relations && videos == {}
    {
      this.relations, videos := relations, {};
    }

    method CountFollowers(authorID: int) returns (count: int)
      ensures count == FollowerCount(relations.stats, authorID)
    {
      count := FollowerCount(relations.stats, authorID);
    }

    // Followers by ascending id, past the cursor when it is positive.
    method ListFollowerIDs(authorID: int, cursor: int, limit: nat) returns (ids: seq<int>)
      ensures Lists(Ascending, ids,
                    Top(Ascending, Past(Followers(relations.follows, authorID), cursor), limit))
    {
      ids := FirstOf(Past(Followers(relations.follows, authorID), cursor), limit);
    }

    method ListFollowingAuthorIDs(viewerID: int) returns (ids: seq<int>)
      ensures Lists(Ascending, ids, Followed(relations.follows, viewerID))
    {
      ids := ListSet(Ascending, Followed(relations.follows, viewerID));
    }

    // Followed authors at or above the threshold: their videos are pulled.
    method ListFollowingPullAuthorIDs(viewerID: int) returns (ids: seq<int>)
      ensures Lists(Ascending, ids, BigCreators(Followed(relations.follows, viewerID), relations.stats))
    {
      ids := ListSet(Ascending, BigCreators(Followed(relations.follows, viewerID), relations.stats));
    }

    method ListAuthorRecentVideos(authorID: int, limit: int) returns (items: seq<Item>)
      ensures Lists(Timeline, items,
                    if authorID <= 0 || limit <= 0 then {} else Top(Timeline, VideosOf(videos, authorID), limit))
    {
      if authorID <= 0 || limit <= 0 {
        return [];
      }
      TimelineIsTotal();
      var all := ListSet(Timeline, VideosOf(videos, authorID));
      PrefixListsTop(Timeline, all, VideosOf(videos, authorID), limit);
      items := all[..if limit < |all| then limit else |all|];
    }

    // The reference query of the following feed.
    method ListFollowingPage(viewerID: int, cursor: Option<Cursor>, limit: nat) returns (items: seq<Item>)
      ensures Lists(Timeline, items,
                    Top(Timeline, BelowCursor(FollowedVideos(videos, relations.follows, viewerID), cursor), limit))
    {
      TimelineIsTotal();
      var rest := BelowCursor(FollowedVideos(videos, relations.follows, viewerID), cursor);
      var all := ListSet(Timeline, rest);
      PrefixListsTop(Timeline, all, rest, limit);
      items := all[..if limit < |all| then limit else |all|];
    }

    static method FirstOf(s: set<int>, limit: nat) returns (ids: seq<int>)
      ensures Lists(Ascending, ids, Top(Ascending, s, limit))
    {
      var all := ListSet(Ascending, s);
      PrefixListsTop(Ascending, all, s, limit);
      ids := all[..if limit < |all| then limit else |all|];
    }
  }
}
