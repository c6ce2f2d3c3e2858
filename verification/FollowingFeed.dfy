// The following feed as one state machine: publishing, fan-out one follower page
// at a time with redelivery, follow with its backfill and un-follow with its
// clean-up, interleaved in any order. The index it keeps refines the plain query
// (application/video/fanout_worker.go, application/relation/service.go over
// infra/cache/following_index_cache.go).
//
// Conditions built into the steps: one consumer of the fan-out queue, no two
// requests for one edge in flight, no author at the big-creator threshold, at
// most 100 videos per author at a backfill, no inbox beyond its bound, no video
// deleted. `Disciplined` adds the one condition clients must keep: an un-follow
// does not repeat the key of the follow it cancels.
module FollowingFeed {
  import opened Base
  import opened Ranking
  import opened FeedDomain
  import opened FollowingIndex
  import opened FeedRepo
  import opened Fanout
  import Rel = RelationRepo
  import RelationService
  import opened FollowingStrategy

  datatype Config = Config(memberLess: Order<Item>, batchSize: nat)

  // `cursor` is how far the handler of the queue's head has come; `backfilling`
  // and `clearing` are follow requests past their database write.
  datatype State = State(
    rel: Rel.Db,
    videos: set<Item>,
    unsent: set<Item>,
    queue: seq<Item>,
    cursor: Option<int>,
    inboxes: map<int, seq<Item>>,
    backfilling: set<Rel.Edge>,
    clearing: set<Rel.Edge>)

  datatype Step =
    | SaveVideo(item: Item)
    | Publish(item: Item)
    | FanoutPage(ids: seq<int>)
    | Restart
    | Follow(edge: Rel.Edge, idem: string)
    | Backfill(edge: Rel.Edge)
    | Unfollow(edge: Rel.Edge, idem: string)
    | Clear(edge: Rel.Edge)

  ghost predicate ValidConfig(c: Config) {
    StrictTotal(c.memberLess) && c.batchSize > 0
  }

  predicate Initial(s: State) {
    && s.rel.follows == map[] && s.rel.stats == map[]
    && s.videos == {} && s.unsent == {} && s.queue == [] && s.cursor == None
    && s.inboxes == map[] && s.backfilling == {} && s.clearing == {}
  }

  ghost function Inbox(s: State, u: int): set<Item> {
    Elements(KeyOf(s.inboxes, u))
  }

  predicate Small(s: State, authorID: int) {
    FollowerCount(s.rel.stats, authorID) < BIG_CREATOR_FOLLOWER_THRESHOLD
  }

  function From(cursor: Option<int>): int {
    if cursor.Some? then cursor.value else 0
  }

  predicate InFlight(s: State, edge: Rel.Edge) {
    edge in s.backfilling || edge in s.clearing
  }

  // ----- the steps, each with the effect its operation promises -----

  ghost predicate SaveStep(s: State, x: Item, t: State) {
    && Accepted(x.authorID, Some(x)) && (forall y :: y in s.videos ==> y.videoID != x.videoID)
    && t == s.(videos := s.videos + {x}, unsent := s.unsent + {x})
  }

  // One turn of the follower-page loop; a short page ends the handler.
  ghost predicate PageStep(c: Config, s: State, ids: seq<int>, t: State) {
    && s.queue != []
    && var x := s.queue[0];
    && Small(s, x.authorID)
    && Lists(Ascending, ids,
             Top(Ascending, Past(Followers(s.rel.follows, x.authorID), From(s.cursor)), c.batchSize))
    && (forall u :: u in ids ==> |Inbox(s, u) + {x}| <= INBOX_MAX_LEN)
    && Delivered(RedisOrder(c.memberLess), s.inboxes, t.inboxes, Recipients(ids), x.authorID, Some(x))
    && t == if ids == [] || |ids| < c.batchSize then s.(inboxes := t.inboxes, queue := s.queue[1..], cursor := None)
            else s.(inboxes := t.inboxes, cursor := Some(ids[|ids| - 1]))
  }

  // The database write of a follow or un-follow request.
  ghost predicate WriteStep(s: State, edge: Rel.Edge, active: bool, idem: string, t: State) {
    && RelationService.Invalid(edge, idem).None? && !InFlight(s, edge)
    && var (db, r) := Rel.AfterSetFollow(s.rel, edge, active, idem);
    && t == s.(rel := db,
               backfilling := s.backfilling + (if r.Ok? && active && r.value.active then {edge} else {}),
               clearing := s.clearing + (if r.Ok? && !active then {edge} else {}))
  }

  ghost predicate BackfillStep(c: Config, s: State, edge: Rel.Edge, t: State) {
    var recent := RelationService.Recent(s.videos, edge.targetID);
    && edge in s.backfilling && Small(s, edge.targetID)
    && |VideosOf(s.videos, edge.targetID)| <= RelationService.BACKFILL_VIDEO_LIMIT
    && |Inbox(s, edge.userID) + recent| <= RelationService.BACKFILL_INBOX_MAX_LEN
    && RelationService.InboxEffect(RedisOrder(c.memberLess), s.inboxes, t.inboxes, edge, true, true, false, recent)
    && t == s.(inboxes := t.inboxes, backfilling := s.backfilling - {edge})
  }

  ghost predicate ClearStep(s: State, edge: Rel.Edge, t: State) {
    && edge in s.clearing
    && Cleared(s.inboxes, t.inboxes, edge.userID, edge.targetID)
    && t == s.(inboxes := t.inboxes, clearing := s.clearing - {edge})
  }

  ghost predicate Takes(c: Config, s: State, step: Step, t: State) {
    match step
    case SaveVideo(x) => SaveStep(s, x, t)
    case Publish(x) => x in s.unsent && t == s.(unsent := s.unsent - {x}, queue := s.queue + [x])
    case FanoutPage(ids) => PageStep(c, s, ids, t)
    case Restart => t == s.(cursor := None)
    case Follow(edge, idem) => WriteStep(s, edge, true, idem, t)
    case Backfill(edge) => BackfillStep(c, s, edge, t)
    case Unfollow(edge, idem) => WriteStep(s, edge, false, idem, t)
    case Clear(edge) => ClearStep(s, edge, t)
  }

  // The key of the active row: an un-follow that repeats it is taken for a retry.
  predicate RepeatsKey(rel: Rel.Db, edge: Rel.Edge, idem: string) {
    Rel.ActiveEdge(rel.follows, edge) && idem != "" && rel.follows[edge].idem == idem
  }

  predicate Disciplined(s: State, step: Step) {
    step.Unfollow? ==> !RepeatsKey(s.rel, step.edge, step.idem)
  }

  // Any run of the machine, and one whose clients keep the discipline.
  ghost predicate MachineRun(c: Config, states: seq<State>, steps: seq<Step>) {
    && |states| == |steps| + 1 && Initial(states[0])
    && forall i :: 0 <= i < |steps| ==> Takes(c, states[i], steps[i], states[i + 1])
  }

  ghost predicate IsRun(c: Config, states: seq<State>, steps: seq<Step>) {
    MachineRun(c, states, steps) && forall i :: 0 <= i < |steps| ==> Disciplined(states[i], steps[i])
  }

  // ----- the invariant -----

  // Every entry is a video of an author the owner follows, or of one whose
  // clean-up is still to come.
  ghost predicate Rightful(s: State, u: int, x: Item) {
    x in Inbox(s, u) ==>
      x in s.videos && (Rel.ActiveEdge(s.rel.follows, Rel.Edge(u, x.authorID)) || Rel.Edge(u, x.authorID) in s.clearing)
  }

  ghost predicate OnlyFollowed(s: State) {
    forall u, x :: Rightful(s, u, x)
  }

  // The video waits for a fan-out that will still reach the user.
  ghost predicate OnItsWay(s: State, u: int, x: Item) {
    || x in s.unsent
    || exists k :: 0 <= k < |s.queue| && s.queue[k] == x && (k == 0 && s.cursor.Some? ==> u > s.cursor.value)
  }

  // A followed author's video is in the inbox, or on its way to it, or a backfill
  // of that author is still to come.
  ghost predicate Covers(s: State, u: int, x: Item) {
    var edge := Rel.Edge(u, x.authorID);
    x in s.videos && Rel.ActiveEdge(s.rel.follows, edge) && edge !in s.backfilling ==>
      x in Inbox(s, u) || OnItsWay(s, u, x)
  }

  ghost predicate NothingLost(s: State) {
    forall u, x :: Covers(s, u, x)
  }

  ghost predicate Consistent(s: State) {
    && Rel.Inv(s.rel) && UniqueVideos(s.videos)
    && (forall x :: x in s.videos ==> Accepted(x.authorID, Some(x)))
    && s.unsent <= s.videos && (forall x :: x in s.queue ==> x in s.videos)
    && (forall e :: e in s.rel.follows ==> e.userID > 0)
    && (forall e :: e in s.backfilling ==> Rel.ActiveEdge(s.rel.follows, e))
    && (forall e :: e in s.clearing ==> !Rel.ActiveEdge(s.rel.follows, e))
    && (s.cursor.Some? ==> s.cursor.value > 0 && s.queue != [])
  }

  ghost predicate Inv(s: State) {
    Consistent(s) && OnlyFollowed(s) && NothingLost(s)
  }

  // ----- every step keeps it -----

  lemma SaveKeepsInv(s: State, x: Item, t: State)
    requires Inv(s) && SaveStep(s, x, t)
    ensures Inv(t)
  {
    forall u, y ensures Rightful(t, u, y) && Covers(t, u, y) {
      assert Rightful(s, u, y) && Covers(s, u, y);
      assert OnItsWay(s, u, y) ==> OnItsWay(t, u, y);
    }
  }

  lemma PublishKeepsInv(c: Config, s: State, x: Item, t: State)
    requires Inv(s) && Takes(c, s, Publish(x), t)
    ensures Inv(t)
  {
    forall u, y ensures Rightful(t, u, y) && Covers(t, u, y) {
      assert Rightful(s, u, y) && Covers(s, u, y);
      assert t.queue[|s.queue|] == x;
      if k :| 0 <= k < |s.queue| && s.queue[k] == y && (k == 0 && s.cursor.Some? ==> u > s.cursor.value) {
        assert t.queue[k] == y;
      }
    }
  }

  lemma RestartKeepsInv(c: Config, s: State, t: State)
    requires Inv(s) && Takes(c, s, Restart, t)
    ensures Inv(t)
  {
    forall u, y ensures Rightful(t, u, y) && Covers(t, u, y) {
      assert Rightful(s, u, y) && Covers(s, u, y);
      assert OnItsWay(s, u, y) ==> OnItsWay(t, u, y);
    }
  }

  // A page adds the head's video to exactly the followers it lists.
  lemma PageAdds(c: Config, s: State, ids: seq<int>, t: State, u: int)
    requires ValidConfig(c) && Consistent(s) && PageStep(c, s, ids, t)
    ensures u in ids ==> u > 0 && Rel.ActiveEdge(s.rel.follows, Rel.Edge(u, s.queue[0].authorID))
    ensures Inbox(t, u) == if u in ids then Inbox(s, u) + {s.queue[0]} else Inbox(s, u)
  {
    var x, lt := s.queue[0], RedisOrder(c.memberLess);
    assert x.(authorID := x.authorID) == x;
    if u in ids {
      assert u in Elements(ids);
      FollowersIffEdge(s.rel.follows, u, x.authorID);
      RedisOrderIsTotal(c.memberLess);
      TopSize(lt, Inbox(s, u) + {x}, INBOX_MAX_LEN);
    }
  }

  // Whoever is still to be reached lies behind the page, or the page was the last.
  lemma PageReaches(c: Config, s: State, ids: seq<int>, t: State, u: int)
    requires ValidConfig(c) && Inv(s) && PageStep(c, s, ids, t)
    requires Rel.ActiveEdge(s.rel.follows, Rel.Edge(u, s.queue[0].authorID)) && u !in ids && u > From(s.cursor)
    ensures |ids| >= c.batchSize && u > ids[|ids| - 1]
  {
    var followers := Followers(s.rel.follows, s.queue[0].authorID);
    FollowersIffEdge(s.rel.follows, u, s.queue[0].authorID);
    PageOfFollowers(followers, From(s.cursor), c.batchSize, ids);
    assert u in Past(followers, From(s.cursor));
    assert ids != [] ==> u in Past(followers, ids[|ids| - 1]);
  }

  lemma PageCursor(c: Config, s: State, ids: seq<int>, t: State)
    requires ValidConfig(c) && Inv(s) && PageStep(c, s, ids, t)
    ensures t.cursor.Some? ==> t.cursor.value > From(s.cursor)
  {
    if t.cursor.Some? {
      assert ids[|ids| - 1] in Elements(ids);
      assert ids[|ids| - 1] in Followers(s.rel.follows, s.queue[0].authorID);
    }
  }

  lemma PageCovers(c: Config, s: State, ids: seq<int>, t: State, u: int, y: Item)
    requires ValidConfig(c) && Inv(s) && PageStep(c, s, ids, t)
    ensures Rightful(t, u, y) && Covers(t, u, y)
  {
    PageAdds(c, s, ids, t, u);
    assert Rightful(s, u, y) && Covers(s, u, y);
    if k :| 0 <= k < |s.queue| && s.queue[k] == y && (k == 0 && s.cursor.Some? ==> u > s.cursor.value) {
      if k > 0 {
        assert |ids| < c.batchSize ==> t.queue[k - 1] == y;
        assert |ids| >= c.batchSize ==> t.queue[k] == y;
      } else if Rel.ActiveEdge(s.rel.follows, Rel.Edge(u, y.authorID)) && u !in ids {
        assert u > From(s.cursor);
        PageReaches(c, s, ids, t, u);
        assert t.queue[0] == y;
      }
    }
  }

  lemma PageKeepsInv(c: Config, s: State, ids: seq<int>, t: State)
    requires ValidConfig(c) && Inv(s) && PageStep(c, s, ids, t)
    ensures Inv(t)
  {
    PageCursor(c, s, ids, t);
    forall u, y ensures Rightful(t, u, y) && Covers(t, u, y) {
      PageCovers(c, s, ids, t, u, y);
    }
  }

  // A write moves no edge but its own; its answer says whether that one is active.
  lemma WriteMovesOneEdge(rel: Rel.Db, edge: Rel.Edge, active: bool, idem: string)
    ensures var (db, r) := Rel.AfterSetFollow(rel, edge, active, idem);
            && (forall e :: e != edge ==> (Rel.ActiveEdge(db.follows, e) <==> Rel.ActiveEdge(rel.follows, e)))
            && (r.Err? ==> db == rel)
            && (r.Ok? ==> (r.value.active <==> Rel.ActiveEdge(db.follows, edge)))
            && (r.Ok? && active && !r.value.active ==> !Rel.ActiveEdge(rel.follows, edge))
            && (r.Ok? && !active ==> (Rel.ActiveEdge(db.follows, edge) <==> RepeatsKey(rel, edge, idem)))
            && (forall e :: e in db.follows ==> e in rel.follows || e == edge)
  {
  }

  lemma WriteKeepsInv(s: State, edge: Rel.Edge, active: bool, idem: string, t: State)
    requires Inv(s) && WriteStep(s, edge, active, idem, t) && (!active ==> !RepeatsKey(s.rel, edge, idem))
    ensures Inv(t)
  {
    WriteMovesOneEdge(s.rel, edge, active, idem);
    Rel.SetFollowKeepsInv(s.rel, edge, active, idem);
    forall u, y ensures Rightful(t, u, y) && Covers(t, u, y) {
      assert Rightful(s, u, y) && Covers(s, u, y);
      assert OnItsWay(s, u, y) <==> OnItsWay(t, u, y);
    }
  }

  // Within the limits a backfill takes all of the author's videos and trims nothing.
  lemma AllRecent(videos: set<Item>, authorID: int)
    requires forall x :: x in videos ==> Accepted(x.authorID, Some(x))
    requires |VideosOf(videos, authorID)| <= RelationService.BACKFILL_VIDEO_LIMIT
    ensures RelationService.Recent(videos, authorID) == VideosOf(videos, authorID)
  {
    TimelineIsTotal();
    TopSize(Timeline, VideosOf(videos, authorID), RelationService.BACKFILL_VIDEO_LIMIT);
  }

  // Within the bound a backfill adds the videos and trims nothing.
  lemma BackfillAdds(
    lt: Order<Item>, was: map<int, seq<Item>>, now: map<int, seq<Item>>, userID: int, items: set<Item>, u: int)
    requires StrictTotal(lt) && RelationService.Backfilled(lt, was, now, userID, items)
    requires |Elements(KeyOf(was, userID)) + items| <= RelationService.BACKFILL_INBOX_MAX_LEN
    ensures Elements(KeyOf(now, u)) == Elements(KeyOf(was, u)) + (if u == userID then items else {})
  {
    if u == userID {
      if |items| == 0 {
        assert items == {};
      } else {
        TopSize(lt, Elements(KeyOf(was, u)) + items, RelationService.BACKFILL_INBOX_MAX_LEN);
      }
    }
  }

  lemma BackfillCovers(s: State, edge: Rel.Edge, t: State, u: int, y: Item)
    requires t == s.(inboxes := t.inboxes, backfilling := s.backfilling - {edge}) && Rel.ActiveEdge(s.rel.follows, edge)
    requires Inbox(t, u) == Inbox(s, u) + (if u == edge.userID then VideosOf(s.videos, edge.targetID) else {})
    requires Rightful(s, u, y) && Covers(s, u, y)
    ensures Rightful(t, u, y) && Covers(t, u, y)
  {
    assert OnItsWay(s, u, y) <==> OnItsWay(t, u, y);
    assert y in VideosOf(s.videos, edge.targetID) <==> y in s.videos && y.authorID == edge.targetID;
  }

  lemma BackfillKeepsInv(c: Config, s: State, edge: Rel.Edge, t: State)
    requires ValidConfig(c) && Inv(s) && BackfillStep(c, s, edge, t)
    ensures Inv(t)
  {
    var lt, all := RedisOrder(c.memberLess), VideosOf(s.videos, edge.targetID);
    RedisOrderIsTotal(c.memberLess);
    AllRecent(s.videos, edge.targetID);
    forall u, y ensures Rightful(t, u, y) && Covers(t, u, y) {
      assert Rightful(s, u, y) && Covers(s, u, y);
      BackfillAdds(lt, s.inboxes, t.inboxes, edge.userID, all, u);
      BackfillCovers(s, edge, t, u, y);
    }
  }

  lemma ClearKeepsInv(s: State, edge: Rel.Edge, t: State)
    requires Inv(s) && ClearStep(s, edge, t)
    ensures Inv(t)
  {
    forall u, y ensures Rightful(t, u, y) && Covers(t, u, y) {
      assert Rightful(s, u, y) && Covers(s, u, y);
      assert OnItsWay(s, u, y) <==> OnItsWay(t, u, y);
    }
  }

  lemma StepKeepsInv(c: Config, s: State, step: Step, t: State)
    requires ValidConfig(c) && Inv(s) && Takes(c, s, step, t) && Disciplined(s, step)
    ensures Inv(t)
  {
    match step
    case SaveVideo(x) => SaveKeepsInv(s, x, t);
    case Publish(x) => PublishKeepsInv(c, s, x, t);
    case FanoutPage(ids) => PageKeepsInv(c, s, ids, t);
    case Restart => RestartKeepsInv(c, s, t);
    case Follow(edge, idem) => WriteKeepsInv(s, edge, true, idem, t);
    case Backfill(edge) => BackfillKeepsInv(c, s, edge, t);
    case Unfollow(edge, idem) => WriteKeepsInv(s, edge, false, idem, t);
    case Clear(edge) => ClearKeepsInv(s, edge, t);
  }

  lemma {:induction false} RunKeepsInv(c: Config, states: seq<State>, steps: seq<Step>, i: nat)
    requires ValidConfig(c) && IsRun(c, states, steps) && i < |states|
    ensures Inv(states[i])
  {
    if i == 0 {
      InitialInv(states[0]);
    } else {
      RunKeepsInv(c, states, steps, i - 1);
      StepKeepsInv(c, states[i - 1], steps[i - 1], states[i]);
    }
  }

  lemma InitialInv(s: State)
    requires Initial(s)
    ensures Inv(s)
  {
    Rel.CountersAreCardinalities(s.rel.users, []);
    assert s.rel == Rel.Db(s.rel.users, map[], map[]);
  }

  // ----- the main results -----

  predicate Quiet(s: State) {
    s.unsent == {} && s.queue == [] && s.backfilling == {} && s.clearing == {}
  }

  // In every reachable state an inbox misses a followed video only while that
  // video's fan-out or that author's backfill is pending, and holds an unfollowed
  // author's video only while the clean-up is pending. With nothing pending it is
  // exactly what the plain query ranges over.
  lemma IndexRefinesQuery(c: Config, states: seq<State>, steps: seq<Step>, i: nat, u: int)
    requires ValidConfig(c) && IsRun(c, states, steps) && i < |states|
    ensures var s := states[i];
            var shown := FollowedVideos(s.videos, s.rel.follows, u);
            && (forall x :: x in shown - Inbox(s, u) ==> OnItsWay(s, u, x) || Rel.Edge(u, x.authorID) in s.backfilling)
            && (forall x :: x in Inbox(s, u) - shown ==> x in s.videos && Rel.Edge(u, x.authorID) in s.clearing)
            && (Quiet(s) ==> Inbox(s, u) == shown)
  {
    RunKeepsInv(c, states, steps, i);
    var s := states[i];
    var shown := FollowedVideos(s.videos, s.rel.follows, u);
    forall x ensures InStep(s, u, x) {
      AlwaysInStep(s, u, x);
    }
    forall x ensures x in shown - Inbox(s, u) ==> OnItsWay(s, u, x) || Rel.Edge(u, x.authorID) in s.backfilling {
      assert InStep(s, u, x);
    }
    forall x ensures x in Inbox(s, u) - shown ==> x in s.videos && Rel.Edge(u, x.authorID) in s.clearing {
      assert InStep(s, u, x);
    }
    if Quiet(s) {
      forall x ensures x in Inbox(s, u) <==> x in shown {
        assert InStep(s, u, x);
      }
    }
  }

  // One video at one user: where the inbox and the query differ, something is pending.
  ghost predicate InStep(s: State, u: int, x: Item) {
    var shown := FollowedVideos(s.videos, s.rel.follows, u);
    && (x in shown && x !in Inbox(s, u) ==> OnItsWay(s, u, x) || Rel.Edge(u, x.authorID) in s.backfilling)
    && (x in Inbox(s, u) && x !in shown ==> x in s.videos && Rel.Edge(u, x.authorID) in s.clearing)
  }

  lemma AlwaysInStep(s: State, u: int, x: Item)
    requires Inv(s)
    ensures InStep(s, u, x)
  {
    FollowersIffEdge(s.rel.follows, u, x.authorID);
    assert Rightful(s, u, x) && Covers(s, u, x);
  }

  // The discipline is needed, and nothing more: an un-follow leaves an exact inbox
  // exact if and only if it does not repeat the key of the active follow, or the
  // author has no video to lose.
  lemma UnfollowKeepsExactIff(
    rel: Rel.Db, videos: set<Item>, edge: Rel.Edge, idem: string, was: map<int, seq<Item>>, now: map<int, seq<Item>>)
    requires edge.userID in rel.users && edge.targetID in rel.users
    requires Elements(KeyOf(was, edge.userID)) == FollowedVideos(videos, rel.follows, edge.userID)
    requires Cleared(was, now, edge.userID, edge.targetID)
    ensures Elements(KeyOf(now, edge.userID)) ==
            FollowedVideos(videos, Rel.AfterSetFollow(rel, edge, false, idem).0.follows, edge.userID)
            <==> !RepeatsKey(rel, edge, idem) || VideosOf(videos, edge.targetID) == {}
  {
    var after := Rel.AfterSetFollow(rel, edge, false, idem).0.follows;
    WriteMovesOneEdge(rel, edge, false, idem);
    forall x: Item ensures x.authorID in Followed(after, edge.userID) <==>
                     if x.authorID == edge.targetID then RepeatsKey(rel, edge, idem)
                     else x.authorID in Followed(rel.follows, edge.userID)
    {
      FollowersIffEdge(after, edge.userID, x.authorID);
      FollowersIffEdge(rel.follows, edge.userID, x.authorID);
    }
    var shown, left := FollowedVideos(videos, after, edge.userID), Elements(KeyOf(now, edge.userID));
    assert left == FollowedVideos(videos, rel.follows, edge.userID) - VideosOf(videos, edge.targetID);
    if RepeatsKey(rel, edge, idem) {
      FollowersIffEdge(rel.follows, edge.userID, edge.targetID);
      assert shown == left + VideosOf(videos, edge.targetID);
      if x :| x in VideosOf(videos, edge.targetID) {
        assert x in shown && x !in left;
      } else {
        assert VideosOf(videos, edge.targetID) == {};
      }
    } else {
      assert shown == left;
    }
  }

  // With nothing pending the pages read through the index are the pages of the
  // plain query (FollowingStrategy.Strategy.ListPage asks for IndexFaithful).
  lemma QuietIndexIsFaithful(c: Config, states: seq<State>, steps: seq<Step>, i: nat, strategy: Strategy, u: int)
    requires ValidConfig(c) && IsRun(c, states, steps) && i < |states| && Quiet(states[i])
    requires forall a :: |Followers(states[i].rel.follows, a)| < BIG_CREATOR_FOLLOWER_THRESHOLD
    requires strategy.index != null && strategy.index.inboxes == states[i].inboxes
    requires strategy.repo.videos == states[i].videos && strategy.repo.relations.View() == states[i].rel
    ensures strategy.IndexFaithful(u)
  {
    var s := states[i];
    IndexRefinesQuery(c, states, steps, i, u);
    RunKeepsInv(c, states, steps, i);
    var index, followedIDs := strategy.index, Followed(s.rel.follows, u);
    assert BigCreators(followedIDs, s.rel.stats) == {} by {
      forall a ensures a !in BigCreators(followedIDs, s.rel.stats) {
        FollowerCountIsCardinality(s.rel, a);
        assert |Followers(s.rel.follows, a)| < BIG_CREATOR_FOLLOWER_THRESHOLD;
      }
    }
    forall pull: seq<int> | Lists(Ascending, pull, {}) ensures index.IndexSet(u, pull) == Inbox(s, u) {
      ListingSize(Ascending, pull, {});
      OneKey(KeyOf(s.inboxes, u));
    }
  }

  lemma OneKey(z: seq<Item>)
    ensures UnionOf([z]) == Elements(z)
  {
    assert [z][..0] == [];
    assert UnionOf([z]) == UnionOf([]) + Elements(z);
  }

  // ----- a run -----

  lemma Extend(c: Config, states: seq<State>, steps: seq<Step>, step: Step, t: State)
    returns (more: seq<State>, longer: seq<Step>)
    requires MachineRun(c, states, steps) && Takes(c, states[|steps|], step, t)
    ensures MachineRun(c, more, longer) && more[|longer|] == t
    ensures IsRun(c, states, steps) && Disciplined(states[|steps|], step) ==> IsRun(c, more, longer)
  {
    more, longer := states + [t], steps + [step];
  }

  // The steps do happen: one user follows another, whose video then reaches the
  // follower's inbox.
  lemma SomeRun(c: Config) returns (states: seq<State>, steps: seq<Step>, item: Item)
    requires ValidConfig(c) && c.batchSize > 1
    ensures IsRun(c, states, steps) && Quiet(states[|steps|])
    ensures item in Inbox(states[|steps|], 1) && item in states[|steps|].videos && item.authorID == 2
    ensures states[|steps|].rel == OneFollows() && states[|steps|].inboxes == map[1 := [item]]
  {
    item := Item(7, 2, NANOS);
    var followed;
    states, steps, followed := SomeFollow(c);
    var saved := followed.(videos := {item}, unsent := {item});
    states, steps := Extend(c, states, steps, SaveVideo(item), saved);
    var queued := followed.(videos := {item}, queue := [item]);
    states, steps := Extend(c, states, steps, Publish(item), queued);
    OneFollower(c, queued, item);
    states, steps := Extend(c, states, steps, FanoutPage([1]), queued.(queue := [], inboxes := map[1 := [item]]));
    assert [item][0] in Elements([item]);
  }

  // User 1 follows user 2, with the key "k".
  function OneFollows(): Rel.Db {
    Rel.AfterSetFollow(Rel.Db({1, 2}, map[], map[]), Rel.Edge(1, 2), true, "k").0
  }

  // Without the discipline: the same run, then an un-follow with the key of the
  // follow. The database takes it for a retry and keeps the edge, the service
  // clears the inbox, and with nothing pending the followed video is gone from it.
  lemma RepeatedKeyDropsVideo(c: Config) returns (states: seq<State>, steps: seq<Step>, item: Item)
    requires ValidConfig(c) && c.batchSize > 1
    ensures MachineRun(c, states, steps) && Quiet(states[|steps|])
    ensures Rel.ActiveEdge(states[|steps|].rel.follows, Rel.Edge(1, item.authorID))
    ensures item in states[|steps|].videos && item !in Inbox(states[|steps|], 1)
  {
    states, steps, item := SomeRun(c);
    var s, edge := states[|steps|], Rel.Edge(1, 2);
    states, steps := Extend(c, states, steps, Unfollow(edge, "k"), s.(clearing := {edge}));
    var cleared := s.(inboxes := map[1 := []]);
    assert Elements<Item>([]) == {};
    OneElement(item);
    states, steps := Extend(c, states, steps, Clear(edge), cleared);
  }

  lemma SomeFollow(c: Config) returns (states: seq<State>, steps: seq<Step>, s: State)
    requires ValidConfig(c)
    ensures IsRun(c, states, steps) && states[|steps|] == s && Quiet(s)
    ensures s.videos == {} && s.inboxes == map[] && s.cursor == None && Small(s, 2)
    ensures Followers(s.rel.follows, 2) == {1} && s.rel == OneFollows()
  {
    var edge := Rel.Edge(1, 2);
    var none := State(Rel.Db({1, 2}, map[], map[]), {}, {}, [], None, map[], {}, {});
    var rel := OneFollows();
    states, steps := [none], [];
    states, steps := Extend(c, states, steps, Follow(edge, "k"), none.(rel := rel, backfilling := {edge}));
    NothingToBackfill(c, none.(rel := rel, backfilling := {edge}), edge);
    s := none.(rel := rel);
    states, steps := Extend(c, states, steps, Backfill(edge), s);
    forall u ensures u in Followers(rel.follows, 2) <==> u == 1 {
      FollowersIffEdge(rel.follows, u, 2);
    }
  }

  lemma NothingToBackfill(c: Config, s: State, edge: Rel.Edge)
    requires s.videos == {} && s.inboxes == map[] && edge in s.backfilling && Small(s, edge.targetID)
    ensures BackfillStep(c, s, edge, s.(backfilling := s.backfilling - {edge}))
  {
    assert VideosOf(s.videos, edge.targetID) == {} && RelationService.Recent(s.videos, edge.targetID) == {};
    assert Inbox(s, edge.userID) == {};
  }

  lemma OneFollower(c: Config, s: State, item: Item)
    requires ValidConfig(c) && c.batchSize > 1 && s.queue == [item] && s.inboxes == map[] && s.cursor == None
    requires Accepted(item.authorID, Some(item)) && Small(s, item.authorID)
    requires Followers(s.rel.follows, item.authorID) == {1}
    ensures PageStep(c, s, [1], s.(inboxes := map[1 := [item]], queue := []))
  {
    var lt := RedisOrder(c.memberLess);
    RedisOrderIsTotal(c.memberLess);
    assert StrictTotal(Ascending);
    TopSize(Ascending, Past({1}, 0), c.batchSize);
    TopSize(lt, {item}, INBOX_MAX_LEN);
    OneElement(1);
    OneElement(item);
    assert Past({1}, 0) == {1};
    assert forall u :: u in Recipients([1]) <==> u == 1;
    assert item.(authorID := item.authorID) == item;
    assert Inbox(s, 1) + {item} == {item};
  }

  lemma OneElement<E>(x: E)
    ensures Elements([x]) == {x}
  {
    assert [x][0] == x;
  }
}
