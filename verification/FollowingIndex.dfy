// The push/pull index of the following feed: bounded sorted sets in Redis and
// the page merged from them (infra/cache/following_index_cache.go).
module FollowingIndex {
  import opened Base
  import opened Ranking
  import opened FeedDomain

  const DEFAULT_INBOX_MAX_LEN: int := 1000
  const DEFAULT_OUTBOX_MAX_LEN: int := 500
  const SCORE_BASE: int := 1000000

  // followingIndexScore: Unix seconds, then the low six digits of the id.
  function Score(publishedAt: int, videoID: int): int {
    publishedAt / NANOS * SCORE_BASE + videoID % SCORE_BASE
  }

  function ItemScore(item: Item): int {
    Score(item.publishedAt, item.videoID)
  }

  // The order of a sorted set: by score, then by member.
  function RedisOrder(memberLess: Order<Item>): Order<Item> {
    (a: Item, b: Item) => ItemScore(a) < ItemScore(b) || (ItemScore(a) == ItemScore(b) && memberLess(a, b))
  }

  lemma RedisOrderIsTotal(memberLess: Order<Item>)
    requires StrictTotal(memberLess)
    ensures StrictTotal(RedisOrder(memberLess))
  {
  }

  // ----- sorted sets, kept from the greatest member to the least -----

  // ZREMRANGEBYRANK 0 -(keep+1): only the `keep` greatest stay.
  function Trim(z: seq<Item>, keep: nat): seq<Item> {
    if keep < |z| then z[..keep] else z
  }

  // ZREVRANGEBYSCORE with an exclusive upper score and a count.
  function RevRange(z: seq<Item>, maxScore: Option<int>, count: nat): seq<Item> {
    if z == [] || count == 0 then []
    else if maxScore.Some? && ItemScore(z[0]) >= maxScore.value then RevRange(z[1..], maxScore, count)
    else [z[0]] + RevRange(z[1..], maxScore, count - 1)
  }

  lemma TrimLists(lt: Order<Item>, z: seq<Item>, s: set<Item>, keep: nat)
    requires StrictTotal(lt) && Lists(lt, z, s)
    ensures Lists(lt, Trim(z, keep), Top(lt, s, keep))
  {
    PrefixListsTop(lt, z, s, keep);
    assert z[..|z|] == z;
  }

  ghost predicate ScoreMonotone(lt: Order<Item>, s: set<Item>) {
    forall a, b :: a in s && b in s && lt(a, b) ==> ItemScore(a) <= ItemScore(b)
  }

  function UnderScore(s: set<Item>, maxScore: Option<int>): set<Item> {
    set e | e in s && (maxScore.Some? ==> ItemScore(e) < maxScore.value)
  }

  // A range query returns the greatest members below the score.
  lemma {:induction false} RevRangeLists(lt: Order<Item>, z: seq<Item>, s: set<Item>, maxScore: Option<int>, count: nat)
    requires StrictTotal(lt) && Lists(lt, z, s) && ScoreMonotone(lt, s)
    ensures Lists(lt, RevRange(z, maxScore, count), Top(lt, UnderScore(s, maxScore), count))
    decreases |z|
  {
    var under := UnderScore(s, maxScore);
    if z == [] {
      assert s == {};
      assert Top(lt, under, count) == {};
    } else if count == 0 {
      assert Top(lt, under, 0) == {};
    } else {
      SplitFirst(lt, z, s);
      if maxScore.Some? && ItemScore(z[0]) >= maxScore.value {
        RevRangeLists(lt, z[1..], s - {z[0]}, maxScore, count);
        assert UnderScore(s - {z[0]}, maxScore) == under;
      } else {
        RevRangeLists(lt, z[1..], s - {z[0]}, maxScore, count - 1);
        AllUnder(lt, s, z[0], maxScore);
        TopFirst(lt, s, z[0], count);
        JoinFirst(lt, z[0], RevRange(z[1..], maxScore, count - 1), Top(lt, s - {z[0]}, count - 1));
      }
    }
  }

  lemma AllUnder(lt: Order<Item>, s: set<Item>, first: Item, maxScore: Option<int>)
    requires ScoreMonotone(lt, s) && first in s && forall e :: e in s && e != first ==> lt(e, first)
    requires maxScore.Some? ==> ItemScore(first) < maxScore.value
    ensures UnderScore(s, maxScore) == s && UnderScore(s - {first}, maxScore) == s - {first}
  {
  }

  // ----- the bounded inbox -----

  function AddOne(lt: Order<Item>, z: seq<Item>, x: Item, maxLen: nat): seq<Item> {
    Trim(Insert(lt, z, x), maxLen)
  }

  lemma AddOneLists(lt: Order<Item>, z: seq<Item>, s: set<Item>, x: Item, maxLen: nat)
    requires StrictTotal(lt) && Lists(lt, z, s)
    ensures Lists(lt, AddOne(lt, z, x, maxLen), Top(lt, s + {x}, maxLen))
  {
    InsertLists(lt, z, s, x);
    TrimLists(lt, Insert(lt, z, x), s + {x}, maxLen);
  }

  function AddAll(lt: Order<Item>, xs: seq<Item>, maxLen: nat): seq<Item> {
    if xs == [] then [] else AddOne(lt, AddAll(lt, xs[..|xs| - 1], maxLen), xs[|xs| - 1], maxLen)
  }

  // After any sequence of adds the key lists exactly the maxLen greatest members
  // ever added.
  lemma {:induction false} BoundedInboxIsTop(lt: Order<Item>, xs: seq<Item>, maxLen: nat)
    requires StrictTotal(lt)
    ensures Lists(lt, AddAll(lt, xs, maxLen), Top(lt, Elements(xs), maxLen))
  {
    if xs == [] {
      assert Top(lt, Elements(xs), maxLen) == {};
    } else {
      var before, x := xs[..|xs| - 1], xs[|xs| - 1];
      BoundedInboxIsTop(lt, before, maxLen);
      AddOneLists(lt, AddAll(lt, before, maxLen), Top(lt, Elements(before), maxLen), x, maxLen);
      TopUnion(lt, Elements(before), {x}, maxLen);
      ElementsSnoc(xs);
    }
  }

  // So neither the order of the adds nor their redelivery matters.
  lemma OrderOfAddsIsIrrelevant(lt: Order<Item>, xs: seq<Item>, ys: seq<Item>, maxLen: nat)
    requires StrictTotal(lt) && Elements(xs) == Elements(ys)
    ensures AddAll(lt, xs, maxLen) == AddAll(lt, ys, maxLen)
  {
    BoundedInboxIsTop(lt, xs, maxLen);
    BoundedInboxIsTop(lt, ys, maxLen);
    ListingUnique(lt, AddAll(lt, xs, maxLen), AddAll(lt, ys, maxLen), Top(lt, Elements(xs), maxLen));
  }

  // ----- when scores order items as the timeline does -----

  // Whole-second publish times (other than the zero time) and ids below one million.
  predicate PlainTime(publishedAt: int, videoID: int) {
    publishedAt != ZERO_TIME && publishedAt % NANOS == 0 && 0 < videoID < SCORE_BASE
  }

  ghost predicate PlainItems(s: set<Item>) {
    UniqueVideos(s) && forall e :: e in s ==> PlainTime(e.publishedAt, e.videoID)
  }

  lemma ScoreOrdersTime(p: int, v: int, q: int, w: int)
    requires PlainTime(p, v) && PlainTime(q, w)
    ensures Score(p, v) < Score(q, w) <==> p < q || (p == q && v < w)
    ensures Score(p, v) == Score(q, w) <==> p == q && v == w
  {
    assert v % SCORE_BASE == v && w % SCORE_BASE == w;
    assert p == p / NANOS * NANOS && q == q / NANOS * NANOS;
  }

  lemma RedisOrderPair(memberLess: Order<Item>, a: Item, b: Item)
    requires StrictTotal(memberLess)
    requires PlainTime(a.publishedAt, a.videoID) && PlainTime(b.publishedAt, b.videoID)
    requires a.videoID == b.videoID ==> a == b
    ensures RedisOrder(memberLess)(a, b) <==> Timeline(a, b)
  {
    ScoreOrdersTime(a.publishedAt, a.videoID, b.publishedAt, b.videoID);
    assert !memberLess(a, a);
    var lt := RedisOrder(memberLess);
    assert lt(a, b) <==> ItemScore(a) < ItemScore(b) || (ItemScore(a) == ItemScore(b) && memberLess(a, b));
  }

  // On plain items the sorted-set order is the timeline, whatever the byte order
  // of the members, and a score bound is a cursor.
  lemma RedisOrderIsTimeline(memberLess: Order<Item>, s: set<Item>, cursor: Option<Cursor>)
    requires StrictTotal(memberLess) && PlainItems(s)
    requires cursor.Some? ==> PlainTime(cursor.value.publishedAt, cursor.value.videoID)
    ensures forall a, b :: a in s && b in s ==> (RedisOrder(memberLess)(a, b) <==> Timeline(a, b))
    ensures UnderScore(s, MaxScore(cursor)) == BelowCursor(s, cursor)
  {
    forall a, b | a in s && b in s ensures RedisOrder(memberLess)(a, b) <==> Timeline(a, b) {
      RedisOrderPair(memberLess, a, b);
    }
    if cursor.Some? {
      forall e | e in s ensures e in UnderScore(s, MaxScore(cursor)) <==> e in BelowCursor(s, cursor) {
        ScoreOrdersTime(e.publishedAt, e.videoID, cursor.value.publishedAt, cursor.value.videoID);
      }
    }
  }

  function MaxScore(cursor: Option<Cursor>): Option<int> {
    match cursor
    case None => None
    case Some(c) => Some(Score(c.publishedAt, c.videoID))
  }

  // ----- merging the keys of one viewer -----

  ghost function UnionOf(keys: seq<seq<Item>>): set<Item> {
    if keys == [] then {} else UnionOf(keys[..|keys| - 1]) + Elements(keys[|keys| - 1])
  }

  ghost predicate KeysSorted(lt: Order<Item>, keys: seq<seq<Item>>) {
    forall i :: 0 <= i < |keys| ==> Descending(lt, keys[i])
  }

  // The members the range queries of all keys return.
  function Fetch(keys: seq<seq<Item>>, maxScore: Option<int>, count: nat): seq<Item> {
    if keys == [] then []
    else Fetch(keys[..|keys| - 1], maxScore, count) + RevRange(keys[|keys| - 1], maxScore, count)
  }

  // Fetching only `count` members per key loses nothing of the merged page.
  lemma {:induction false} FetchLosesNothing(
    memberLess: Order<Item>, keys: seq<seq<Item>>, cursor: Option<Cursor>, count: nat)
    requires StrictTotal(memberLess) && KeysSorted(RedisOrder(memberLess), keys) && PlainItems(UnionOf(keys))
    requires cursor.Some? ==> PlainTime(cursor.value.publishedAt, cursor.value.videoID)
    ensures Elements(Fetch(keys, MaxScore(cursor), count)) <= UnionOf(keys)
    ensures Top(Timeline, Elements(Fetch(keys, MaxScore(cursor), count)), count) ==
            Top(Timeline, BelowCursor(UnionOf(keys), cursor), count)
    decreases |keys|
  {
    if keys != [] {
      var before, z := keys[..|keys| - 1], keys[|keys| - 1];
      FetchLosesNothing(memberLess, before, cursor, count);
      OneRange(memberLess, z, cursor, count);
      var a, b := Elements(Fetch(before, MaxScore(cursor), count)), BelowCursor(UnionOf(before), cursor);
      var c := BelowCursor(Elements(z), cursor);
      TopOfTops(a, b, c, count);
      ElementsConcat(Fetch(before, MaxScore(cursor), count), RevRange(z, MaxScore(cursor), count));
      assert b + c == BelowCursor(UnionOf(keys), cursor);
    }
  }

  lemma TopOfTops(a: set<Item>, b: set<Item>, c: set<Item>, count: nat)
    requires Top(Timeline, a, count) == Top(Timeline, b, count)
    ensures Top(Timeline, a + Top(Timeline, c, count), count) == Top(Timeline, b + c, count)
  {
    TimelineIsTotal();
    var t := Top(Timeline, c, count);
    TopUnion(Timeline, a, t, count);
    TopUnion(Timeline, b, t, count);
    TopUnion(Timeline, c, b, count);
    assert t + b == b + t && c + b == b + c;
  }

  lemma OneRange(memberLess: Order<Item>, z: seq<Item>, cursor: Option<Cursor>, count: nat)
    requires StrictTotal(memberLess) && Descending(RedisOrder(memberLess), z) && PlainItems(Elements(z))
    requires cursor.Some? ==> PlainTime(cursor.value.publishedAt, cursor.value.videoID)
    ensures Elements(RevRange(z, MaxScore(cursor), count)) == Top(Timeline, BelowCursor(Elements(z), cursor), count)
    ensures Elements(RevRange(z, MaxScore(cursor), count)) <= Elements(z)
  {
    var lt := RedisOrder(memberLess);
    RedisOrderIsTotal(memberLess);
    RedisOrderIsTimeline(memberLess, Elements(z), cursor);
    RevRangeLists(lt, z, Elements(z), MaxScore(cursor), count);
    AgreeingOrders(lt, Timeline, BelowCursor(Elements(z), cursor), count, []);
  }

  // ----- the cache object -----

  // The arguments an add accepts.
  predicate Accepted(authorID: int, item: Option<Item>) {
    authorID > 0 && item.Some? && item.value.videoID > 0 && item.value.publishedAt != ZERO_TIME
  }

  function Bound(maxLen: int, default: int): int {
    if maxLen <= 0 then default else maxLen
  }

  function KeyOf(keys: map<int, seq<Item>>, id: int): seq<Item> {
    if id in keys then keys[id] else []
  }

  // The keys ListFollowingIndexPage reads: the inbox, then the outboxes of the
  // authors given (ids that are not positive are skipped).
  function PageKeys(inbox: seq<Item>, outboxes: map<int, seq<Item>>, pull: seq<int>): seq<seq<Item>> {
    if pull == [] then [inbox]
    else
      var before := PageKeys(inbox, outboxes, pull[..|pull| - 1]);
      var author := pull[|pull| - 1];
      if author > 0 then before + [KeyOf(outboxes, author)] else before
  }

  ghost predicate SomeOutbox(outboxes: map<int, seq<Item>>, pull: seq<int>) {
    exists a :: a in pull && a > 0 && KeyOf(outboxes, a) != []
  }

  // Together the keys hold the inbox and the outbox of every author to pull from,
  // and one beside the first is not empty exactly when some such outbox is not.
  lemma {:induction false} KeysHold(inbox: seq<Item>, outboxes: map<int, seq<Item>>, pull: seq<int>)
    ensures var keys := PageKeys(inbox, outboxes, pull);
            && (forall x :: x in UnionOf(keys) <==>
                            x in inbox || exists a :: a in pull && a > 0 && x in KeyOf(outboxes, a))
            && ((exists i :: 1 <= i < |keys| && keys[i] != []) <==> SomeOutbox(outboxes, pull))
            && |keys| > 0 && keys[0] == inbox
    decreases |pull|
  {
    var keys := PageKeys(inbox, outboxes, pull);
    if pull == [] {
      OneKeyHolds(inbox);
    } else {
      var author, rest := pull[|pull| - 1], pull[..|pull| - 1];
      KeysHold(inbox, outboxes, rest);
      assert forall a :: a in pull <==> a in rest || a == author;
      if author > 0 {
        UnionSnoc(PageKeys(inbox, outboxes, rest), KeyOf(outboxes, author));
        var before := PageKeys(inbox, outboxes, rest);
        assert forall i :: 1 <= i < |before| ==> keys[i] == before[i];
        assert keys[|before|] == KeyOf(outboxes, author);
      }
    }
  }

  lemma OneKeyHolds(z: seq<Item>)
    ensures forall x :: x in UnionOf([z]) <==> x in z
  {
    assert [z][..0] == [];
    assert UnionOf([z]) == UnionOf([]) + Elements(z);
  }

  lemma UnionSnoc(keys: seq<seq<Item>>, z: seq<Item>)
    ensures forall x :: x in UnionOf(keys + [z]) <==> x in UnionOf(keys) || x in z
  {
    assert (keys + [z])[..|keys|] == keys;
  }

  // What the merge loop keeps of the fetched members: authors followed (0 stands
  // for an unknown author), each video once.
  function Collect(members: seq<Item>, followed: seq<int>): seq<Item> {
    if members == [] then []
    else
      var before, m := Collect(members[..|members| - 1], followed), members[|members| - 1];
      if m.authorID > 0 && m.authorID !in followed then before
      else if exists x :: x in before && x.videoID == m.videoID then before
      else before + [m]
  }

  lemma {:induction false} CollectKeeps(members: seq<Item>, followed: seq<int>)
    ensures Elements(Collect(members, followed)) <= Elements(members)
    ensures Distinct(Collect(members, followed))
    ensures forall x :: x in Collect(members, followed) ==> x.authorID <= 0 || x.authorID in followed
    ensures UniqueVideos(Elements(Collect(members, followed)))
    ensures UniqueVideos(Elements(members)) && (forall x :: x in members ==> x.authorID in followed) ==>
              Elements(Collect(members, followed)) == Elements(members)
    decreases |members|
  {
    if members != [] {
      var m := members[|members| - 1];
      var before := Collect(members[..|members| - 1], followed);
      CollectKeeps(members[..|members| - 1], followed);
      ElementsSnoc(members);
      if Collect(members, followed) != before {
        assert (before + [m])[..|before|] == before;
        ElementsSnoc(before + [m]);
      }
      assert forall x :: x in before <==> x in Elements(before);
      assert forall x :: x in members[..|members| - 1] ==> x in members;
    }
  }

  predicate Allowed(x: Item, followed: seq<int>) {
    x.authorID <= 0 || x.authorID in followed
  }

  // Exactly the first allowed member of each video is kept.
  lemma {:induction false} CollectsFirsts(members: seq<Item>, followed: seq<int>, x: Item)
    ensures x in Collect(members, followed) <==>
            exists i :: 0 <= i < |members| && members[i] == x && Allowed(x, followed)
                        && forall j :: 0 <= j < i ==>
                             !(Allowed(members[j], followed) && members[j].videoID == x.videoID)
    ensures (exists y :: y in Collect(members, followed) && y.videoID == x.videoID) <==>
            exists j :: 0 <= j < |members| && Allowed(members[j], followed) && members[j].videoID == x.videoID
    decreases |members|
  {
    if members != [] {
      var n := |members| - 1;
      var rest, m := members[..n], members[n];
      CollectsFirsts(rest, followed, x);
      CollectsFirsts(rest, followed, m);
      assert forall i :: 0 <= i < n ==> members[i] == rest[i];
    }
  }

  // Exactly the users given have the member added to the inboxes they had.
  ghost predicate Added(
    lt: Order<Item>, was: map<int, seq<Item>>, now: map<int, seq<Item>>, users: set<int>, member: Item, keep: nat)
  {
    forall u :: Elements(KeyOf(now, u)) ==
                if u in users then Top(lt, Elements(KeyOf(was, u)) + {member}, keep) else Elements(KeyOf(was, u))
  }

  function Recipients(userIDs: seq<int>): set<int> {
    set u | u in userIDs && u > 0
  }

  lemma AddedTwice(
    lt: Order<Item>, was: map<int, seq<Item>>, mid: map<int, seq<Item>>, now: map<int, seq<Item>>,
    a: set<int>, b: set<int>, member: Item, keep: nat)
    requires StrictTotal(lt) && Added(lt, was, mid, a, member, keep) && Added(lt, mid, now, b, member, keep)
    ensures Added(lt, was, now, a + b, member, keep)
  {
    forall u ensures Elements(KeyOf(now, u)) ==
                     if u in a + b then Top(lt, Elements(KeyOf(was, u)) + {member}, keep) else Elements(KeyOf(was, u))
    {
      var s := Elements(KeyOf(was, u));
      TopUnion(lt, s + {member}, {member}, keep);
      assert s + {member} + {member} == s + {member};
    }
  }

  // Exactly the author's members leave the user's inbox.
  ghost predicate Cleared(was: map<int, seq<Item>>, now: map<int, seq<Item>>, userID: int, authorID: int) {
    forall u :: Elements(KeyOf(now, u)) ==
                if u == userID then (set x | x in Elements(KeyOf(was, u)) && x.authorID != authorID)
                else Elements(KeyOf(was, u))
  }

  class FollowingIndexCache {
    // The byte order of rendered members; any strict total order.
    const memberLess: Order<Item>
    var inboxes: map<int, seq<Item>>
    var outboxes: map<int, seq<Item>>

    constructor (memberLess: Order<Item>)
      requires StrictTotal(memberLess)
      ensures Valid() && this.memberLess == memberLess
      ensures forall u :: Inbox(u) == {} && Outbox(u) == {}
    {
      this.memberLess := memberLess;
      inboxes, outboxes := map[], map[];
    }

    ghost predicate Valid()
      reads this
    {
      && StrictTotal(memberLess)
      && (forall u :: u in inboxes ==> Descending(RedisOrder(memberLess), inboxes[u]))
      && (forall a :: a in outboxes ==> Descending(RedisOrder(memberLess), outboxes[a]))
    }

    ghost function Inbox(userID: int): set<Item>
      reads this
    {
      Elements(KeyOf(inboxes, userID))
    }

    ghost function Outbox(authorID: int): set<Item>
      reads this
    {
      Elements(KeyOf(outboxes, authorID))
    }

    method AddInboxItems(authorID: int, userIDs: seq<int>, item: Option<Item>, maxLen: int)
      requires Valid()
      modifies this`inboxes
      ensures Valid()
      ensures !Accepted(authorID, item) ==> inboxes == old(inboxes)
      ensures Accepted(authorID, item) ==>
                Added(RedisOrder(memberLess), old(inboxes), inboxes, Recipients(userIDs),
                      item.value.(authorID := authorID), Bound(maxLen, DEFAULT_INBOX_MAX_LEN))
    {
      if authorID <= 0 || item.None? || item.value.videoID <= 0 || item.value.publishedAt == ZERO_TIME {
        return;
      }
      var keep := Bound(maxLen, DEFAULT_INBOX_MAX_LEN);
      var member := item.value.(authorID := authorID);
      ghost var lt, was := RedisOrder(memberLess), inboxes;
      RedisOrderIsTotal(memberLess);
      var i := 0;
      while i < |userIDs|
        invariant 0 <= i <= |userIDs|
        invariant Valid()
        invariant Added(lt, was, inboxes, Recipients(userIDs[..i]), member, keep)
      {
        var userID := userIDs[i];
        ghost var done := Recipients(userIDs[..i]);
        assert Recipients(userIDs[..i + 1]) == if userID > 0 then done + {userID} else done by {
          assert userIDs[..i + 1] == userIDs[..i] + [userID];
        }
        if userID > 0 {
          ghost var mid := inboxes;
          AddToInbox(userID, member, keep);
          AddedTwice(lt, was, mid, inboxes, done, {userID}, member, keep);
        }
        i := i + 1;
      }
      assert userIDs[..i] == userIDs;
    }

    // One ZADD and its trim.
    method AddToInbox(userID: int, member: Item, keep: nat)
      requires Valid()
      modifies this`inboxes
      ensures Valid()
      ensures Added(RedisOrder(memberLess), old(inboxes), inboxes, {userID}, member, keep)
    {
      RedisOrderIsTotal(memberLess);
      var z := KeyOf(inboxes, userID);
      AddOneLists(RedisOrder(memberLess), z, Elements(z), member, keep);
      inboxes := inboxes[userID := AddOne(RedisOrder(memberLess), z, member, keep)];
    }

    method AddAuthorOutboxItem(authorID: int, item: Option<Item>, maxLen: int)
      requires Valid()
      modifies this`outboxes
      ensures Valid()
      ensures forall a :: Outbox(a) ==
                if Accepted(authorID, item) && a == authorID
                then Top(RedisOrder(memberLess), old(Outbox(a)) + {item.value.(authorID := authorID)},
                         Bound(maxLen, DEFAULT_OUTBOX_MAX_LEN))
                else old(Outbox(a))
    {
      if authorID <= 0 || item.None? || item.value.videoID <= 0 || item.value.publishedAt == ZERO_TIME {
        return;
      }
      var lt := RedisOrder(memberLess);
      RedisOrderIsTotal(memberLess);
      var z, member := KeyOf(outboxes, authorID), item.value.(authorID := authorID);
      AddOneLists(lt, z, Elements(z), member, Bound(maxLen, DEFAULT_OUTBOX_MAX_LEN));
      outboxes := outboxes[authorID := AddOne(lt, z, member, Bound(maxLen, DEFAULT_OUTBOX_MAX_LEN))];
    }

    static ghost predicate Kept(lt: Order<Item>, members: seq<Item>, kept: seq<Item>, authorID: int) {
      Descending(lt, kept) && Elements(kept) == set x | x in Elements(members) && x.authorID != authorID
    }

    static lemma KeepStep(lt: Order<Item>, members: seq<Item>, i: nat, kept: seq<Item>, authorID: int)
      requires i < |members| && Descending(lt, members) && Kept(lt, members[..i], kept, authorID)
      ensures var more := if members[i].authorID != authorID then kept + [members[i]] else kept;
              Kept(lt, members[..i + 1], more, authorID)
      ensures members[..i + 1] == members[..i] + [members[i]]
    {
      assert members[..i + 1][..i] == members[..i];
      ElementsSnoc(members[..i + 1]);
      assert (kept + [members[i]])[..|kept|] == kept;
      ElementsSnoc(kept + [members[i]]);
      forall k | 0 <= k < |kept| ensures lt(members[i], kept[k]) {
        assert kept[k] in Elements(kept);
        var j :| 0 <= j < |members[..i]| && members[..i][j] == kept[k];
        assert members[j] == kept[k];
      }
    }

    // The members that stay keep their order.
    method RemoveInboxAuthor(userID: int, authorID: int)
      requires Valid()
      modifies this`inboxes
      ensures Valid()
      ensures if userID > 0 && authorID > 0 then Cleared(old(inboxes), inboxes, userID, authorID)
              else inboxes == old(inboxes)
    {
      if userID <= 0 || authorID <= 0 {
        return;
      }
      var members := KeyOf(inboxes, userID);
      var kept: seq<Item> := [];
      var removed: nat := 0;
      var i := 0;
      while i < |members|
        invariant 0 <= i <= |members|
        invariant inboxes == old(inboxes)
        invariant removed == 0 ==> kept == members[..i]
        invariant Kept(RedisOrder(memberLess), members[..i], kept, authorID)
      {
        RedisOrderIsTotal(memberLess);
        KeepStep(RedisOrder(memberLess), members, i, kept, authorID);
        if members[i].authorID != authorID {
          kept := kept + [members[i]];
        } else {
          removed := removed + 1;
        }
        i := i + 1;
      }
      assert members[..i] == members;
      if removed == 0 {
        return;
      }
      inboxes := inboxes[userID := kept];
    }
  
    ghost function Keys(viewerID: int, pull: seq<int>): seq<seq<Item>>
      reads this
    {
      PageKeys(KeyOf(inboxes, viewerID), outboxes, pull)
    }

    // Everything the index holds for one viewer.
    ghost function IndexSet(viewerID: int, pull: seq<int>): set<Item>
      reads this
    {
      UnionOf(Keys(viewerID, pull))
    }

    // A fixed index of followed authors' plain items.
    ghost predicate Clean(viewerID: int, pull: seq<int>, followed: seq<int>, cursor: Option<Cursor>)
      reads this
    {
      && PlainItems(IndexSet(viewerID, pull))
      && (forall x :: x in IndexSet(viewerID, pull) ==> x.authorID in followed)
      && (cursor.Some? ==> PlainTime(cursor.value.publishedAt, cursor.value.videoID))
    }

    // When the index counts as complete for this viewer.
    ghost predicate Usable(viewerID: int, pull: seq<int>, followed: seq<int>)
      reads this
    {
      || KeyOf(inboxes, viewerID) != []
      || (HasSomeOutbox(Keys(viewerID, pull)) && !HasSmallAuthors(followed, pull))
    }

    static predicate HasSomeOutbox(keys: seq<seq<Item>>) {
      exists i :: 1 <= i < |keys| && keys[i] != []
    }

    // The inbox, then the outbox of every author to pull from.
    method ReadKeys(viewerID: int, pull: seq<int>) returns (keys: seq<seq<Item>>)
      requires Valid()
      ensures keys == Keys(viewerID, pull) && KeysSorted(RedisOrder(memberLess), keys)
      ensures |keys| > 0 && keys[0] == KeyOf(inboxes, viewerID)
    {
      keys := [KeyOf(inboxes, viewerID)];
      var i := 0;
      while i < |pull|
        invariant 0 <= i <= |pull|
        invariant keys == PageKeys(KeyOf(inboxes, viewerID), outboxes, pull[..i])
        invariant |keys| > 0 && keys[0] == KeyOf(inboxes, viewerID)
        invariant KeysSorted(RedisOrder(memberLess), keys)
      {
        assert pull[..i + 1][..i] == pull[..i];
        if pull[i] > 0 {
          keys := keys + [KeyOf(outboxes, pull[i])];
        }
        i := i + 1;
      }
      assert pull[..i] == pull;
    }

    // The range queries of all keys, and whether any outbox holds something.
    static method FetchKeys(keys: seq<seq<Item>>, maxScore: Option<int>, limit: nat)
      returns (fetched: seq<Item>, hasOutbox: bool)
      ensures fetched == Fetch(keys, maxScore, limit) && (hasOutbox <==> HasSomeOutbox(keys))
    {
      fetched, hasOutbox := [], false;
      var i := 0;
      while i < |keys|
        invariant 0 <= i <= |keys|
        invariant fetched == Fetch(keys[..i], maxScore, limit)
        invariant hasOutbox <==> exists j :: 1 <= j < i && keys[j] != []
      {
        assert keys[..i + 1][..i] == keys[..i];
        fetched := fetched + RevRange(keys[i], maxScore, limit);
        if i > 0 && keys[i] != [] {
          hasOutbox := true;
        }
        i := i + 1;
      }
      assert keys[..i] == keys;
    }

    method ListFollowingIndexPage(viewerID: int, pull: seq<int>, followed: seq<int>, cursor: Option<Cursor>, limit: int)
      returns (items: seq<Item>, ok: bool)
      requires Valid()
      ensures ok <==> viewerID > 0 && limit > 0 && Usable(viewerID, pull, followed)
      // An empty inbox will do only when every followed author is pulled and some
      // outbox holds something.
      ensures viewerID > 0 && limit > 0 ==>
                (ok <==> KeyOf(inboxes, viewerID) != [] ||
                         (SomeOutbox(outboxes, pull) && forall a :: a in followed ==> a in pull))
      ensures !ok ==> items == []
      ensures |items| <= if limit > 0 then limit else 0
      ensures NonIncreasing(Timeline, items) && Distinct(items) && UniqueVideos(Elements(items))
      ensures forall x :: x in items ==> x.authorID <= 0 || x.authorID in followed
      ensures ok ==>
                var fetched := Fetch(Keys(viewerID, pull), MaxScore(cursor), limit);
                items == Trim(Sorted(Timeline, Collect(fetched, followed)), limit)
      ensures ok && Clean(viewerID, pull, followed, cursor) ==>
                Lists(Timeline, items, Top(Timeline, BelowCursor(IndexSet(viewerID, pull), cursor), limit))
    {
      if viewerID <= 0 || limit <= 0 {
        return [], false;
      }
      KeysHold(KeyOf(inboxes, viewerID), outboxes, pull);
      var keys := ReadKeys(viewerID, pull);
      var maxScore := MaxScore(cursor);
      var fetched, hasOutbox := FetchKeys(keys, maxScore, limit);
      if keys[0] == [] && !hasOutbox {
        return [], false;
      }
      var small := FollowsSmallAuthors(followed, pull);
      if keys[0] == [] && small {
        return [], false;
      }

      var merged := MergeMembers(fetched, followed);
      var a := new Item[|merged|](k requires 0 <= k < |merged| => merged[k]);
      assert a[..] == merged;
      SortPageItemsByTimeline(a);
      items, ok := Trim(a[..], limit), true;
      PageFacts(merged, limit);
      if Clean(viewerID, pull, followed, cursor) {
        PageIsTop(keys, followed, cursor, limit);
      }
    }

    static method FollowsSmallAuthors(followed: seq<int>, pull: seq<int>) returns (r: bool)
      ensures r == HasSmallAuthors(followed, pull)
    {
      var i := 0;
      while i < |followed|
        invariant 0 <= i <= |followed|
        invariant forall k :: 0 <= k < i ==> followed[k] in pull
      {
        if followed[i] !in pull {
          var author := followed[i];
          assert author in followed && author !in pull;
          return true;
        }
        i := i + 1;
      }
      return false;
    }

    // The merge loop with its map of videos already seen.
    static method MergeMembers(members: seq<Item>, followed: seq<int>) returns (items: seq<Item>)
      ensures items == Collect(members, followed)
      ensures Distinct(items) && UniqueVideos(Elements(items))
      ensures forall x :: x in items ==> x.authorID <= 0 || x.authorID in followed
    {
      items := [];
      var seen: set<int> := {};
      var i := 0;
      while i < |members|
        invariant 0 <= i <= |members|
        invariant items == Collect(members[..i], followed)
        invariant seen == set x | x in items :: x.videoID
      {
        var item := members[i];
        assert members[..i + 1][..i] == members[..i];
        if !(item.authorID > 0 && item.authorID !in followed) && item.videoID !in seen {
          seen := seen + {item.videoID};
          items := items + [item];
        }
        i := i + 1;
      }
      assert members[..i] == members;
      CollectKeeps(members, followed);
    }

    // Sorting and cutting keeps the merged items ordered, distinct and allowed.
    static lemma PageFacts(merged: seq<Item>, limit: nat)
      requires Distinct(merged) && UniqueVideos(Elements(merged))
      ensures var page := Trim(Sorted(Timeline, merged), limit);
              && NonIncreasing(Timeline, page) && Distinct(page) && UniqueVideos(Elements(page))
              && (forall x :: x in page ==> x in merged)
    {
      var z := Sorted(Timeline, merged);
      TimelineIsTotal();
      SortedIsSorted(Timeline, merged);
      DistinctIffCounts(merged);
      DistinctIffCounts(z);
      SameMultisetSameElements(z, merged);
      forall x | x in Trim(z, limit) ensures x in merged {
        assert x in z;
        assert x in Elements(z);
      }
    }

    lemma PageIsTop(keys: seq<seq<Item>>, followed: seq<int>, cursor: Option<Cursor>, limit: nat)
      requires StrictTotal(memberLess) && KeysSorted(RedisOrder(memberLess), keys) && PlainItems(UnionOf(keys))
      requires forall x :: x in UnionOf(keys) ==> x.authorID in followed
      requires cursor.Some? ==> PlainTime(cursor.value.publishedAt, cursor.value.videoID)
      ensures var merged := Collect(Fetch(keys, MaxScore(cursor), limit), followed);
              Lists(Timeline, Trim(Sorted(Timeline, merged), limit),
                    Top(Timeline, BelowCursor(UnionOf(keys), cursor), limit))
    {
      var fetched := Fetch(keys, MaxScore(cursor), limit);
      TimelineIsTotal();
      FetchLosesNothing(memberLess, keys, cursor, limit);
      CollectKeeps(fetched, followed);
      forall x | x in fetched ensures x.authorID in followed {
        assert x in Elements(fetched);
      }
      SortedLists(Timeline, Collect(fetched, followed));
      TrimLists(Timeline, Sorted(Timeline, Collect(fetched, followed)), Elements(fetched), limit);
    }
  }
}
