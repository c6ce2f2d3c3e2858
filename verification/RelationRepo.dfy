// Follow relations and their counters (infra/persistence/relation/gorm.go,
// domain/relation/entity.go).
module RelationRepo {
  import opened Base

  const FOLLOW_STATUS_UNSET: int := 0
  const FOLLOW_STATUS_ACTIVE: int := 1
  const FOLLOW_STATUS_CANCELED: int := 2

  datatype Edge = Edge(userID: int, targetID: int)
  datatype FollowRow = FollowRow(status: int, idem: string)
  datatype RelationStat = RelationStat(following: int, follower: int)

  datatype Db = Db(users: set<int>, follows: map<Edge, FollowRow>, stats: map<int, RelationStat>)

  datatype FollowError = UserNotFound
  datatype FollowOutcome = FollowOutcome(active: bool, user: RelationStat, target: RelationStat)

  const NO_STAT := RelationStat(0, 0)

  function StatusFromActive(active: bool): (status: int)
    ensures status == FOLLOW_STATUS_ACTIVE <==> active
  {
    if active then FOLLOW_STATUS_ACTIVE else FOLLOW_STATUS_CANCELED
  }

  predicate KnownStatus(status: int) {
    FOLLOW_STATUS_UNSET <= status <= FOLLOW_STATUS_CANCELED
  }

  function ResolveFollowDelta(current: int, targetActive: bool): (delta: int)
    ensures delta == Bit(targetActive) - Bit(current == FOLLOW_STATUS_ACTIVE) <==> KnownStatus(current) || targetActive
  {
    if current == FOLLOW_STATUS_UNSET then
      if targetActive then 1 else 0
    else if current == StatusFromActive(targetActive) then 0
    else if targetActive then 1
    else -1
  }

  function EnsureStat(stats: map<int, RelationStat>, userID: int): map<int, RelationStat> {
    if userID in stats then stats else stats[userID := NO_STAT]
  }

  function UpdateStat(
    stats: map<int, RelationStat>, userID: int, followingDelta: int, followerDelta: int): map<int, RelationStat>
    requires userID in stats
  {
    stats[userID := RelationStat(Clamp(stats[userID].following + followingDelta),
                                 Clamp(stats[userID].follower + followerDelta))]
  }

  // The row SetFollow leaves and the delta it applies to both counters.
  function RowAfter(follows: map<Edge, FollowRow>, edge: Edge, active: bool, idem: string): (FollowRow, int) {
    if edge !in follows then
      (FollowRow(StatusFromActive(active), idem), ResolveFollowDelta(FOLLOW_STATUS_UNSET, active))
    else if idem != "" && follows[edge].idem == idem then
      (follows[edge], 0)
    else
      (FollowRow(StatusFromActive(active), idem), ResolveFollowDelta(follows[edge].status, active))
  }

  function AfterSetFollow(db: Db, edge: Edge, active: bool, idem: string): (Db, Result<FollowOutcome, FollowError>) {
    if edge.userID !in db.users || edge.targetID !in db.users then (db, Err(UserNotFound))
    else
      var (row, delta) := RowAfter(db.follows, edge, active, idem);
      var ensured := EnsureStat(EnsureStat(db.stats, edge.userID), edge.targetID);
      var stats := if delta == 0 then ensured
                   else UpdateStat(UpdateStat(ensured, edge.userID, delta, 0), edge.targetID, 0, delta);
      (db.(follows := db.follows[edge := row], stats := stats),
       Ok(FollowOutcome(row.status == FOLLOW_STATUS_ACTIVE, stats[edge.userID], stats[edge.targetID])))
  }

  // A write takes effect whatever row it finds: the edge is active afterwards if and
  // only if that was asked for, or, when the request repeats the row's key, if it was
  // active before. The row remembers the request's key and no other row moves.
  lemma FollowTakesEffect(db: Db, edge: Edge, active: bool, idem: string)
    ensures !(edge.userID in db.users && edge.targetID in db.users) ==>
              AfterSetFollow(db, edge, active, idem) == (db, Err(UserNotFound))
    ensures edge.userID in db.users && edge.targetID in db.users ==>
            var (db', r) := AfterSetFollow(db, edge, active, idem);
            && r.Ok? && (r.value.active <==> ActiveEdge(db'.follows, edge))
            && (ActiveEdge(db'.follows, edge) <==>
                if Repeats(db.follows, edge, idem) then ActiveEdge(db.follows, edge) else active)
            && edge in db'.follows && db'.follows[edge].idem == idem
            && db'.follows - {edge} == db.follows - {edge} && db'.users == db.users
  {
    var db' := AfterSetFollow(db, edge, active, idem).0;
    assert db'.follows - {edge} == db.follows - {edge};
  }

  predicate Repeats(follows: map<Edge, FollowRow>, edge: Edge, idem: string) {
    edge in follows && idem != "" && follows[edge].idem == idem
  }

  // ----- counters are cardinalities -----

  predicate ActiveEdge(follows: map<Edge, FollowRow>, edge: Edge) {
    edge in follows && follows[edge].status == FOLLOW_STATUS_ACTIVE
  }

  function Out(follows: map<Edge, FollowRow>, userID: int): set<Edge> {
    set e | e in follows && e.userID == userID && follows[e].status == FOLLOW_STATUS_ACTIVE
  }

  function In(follows: map<Edge, FollowRow>, userID: int): set<Edge> {
    set e | e in follows && e.targetID == userID && follows[e].status == FOLLOW_STATUS_ACTIVE
  }

  function StatOf(db: Db, userID: int): RelationStat {
    if userID in db.stats then db.stats[userID] else NO_STAT
  }

  ghost predicate UserExact(db: Db, userID: int) {
    StatOf(db, userID) == RelationStat(|Out(db.follows, userID)|, |In(db.follows, userID)|)
  }

  ghost function SumOver(keys: set<int>, m: map<int, int>): int
    requires keys <= m.Keys
  {
    if exists k :: k in keys then
      var k :| k in keys;
      m[k] + SumOver(keys - {k}, m)
    else 0
  }

  ghost function Total(m: map<int, int>): int {
    SumOver(m.Keys, m)
  }

  lemma {:induction false} SumSplit(keys: set<int>, m: map<int, int>, k: int)
    requires k in keys && keys <= m.Keys
    ensures SumOver(keys, m) == m[k] + SumOver(keys - {k}, m)
  {
    var j :| j in keys && SumOver(keys, m) == m[j] + SumOver(keys - {j}, m);
    if j != k {
      SumSplit(keys - {j}, m, k);
      SumSplit(keys - {k}, m, j);
      assert keys - {j} - {k} == keys - {k} - {j};
    }
  }

  lemma {:induction false} SumSame(keys: set<int>, m: map<int, int>, m': map<int, int>)
    requires keys <= m.Keys && keys <= m'.Keys && forall k :: k in keys ==> m[k] == m'[k]
    ensures SumOver(keys, m) == SumOver(keys, m')
  {
    if k :| k in keys {
      SumSplit(keys, m, k);
      SumSplit(keys, m', k);
      SumSame(keys - {k}, m, m');
    }
  }

  lemma TotalAfterWrite(m: map<int, int>, k: int, v: int)
    ensures Total(m[k := v]) == Total(m) + v - (if k in m then m[k] else 0)
  {
    SumSplit(m.Keys + {k}, m[k := v], k);
    assert m[k := v].Keys == m.Keys + {k};
    SumSame(m.Keys - {k}, m, m[k := v]);
    assert m.Keys + {k} - {k} == m.Keys - {k};
    if k in m {
      SumSplit(m.Keys, m, k);
    } else {
      assert m.Keys - {k} == m.Keys;
    }
  }

  function FollowingCounts(stats: map<int, RelationStat>): map<int, int> {
    map u | u in stats :: stats[u].following
  }

  function FollowerCounts(stats: map<int, RelationStat>): map<int, int> {
    map u | u in stats :: stats[u].follower
  }

  ghost predicate Inv(db: Db) {
    && (forall u :: UserExact(db, u))
    && (forall e :: e in db.follows ==> KnownStatus(db.follows[e].status))
    && Total(FollowingCounts(db.stats)) == Total(FollowerCounts(db.stats))
  }

  lemma EdgesAfterWrite(follows: map<Edge, FollowRow>, edge: Edge, row: FollowRow, userID: int)
    ensures var change := Bit(row.status == FOLLOW_STATUS_ACTIVE) - Bit(ActiveEdge(follows, edge));
            && |Out(follows[edge := row], userID)| == |Out(follows, userID)|
               + (if edge.userID == userID then change else 0)
            && |In(follows[edge := row], userID)| == |In(follows, userID)|
               + (if edge.targetID == userID then change else 0)
  {
    OutAfterWrite(follows, edge, row, userID);
    InAfterWrite(follows, edge, row, userID);
  }

  lemma OutAfterWrite(follows: map<Edge, FollowRow>, edge: Edge, row: FollowRow, userID: int)
    ensures |Out(follows[edge := row], userID)| == |Out(follows, userID)| +
            (if edge.userID == userID then Bit(row.status == FOLLOW_STATUS_ACTIVE) - Bit(ActiveEdge(follows, edge))
             else 0)
  {
    var before, after := Out(follows, userID), Out(follows[edge := row], userID);
    SizeWith(before, edge);
    if edge.userID == userID && row.status == FOLLOW_STATUS_ACTIVE {
      assert after == before + {edge};
    } else {
      assert after == before - {edge};
    }
  }

  lemma InAfterWrite(follows: map<Edge, FollowRow>, edge: Edge, row: FollowRow, userID: int)
    ensures |In(follows[edge := row], userID)| == |In(follows, userID)| +
            (if edge.targetID == userID then Bit(row.status == FOLLOW_STATUS_ACTIVE) - Bit(ActiveEdge(follows, edge))
             else 0)
  {
    var before, after := In(follows, userID), In(follows[edge := row], userID);
    SizeWith(before, edge);
    if edge.targetID == userID && row.status == FOLLOW_STATUS_ACTIVE {
      assert after == before + {edge};
    } else {
      assert after == before - {edge};
    }
  }

  // A following count moves with its edges, so the clamp has nothing to cut.
  lemma DeltaFits(db: Db, edge: Edge, active: bool, idem: string)
    requires Inv(db)
    ensures var delta := RowAfter(db.follows, edge, active, idem).1;
            StatOf(db, edge.userID).following + delta >= 0 && StatOf(db, edge.targetID).follower + delta >= 0
  {
    var (row, delta) := RowAfter(db.follows, edge, active, idem);
    EdgesAfterWrite(db.follows, edge, row, edge.userID);
    EdgesAfterWrite(db.follows, edge, row, edge.targetID);
    assert UserExact(db, edge.userID) && UserExact(db, edge.targetID);
  }

  lemma SetFollowKeepsUsers(db: Db, edge: Edge, active: bool, idem: string, userID: int)
    requires Inv(db)
    ensures UserExact(AfterSetFollow(db, edge, active, idem).0, userID)
  {
    assert UserExact(db, userID);
    DeltaFits(db, edge, active, idem);
    EdgesAfterWrite(db.follows, edge, RowAfter(db.follows, edge, active, idem).0, userID);
  }

  // One write adds the same delta to one following and one follower counter.
  lemma TotalsAfterUpdate(stats: map<int, RelationStat>, u: int, v: int, delta: int)
    requires u in stats && v in stats && stats[u].following + delta >= 0 && stats[v].follower + delta >= 0
    requires stats[u].follower >= 0 && stats[v].following >= 0
    ensures var stats' := UpdateStat(UpdateStat(stats, u, delta, 0), v, 0, delta);
            && Total(FollowingCounts(stats')) == Total(FollowingCounts(stats)) + delta
            && Total(FollowerCounts(stats')) == Total(FollowerCounts(stats)) + delta
  {
    var stats' := UpdateStat(UpdateStat(stats, u, delta, 0), v, 0, delta);
    assert FollowingCounts(stats') == FollowingCounts(stats)[u := stats[u].following + delta];
    assert FollowerCounts(stats') == FollowerCounts(stats)[v := stats[v].follower + delta];
    TotalAfterWrite(FollowingCounts(stats), u, stats[u].following + delta);
    TotalAfterWrite(FollowerCounts(stats), v, stats[v].follower + delta);
  }

  lemma TotalsAfterEnsure(stats: map<int, RelationStat>, u: int)
    ensures Total(FollowingCounts(EnsureStat(stats, u))) == Total(FollowingCounts(stats))
    ensures Total(FollowerCounts(EnsureStat(stats, u))) == Total(FollowerCounts(stats))
  {
    if u !in stats {
      assert FollowingCounts(EnsureStat(stats, u)) == FollowingCounts(stats)[u := 0];
      assert FollowerCounts(EnsureStat(stats, u)) == FollowerCounts(stats)[u := 0];
      TotalAfterWrite(FollowingCounts(stats), u, 0);
      TotalAfterWrite(FollowerCounts(stats), u, 0);
    }
  }

  lemma SetFollowKeepsInv(db: Db, edge: Edge, active: bool, idem: string)
    requires Inv(db)
    ensures Inv(AfterSetFollow(db, edge, active, idem).0)
  {
    forall u ensures UserExact(AfterSetFollow(db, edge, active, idem).0, u) {
      SetFollowKeepsUsers(db, edge, active, idem, u);
    }
    DeltaFits(db, edge, active, idem);
    assert UserExact(db, edge.userID) && UserExact(db, edge.targetID);
    TotalsAfterEnsure(db.stats, edge.userID);
    TotalsAfterEnsure(EnsureStat(db.stats, edge.userID), edge.targetID);
    var ensured := EnsureStat(EnsureStat(db.stats, edge.userID), edge.targetID);
    TotalsAfterUpdate(ensured, edge.userID, edge.targetID, RowAfter(db.follows, edge, active, idem).1);
  }

  datatype Request = Request(edge: Edge, active: bool, idem: string)

  function AfterAll(users: set<int>, reqs: seq<Request>): Db {
    if reqs == [] then Db(users, map[], map[])
    else
      var last := reqs[|reqs| - 1];
      AfterSetFollow(AfterAll(users, reqs[..|reqs| - 1]), last.edge, last.active, last.idem).0
  }

  // After any run of follows and un-follows both counters of every user are the
  // numbers of active edges, and the two totals are equal.
  lemma {:induction false} CountersAreCardinalities(users: set<int>, reqs: seq<Request>)
    ensures Inv(AfterAll(users, reqs))
  {
    if reqs == [] {
      assert FollowingCounts(map[]) == map[] && FollowerCounts(map[]) == map[];
      forall u ensures UserExact(AfterAll(users, reqs), u) {
        assert Out(map[], u) == {} && In(map[], u) == {};
      }
    } else {
      var last := reqs[|reqs| - 1];
      CountersAreCardinalities(users, reqs[..|reqs| - 1]);
      SetFollowKeepsInv(AfterAll(users, reqs[..|reqs| - 1]), last.edge, last.active, last.idem);
    }
  }

  // ----- the repository object -----

  class Repository {
    var users: set<int>
    var follows: map<Edge, FollowRow>
    var stats: map<int, RelationStat>

    constructor (users: set<int>)
      ensures View() == Db(users, map[], map[])
    {
      this.users, follows, stats := users, map[], map[];
    }

    ghost function View(): Db
      reads this
    {
      Db(users, follows, stats)
    }

    method SetFollow(edge: Edge, active: bool, idem: string) returns (r: Result<FollowOutcome, FollowError>)
      modifies this
      ensures (View(), r) == AfterSetFollow(old(View()), edge, active, idem)
    {
      if edge.userID !in users || edge.targetID !in users {
        return Err(UserNotFound);
      }
      stats := EnsureStat(stats, edge.userID);
      stats := EnsureStat(stats, edge.targetID);
      ghost var before := follows;
      var nextStatus, delta := StatusFromActive(active), 0;
      if edge !in follows {
        follows := follows[edge := FollowRow(nextStatus, idem)];
        delta := ResolveFollowDelta(FOLLOW_STATUS_UNSET, active);
      } else if !(idem != "" && follows[edge].idem == idem) {
        var previous := follows[edge];
        delta := ResolveFollowDelta(previous.status, active);
        if previous.status != nextStatus || previous.idem != idem {
          follows := follows[edge := FollowRow(nextStatus, idem)];
        }
      }
      assert follows == before[edge := RowAfter(before, edge, active, idem).0];
      if delta != 0 {
        stats := UpdateStat(stats, edge.userID, delta, 0);
        stats := UpdateStat(stats, edge.targetID, 0, delta);
      }
      r := Ok(FollowOutcome(follows[edge].status == FOLLOW_STATUS_ACTIVE, stats[edge.userID], stats[edge.targetID]));
    }
  }
}
