// The Redis side of likes and favourites: the action hash of each user, the
// counter base of each video and its sixteen delta shards
// (infra/cache/action_state_cache.go, infra/cache/feed_stat_cache.go).
module ActionStore {
  import opened Base
  import opened InteractionDomain

  const SHARD_COUNT: nat := 16

  datatype ShardKey = ShardKey(videoID: int, shard: nat)

  datatype Store = Store(actions: Records, bases: map<int, VideoStat>, shards: map<ShardKey, VideoStat>)

  const EMPTY_STORE := Store(map[], map[], map[])
  const ZERO_STAT := VideoStat(0, 0, 0)

  // What one SetActionState call decides after reading the stored hash.
  datatype Decision = Decision(status: int, delta: int, active: bool)

  datatype ActionStateResult =
    ActionStateResult(active: bool, delta: int, like: int, favorite: int)

  function Decide(seen: ActionRecord, active: bool, idem: string): (d: Decision)
    // A replayed key changes nothing; otherwise the delta is the change of activity.
    ensures KnownStatus(seen.status) ==>
              d.delta == Bit(IsActive(d.status)) - Bit(IsActive(seen.status)) && KnownStatus(d.status)
    ensures d.active <==> IsActive(d.status)
    ensures d.delta != 0 ==> d.active == active && (idem == "" || idem != seen.idem)
    // The request takes effect unless it repeats the stored key.
    ensures d.active == if idem != "" && idem == seen.idem then IsActive(seen.status) else active
  {
    if seen.idem == idem && idem != "" then
      Decision(seen.status, 0, IsActive(seen.status))
    else
      Decision(StatusFromActive(active), ResolveActionDelta(seen.status, active), active)
  }

  function ShardIndex(userID: int): (shard: nat)
    ensures shard < SHARD_COUNT
  {
    if userID <= 0 then 0 else userID % SHARD_COUNT
  }

  // Sixteen users in a row go to sixteen different shards.
  lemma NeighboursAreSpread(u: int, v: int)
    requires 0 < u < v < u + SHARD_COUNT
    ensures ShardIndex(u) != ShardIndex(v)
  {
  }

  function AddDelta(stat: VideoStat, t: ActionType, delta: int): VideoStat {
    match t
    case Like => stat.(like := stat.like + delta)
    case Favorite => stat.(favorite := stat.favorite + delta)
  }

  function ShardOf(shards: map<ShardKey, VideoStat>, key: ShardKey): VideoStat {
    if key in shards then shards[key] else ZERO_STAT
  }

  // The transaction's writes: the action hash, the base unless it exists
  // (HSETNX), and the shard of the user when the delta is not zero.
  function WriteAction(s: Store, k: ActionKey, d: Decision, idem: string, initial: VideoStat): Store {
    var shardKey := ShardKey(k.videoID, ShardIndex(k.userID));
    Store(s.actions[k := ActionRecord(d.status, idem)],
          if k.videoID in s.bases then s.bases else s.bases[k.videoID := initial],
          if d.delta == 0 then s.shards
          else s.shards[shardKey := AddDelta(ShardOf(s.shards, shardKey), k.actionType, d.delta)])
  }

  function ShardsOf(videoID: int): set<ShardKey> {
    set shard | 0 <= shard < SHARD_COUNT :: ShardKey(videoID, shard)
  }

  // Reconciliation: the base takes the database counters, the shards are deleted.
  function Reconciled(s: Store, videoID: int, stat: VideoStat): Store {
    s.(bases := s.bases[videoID := stat], shards := s.shards - ShardsOf(videoID))
  }

  // ----- the count a reader computes -----

  function ShardTotal(shards: map<ShardKey, VideoStat>, videoID: int, t: ActionType, n: nat): int {
    if n == 0 then 0
    else ShardTotal(shards, videoID, t, n - 1) + CountOf(ShardOf(shards, ShardKey(videoID, n - 1)), t)
  }

  function BaseOf(s: Store, videoID: int): VideoStat {
    if videoID in s.bases then s.bases[videoID] else ZERO_STAT
  }

  // Base plus shard deltas, before the clamp at zero.
  function RawCount(s: Store, videoID: int, t: ActionType): int {
    CountOf(BaseOf(s, videoID), t) + ShardTotal(s.shards, videoID, t, SHARD_COUNT)
  }

  lemma {:induction false} ShardTotalAfterAdd(
    shards: map<ShardKey, VideoStat>, key: ShardKey, t: ActionType, delta: int, videoID: int, u: ActionType, n: nat)
    ensures ShardTotal(shards[key := AddDelta(ShardOf(shards, key), t, delta)], videoID, u, n) ==
            ShardTotal(shards, videoID, u, n) +
            (if key.videoID == videoID && t == u && key.shard < n then delta else 0)
  {
    if n > 0 {
      ShardTotalAfterAdd(shards, key, t, delta, videoID, u, n - 1);
    }
  }

  lemma {:induction false} ShardTotalAfterDelete(
    shards: map<ShardKey, VideoStat>, deleted: int, videoID: int, t: ActionType, n: nat)
    requires n <= SHARD_COUNT
    ensures ShardTotal(shards - ShardsOf(deleted), videoID, t, n) ==
            if videoID == deleted then 0 else ShardTotal(shards, videoID, t, n)
  {
    if n > 0 {
      ShardTotalAfterDelete(shards, deleted, videoID, t, n - 1);
      assert ShardKey(videoID, n - 1) in ShardsOf(deleted) <==> videoID == deleted;
    }
  }

  // A committed call moves the raw count of its own video and type by its delta
  // (on top of the base it may install) and no other raw count.
  lemma RawCountAfterWrite(
    s: Store, k: ActionKey, d: Decision, idem: string, initial: VideoStat, videoID: int, t: ActionType)
    ensures RawCount(WriteAction(s, k, d, idem, initial), videoID, t) ==
            RawCount(s, videoID, t) +
            (if k.videoID == videoID && k.actionType == t then d.delta else 0) +
            (if k.videoID == videoID && videoID !in s.bases then CountOf(initial, t) else 0)
  {
    var shardKey := ShardKey(k.videoID, ShardIndex(k.userID));
    ShardTotalAfterAdd(s.shards, shardKey, k.actionType, d.delta, videoID, t, SHARD_COUNT);
  }

  // Reconciliation makes the raw count of its video the database count and
  // leaves every other video alone, whatever the shards held.
  lemma RawCountAfterReconcile(s: Store, videoID: int, stat: VideoStat, other: int, t: ActionType)
    ensures RawCount(Reconciled(s, videoID, stat), other, t) ==
            if other == videoID then CountOf(stat, t) else RawCount(s, other, t)
  {
    ShardTotalAfterDelete(s.shards, videoID, other, t, SHARD_COUNT);
  }

  // The value actionStatWithPresence answers with.
  function ShownStat(s: Store, videoID: int, initial: Option<VideoStat>): Option<VideoStat> {
    var base := if videoID in s.bases then Some(s.bases[videoID]) else initial;
    var shardFound := exists i | 0 <= i < SHARD_COUNT :: ShardKey(videoID, i) in s.shards;
    if base.None? && !shardFound then None
    else
      var stat := if base.Some? then base.value else ZERO_STAT;
      Some(stat.(like := Clamp(stat.like + ShardTotal(s.shards, videoID, Like, SHARD_COUNT)),
                 favorite := Clamp(stat.favorite + ShardTotal(s.shards, videoID, Favorite, SHARD_COUNT))))
  }

  // Readers are shown the raw counts, clamped, with the base's comment count; where
  // Redis holds no base the caller's fallback stands in for it, and nothing is shown
  // exactly when there is neither base nor fallback nor shard.
  lemma ShownIsRawCount(s: Store, videoID: int, initial: Option<VideoStat>)
    ensures videoID in s.bases ==>
              ShownStat(s, videoID, initial) ==
              Some(VideoStat(Clamp(RawCount(s, videoID, Like)), s.bases[videoID].comment,
                             Clamp(RawCount(s, videoID, Favorite))))
    ensures videoID !in s.bases && initial.Some? ==>
              ShownStat(s, videoID, initial) ==
              ShownStat(s.(bases := s.bases[videoID := initial.value]), videoID, None)
    ensures ShownStat(s, videoID, initial).None? <==>
              && videoID !in s.bases && initial.None?
              && forall i :: 0 <= i < SHARD_COUNT ==> ShardKey(videoID, i) !in s.shards
  {
  }

  class ActionStatStore {
    var actions: Records
    var bases: map<int, VideoStat>
    var shards: map<ShardKey, VideoStat>

    constructor ()
      ensures View() == EMPTY_STORE
    {
      actions, bases, shards := map[], map[], map[];
    }

    ghost function View(): Store
      reads this
    {
      Store(actions, bases, shards)
    }

    // SetActionState with the transaction undisturbed: decide on the stored
    // hash, write hash, base and shard, then read the counters back.
    method SetActionState(
      userID: int, videoID: int, t: ActionType, active: bool, idem: string, initial: Option<VideoStat>)
      returns (result: ActionStateResult)
      modifies this
      ensures var k := ActionKey(userID, videoID, t);
              var before := old(View());
              var d := Decide(RecordOf(before.actions, k), active, idem);
              var base := if initial.Some? then initial.value else ZERO_STAT;
              && View() == WriteAction(before, k, d, idem, base)
              && result == ActionStateResult(d.active, d.delta,
                                             Clamp(RawCount(View(), videoID, Like)),
                                             Clamp(RawCount(View(), videoID, Favorite)))
    {
      var k := ActionKey(userID, videoID, t);
      var stored := RecordOf(actions, k);
      var effectiveActive, effectiveStatus, delta := active, StatusFromActive(active), 0;
      if stored.idem == idem && idem != "" {
        effectiveActive := IsActive(stored.status);
        effectiveStatus := stored.status;
      } else {
        delta := ResolveActionDelta(stored.status, active);
      }
      actions := actions[k := ActionRecord(effectiveStatus, idem)];
      if videoID !in bases {
        bases := bases[videoID := if initial.Some? then initial.value else ZERO_STAT];
      }
      if delta != 0 {
        var shardKey := ShardKey(videoID, ShardIndex(userID));
        shards := shards[shardKey := AddDelta(ShardOf(shards, shardKey), t, delta)];
      }
      var stat := ActionStat(videoID, initial);
      result := ActionStateResult(effectiveActive, delta, stat.value.like, stat.value.favorite);
    }

    // actionStatWithPresence: the base (or the caller's fallback) plus the
    // deltas of the sixteen shards, clamped; None when Redis holds nothing.
    method ActionStat(videoID: int, initial: Option<VideoStat>) returns (stat: Option<VideoStat>)
      ensures stat == ShownStat(View(), videoID, initial)
    {
      var found := false;
      var value := ZERO_STAT;
      if videoID in bases {
        value, found := bases[videoID], true;
      } else if initial.Some? {
        value, found := initial.value, true;
      }
      var likeDelta, favoriteDelta, shard, shardFound := 0, 0, 0, false;
      while shard < SHARD_COUNT
        invariant 0 <= shard <= SHARD_COUNT
        invariant likeDelta == ShardTotal(shards, videoID, Like, shard)
        invariant favoriteDelta == ShardTotal(shards, videoID, Favorite, shard)
        invariant shardFound <==> exists i | 0 <= i < shard :: ShardKey(videoID, i) in shards
      {
        if ShardKey(videoID, shard) in shards {
          shardFound := true;
        }
        var values := ShardOf(shards, ShardKey(videoID, shard));
        likeDelta := likeDelta + values.like;
        favoriteDelta := favoriteDelta + values.favorite;
        shard := shard + 1;
      }
      if !found && !shardFound {
        return None;
      }
      stat := Some(value.(like := Clamp(value.like + likeDelta), favorite := Clamp(value.favorite + favoriteDelta)));
    }

    // ReconcileActionStat: nothing happens without a statistic of a real video.
    method ReconcileActionStat(videoID: int, stat: Option<VideoStat>)
      modifies this
      ensures View() == if stat.None? || videoID <= 0 then old(View())
                        else Reconciled(old(View()), videoID, stat.value)
    {
      if stat.None? || videoID <= 0 {
        return;
      }
      bases := bases[videoID := stat.value];
      shards := shards - ShardsOf(videoID);
    }
  }
}
