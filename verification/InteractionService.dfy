// The application layer over both stores: synchronous and asynchronous likes and
// favourites, comments, the hot-score records they send, and the worker that
// replays events (application/interaction/action.go, comment.go, worker.go).
module InteractionService {
  import opened Base
  import opened InteractionDomain
  import opened ActionStore
  import Repo = InteractionRepo

  const HOT_SCORE_LIKE_WEIGHT: int := 3
  const HOT_SCORE_COMMENT_WEIGHT: int := 5
  const HOT_SCORE_FAVORITE_WEIGHT: int := 4
  const MAX_IDEMPOTENCY_KEY_LENGTH: nat := 128
  const MAX_COMMENT_CONTENT_LENGTH: nat := 1000

  // ScoreHotFeedItem (domain/feed/entity.go).
  function ScoreHotFeedItem(stat: VideoStat): int {
    stat.like * HOT_SCORE_LIKE_WEIGHT + stat.comment * HOT_SCORE_COMMENT_WEIGHT
      + stat.favorite * HOT_SCORE_FAVORITE_WEIGHT
  }

  // One AddHotScore call.
  datatype HotDelta = HotDelta(videoID: int, score: int)

  datatype ServiceError =
    | InvalidUserID | InvalidVideoID | InvalidCommentID | KeyTooLong | InvalidComment
    | VideoNotFound | CommentNotFound | PermissionDenied | LoadFailed | SaveFailed | UpdateFailed

  datatype ActionResult = ActionResult(active: bool, count: int)

  function RecordHotScore(hot: seq<HotDelta>, videoID: int, score: int): seq<HotDelta> {
    if score == 0 then hot else hot + [HotDelta(videoID, score)]
  }

  function ActionWeight(t: ActionType): int {
    match t
    case Like => HOT_SCORE_LIKE_WEIGHT
    case Favorite => HOT_SCORE_FAVORITE_WEIGHT
  }

  // The database together with every hot score ever recorded.
  datatype State = State(db: Repo.Db, hot: seq<HotDelta>)

  predicate ValidAction(k: ActionKey, idem: string) {
    k.userID > 0 && k.videoID > 0 && |idem| <= MAX_IDEMPOTENCY_KEY_LENGTH
  }

  function AfterSetActionSync(s: State, k: ActionKey, active: bool, idem: string): State {
    var (db, r) := Repo.AfterSetAction(s.db, k, active, idem);
    if r.Err? then s.(db := db)
    else State(db, RecordHotScore(s.hot, k.videoID, r.value.delta * ActionWeight(k.actionType)))
  }

  predicate ValidComment(videoID: int, userID: int, content: string, idem: string): (r: bool)
    ensures videoID <= 0 || userID <= 0 || content == "" ==> !r
    ensures |content| > MAX_COMMENT_CONTENT_LENGTH || |idem| > MAX_IDEMPOTENCY_KEY_LENGTH ==> !r
  {
    && videoID > 0 && userID > 0 && content != ""
    && |content| <= MAX_COMMENT_CONTENT_LENGTH && |idem| <= MAX_IDEMPOTENCY_KEY_LENGTH
  }

  function AfterCreateComment(s: State, userID: int, videoID: int, content: string, idem: string): State {
    if |idem| > MAX_IDEMPOTENCY_KEY_LENGTH then s
    else if idem != "" && Repo.FindComment(s.db, Repo.CommentKey(userID, idem)) != Err(Repo.CommentNotFound) then s
    else if !ValidComment(videoID, userID, content, idem) then s
    else
      var (db, r) := Repo.AfterCreateComment(s.db, videoID, userID, idem);
      if r.Err? || r.value.commentID !in db.comments then s.(db := db)
      else State(db, RecordHotScore(s.hot, db.comments[r.value.commentID].videoID,
                                    r.value.delta * HOT_SCORE_COMMENT_WEIGHT))
  }

  function AfterDeleteComment(s: State, commentID: int, userID: int, admin: bool): State {
    if commentID <= 0 || userID <= 0 then s
    else
      var (db, r) := Repo.AfterDeleteComment(s.db, commentID, userID, admin);
      if r.Err? || commentID !in db.comments then s.(db := db)
      else State(db, RecordHotScore(s.hot, db.comments[commentID].videoID, r.value.delta * HOT_SCORE_COMMENT_WEIGHT))
  }

  datatype Op =
    | SaveVideo(videoID: int, authorID: int)
    | HideVideo(videoID: int)
    | SetAction(key: ActionKey, active: bool, idem: string)
    | CreateComment(userID: int, videoID: int, content: string, idem: string)
    | DeleteComment(commentID: int, userID: int, admin: bool)

  function After(s: State, op: Op): State {
    match op
    case SaveVideo(v, a) => s.(db := Repo.After(s.db, Repo.SaveVideo(v, a)))
    case HideVideo(v) => s.(db := Repo.After(s.db, Repo.HideVideo(v)))
    case SetAction(k, active, idem) => if ValidAction(k, idem) then AfterSetActionSync(s, k, active, idem) else s
    case CreateComment(u, v, content, idem) => AfterCreateComment(s, u, v, content, idem)
    case DeleteComment(c, u, admin) => AfterDeleteComment(s, c, u, admin)
  }

  function AfterAll(ops: seq<Op>): State {
    if ops == [] then State(Repo.EMPTY_DB, [])
    else After(AfterAll(ops[..|ops| - 1]), ops[|ops| - 1])
  }

  // ----- hot-score conservation -----

  function HotSum(hot: seq<HotDelta>, videoID: int): int {
    if hot == [] then 0
    else HotSum(hot[..|hot| - 1], videoID) + (if hot[|hot| - 1].videoID == videoID then hot[|hot| - 1].score else 0)
  }

  function StatOf(db: Repo.Db, videoID: int): VideoStat {
    if videoID in db.stats then db.stats[videoID] else ZERO_STAT
  }

  ghost predicate Conserved(s: State) {
    Repo.Inv(s.db) && forall v :: HotSum(s.hot, v) == ScoreHotFeedItem(StatOf(s.db, v))
  }

  lemma HotSumAfterRecord(hot: seq<HotDelta>, videoID: int, score: int, v: int)
    ensures HotSum(RecordHotScore(hot, videoID, score), v) == HotSum(hot, v) + (if v == videoID then score else 0)
  {
    if score != 0 {
      assert (hot + [HotDelta(videoID, score)])[..|hot|] == hot;
    }
  }

  lemma BumpScore(stat: VideoStat, t: ActionType, delta: int)
    requires CountOf(stat, t) + delta >= 0
    ensures ScoreHotFeedItem(Repo.BumpCount(stat, t, delta)) == ScoreHotFeedItem(stat) + delta * ActionWeight(t)
  {
  }

  // Recording the score by which one video's statistics moved keeps the balance.
  lemma ConservedAfter(s: State, s': State, videoID: int, score: int)
    requires Conserved(s) && Repo.Inv(s'.db)
    requires s'.hot == RecordHotScore(s.hot, videoID, score)
    requires forall v :: v != videoID ==> StatOf(s'.db, v) == StatOf(s.db, v)
    requires ScoreHotFeedItem(StatOf(s'.db, videoID)) == ScoreHotFeedItem(StatOf(s.db, videoID)) + score
    ensures Conserved(s')
  {
    forall v ensures HotSum(s'.hot, v) == ScoreHotFeedItem(StatOf(s'.db, v)) {
      HotSumAfterRecord(s.hot, videoID, score, v);
    }
  }

  lemma SetActionConserves(s: State, k: ActionKey, active: bool, idem: string)
    requires Conserved(s)
    ensures Conserved(AfterSetActionSync(s, k, active, idem))
  {
    Repo.SetActionKeepsInv(s.db, k, active, idem);
    if k.videoID in s.db.published && k.videoID in s.db.stats {
      var s' := AfterSetActionSync(s, k, active, idem);
      var delta := Repo.RowAfter(s.db.records, k, active, idem).1;
      BumpScore(s.db.stats[k.videoID], k.actionType, delta);
      assert s'.db.stats[k.videoID] == Repo.BumpCount(s.db.stats[k.videoID], k.actionType, delta) || delta == 0;
      ConservedAfter(s, s', k.videoID, delta * ActionWeight(k.actionType));
    }
  }

  lemma CreateCommentConserves(s: State, userID: int, videoID: int, content: string, idem: string)
    requires Conserved(s)
    ensures Conserved(AfterCreateComment(s, userID, videoID, content, idem))
  {
    var s' := AfterCreateComment(s, userID, videoID, content, idem);
    if s'.db != s.db {
      Repo.CreateCommentKeepsCounters(s.db, videoID, userID, idem);
      Repo.CreateCommentKeepsKeys(s.db, videoID, userID, idem);
      assert Repo.VideoExact(s.db, videoID);
      ConservedAfter(s, s', videoID, HOT_SCORE_COMMENT_WEIGHT);
    }
  }

  lemma DeleteCommentConserves(s: State, commentID: int, userID: int, admin: bool)
    requires Conserved(s)
    ensures Conserved(AfterDeleteComment(s, commentID, userID, admin))
  {
    Repo.DeleteCommentKeepsInv(s.db, commentID, userID, admin);
    var s' := AfterDeleteComment(s, commentID, userID, admin);
    if s'.db != s.db {
      ConservedAfter(s, s', s.db.comments[commentID].videoID, -HOT_SCORE_COMMENT_WEIGHT);
    }
  }

  // Over any run of synchronous operations from an empty database, replays and
  // repeated deletes included, what was recorded for a video adds up to the score
  // of its current counts.
  lemma {:induction false} HotScoreConservation(ops: seq<Op>, videoID: int)
    ensures Conserved(AfterAll(ops))
    ensures HotSum(AfterAll(ops).hot, videoID) == ScoreHotFeedItem(StatOf(AfterAll(ops).db, videoID))
  {
    if ops != [] {
      var s, op := AfterAll(ops[..|ops| - 1]), ops[|ops| - 1];
      HotScoreConservation(ops[..|ops| - 1], videoID);
      match op {
        case SaveVideo(v, a) =>
          Repo.InvStep(s.db, Repo.SaveVideo(v, a));
          forall w ensures StatOf(After(s, op).db, w) == StatOf(s.db, w) {
          }
        case HideVideo(v) => Repo.InvStep(s.db, Repo.HideVideo(v));
        case SetAction(k, active, idem) => SetActionConserves(s, k, active, idem);
        case CreateComment(u, v, content, idem) => CreateCommentConserves(s, u, v, content, idem);
        case DeleteComment(c, u, admin) => DeleteCommentConserves(s, c, u, admin);
      }
    }
  }

  // The fast path: Redis first, then the event and the hot score of a request
  // that changed something. A change that cannot be published falls back to the
  // synchronous path; a request that changes nothing is not published at all.
  function AfterSetActionAsync(
    s: State, redis: Store, queue: seq<ActionChangedEvent>,
    k: ActionKey, active: bool, idem: string, publishSucceeds: bool)
    : (State, Store, seq<ActionChangedEvent>)
  {
    if k.videoID !in s.db.published || k.videoID !in s.db.stats then (s, redis, queue)
    else
      var d := Decide(RecordOf(redis.actions, k), active, idem);
      var redis' := WriteAction(redis, k, d, idem, s.db.stats[k.videoID]);
      if d.delta == 0 then (s, redis', queue)
      else if !publishSucceeds then (AfterSetActionSync(s, k, active, idem), redis', queue)
      else (s.(hot := RecordHotScore(s.hot, k.videoID, d.delta * ActionWeight(k.actionType))),
            redis', queue + [ActionChangedEvent(k, active, idem)])
  }

  // The hot score of the likes and favourites among some action records.
  function ActiveScore(records: Records, videoID: int): int {
    HOT_SCORE_LIKE_WEIGHT * |ActiveKeys(records, videoID, Like)|
    + HOT_SCORE_FAVORITE_WEIGHT * |ActiveKeys(records, videoID, Favorite)|
  }

  lemma ActiveScoreAfterWrite(records: Records, k: ActionKey, record: ActionRecord, videoID: int)
    ensures ActiveScore(records[k := record], videoID) == ActiveScore(records, videoID) +
            (if k.videoID == videoID
             then (Bit(IsActive(record.status)) - Bit(ActiveIn(records, k))) * ActionWeight(k.actionType) else 0)
  {
    ActiveKeysAfterWrite(records, k, record, videoID, Like);
    ActiveKeysAfterWrite(records, k, record, videoID, Favorite);
  }

  // A recorded delta of one action weighs what its record moved.
  lemma RecordedMoves(
    hot: seq<HotDelta>, records: Records, k: ActionKey, record: ActionRecord, delta: int, v: int)
    requires delta == Bit(IsActive(record.status)) - Bit(ActiveIn(records, k))
    ensures HotSum(RecordHotScore(hot, k.videoID, delta * ActionWeight(k.actionType)), v) - HotSum(hot, v) ==
            ActiveScore(records[k := record], v) - ActiveScore(records, v)
  {
    ActiveScoreAfterWrite(records, k, record, v);
    HotSumAfterRecord(hot, k.videoID, delta * ActionWeight(k.actionType), v);
  }

  lemma SyncHotMoves(s: State, k: ActionKey, active: bool, idem: string, v: int)
    requires KnownStatuses(s.db.records)
    ensures var s' := AfterSetActionSync(s, k, active, idem);
            HotSum(s'.hot, v) - HotSum(s.hot, v) == ActiveScore(s'.db.records, v) - ActiveScore(s.db.records, v)
  {
    if Interactive(s.db, k.videoID) {
      var (row, delta) := Repo.RowAfter(s.db.records, k, active, idem);
      RecordedMoves(s.hot, s.db.records, k, row, delta, v);
    }
  }

  // A request moves the recorded score of every video exactly as it moves the
  // active likes and favourites of the store that decided: Redis when nothing was to
  // be published or publishing worked, the database after the fallback.
  lemma AsyncHotMoves(
    s: State, redis: Store, queue: seq<ActionChangedEvent>,
    k: ActionKey, active: bool, idem: string, publishSucceeds: bool, v: int)
    requires KnownStatuses(redis.actions) && KnownStatuses(s.db.records)
    ensures var (s', redis', queue') := AfterSetActionAsync(s, redis, queue, k, active, idem, publishSucceeds);
            var moved := HotSum(s'.hot, v) - HotSum(s.hot, v);
            if FallsBack(redis, k, active, idem, publishSucceeds)
            then moved == ActiveScore(s'.db.records, v) - ActiveScore(s.db.records, v)
            else moved == ActiveScore(redis'.actions, v) - ActiveScore(redis.actions, v) && s'.db == s.db
  {
    SyncHotMoves(s, k, active, idem, v);
    if Interactive(s.db, k.videoID) {
      var d := Decide(RecordOf(redis.actions, k), active, idem);
      RecordedMoves(s.hot, redis.actions, k, ActionRecord(d.status, idem), d.delta, v);
    }
  }

  // The store that decided shows what was asked for, unless the request repeats the
  // key that store holds; then it shows what it showed before.
  lemma AsyncTakesEffect(
    s: State, redis: Store, queue: seq<ActionChangedEvent>,
    k: ActionKey, active: bool, idem: string, publishSucceeds: bool)
    requires Interactive(s.db, k.videoID)
    ensures var (s', redis', queue') := AfterSetActionAsync(s, redis, queue, k, active, idem, publishSucceeds);
            && (ActiveIn(redis'.actions, k) <==>
                if Repeats(redis.actions, k, idem) then ActiveIn(redis.actions, k) else active)
            && (FallsBack(redis, k, active, idem, publishSucceeds) ==>
                  queue' == queue && (ActiveIn(s'.db.records, k) <==>
                    if Repeats(s.db.records, k, idem) then ActiveIn(s.db.records, k) else active))
  {
  }

  predicate Repeats(records: Records, k: ActionKey, idem: string) {
    idem != "" && RecordOf(records, k).idem == idem
  }

  lemma AsyncKeepsKnown(
    s: State, redis: Store, queue: seq<ActionChangedEvent>, k: ActionKey, active: bool, idem: string)
    requires KnownStatuses(redis.actions)
    ensures var (s', redis', queue') := AfterSetActionAsync(s, redis, queue, k, active, idem, true);
            KnownStatuses(redis'.actions) && s'.db == s.db
  {
  }

  datatype Request = Request(key: ActionKey, active: bool, idem: string)

  // Asynchronous requests one after the other, publishing working, from no actions.
  function AfterRequests(db: Repo.Db, reqs: seq<Request>): (State, Store, seq<ActionChangedEvent>) {
    if reqs == [] then (State(db, []), EMPTY_STORE, [])
    else
      var (s, redis, queue) := AfterRequests(db, reqs[..|reqs| - 1]);
      var req := reqs[|reqs| - 1];
      AfterSetActionAsync(s, redis, queue, req.key, req.active, req.idem, true)
  }

  // The hot score of the asynchronous path: after any run, un-likes and replays
  // included, what was recorded for a video is the score of the likes and
  // favourites Redis holds as active.
  lemma {:induction false} AsyncHotScoreConservation(db: Repo.Db, reqs: seq<Request>, v: int)
    requires KnownStatuses(db.records)
    ensures var (s, redis, queue) := AfterRequests(db, reqs);
            && s.db == db && KnownStatuses(redis.actions)
            && HotSum(s.hot, v) == HOT_SCORE_LIKE_WEIGHT * |ActiveKeys(redis.actions, v, Like)|
                                   + HOT_SCORE_FAVORITE_WEIGHT * |ActiveKeys(redis.actions, v, Favorite)|
  {
    if reqs == [] {
      assert ActiveKeys(map[], v, Like) == {} && ActiveKeys(map[], v, Favorite) == {};
    } else {
      AsyncHotScoreConservation(db, reqs[..|reqs| - 1], v);
      var (s, redis, queue) := AfterRequests(db, reqs[..|reqs| - 1]);
      var req := reqs[|reqs| - 1];
      AsyncKeepsKnown(s, redis, queue, req.key, req.active, req.idem);
      AsyncHotMoves(s, redis, queue, req.key, req.active, req.idem, true, v);
    }
  }

  // What a request answers with: the activity and the count its store shows.
  function DbAnswer(db: Repo.Db, k: ActionKey): ActionResult
    requires k.videoID in db.stats
  {
    ActionResult(ActiveIn(db.records, k), CountOf(db.stats[k.videoID], k.actionType))
  }

  function RedisAnswer(redis: Store, k: ActionKey): ActionResult {
    ActionResult(ActiveIn(redis.actions, k), Clamp(RawCount(redis, k.videoID, k.actionType)))
  }

  // The asynchronous path has a change to publish and cannot.
  predicate FallsBack(redis: Store, k: ActionKey, active: bool, idem: string, publishSucceeds: bool) {
    Decide(RecordOf(redis.actions, k), active, idem).delta != 0 && !publishSucceeds
  }

  predicate Interactive(db: Repo.Db, videoID: int) {
    videoID in db.published && videoID in db.stats
  }

  // The errors of the repository as the service reports them.
  function CreateError(e: Repo.RepoError): ServiceError {
    if e == Repo.VideoNotFound then VideoNotFound else SaveFailed
  }

  function DeleteError(e: Repo.RepoError): ServiceError {
    match e
    case CommentNotFound => CommentNotFound
    case PermissionDenied => PermissionDenied
    case VideoNotFound => UpdateFailed
  }

  // ----- the service object -----

  class Service {
    const repo: Repo.Repository
    const store: ActionStatStore
    var hot: seq<HotDelta>
    var queue: seq<ActionChangedEvent>

    constructor (repo: Repo.Repository, store: ActionStatStore)
      ensures this.repo == repo && this.store == store && hot == [] && queue == []
    {
      this.repo, this.store, hot, queue := repo, store, [], [];
    }

    ghost function View(): State
      reads this, repo
    {
      State(repo.View(), hot)
    }

    method SetActionSync(k: ActionKey, active: bool, idem: string) returns (r: Result<ActionResult, ServiceError>)
      modifies this`hot, repo
      ensures View() == AfterSetActionSync(old(View()), k, active, idem)
      ensures repo.View() == Repo.AfterSetAction(old(repo.View()), k, active, idem).0
      ensures !Interactive(old(repo.View()), k.videoID) ==> r == Err(VideoNotFound)
      ensures Interactive(old(repo.View()), k.videoID) ==>
                k.videoID in repo.stats && r == Ok(DbAnswer(repo.View(), k))
    {
      var outcome := repo.SetAction(k, active, idem);
      if outcome.Err? {
        return Err(VideoNotFound);
      }
      hot := RecordHotScore(hot, k.videoID, outcome.value.delta * ActionWeight(k.actionType));
      r := Ok(ActionResult(IsActive(outcome.value.record.status), outcome.value.count));
    }

    method SetActionAsync(k: ActionKey, active: bool, idem: string, publishSucceeds: bool)
      returns (r: Result<ActionResult, ServiceError>)
      modifies this, repo, store
      ensures (View(), store.View(), queue) ==
              AfterSetActionAsync(old(View()), old(store.View()), old(queue), k, active, idem, publishSucceeds)
      ensures !Interactive(old(repo.View()), k.videoID) ==> r == Err(VideoNotFound)
      ensures Interactive(old(repo.View()), k.videoID) ==>
                && k.videoID in repo.stats
                && r == Ok(if FallsBack(old(store.View()), k, active, idem, publishSucceeds)
                           then DbAnswer(repo.View(), k)
                           else RedisAnswer(store.View(), k))
    {
      var initial := repo.GetVideoStat(k.videoID);
      if initial.None? {
        return Err(VideoNotFound);
      }
      var state := store.SetActionState(k.userID, k.videoID, k.actionType, active, idem, initial);
      if state.delta != 0 {
        if !publishSucceeds {
          r := SetActionSync(k, active, idem);
          return;
        }
        queue := queue + [ActionChangedEvent(k, active, idem)];
        hot := RecordHotScore(hot, k.videoID, state.delta * ActionWeight(k.actionType));
      }
      r := Ok(ActionResult(state.active, if k.actionType.Like? then state.like else state.favorite));
    }

    // The entry point: argument checks, then the asynchronous path when a state
    // store and a publisher are configured.
    method SetAction(k: ActionKey, active: bool, idem: string, async: bool, publishSucceeds: bool)
      returns (r: Result<ActionResult, ServiceError>)
      modifies this, repo, store
      ensures !ValidAction(k, idem) ==>
                && r == Err(if k.userID <= 0 then InvalidUserID else if k.videoID <= 0 then InvalidVideoID
                            else KeyTooLong)
                && View() == old(View()) && store.View() == old(store.View()) && queue == old(queue)
      ensures k.userID <= 0 ==> r == Err(InvalidUserID)
      ensures k.userID > 0 && k.videoID <= 0 ==> r == Err(InvalidVideoID)
      ensures k.userID > 0 && k.videoID > 0 && |idem| > MAX_IDEMPOTENCY_KEY_LENGTH ==> r == Err(KeyTooLong)
      ensures !async ==> View() == After(old(View()), Op.SetAction(k, active, idem)) && queue == old(queue)
      ensures async && ValidAction(k, idem) ==>
                (View(), store.View(), queue) ==
                AfterSetActionAsync(old(View()), old(store.View()), old(queue), k, active, idem, publishSucceeds)
      ensures (k.userID > 0 && |idem| <= MAX_IDEMPOTENCY_KEY_LENGTH && k.videoID > 0
               && Interactive(old(repo.View()), k.videoID)) ==> r.Ok?
      // The answer shows what the store that decided holds now.
      ensures ValidAction(k, idem) && !Interactive(old(repo.View()), k.videoID) ==> r == Err(VideoNotFound)
      ensures ValidAction(k, idem) && Interactive(old(repo.View()), k.videoID) ==>
                && k.videoID in repo.stats
                && r == Ok(if !async || FallsBack(old(store.View()), k, active, idem, publishSucceeds)
                           then DbAnswer(repo.View(), k) else RedisAnswer(store.View(), k))
    {
      if k.userID <= 0 {
        return Err(InvalidUserID);
      }
      if k.videoID <= 0 {
        return Err(InvalidVideoID);
      }
      if |idem| > MAX_IDEMPOTENCY_KEY_LENGTH {
        return Err(KeyTooLong);
      }
      if async {
        r := SetActionAsync(k, active, idem, publishSucceeds);
      } else {
        r := SetActionSync(k, active, idem);
      }
    }

    method CreateComment(userID: int, videoID: int, content: string, idem: string)
      returns (r: Result<int, ServiceError>)
      modifies this`hot, repo
      ensures View() == AfterCreateComment(old(View()), userID, videoID, content, idem)
      ensures r.Err? ==> repo.View() == old(repo.View())
      ensures r.Ok? ==> repo.View() == Repo.AfterCreateComment(old(repo.View()), videoID, userID, idem).0
                        || Repo.FindComment(old(repo.View()), Repo.CommentKey(userID, idem)).Ok?
      // A key that already names a comment answers with that comment.
      ensures 0 < |idem| <= MAX_IDEMPOTENCY_KEY_LENGTH &&
              Repo.FindComment(old(repo.View()), Repo.CommentKey(userID, idem)).Ok? ==>
                r == Ok(Repo.FindComment(old(repo.View()), Repo.CommentKey(userID, idem)).value.commentID)
      ensures |idem| > MAX_IDEMPOTENCY_KEY_LENGTH ==> r == Err(KeyTooLong)
      ensures (videoID > 0 && userID > 0 && 0 < |content| <= MAX_COMMENT_CONTENT_LENGTH && idem == ""
               && Interactive(old(repo.View()), videoID)) ==>
                r.Ok? && repo.View() == Repo.AfterCreateComment(old(repo.View()), videoID, userID, idem).0
      // A new key, or none: the comment written now, or why there is none.
      ensures |idem| <= MAX_IDEMPOTENCY_KEY_LENGTH &&
              (idem == "" ||
               Repo.FindComment(old(repo.View()), Repo.CommentKey(userID, idem)) == Err(Repo.CommentNotFound)) ==>
                if !ValidComment(videoID, userID, content, idem) then r == Err(InvalidComment)
                else
                  var created := Repo.AfterCreateComment(old(repo.View()), videoID, userID, idem).1;
                  r == if created.Err? then Err(CreateError(created.error)) else Ok(created.value.commentID)
      ensures 0 < |idem| <= MAX_IDEMPOTENCY_KEY_LENGTH &&
              Repo.FindComment(old(repo.View()), Repo.CommentKey(userID, idem)) == Err(Repo.VideoNotFound) ==>
                r == Err(LoadFailed)
    {
      if |idem| > MAX_IDEMPOTENCY_KEY_LENGTH {
        return Err(KeyTooLong);
      }
      if idem != "" {
        var existing := repo.FindCommentByUserAndIdempotencyKey(userID, idem);
        if existing.Ok? {
          return Ok(existing.value.commentID);
        }
        if existing.error != Repo.CommentNotFound {
          return Err(LoadFailed);
        }
      }
      if !ValidComment(videoID, userID, content, idem) {
        return Err(InvalidComment);
      }
      var created := repo.CreateComment(videoID, userID, idem);
      if created.Err? {
        return Err(CreateError(created.error));
      }
      if created.value.commentID !in repo.comments {
        return Err(SaveFailed);
      }
      hot := RecordHotScore(hot, repo.comments[created.value.commentID].videoID,
                            created.value.delta * HOT_SCORE_COMMENT_WEIGHT);
      r := Ok(created.value.commentID);
    }

    method DeleteComment(commentID: int, userID: int, admin: bool) returns (r: Result<int, ServiceError>)
      modifies this`hot, repo
      ensures View() == AfterDeleteComment(old(View()), commentID, userID, admin)
      ensures commentID > 0 && userID > 0 ==>
                repo.View() == Repo.AfterDeleteComment(old(repo.View()), commentID, userID, admin).0
      ensures commentID <= 0 ==> r == Err(InvalidCommentID)
      ensures commentID > 0 && userID <= 0 ==> r == Err(InvalidUserID)
      // The repository's error, or the comment count of the video after the delete.
      ensures commentID > 0 && userID > 0 ==>
                var deleted := Repo.AfterDeleteComment(old(repo.View()), commentID, userID, admin).1;
                if deleted.Err? then r == Err(DeleteError(deleted.error))
                else
                  && commentID in repo.comments && repo.comments[commentID].status == Repo.COMMENT_STATUS_DELETED
                  && repo.comments[commentID].videoID in repo.stats
                  && r == Ok(repo.stats[repo.comments[commentID].videoID].comment)
    {
      if commentID <= 0 {
        return Err(InvalidCommentID);
      }
      if userID <= 0 {
        return Err(InvalidUserID);
      }
      var deleted := repo.DeleteComment(commentID, userID, admin);
      if deleted.Err? {
        return Err(DeleteError(deleted.error));
      }
      if commentID !in repo.comments {
        return Err(SaveFailed);
      }
      hot := RecordHotScore(hot, repo.comments[commentID].videoID, deleted.value.delta * HOT_SCORE_COMMENT_WEIGHT);
      r := Ok(deleted.value.count);
    }
  }

  // ----- the worker that replays events into the database -----

  // One handled event: the row transaction, then reconciliation of the video's
  // Redis counters with the counters just committed.
  function AfterHandled(db: Repo.Db, redis: Store, event: ActionChangedEvent): (Repo.Db, Store) {
    var (db', r) := Repo.AfterSetAction(db, event.key, event.active, event.idem);
    if r.Err? || event.key.videoID <= 0 then (db', redis)
    else (db', Reconciled(redis, event.key.videoID, db'.stats[event.key.videoID]))
  }

  class ActionWorker {
    const repo: Repo.Repository
    const reconciler: ActionStatStore

    constructor (repo: Repo.Repository, reconciler: ActionStatStore)
      ensures this.repo == repo && this.reconciler == reconciler
    {
      this.repo, this.reconciler := repo, reconciler;
    }

    method HandleActionChanged(event: Option<ActionChangedEvent>) returns (ok: bool)
      modifies repo, reconciler
      ensures event.None? ==> ok && repo.View() == old(repo.View()) && reconciler.View() == old(reconciler.View())
      ensures event.Some? ==>
                && (repo.View(), reconciler.View()) ==
                   AfterHandled(old(repo.View()), old(reconciler.View()), event.value)
                && var e := event.value;
                   (ok <==> Repo.AfterSetAction(old(repo.View()), e.key, e.active, e.idem).1.Ok?)
    {
      if event.None? {
        return true;
      }
      var e := event.value;
      var r := repo.SetAction(e.key, e.active, e.idem);
      if r.Err? {
        return false;
      }
      if e.key.videoID > 0 {
        var stat := repo.GetVideoStat(e.key.videoID);
        if stat.Some? {
          reconciler.ReconcileActionStat(e.key.videoID, stat);
        }
      }
      return true;
    }
  }
}
