// The MySQL side of likes, favourites and comments: rows and the counters that
// the same transactions maintain (infra/persistence/interaction/gorm.go).
module InteractionRepo {
  import opened Base
  import opened InteractionDomain
  import opened ActionStore

  const COMMENT_STATUS_NORMAL: int := 1
  const COMMENT_STATUS_DELETED: int := 2

  datatype CommentRow = CommentRow(videoID: int, userID: int, status: int, idem: string)

  // The unique index uk_user_idempotency; NULL keys ("") are not indexed.
  datatype CommentKey = CommentKey(userID: int, idem: string)

  datatype Db = Db(
    authors: map<int, int>,
    published: set<int>,
    records: Records,
    comments: map<int, CommentRow>,
    commentIndex: map<CommentKey, int>,
    stats: map<int, VideoStat>,
    nextComment: int)

  const EMPTY_DB := Db(map[], {}, map[], map[], map[], map[], 1)

  datatype RepoError = VideoNotFound | CommentNotFound | PermissionDenied

  datatype ActionOutcome = ActionOutcome(record: ActionRecord, count: int, delta: int)
  datatype CommentOutcome = CommentOutcome(commentID: int, count: int, delta: int)

  function BumpCount(stat: VideoStat, t: ActionType, delta: int): VideoStat {
    match t
    case Like => stat.(like := Clamp(stat.like + delta))
    case Favorite => stat.(favorite := Clamp(stat.favorite + delta))
  }

  function BumpComments(stat: VideoStat, delta: int): VideoStat {
    stat.(comment := Clamp(stat.comment + delta))
  }

  // ----- one action row -----

  // The row SetAction leaves behind, and the delta it applies to the counter.
  function RowAfter(records: Records, k: ActionKey, active: bool, idem: string): (ActionRecord, int) {
    if k !in records then
      (ActionRecord(StatusFromActive(active), idem), ResolveActionDelta(ACTION_STATUS_UNSET, active))
    else if idem != "" && records[k].idem == idem then
      (records[k], 0)
    else
      (ActionRecord(StatusFromActive(active), idem), ResolveActionDelta(records[k].status, active))
  }

  // The database and Redis paths take the same transition on the same request:
  // same record left behind, same delta.
  lemma SameTransition(records: Records, k: ActionKey, active: bool, idem: string)
    ensures var d := Decide(RecordOf(records, k), active, idem);
            RowAfter(records, k, active, idem) == (ActionRecord(d.status, idem), d.delta)
  {
  }

  // Applying one request twice in a row is applying it once, and the second
  // application never moves the counter.
  lemma SetActionIdempotent(records: Records, k: ActionKey, active: bool, idem: string)
    ensures var (row, _) := RowAfter(records, k, active, idem);
            RowAfter(records[k := row], k, active, idem) == (row, 0)
  {
  }

  // ----- the transactions -----

  function AfterSetAction(db: Db, k: ActionKey, active: bool, idem: string): (Db, Result<ActionOutcome, RepoError>) {
    if k.videoID !in db.published || k.videoID !in db.stats then (db, Err(VideoNotFound))
    else
      var (row, delta) := RowAfter(db.records, k, active, idem);
      var stat := if delta == 0 then db.stats[k.videoID] else BumpCount(db.stats[k.videoID], k.actionType, delta);
      (db.(records := db.records[k := row], stats := db.stats[k.videoID := stat]),
       Ok(ActionOutcome(row, CountOf(stat, k.actionType), delta)))
  }

  function AfterCreateComment(
    db: Db, videoID: int, userID: int, idem: string): (Db, Result<CommentOutcome, RepoError>)
  {
    var key := CommentKey(userID, idem);
    if videoID !in db.published then (db, Err(VideoNotFound))
    else if idem != "" && key in db.commentIndex then
      // The unique index refuses the row: the comment written before is the answer.
      (db, FindComment(db, key))
    else if videoID !in db.stats then (db, Err(VideoNotFound))
    else
      var stat := BumpComments(db.stats[videoID], 1);
      (db.(comments := db.comments[db.nextComment := CommentRow(videoID, userID, COMMENT_STATUS_NORMAL, idem)],
           commentIndex := if idem == "" then db.commentIndex else db.commentIndex[key := db.nextComment],
           stats := db.stats[videoID := stat],
           nextComment := db.nextComment + 1),
       Ok(CommentOutcome(db.nextComment, stat.comment, 1)))
  }

  // FindCommentByUserAndIdempotencyKey, with the comment count of its video.
  function FindComment(db: Db, key: CommentKey): Result<CommentOutcome, RepoError> {
    if key.idem == "" || key !in db.commentIndex || db.commentIndex[key] !in db.comments then Err(CommentNotFound)
    else
      var videoID := db.comments[db.commentIndex[key]].videoID;
      if videoID !in db.stats then Err(VideoNotFound)
      else Ok(CommentOutcome(db.commentIndex[key], db.stats[videoID].comment, 0))
  }

  predicate CanDeleteComment(actorID: int, ownerID: int, authorID: int, admin: bool) {
    actorID == ownerID || actorID == authorID || admin
  }

  function AfterDeleteComment(
    db: Db, commentID: int, actorID: int, admin: bool): (Db, Result<CommentOutcome, RepoError>)
  {
    if commentID !in db.comments then (db, Err(CommentNotFound))
    else
      var row := db.comments[commentID];
      if row.videoID !in db.authors then (db, Err(VideoNotFound))
      else if !CanDeleteComment(actorID, row.userID, db.authors[row.videoID], admin) then (db, Err(PermissionDenied))
      else if row.videoID !in db.stats then (db, Err(VideoNotFound))
      else if row.status == COMMENT_STATUS_DELETED then
        (db, Ok(CommentOutcome(commentID, db.stats[row.videoID].comment, 0)))
      else
        var stat := BumpComments(db.stats[row.videoID], -1);
        (db.(comments := db.comments[commentID := row.(status := COMMENT_STATUS_DELETED)],
             stats := db.stats[row.videoID := stat]),
         Ok(CommentOutcome(commentID, stat.comment, -1)))
  }

  // A new video arrives with its statistics row at zero.
  function AfterSaveVideo(db: Db, videoID: int, authorID: int): Db {
    if videoID in db.authors || videoID in db.stats then db
    else db.(authors := db.authors[videoID := authorID],
             published := db.published + {videoID},
             stats := db.stats[videoID := ZERO_STAT])
  }

  // ----- counters are cardinalities -----

  function LiveComments(comments: map<int, CommentRow>, videoID: int): set<int> {
    set c | c in comments && comments[c].videoID == videoID && comments[c].status != COMMENT_STATUS_DELETED
  }

  ghost predicate VideoExact(db: Db, v: int)
    requires v in db.stats
  {
    && db.stats[v].like == |ActiveKeys(db.records, v, Like)|
    && db.stats[v].favorite == |ActiveKeys(db.records, v, Favorite)|
    && db.stats[v].comment == |LiveComments(db.comments, v)|
  }

  ghost predicate CountersExact(db: Db) {
    && (forall v :: v in db.stats ==> VideoExact(db, v))
    && KnownStatuses(db.records)
    && (forall k :: k in db.records ==> k.videoID in db.stats)
    && (forall c :: c in db.comments ==> c < db.nextComment && db.comments[c].videoID in db.stats)
  }

  // One comment row per user and non-empty idempotency key, found by the index.
  ghost predicate CommentKeysUnique(db: Db) {
    && (forall c :: c in db.comments && db.comments[c].idem != "" ==>
          var key := CommentKey(db.comments[c].userID, db.comments[c].idem);
          key in db.commentIndex && db.commentIndex[key] == c)
    && (forall key :: key in db.commentIndex ==>
          db.commentIndex[key] in db.comments)
  }

  ghost predicate Inv(db: Db) {
    CountersExact(db) && CommentKeysUnique(db)
  }

  lemma SetActionKeepsInv(db: Db, k: ActionKey, active: bool, idem: string)
    requires Inv(db)
    ensures Inv(AfterSetAction(db, k, active, idem).0)
    ensures k.videoID in db.stats ==>
              CountOf(db.stats[k.videoID], k.actionType) + RowAfter(db.records, k, active, idem).1 >= 0
  {
    var db' := AfterSetAction(db, k, active, idem).0;
    var (row, delta) := RowAfter(db.records, k, active, idem);
    if k.videoID in db.stats {
      assert VideoExact(db, k.videoID);
      ActiveKeysAfterWrite(db.records, k, row, k.videoID, k.actionType);
    }
    if db' != db {
      forall v | v in db'.stats ensures VideoExact(db', v) {
        assert VideoExact(db, v);
        ActiveKeysAfterWrite(db.records, k, row, v, Like);
        ActiveKeysAfterWrite(db.records, k, row, v, Favorite);
      }
    }
  }

  // Writing one comment moves the live comments of its video only.
  lemma LiveAfterWrite(comments: map<int, CommentRow>, commentID: int, row: CommentRow, v: int)
    requires commentID in comments ==> comments[commentID].videoID == row.videoID
    ensures var was := commentID in LiveComments(comments, row.videoID);
            |LiveComments(comments[commentID := row], v)| ==
            |LiveComments(comments, v)| +
            (if v == row.videoID then Bit(row.status != COMMENT_STATUS_DELETED) - Bit(was) else 0)
  {
    var before, after := LiveComments(comments, v), LiveComments(comments[commentID := row], v);
    SizeWith(before, commentID);
    if v == row.videoID && row.status != COMMENT_STATUS_DELETED {
      assert after == before + {commentID};
    } else {
      assert after == before - {commentID};
    }
  }

  lemma CreateCommentKeepsCounters(db: Db, videoID: int, userID: int, idem: string)
    requires CountersExact(db)
    ensures CountersExact(AfterCreateComment(db, videoID, userID, idem).0)
  {
    var db' := AfterCreateComment(db, videoID, userID, idem).0;
    if db' != db {
      forall v | v in db'.stats ensures VideoExact(db', v) {
        assert VideoExact(db, v);
        LiveAfterWrite(db.comments, db.nextComment, CommentRow(videoID, userID, COMMENT_STATUS_NORMAL, idem), v);
      }
    }
  }

  lemma CreateCommentKeepsKeys(db: Db, videoID: int, userID: int, idem: string)
    requires Inv(db)
    ensures CommentKeysUnique(AfterCreateComment(db, videoID, userID, idem).0)
  {
  }

  lemma DeleteCommentKeepsInv(db: Db, commentID: int, actorID: int, admin: bool)
    requires Inv(db)
    ensures Inv(AfterDeleteComment(db, commentID, actorID, admin).0)
    ensures commentID in db.comments && db.comments[commentID].status != COMMENT_STATUS_DELETED ==>
              db.stats[db.comments[commentID].videoID].comment - 1 >= 0
  {
    var db' := AfterDeleteComment(db, commentID, actorID, admin).0;
    if commentID in db.comments {
      assert VideoExact(db, db.comments[commentID].videoID);
      assert db.comments[commentID].status != COMMENT_STATUS_DELETED ==>
               commentID in LiveComments(db.comments, db.comments[commentID].videoID);
      if db' != db {
        forall v | v in db'.stats ensures VideoExact(db', v) {
          assert VideoExact(db, v);
          LiveAfterWrite(db.comments, commentID, db.comments[commentID].(status := COMMENT_STATUS_DELETED), v);
        }
      }
    }
  }

  // A comment with a new key, or none, on a published video is created: under a new
  // id, live, found by its key, and counted in the answer.
  lemma NewCommentIsLive(db: Db, videoID: int, userID: int, idem: string)
    requires Inv(db) && videoID in db.published && videoID in db.stats
    requires idem == "" || CommentKey(userID, idem) !in db.commentIndex
    ensures var (db', r) := AfterCreateComment(db, videoID, userID, idem);
            var row := CommentRow(videoID, userID, COMMENT_STATUS_NORMAL, idem);
            && r.Ok? && r.value.commentID !in db.comments && r.value.delta == 1
            && db'.comments == db.comments[r.value.commentID := row]
            && r.value.count == |LiveComments(db'.comments, videoID)|
            && (idem != "" ==> FindComment(db', CommentKey(userID, idem)).Ok?
                               && FindComment(db', CommentKey(userID, idem)).value.commentID == r.value.commentID)
  {
    var db' := AfterCreateComment(db, videoID, userID, idem).0;
    CreateCommentKeepsCounters(db, videoID, userID, idem);
    assert VideoExact(db', videoID);
  }

  // A key is found if and only if some comment of the user carries it, and that is
  // the comment found; creating with it again answers with it and changes nothing.
  lemma KeyFindsItsComment(db: Db, videoID: int, userID: int, idem: string, commentID: int)
    requires Inv(db) && idem != "" && videoID in db.published
    requires commentID in db.comments
    requires db.comments[commentID].userID == userID && db.comments[commentID].idem == idem
    ensures FindComment(db, CommentKey(userID, idem)).Ok?
    ensures FindComment(db, CommentKey(userID, idem)).value.commentID == commentID
    ensures AfterCreateComment(db, videoID, userID, idem) == (db, FindComment(db, CommentKey(userID, idem)))
    ensures FindComment(db, CommentKey(userID, idem)).value.delta == 0
    ensures FindComment(db, CommentKey(userID, idem)).value.count ==
            |LiveComments(db.comments, db.comments[commentID].videoID)|
  {
    assert VideoExact(db, db.comments[commentID].videoID);
  }

  // Who may delete, and what a delete does: the comment is gone from the live ones,
  // nothing else is; the row stays, marked.
  lemma DeleteTakesEffectIff(db: Db, commentID: int, actorID: int, admin: bool)
    requires Inv(db) && commentID in db.comments && db.comments[commentID].videoID in db.authors
    ensures var row := db.comments[commentID];
            var (db', r) := AfterDeleteComment(db, commentID, actorID, admin);
            && (r.Ok? <==> actorID == row.userID || actorID == db.authors[row.videoID] || admin)
            && (r.Err? ==> db' == db && r.error == PermissionDenied)
            && (r.Ok? ==>
                  && LiveComments(db'.comments, row.videoID) == LiveComments(db.comments, row.videoID) - {commentID}
                  && db'.comments == db.comments[commentID := row.(status := COMMENT_STATUS_DELETED)]
                  && r.value.count == |LiveComments(db'.comments, row.videoID)|
                  && (r.value.delta == 0 <==> row.status == COMMENT_STATUS_DELETED))
  {
    var row := db.comments[commentID];
    var db' := AfterDeleteComment(db, commentID, actorID, admin).0;
    DeleteCommentKeepsInv(db, commentID, actorID, admin);
    assert VideoExact(db', row.videoID);
    if row.status == COMMENT_STATUS_DELETED {
      assert db.comments[commentID := row.(status := COMMENT_STATUS_DELETED)] == db.comments;
    }
  }

  // A new video takes actions and comments at once, from counts of zero; a hidden one
  // takes none.
  lemma PublishedVideosTakeActions(db: Db, videoID: int, authorID: int, k: ActionKey, active: bool, idem: string)
    requires k.videoID == videoID
    ensures videoID !in db.authors && videoID !in db.stats ==>
              var saved := After(db, SaveVideo(videoID, authorID));
              && saved.stats == db.stats[videoID := ZERO_STAT] && AfterSetAction(saved, k, active, idem).1.Ok?
              && AfterCreateComment(saved, videoID, k.userID, "").1.Ok?
    ensures var hidden := After(db, HideVideo(videoID));
            && AfterSetAction(hidden, k, active, idem) == (hidden, Err(VideoNotFound))
            && AfterCreateComment(hidden, videoID, k.userID, idem) == (hidden, Err(VideoNotFound))
            && hidden == db.(published := db.published - {videoID})
  {
  }

  // ----- runs -----

  datatype Op =
    | SaveVideo(videoID: int, authorID: int)
    | HideVideo(videoID: int)
    | SetAction(key: ActionKey, active: bool, idem: string)
    | CreateComment(videoID: int, userID: int, idem: string)
    | DeleteComment(commentID: int, actorID: int, admin: bool)

  function After(db: Db, op: Op): Db {
    match op
    case SaveVideo(v, a) => AfterSaveVideo(db, v, a)
    case HideVideo(v) => db.(published := db.published - {v})
    case SetAction(k, active, idem) => AfterSetAction(db, k, active, idem).0
    case CreateComment(v, u, idem) => AfterCreateComment(db, v, u, idem).0
    case DeleteComment(c, u, admin) => AfterDeleteComment(db, c, u, admin).0
  }

  function AfterAll(ops: seq<Op>): Db {
    if ops == [] then EMPTY_DB else After(AfterAll(ops[..|ops| - 1]), ops[|ops| - 1])
  }

  lemma InvStep(db: Db, op: Op)
    requires Inv(db)
    ensures Inv(After(db, op))
  {
    match op
    case SaveVideo(v, _) =>
      forall w | w in After(db, op).stats ensures VideoExact(After(db, op), w) {
        if w in db.stats {
          assert VideoExact(db, w);
        } else {
          assert ActiveKeys(db.records, w, Like) == {} && ActiveKeys(db.records, w, Favorite) == {};
          assert forall c :: c in db.comments ==> db.comments[c].videoID != w;
          assert LiveComments(db.comments, w) == {};
        }
      }
    case HideVideo(v) =>
      forall w | w in db.stats ensures VideoExact(After(db, op), w) {
        assert VideoExact(db, w);
      }
    case SetAction(k, active, idem) => SetActionKeepsInv(db, k, active, idem);
    case CreateComment(v, u, idem) =>
      CreateCommentKeepsCounters(db, v, u, idem);
      CreateCommentKeepsKeys(db, v, u, idem);
    case DeleteComment(c, u, admin) => DeleteCommentKeepsInv(db, c, u, admin);
  }

  // After any run the counters are the numbers of active users and of live
  // comments, and a user's idempotency key names at most one comment.
  lemma {:induction false} CountersAreCardinalities(ops: seq<Op>)
    ensures Inv(AfterAll(ops))
  {
    if ops != [] {
      CountersAreCardinalities(ops[..|ops| - 1]);
      InvStep(AfterAll(ops[..|ops| - 1]), ops[|ops| - 1]);
    }
  }

  // ----- the repository object -----

  class Repository {
    var authors: map<int, int>
    var published: set<int>
    var records: Records
    var comments: map<int, CommentRow>
    var commentIndex: map<CommentKey, int>
    var stats: map<int, VideoStat>
    var nextComment: int

    constructor ()
      ensures View() == EMPTY_DB
    {
      authors, published, records, stats := map[], {}, map[], map[];
      comments, commentIndex, nextComment := map[], map[], 1;
    }

    ghost function View(): Db
      reads this
    {
      Db(authors, published, records, comments, commentIndex, stats, nextComment)
    }

    // GetVideoStat answers for published videos only.
    method GetVideoStat(videoID: int) returns (stat: Option<VideoStat>)
      ensures stat == if videoID in published && videoID in stats then Some(stats[videoID]) else None
    {
      stat := if videoID in published && videoID in stats then Some(stats[videoID]) else None;
    }

    method SetAction(k: ActionKey, active: bool, idem: string) returns (r: Result<ActionOutcome, RepoError>)
      modifies this
      ensures (View(), r) == AfterSetAction(old(View()), k, active, idem)
    {
      var snapshot := records;
      if k.videoID !in published {
        return Err(VideoNotFound);
      }
      var delta := 0;
      var nextStatus := StatusFromActive(active);
      if k !in records {
        records := records[k := ActionRecord(nextStatus, idem)];
        delta := ResolveActionDelta(ACTION_STATUS_UNSET, active);
      } else if !(idem != "" && records[k].idem == idem) {
        var previous := records[k];
        delta := ResolveActionDelta(previous.status, active);
        if previous.status != nextStatus || previous.idem != idem {
          records := records[k := ActionRecord(nextStatus, idem)];
        }
      }
      assert records == snapshot[k := RowAfter(snapshot, k, active, idem).0];
      if k.videoID !in stats {
        records := snapshot; // the transaction rolls back
        return Err(VideoNotFound);
      }
      if delta != 0 {
        stats := stats[k.videoID := BumpCount(stats[k.videoID], k.actionType, delta)];
      }
      assert stats == AfterSetAction(old(View()), k, active, idem).0.stats;
      assert records == AfterSetAction(old(View()), k, active, idem).0.records;
      assert View() == AfterSetAction(old(View()), k, active, idem).0;
      r := Ok(ActionOutcome(records[k], CountOf(stats[k.videoID], k.actionType), delta));
    }

    method CreateComment(videoID: int, userID: int, idem: string) returns (r: Result<CommentOutcome, RepoError>)
      modifies this
      ensures (View(), r) == AfterCreateComment(old(View()), videoID, userID, idem)
    {
      if videoID !in published {
        return Err(VideoNotFound);
      }
      var key := CommentKey(userID, idem);
      if idem != "" && key in commentIndex {
        r := FindCommentByUserAndIdempotencyKey(userID, idem);
        return;
      }
      if videoID !in stats {
        return Err(VideoNotFound);
      }
      var id := nextComment;
      comments, nextComment := comments[id := CommentRow(videoID, userID, COMMENT_STATUS_NORMAL, idem)], id + 1;
      if idem != "" {
        commentIndex := commentIndex[key := id];
      }
      stats := stats[videoID := BumpComments(stats[videoID], 1)];
      r := Ok(CommentOutcome(id, stats[videoID].comment, 1));
    }

    method FindCommentByUserAndIdempotencyKey(userID: int, idem: string) returns (r: Result<CommentOutcome, RepoError>)
      ensures r == FindComment(View(), CommentKey(userID, idem))
    {
      var key := CommentKey(userID, idem);
      if idem == "" || key !in commentIndex || commentIndex[key] !in comments {
        return Err(CommentNotFound);
      }
      var videoID := comments[commentIndex[key]].videoID;
      if videoID !in stats {
        return Err(VideoNotFound);
      }
      r := Ok(CommentOutcome(commentIndex[key], stats[videoID].comment, 0));
    }

    method DeleteComment(commentID: int, actorID: int, admin: bool) returns (r: Result<CommentOutcome, RepoError>)
      modifies this
      ensures (View(), r) == AfterDeleteComment(old(View()), commentID, actorID, admin)
    {
      if commentID !in comments {
        return Err(CommentNotFound);
      }
      var row := comments[commentID];
      if row.videoID !in authors {
        return Err(VideoNotFound);
      }
      if !CanDeleteComment(actorID, row.userID, authors[row.videoID], admin) {
        return Err(PermissionDenied);
      }
      var snapshot := comments;
      if row.status == COMMENT_STATUS_DELETED {
        if row.videoID !in stats {
          return Err(VideoNotFound);
        }
        return Ok(CommentOutcome(commentID, stats[row.videoID].comment, 0));
      }
      comments := comments[commentID := row.(status := COMMENT_STATUS_DELETED)];
      if row.videoID !in stats {
        comments := snapshot; // the transaction rolls back
        return Err(VideoNotFound);
      }
      stats := stats[row.videoID := BumpComments(stats[row.videoID], -1)];
      r := Ok(CommentOutcome(commentID, stats[row.videoID].comment, -1));
    }
  }
}
