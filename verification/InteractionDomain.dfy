// Likes and favourites: keys, statuses and the count delta of a status change
// (domain/interaction/entity.go).
module InteractionDomain {
  import opened Base

  const ACTION_STATUS_UNSET: int := 0
  const ACTION_STATUS_ACTIVE: int := 1
  const ACTION_STATUS_CANCELED: int := 2

  datatype ActionType = Like | Favorite

  // One action of one user on one video; the same key addresses the Redis hash
  // and the unique row of interaction_action.
  datatype ActionKey = ActionKey(userID: int, videoID: int, actionType: ActionType)

  // A stored action: its status and the idempotency key of the request that
  // wrote it last ("" stands for NULL in the database).
  datatype ActionRecord = ActionRecord(status: int, idem: string)

  // The message published when a request changed the activity of an action.
  datatype ActionChangedEvent = ActionChangedEvent(key: ActionKey, active: bool, idem: string)

  datatype VideoStat = VideoStat(like: int, comment: int, favorite: int)

  function CountOf(stat: VideoStat, t: ActionType): int {
    match t
    case Like => stat.like
    case Favorite => stat.favorite
  }

  function StatusFromActive(active: bool): (status: int)
    ensures IsActive(status) <==> active
    ensures KnownStatus(status)
  {
    if active then ACTION_STATUS_ACTIVE else ACTION_STATUS_CANCELED
  }

  predicate IsActive(status: int) {
    status == ACTION_STATUS_ACTIVE
  }

  predicate KnownStatus(status: int) {
    status == ACTION_STATUS_UNSET || status == ACTION_STATUS_ACTIVE || status == ACTION_STATUS_CANCELED
  }

  // The delta is the change of the "active" bit. It is so exactly when the
  // stored status is one of the three the system writes, or the target is active.
  function ResolveActionDelta(current: int, targetActive: bool): (delta: int)
    ensures delta == Bit(targetActive) - Bit(IsActive(current)) <==> KnownStatus(current) || targetActive
  {
    if current == ACTION_STATUS_UNSET then
      if targetActive then 1 else 0
    else if current == StatusFromActive(targetActive) then 0
    else if targetActive then 1
    else -1
  }

  type Records = map<ActionKey, ActionRecord>

  function RecordOf(records: Records, k: ActionKey): ActionRecord {
    if k in records then records[k] else ActionRecord(ACTION_STATUS_UNSET, "")
  }

  predicate ActiveIn(records: Records, k: ActionKey) {
    IsActive(RecordOf(records, k).status)
  }

  // The actions of one type on one video that are active: its cardinality is
  // the number the counters claim to hold.
  function ActiveKeys(records: Records, videoID: int, t: ActionType): set<ActionKey> {
    set k | k in records && k.videoID == videoID && k.actionType == t && IsActive(records[k].status)
  }

  ghost predicate KnownStatuses(records: Records) {
    forall k :: k in records ==> KnownStatus(records[k].status)
  }

  lemma ActiveKeysAfterWrite(records: Records, k: ActionKey, record: ActionRecord, videoID: int, t: ActionType)
    ensures |ActiveKeys(records[k := record], videoID, t)| ==
            |ActiveKeys(records, videoID, t)| +
            (if k.videoID == videoID && k.actionType == t
             then Bit(IsActive(record.status)) - Bit(ActiveIn(records, k)) else 0)
  {
    var before, after := ActiveKeys(records, videoID, t), ActiveKeys(records[k := record], videoID, t);
    SizeWith(before, k);
    if k.videoID == videoID && k.actionType == t && IsActive(record.status) {
      assert after == before + {k};
    } else {
      assert after == before - {k};
    }
  }
}
