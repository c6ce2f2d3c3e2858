// The like/favourite pipeline as one state machine: concurrent requests commit
// to Redis under WATCH, publish an event when they changed something, and one
// consumer replays the events into the database and reconciles the Redis
// counters, possibly handling the head event several times before its ack
// (application/interaction/action.go and worker.go over both stores).
//
// Conditions built into the steps: one FIFO consumer, handlers that do not fail,
// published videos that stay published, no expiry, no second commit on an action
// whose previous event is still unpublished. `Disciplined` is the one condition
// clients must keep: no change of an action carries the idempotency key of the
// change before it. `ConvergesExactly` shows that it is neither too weak nor too
// strong.
module ActionPipeline {
  import opened Base
  import opened InteractionDomain
  import opened ActionStore
  import W = WatchProtocol
  import Repo = InteractionRepo
  import Service = InteractionService

  type Event = ActionChangedEvent

  // An event not yet acknowledged, with the time its request committed.
  datatype Pending = Pending(event: Event, issuedAt: nat)

  // Where the handler of the head event stands.
  datatype Phase = Idle | Applied | StatRead(stat: VideoStat) | Done

  // A reconciliation of one video: when it ran and the counters it read.
  datatype Reconciliation = Reconciliation(at: nat, stat: VideoStat)

  // `applied`, `reflected`, `clock`, `reconciled` and `issued` are history
  // variables: whether the head has reached the rows, and the reconciled base,
  // at least once; the number of commits so far; the last reconciliation of each
  // video; every event ever issued.
  datatype State = State(
    watch: W.State,
    unpublished: seq<Pending>,
    queue: seq<Pending>,
    db: Repo.Db,
    phase: Phase,
    applied: bool,
    reflected: bool,
    clock: nat,
    reconciled: map<int, Reconciliation>,
    issued: seq<Pending>)

  datatype Step =
    | Arrive(id: nat, key: ActionKey, active: bool, idem: string)
    | Read(id: nat)
    | Exec(id: nat)
    | Publish(index: nat)
    | Apply
    | ReadStat
    | Reconcile
    | Ack
    | Redeliver
    | Other(op: Repo.Op)

  predicate Initial(s: State) {
    && s.watch == W.INIT && s.unpublished == [] && s.queue == [] && s.phase == Idle && !s.applied && !s.reflected
    && s.clock == 0 && s.reconciled == map[] && s.issued == []
    && s.db.records == map[]
  }

  function ReconciledAt(s: State, videoID: int): nat {
    if videoID in s.reconciled then s.reconciled[videoID].at else 0
  }

  function LastRead(s: State, videoID: int): VideoStat {
    if videoID in s.reconciled then s.reconciled[videoID].stat else ZERO_STAT
  }

  predicate Unpublished(s: State, k: ActionKey) {
    exists i :: 0 <= i < |s.unpublished| && s.unpublished[i].event.key == k
  }

  predicate Interactive(s: State, videoID: int) {
    videoID > 0 && videoID in s.db.published && videoID in s.db.stats
  }

  predicate Enabled(s: State, step: Step) {
    match step
    case Arrive(id, k, _, _) => id !in s.watch.calls && Interactive(s, k.videoID)
    case Read(id) => W.Enabled(s.watch, W.Read(id))
    case Exec(id) =>
      W.Enabled(s.watch, W.Exec(id)) &&
      (W.Commits(s.watch, W.Exec(id)) ==> !Unpublished(s, s.watch.calls[id].req.key))
    case Publish(i) => i < |s.unpublished|
    case Apply => s.phase == Idle && s.queue != [] && Interactive(s, s.queue[0].event.key.videoID)
    case ReadStat => s.phase == Applied && s.queue != [] && Interactive(s, s.queue[0].event.key.videoID)
    case Reconcile => s.phase.StatRead? && s.queue != []
    case Ack => s.phase == Done && s.queue != []
    case Redeliver => s.phase != Idle
    case Other(op) => !op.SetAction? && !op.HideVideo?
  }

  function AfterExec(s: State, id: nat): State
    requires Enabled(s, Exec(id))
  {
    var watch := W.Next(s.watch, W.Exec(id));
    if !W.Commits(s.watch, W.Exec(id)) then s.(watch := watch)
    else
      var call := s.watch.calls[id];
      var req := call.req;
      var event := ActionChangedEvent(req.key, req.active, req.idem);
      var news := if Changes(s, id) then [Pending(event, s.clock)] else [];
      s.(watch := watch,
         clock := s.clock + 1,
         unpublished := s.unpublished + news,
         issued := s.issued + news)
  }

  function Next(s: State, step: Step): State
    requires Enabled(s, step)
  {
    match step
    case Arrive(id, k, active, idem) =>
      s.(watch := W.Next(s.watch, W.Arrive(id, W.Request(k, active, idem, s.db.stats[k.videoID]))))
    case Read(id) => s.(watch := W.Next(s.watch, W.Read(id)))
    case Exec(id) => AfterExec(s, id)
    case Publish(i) => s.(queue := s.queue + [s.unpublished[i]], unpublished := Without(s.unpublished, i))
    case Apply =>
      var e := s.queue[0].event;
      s.(db := Repo.AfterSetAction(s.db, e.key, e.active, e.idem).0, phase := Applied, applied := true)
    case ReadStat => s.(phase := StatRead(s.db.stats[s.queue[0].event.key.videoID]))
    case Reconcile =>
      var videoID := s.queue[0].event.key.videoID;
      s.(watch := s.watch.(store := Reconciled(s.watch.store, videoID, s.phase.stat)),
         phase := Done, reflected := true,
         reconciled := s.reconciled[videoID := Reconciliation(s.clock, s.phase.stat)])
    case Ack => s.(queue := s.queue[1..], phase := Idle, applied := false, reflected := false)
    case Redeliver => s.(phase := Idle)
    case Other(op) => s.(db := Repo.After(s.db, op))
  }

  predicate Possible(s: State, steps: seq<Step>)
    decreases |steps|
  {
    steps == [] || (Enabled(s, steps[0]) && Possible(Next(s, steps[0]), steps[1..]))
  }

  function Run(s: State, steps: seq<Step>): State
    requires Possible(s, steps)
    decreases |steps|
  {
    if steps == [] then s else Run(Next(s, steps[0]), steps[1..])
  }

  // ----- what is still on its way to the database -----

  function Tail(queue: seq<Pending>, headGone: bool): seq<Pending> {
    if headGone && queue != [] then queue[1..] else queue
  }

  function Remaining(s: State, headGone: bool): seq<Pending> {
    Tail(s.queue, headGone) + s.unpublished
  }

  function Todo(s: State): seq<Pending> { Remaining(s, s.applied) }

  function Unreflected(s: State): seq<Pending> { Remaining(s, s.reflected) }

  function Of(ps: seq<Pending>, k: ActionKey): seq<Event> {
    if ps == [] then []
    else (if ps[0].event.key == k then [ps[0].event] else []) + Of(ps[1..], k)
  }

  function Delta(e: Event): int {
    if e.active then 1 else -1
  }

  // The deltas of the pending events of one counter issued before `time`.
  function Sum(ps: seq<Pending>, videoID: int, t: ActionType, time: nat): int {
    if ps == [] then 0
    else
      var p := ps[0];
      (if p.event.key.videoID == videoID && p.event.key.actionType == t && p.issuedAt < time then Delta(p.event) else 0)
      + Sum(ps[1..], videoID, t, time)
  }

  lemma {:induction false} OfConcat(a: seq<Pending>, b: seq<Pending>, k: ActionKey)
    ensures Of(a + b, k) == Of(a, k) + Of(b, k)
  {
    if a == [] {
      assert a + b == b;
    } else {
      assert (a + b)[1..] == a[1..] + b;
      OfConcat(a[1..], b, k);
    }
  }

  lemma {:induction false} SumConcat(a: seq<Pending>, b: seq<Pending>, videoID: int, t: ActionType, time: nat)
    ensures Sum(a + b, videoID, t, time) == Sum(a, videoID, t, time) + Sum(b, videoID, t, time)
  {
    if a == [] {
      assert a + b == b;
    } else {
      assert (a + b)[1..] == a[1..] + b;
      SumConcat(a[1..], b, videoID, t, time);
    }
  }

  // Events issued at or after a time do not count; all do once time has passed.
  lemma {:induction false} SumOfOlder(ps: seq<Pending>, videoID: int, t: ActionType, time: nat, later: nat)
    requires forall i :: 0 <= i < |ps| ==> ps[i].event.key.videoID == videoID ==> ps[i].issuedAt < time
    requires time <= later
    ensures Sum(ps, videoID, t, time) == Sum(ps, videoID, t, later)
  {
    if ps != [] {
      SumOfOlder(ps[1..], videoID, t, time, later);
    }
  }

  lemma {:induction false} OfMembers(ps: seq<Pending>, k: ActionKey)
    ensures forall e :: e in Of(ps, k) <==> exists i :: 0 <= i < |ps| && ps[i].event == e && e.key == k
  {
    if ps != [] {
      OfMembers(ps[1..], k);
      forall e ensures e in Of(ps, k) <==> exists i :: 0 <= i < |ps| && ps[i].event == e && e.key == k {
        if e in Of(ps[1..], k) {
          var i :| 0 <= i < |ps[1..]| && ps[1..][i].event == e && e.key == k;
          assert ps[i + 1].event == e;
        }
        if i :| 0 <= i < |ps| && ps[i].event == e && e.key == k {
          assert i > 0 ==> ps[1..][i - 1].event == e;
        }
      }
    }
  }

  // ----- replaying one action's events onto its row -----

  function Replay(records: Records, es: seq<Event>): Records
    decreases |es|
  {
    if es == [] then records
    else Replay(records[es[0].key := Repo.RowAfter(records, es[0].key, es[0].active, es[0].idem).0], es[1..])
  }

  // Each event flips the activity the one before it left; the last one leaves
  // `final`.
  predicate Chain(active: bool, es: seq<Event>, final: bool)
    decreases |es|
  {
    if es == [] then active == final
    else es[0].active != active && Chain(es[0].active, es[1..], final)
  }

  // The key of the last change: of the last event, or of the row when none is left.
  function LastKey(rowIdem: string, es: seq<Event>): string {
    if es == [] then rowIdem else es[|es| - 1].idem
  }

  // No change carries the non-empty key of the change before it.
  predicate KeysFresh(rowIdem: string, es: seq<Event>)
    decreases |es|
  {
    es == [] || ((es[0].idem == "" || es[0].idem != rowIdem) && KeysFresh(es[0].idem, es[1..]))
  }

  lemma {:induction false} ChainAppend(active: bool, es: seq<Event>, final: bool, e: Event)
    requires Chain(active, es, final) && e.active != final
    ensures Chain(active, es + [e], e.active)
    decreases |es|
  {
    if es == [] {
      assert [e][1..] == [];
    } else {
      assert (es + [e])[1..] == es[1..] + [e];
      ChainAppend(es[0].active, es[1..], final, e);
    }
  }

  predicate Changes(s: State, id: nat)
    requires id in s.watch.calls && s.watch.calls[id].Watching?
  {
    var call := s.watch.calls[id];
    Decide(call.seen, call.req.active, call.req.idem).delta != 0
  }

  predicate KeepsKeys(s: State, steps: seq<Step>)
    requires Possible(s, steps)
    decreases |steps|
  {
    steps == [] || (Disciplined(s, steps[0]) && KeepsKeys(Next(s, steps[0]), steps[1..]))
  }

  function LastKeyOf(s: State, k: ActionKey): string {
    LastKey(RecordOf(s.db.records, k).idem, Of(Todo(s), k))
  }

  // A change of an action does not carry the key of the change before it.
  predicate Disciplined(s: State, step: Step)
    requires Enabled(s, step)
  {
    step.Exec? && W.Commits(s.watch, W.Exec(step.id)) && Changes(s, step.id) ==>
      var req := s.watch.calls[step.id].req;
      req.idem == "" || req.idem != LastKeyOf(s, req.key)
  }

  lemma {:induction false} KeysAppend(rowIdem: string, es: seq<Event>, e: Event)
    requires KeysFresh(rowIdem, es) && (e.idem == "" || e.idem != LastKey(rowIdem, es))
    ensures KeysFresh(rowIdem, es + [e])
    decreases |es|
  {
    if es == [] {
      assert [e][1..] == [];
    } else {
      assert (es + [e])[1..] == es[1..] + [e];
      KeysAppend(es[0].idem, es[1..], e);
    }
  }

  // A chain of fresh keys carries its last activity and its last key to the row.
  lemma {:induction false} ReplayChain(records: Records, k: ActionKey, es: seq<Event>, final: bool)
    requires forall i :: 0 <= i < |es| ==> es[i].key == k
    requires KeysFresh(RecordOf(records, k).idem, es)
    requires Chain(ActiveIn(records, k), es, final)
    ensures ActiveIn(Replay(records, es), k) == final
    ensures RecordOf(Replay(records, es), k).idem == LastKey(RecordOf(records, k).idem, es)
    decreases |es|
  {
    if es != [] {
      var row := Repo.RowAfter(records, k, es[0].active, es[0].idem).0;
      assert row == ActionRecord(StatusFromActive(es[0].active), es[0].idem);
      ReplayChain(records[k := row], k, es[1..], final);
    }
  }

  lemma {:induction false} ReplayConcat(records: Records, a: seq<Event>, b: seq<Event>)
    ensures Replay(records, a + b) == Replay(Replay(records, a), b)
    decreases |a|
  {
    if a == [] {
      assert a + b == b;
    } else {
      assert (a + b)[1..] == a[1..] + b;
      ReplayConcat(records[a[0].key := Repo.RowAfter(records, a[0].key, a[0].active, a[0].idem).0], a[1..], b);
    }
  }

  // On a row and a Redis state that agree, an event that flips the activity
  // carries the flip to the row exactly when its key is empty or not the row's.
  lemma ReplayAgreesIff(records: Records, e: Event)
    requires ActiveIn(records, e.key) != e.active
    ensures ActiveIn(Replay(records, [e]), e.key) == e.active
            <==> e.idem == "" || e.idem != RecordOf(records, e.key).idem
  {
    assert [e][1..] == [];
  }

  // ----- the invariant -----

  function Fast(s: State): Records { s.watch.store.actions }

  ghost predicate StructInv(s: State) {
    && W.WatchesValid(s.watch) && KnownStatuses(Fast(s))
    && (s.applied ==> s.queue != []) && (s.reflected ==> s.applied)
    && (s.phase != Idle ==> s.applied) && (s.phase == Done ==> s.reflected)
    && (s.phase.StatRead? ==>
          var videoID := s.queue[0].event.key.videoID;
          videoID in s.db.stats && forall t :: CountOf(s.phase.stat, t) == CountOf(s.db.stats[videoID], t))
    && (s.applied ==>
          var e := s.queue[0].event;
          e.key in s.db.records && s.db.records[e.key] == ActionRecord(StatusFromActive(e.active), e.idem))
    && (forall v :: v in s.reconciled ==> s.reconciled[v].at <= s.clock)
    && (forall i, j :: 0 <= i < j < |s.unpublished| ==> s.unpublished[i].event.key != s.unpublished[j].event.key)
  }

  ghost predicate Older(ps: seq<Pending>, time: nat) {
    forall i :: 0 <= i < |ps| ==> ps[i].issuedAt < time
  }

  // Everything that happened to a video happened after its base was installed.
  ghost predicate BaseInv(s: State) {
    && (forall i :: 0 <= i < |s.queue| ==> PendingOk(s, s.queue[i]))
    && (forall i :: 0 <= i < |s.unpublished| ==> PendingOk(s, s.unpublished[i]))
    && Older(s.issued, s.clock)
    && (forall k :: k in Fast(s) ==> k.videoID in s.watch.store.bases)
    && (forall k :: k in s.db.records ==> k.videoID in s.watch.store.bases)
    && (forall v :: v in s.reconciled ==> v in s.watch.store.bases)
    && (forall id :: id in s.watch.calls ==>
          var req := s.watch.calls[id].req;
          req.key.videoID in s.watch.store.bases || (req.initial.like == 0 && req.initial.favorite == 0))
  }

  ghost predicate PendingOk(s: State, p: Pending) {
    p.issuedAt < s.clock && p.event.key.videoID in s.watch.store.bases
  }

  // One action: its row, its Redis hash and its events still to be applied.
  ghost predicate ActionOk(row: ActionRecord, fast: ActionRecord, todo: seq<Event>) {
    Chain(IsActive(row.status), todo, IsActive(fast.status)) && KeysFresh(row.idem, todo)
  }

  ghost predicate ActionInv(s: State, k: ActionKey) {
    ActionOk(RecordOf(s.db.records, k), RecordOf(Fast(s), k), Of(Todo(s), k))
  }

  // A committed request that keeps the key discipline extends the chain.
  lemma ActionOkExec(row: ActionRecord, fast: ActionRecord, todo: seq<Event>, e: Event)
    requires ActionOk(row, fast, todo) && KnownStatus(fast.status)
    requires Decide(fast, e.active, e.idem).delta != 0 ==> e.idem == "" || e.idem != LastKey(row.idem, todo)
    ensures var d := Decide(fast, e.active, e.idem);
            ActionOk(row, ActionRecord(d.status, e.idem), todo + (if d.delta == 0 then [] else [e]))
  {
    var d := Decide(fast, e.active, e.idem);
    if d.delta == 0 {
      assert todo + [] == todo;
    } else {
      ChainAppend(IsActive(row.status), todo, IsActive(fast.status), e);
      KeysAppend(row.idem, todo, e);
    }
  }

  // Applying the first event shortens it.
  lemma ActionOkApply(row: ActionRecord, fast: ActionRecord, e: Event, rest: seq<Event>)
    requires ActionOk(row, fast, [e] + rest)
    ensures ActionOk(ActionRecord(StatusFromActive(e.active), e.idem), fast, rest)
    ensures IsActive(row.status) != e.active && (e.idem == "" || e.idem != row.idem)
  {
    var todo := [e] + rest;
    assert todo[1..] == rest && todo[0] == e;
  }

  // Conservation: the rows lag behind Redis by the events still to be applied.
  ghost predicate LagInv(s: State, v: int, t: ActionType) {
    |ActiveKeys(Fast(s), v, t)| - |ActiveKeys(s.db.records, v, t)| == Sum(Todo(s), v, t, s.clock)
  }

  // Drift: the raw Redis count lags behind the active users by the events issued
  // before the last reconciliation and not reflected in it.
  ghost predicate DriftInv(s: State, v: int, t: ActionType) {
    |ActiveKeys(Fast(s), v, t)| - RawCount(s.watch.store, v, t) == Sum(Unreflected(s), v, t, ReconciledAt(s, v))
  }

  // The deltas of a counter issued since its video's last reconciliation.
  function Since(s: State, v: int, t: ActionType): int {
    Sum(s.issued, v, t, s.clock) - Sum(s.issued, v, t, ReconciledAt(s, v))
  }

  // The raw Redis count is what the last reconciliation read, and those deltas.
  ghost predicate BaselineInv(s: State, v: int, t: ActionType) {
    RawCount(s.watch.store, v, t) == CountOf(LastRead(s, v), t) + Since(s, v, t)
  }

  ghost predicate CountInv(s: State, v: int, t: ActionType) {
    LagInv(s, v, t) && DriftInv(s, v, t) && BaselineInv(s, v, t)
  }

  ghost predicate DataInv(s: State) {
    && (forall k :: ActionInv(s, k))
    && (forall v, t :: CountInv(s, v, t))
  }

  ghost predicate Inv(s: State) {
    Repo.Inv(s.db) && StructInv(s) && BaseInv(s) && DataInv(s)
  }

  // States that agree on everything the per-action and per-counter parts read.
  ghost predicate SameData(s: State, s': State) {
    && s'.watch.store == s.watch.store && s'.db.records == s.db.records && s'.issued == s.issued
    && Todo(s') == Todo(s) && Unreflected(s') == Unreflected(s)
    && s'.clock == s.clock && s'.reconciled == s.reconciled
  }

  lemma SameDataKeeps(s: State, s': State)
    requires DataInv(s) && SameData(s, s')
    ensures DataInv(s')
  {
    forall k ensures ActionInv(s', k) {
      assert ActionInv(s, k);
    }
    forall v, t ensures CountInv(s', v, t) {
      assert CountInv(s, v, t);
    }
  }

  // ----- each step keeps the invariant -----

  lemma {:induction false} OfNone(ps: seq<Pending>, k: ActionKey)
    requires forall i :: 0 <= i < |ps| ==> ps[i].event.key != k
    ensures Of(ps, k) == []
  {
    if ps != [] {
      OfNone(ps[1..], k);
    }
  }

  lemma OfOne(p: Pending, k: ActionKey)
    ensures Of([p], k) == if p.event.key == k then [p.event] else []
  {
    assert [p][1..] == [];
  }

  // A commit leaves at most one event of its action unpublished.
  lemma ExecUnpublished(s: State, id: nat)
    requires Enabled(s, Exec(id))
    requires forall i, j :: 0 <= i < j < |s.unpublished| ==> s.unpublished[i].event.key != s.unpublished[j].event.key
    ensures var u := AfterExec(s, id).unpublished;
            forall i, j :: 0 <= i < j < |u| ==> u[i].event.key != u[j].event.key
  {
    var u := AfterExec(s, id).unpublished;
    assert |u| == |s.unpublished| || u[..|s.unpublished|] == s.unpublished;
  }

  lemma ExecStruct(s: State, id: nat)
    requires StructInv(s) && Enabled(s, Exec(id))
    ensures StructInv(AfterExec(s, id))
  {
    W.WatchesStayValid(s.watch, W.Exec(id));
    ExecUnpublished(s, id);
    var s' := AfterExec(s, id);
    assert s'.db == s.db && s'.queue == s.queue && s'.phase == s.phase;
    assert s'.reconciled == s.reconciled && s'.clock >= s.clock;
  }

  lemma ExecPending(s: State, id: nat)
    requires BaseInv(s) && Enabled(s, Exec(id))
    ensures var s' := AfterExec(s, id);
            && (forall i :: 0 <= i < |s'.queue| ==> PendingOk(s', s'.queue[i]))
            && (forall i :: 0 <= i < |s'.unpublished| ==> PendingOk(s', s'.unpublished[i]))
  {
    var s' := AfterExec(s, id);
    forall i | 0 <= i < |s'.unpublished| ensures PendingOk(s', s'.unpublished[i]) {
      assert i < |s.unpublished| ==> PendingOk(s, s.unpublished[i]);
    }
    forall i | 0 <= i < |s'.queue| ensures PendingOk(s', s'.queue[i]) {
      assert PendingOk(s, s.queue[i]);
    }
  }

  lemma ExecBase(s: State, id: nat)
    requires W.WatchesValid(s.watch) && BaseInv(s) && Enabled(s, Exec(id))
    ensures BaseInv(AfterExec(s, id))
  {
    ExecPending(s, id);
  }

  // What a commit does to the pieces the invariant talks about.
  lemma ExecParts(s: State, id: nat)
    requires W.WatchesValid(s.watch) && Enabled(s, Exec(id)) && W.Commits(s.watch, W.Exec(id))
    requires (s.applied ==> s.queue != []) && (s.reflected ==> s.queue != [])
    ensures var s' := AfterExec(s, id);
            var req := s.watch.calls[id].req;
            var d := Decide(RecordOf(Fast(s), req.key), req.active, req.idem);
            var e := ActionChangedEvent(req.key, req.active, req.idem);
            var issued := if d.delta == 0 then [] else [Pending(e, s.clock)];
            && s'.watch.store == WriteAction(s.watch.store, req.key, d, req.idem, req.initial)
            && Todo(s') == Todo(s) + issued
            && Unreflected(s') == Unreflected(s) + issued
            && s'.issued == s.issued + issued
            && s'.db == s.db && s'.clock == s.clock + 1 && s'.reconciled == s.reconciled
  {
    var s' := AfterExec(s, id);
    assert s'.unpublished == s.unpublished || |s'.unpublished| == |s.unpublished| + 1;
  }

  // A commit as seen by one action.
  lemma ActionOkCommit(row: ActionRecord, fast: Records, todo: seq<Pending>, e: Event, time: nat, k: ActionKey)
    requires KnownStatuses(fast) && ActionOk(row, RecordOf(fast, k), Of(todo, k))
    requires e.key == k && Decide(RecordOf(fast, k), e.active, e.idem).delta != 0 ==>
               e.idem == "" || e.idem != LastKey(row.idem, Of(todo, k))
    ensures var d := Decide(RecordOf(fast, e.key), e.active, e.idem);
            ActionOk(row, RecordOf(fast[e.key := ActionRecord(d.status, e.idem)], k),
                     Of(todo + (if d.delta == 0 then [] else [Pending(e, time)]), k))
  {
    var d := Decide(RecordOf(fast, e.key), e.active, e.idem);
    OfOne(Pending(e, time), k);
    OfConcat(todo, if d.delta == 0 then [] else [Pending(e, time)], k);
    if e.key == k {
      ActionOkExec(row, RecordOf(fast, k), Of(todo, k), e);
    } else {
      assert Of(todo, k) + [] == Of(todo, k);
    }
  }

  lemma ExecAction(s: State, id: nat, k: ActionKey)
    requires W.WatchesValid(s.watch) && KnownStatuses(Fast(s))
    requires Enabled(s, Exec(id)) && W.Commits(s.watch, W.Exec(id)) && Disciplined(s, Exec(id))
    requires (s.applied ==> s.queue != []) && (s.reflected ==> s.queue != [])
    requires ActionInv(s, k)
    ensures ActionInv(AfterExec(s, id), k)
  {
    ExecParts(s, id);
    var req := s.watch.calls[id].req;
    ActionOkCommit(RecordOf(s.db.records, k), Fast(s), Todo(s),
                   ActionChangedEvent(req.key, req.active, req.idem), s.clock, k);
  }

  // What a commit issues weighs as much as it changes.
  lemma IssuedSum(todo: seq<Pending>, e: Event, delta: int, v: int, t: ActionType, time: nat)
    requires Older(todo, time) && (delta != 0 ==> delta == Delta(e))
    ensures Sum(todo + (if delta == 0 then [] else [Pending(e, time)]), v, t, time + 1) ==
            Sum(todo, v, t, time) + (if e.key.videoID == v && e.key.actionType == t then delta else 0)
  {
    SumOfOlder(todo, v, t, time, time + 1);
    SumOne(Pending(e, time), v, t, time + 1);
    SumConcat(todo, if delta == 0 then [] else [Pending(e, time)], v, t, time + 1);
  }

  // A commit moves the number of active users and the raw count by the same
  // delta, and issues exactly one event for it when it is not zero.
  lemma ExecLag(s: State, id: nat, v: int, t: ActionType)
    requires W.WatchesValid(s.watch) && KnownStatuses(Fast(s)) && Older(Todo(s), s.clock)
    requires Enabled(s, Exec(id)) && W.Commits(s.watch, W.Exec(id))
    requires (s.applied ==> s.queue != []) && (s.reflected ==> s.queue != [])
    requires LagInv(s, v, t)
    ensures LagInv(AfterExec(s, id), v, t)
  {
    ExecParts(s, id);
    var req := s.watch.calls[id].req;
    var d := Decide(RecordOf(Fast(s), req.key), req.active, req.idem);
    ActiveKeysAfterWrite(Fast(s), req.key, ActionRecord(d.status, req.idem), v, t);
    IssuedSum(Todo(s), ActionChangedEvent(req.key, req.active, req.idem), d.delta, v, t, s.clock);
  }

  lemma ExecDrift(s: State, id: nat, v: int, t: ActionType)
    requires W.WatchesValid(s.watch) && KnownStatuses(Fast(s)) && ReconciledAt(s, v) <= s.clock
    requires Enabled(s, Exec(id)) && W.Commits(s.watch, W.Exec(id))
    requires var req := s.watch.calls[id].req;
             req.key.videoID in s.watch.store.bases || (req.initial.like == 0 && req.initial.favorite == 0)
    requires (s.applied ==> s.queue != []) && (s.reflected ==> s.queue != [])
    requires DriftInv(s, v, t)
    ensures DriftInv(AfterExec(s, id), v, t)
  {
    ExecParts(s, id);
    var req := s.watch.calls[id].req;
    var d := Decide(RecordOf(Fast(s), req.key), req.active, req.idem);
    ActiveKeysAfterWrite(Fast(s), req.key, ActionRecord(d.status, req.idem), v, t);
    RawCountAfterWrite(s.watch.store, req.key, d, req.idem, req.initial, v, t);
    var p := Pending(ActionChangedEvent(req.key, req.active, req.idem), s.clock);
    SumOne(p, v, t, ReconciledAt(s, v));
    SumConcat(Unreflected(s), if d.delta == 0 then [] else [p], v, t, ReconciledAt(s, v));
  }

  // The raw count moves by what is issued.
  lemma ExecBaseline(s: State, id: nat, v: int, t: ActionType)
    requires W.WatchesValid(s.watch) && KnownStatuses(Fast(s)) && Older(s.issued, s.clock)
    requires ReconciledAt(s, v) <= s.clock
    requires Enabled(s, Exec(id)) && W.Commits(s.watch, W.Exec(id))
    requires var req := s.watch.calls[id].req;
             req.key.videoID in s.watch.store.bases || (req.initial.like == 0 && req.initial.favorite == 0)
    requires (s.applied ==> s.queue != []) && (s.reflected ==> s.queue != [])
    requires BaselineInv(s, v, t)
    ensures BaselineInv(AfterExec(s, id), v, t)
  {
    ExecParts(s, id);
    var req := s.watch.calls[id].req;
    var d := Decide(RecordOf(Fast(s), req.key), req.active, req.idem);
    RawCountAfterWrite(s.watch.store, req.key, d, req.idem, req.initial, v, t);
    var e := ActionChangedEvent(req.key, req.active, req.idem);
    IssuedSum(s.issued, e, d.delta, v, t, s.clock);
    SumOne(Pending(e, s.clock), v, t, ReconciledAt(s, v));
    SumConcat(s.issued, if d.delta == 0 then [] else [Pending(e, s.clock)], v, t, ReconciledAt(s, v));
  }

  lemma SumOne(p: Pending, v: int, t: ActionType, time: nat)
    ensures Sum([p], v, t, time) ==
            if p.event.key.videoID == v && p.event.key.actionType == t && p.issuedAt < time then Delta(p.event) else 0
  {
    assert [p][1..] == [];
  }

  lemma ExecData(s: State, id: nat)
    requires Inv(s) && Enabled(s, Exec(id)) && Disciplined(s, Exec(id)) && W.Commits(s.watch, W.Exec(id))
    ensures DataInv(AfterExec(s, id))
  {
    TodoOlder(s);
    forall k ensures ActionInv(AfterExec(s, id), k) {
      assert ActionInv(s, k);
      ExecAction(s, id, k);
    }
    forall v, t ensures CountInv(AfterExec(s, id), v, t) {
      assert CountInv(s, v, t);
      ExecLag(s, id, v, t);
      ExecDrift(s, id, v, t);
      ExecBaseline(s, id, v, t);
    }
  }

  lemma TodoOlder(s: State)
    requires BaseInv(s)
    ensures Older(Todo(s), s.clock) && Older(s.queue, s.clock)
  {
    assert forall i :: 0 <= i < |s.queue| ==> PendingOk(s, s.queue[i]);
    assert forall i :: 0 <= i < |s.unpublished| ==> PendingOk(s, s.unpublished[i]);
  }

  // Moving one event from the unpublished ones to the back of the queue.
  lemma MoveOf(q: seq<Pending>, u: seq<Pending>, i: nat, k: ActionKey)
    requires i < |u| && forall a, b :: 0 <= a < b < |u| ==> u[a].event.key != u[b].event.key
    ensures Of(q + [u[i]] + Without(u, i), k) == Of(q + u, k)
  {
    var p := [u[i]];
    assert u == u[..i] + (p + u[i + 1..]) && p[1..] == [];
    OfConcat(q, u, k);
    OfConcat(u[..i], p + u[i + 1..], k);
    OfConcat(p, u[i + 1..], k);
    OfConcat(q + p, Without(u, i), k);
    OfConcat(q, p, k);
    OfConcat(u[..i], u[i + 1..], k);
    if u[i].event.key == k {
      OfNone(u[..i], k);
    }
  }

  lemma MoveSum(q: seq<Pending>, u: seq<Pending>, i: nat, v: int, t: ActionType, time: nat)
    requires i < |u|
    ensures Sum(q + [u[i]] + Without(u, i), v, t, time) == Sum(q + u, v, t, time)
  {
    var p := [u[i]];
    assert u == u[..i] + (p + u[i + 1..]);
    SumConcat(q, u, v, t, time);
    SumConcat(u[..i], p + u[i + 1..], v, t, time);
    SumConcat(p, u[i + 1..], v, t, time);
    SumConcat(q + p, Without(u, i), v, t, time);
    SumConcat(q, p, v, t, time);
    SumConcat(u[..i], u[i + 1..], v, t, time);
  }

  lemma PublishParts(s: State, i: nat)
    requires Enabled(s, Publish(i)) && (s.applied ==> s.queue != []) && (s.reflected ==> s.queue != [])
    ensures var s' := Next(s, Publish(i));
            && Todo(s') == Tail(s.queue, s.applied) + [s.unpublished[i]] + Without(s.unpublished, i)
            && Unreflected(s') == Tail(s.queue, s.reflected) + [s.unpublished[i]] + Without(s.unpublished, i)
  {
  }

  lemma PublishBase(s: State, i: nat)
    requires BaseInv(s) && Enabled(s, Publish(i))
    ensures BaseInv(Next(s, Publish(i)))
  {
    var s' := Next(s, Publish(i));
    var u := s.unpublished;
    forall j | 0 <= j < |s'.queue| ensures PendingOk(s', s'.queue[j]) {
      assert PendingOk(s, if j < |s.queue| then s.queue[j] else u[i]);
    }
    forall j | 0 <= j < |s'.unpublished| ensures PendingOk(s', s'.unpublished[j]) {
      assert PendingOk(s, u[if j < i then j else j + 1]);
    }
  }

  lemma PublishStruct(s: State, i: nat)
    requires StructInv(s) && Enabled(s, Publish(i))
    ensures StructInv(Next(s, Publish(i)))
  {
    var s', u := Next(s, Publish(i)), s.unpublished;
    assert forall j :: 0 <= j < |s'.unpublished| ==> s'.unpublished[j] == u[if j < i then j else j + 1];
    assert s.queue != [] ==> s'.queue[0] == s.queue[0];
  }

  lemma PublishData(s: State, i: nat)
    requires StructInv(s) && DataInv(s) && Enabled(s, Publish(i))
    ensures DataInv(Next(s, Publish(i)))
  {
    var s' := Next(s, Publish(i));
    PublishParts(s, i);
    forall k ensures ActionInv(s', k) {
      assert ActionInv(s, k);
      MoveOf(Tail(s.queue, s.applied), s.unpublished, i, k);
    }
    forall v, t ensures CountInv(s', v, t) {
      assert CountInv(s, v, t);
      MoveSum(Tail(s.queue, s.applied), s.unpublished, i, v, t, s.clock);
      MoveSum(Tail(s.queue, s.reflected), s.unpublished, i, v, t, ReconciledAt(s, v));
    }
  }

  lemma ApplyHead(s: State)
    requires s.queue != [] && ActionInv(s, s.queue[0].event.key) && KnownStatuses(s.db.records)
    requires s.applied ==>
               var e := s.queue[0].event;
               e.key in s.db.records && s.db.records[e.key] == ActionRecord(StatusFromActive(e.active), e.idem)
    ensures var e := s.queue[0].event;
            && Repo.RowAfter(s.db.records, e.key, e.active, e.idem) ==
               (ActionRecord(StatusFromActive(e.active), e.idem), if s.applied then 0 else Delta(e))
            && (!s.applied ==> ActiveIn(s.db.records, e.key) != e.active)
  {
    if !s.applied {
      var e := s.queue[0].event;
      assert Todo(s)[0] == s.queue[0];
      ActionOkApply(RecordOf(s.db.records, e.key), RecordOf(Fast(s), e.key), e, Of(Todo(s)[1..], e.key));
    }
  }

  // Handling the head: the first time its event leaves the list of things to do
  // and moves the row and the counter as it moved Redis; again, it does nothing.
  lemma ApplyAgain(s: State)
    requires StructInv(s) && KnownStatuses(s.db.records)
    requires Enabled(s, Apply) && s.applied && ActionInv(s, s.queue[0].event.key)
    ensures Next(s, Apply).db == s.db
  {
    ApplyHead(s);
    var db := Next(s, Apply).db;
    assert db.records == s.db.records && db.stats == s.db.stats;
  }

  lemma ApplyParts(s: State)
    requires Enabled(s, Apply) && !s.applied && !s.reflected
    ensures var s' := Next(s, Apply);
            var e := s.queue[0].event;
            && Fast(s') == Fast(s) && s'.watch == s.watch && s'.issued == s.issued && s'.clock == s.clock
            && s'.reconciled == s.reconciled && Unreflected(s') == Unreflected(s)
            && Todo(s) == [s.queue[0]] + Todo(s')
            && s'.db.records == s.db.records[e.key := Repo.RowAfter(s.db.records, e.key, e.active, e.idem).0]
  {
  }

  lemma ActionOkFirst(records: Records, fast: ActionRecord, p: Pending, rest: seq<Pending>, k: ActionKey)
    requires ActionOk(RecordOf(records, k), fast, Of([p] + rest, k))
    ensures var row := ActionRecord(StatusFromActive(p.event.active), p.event.idem);
            ActionOk(RecordOf(records[p.event.key := row], k), fast, Of(rest, k))
  {
    OfConcat([p], rest, k);
    OfOne(p, k);
    if p.event.key == k {
      ActionOkApply(RecordOf(records, k), fast, p.event, Of(rest, k));
    } else {
      assert [] + Of(rest, k) == Of(rest, k);
    }
  }

  lemma ApplyFirst(s: State, k: ActionKey)
    requires ActionInv(s, k) && Enabled(s, Apply) && !s.applied && !s.reflected
    requires ActionInv(s, s.queue[0].event.key) && KnownStatuses(s.db.records)
    ensures ActionInv(Next(s, Apply), k)
  {
    ApplyHead(s);
    ApplyParts(s);
    ActionOkFirst(s.db.records, RecordOf(Fast(s), k), s.queue[0], Todo(Next(s, Apply)), k);
  }

  lemma ApplyFirstCount(s: State, v: int, t: ActionType)
    requires StructInv(s) && KnownStatuses(s.db.records) && Enabled(s, Apply) && !s.applied && Older(s.queue, s.clock)
    requires ActionInv(s, s.queue[0].event.key)
    requires CountInv(s, v, t)
    ensures CountInv(Next(s, Apply), v, t)
  {
    var p, e := s.queue[0], s.queue[0].event;
    ApplyHead(s);
    ApplyParts(s);
    SumConcat([p], Todo(Next(s, Apply)), v, t, s.clock);
    SumOne(p, v, t, s.clock);
    ActiveKeysAfterWrite(s.db.records, e.key, ActionRecord(StatusFromActive(e.active), e.idem), v, t);
  }

  lemma ApplyData(s: State)
    requires StructInv(s) && KnownStatuses(s.db.records) && BaseInv(s) && DataInv(s) && Enabled(s, Apply)
    ensures DataInv(Next(s, Apply))
  {
    assert ActionInv(s, s.queue[0].event.key);
    if s.applied {
      ApplyAgain(s);
      SameDataKeeps(s, Next(s, Apply));
    } else {
      TodoOlder(s);
      forall k ensures ActionInv(Next(s, Apply), k) {
        assert ActionInv(s, k);
        ApplyFirst(s, k);
      }
      forall v, t ensures CountInv(Next(s, Apply), v, t) {
        assert CountInv(s, v, t);
        ApplyFirstCount(s, v, t);
      }
    }
  }

  lemma ApplyStruct(s: State)
    requires StructInv(s) && KnownStatuses(s.db.records) && Enabled(s, Apply) && ActionInv(s, s.queue[0].event.key)
    ensures StructInv(Next(s, Apply))
  {
    ApplyHead(s);
  }

  lemma ApplyBase(s: State)
    requires BaseInv(s) && Enabled(s, Apply)
    ensures BaseInv(Next(s, Apply))
  {
    var s' := Next(s, Apply);
    forall j | 0 <= j < |s.queue| ensures PendingOk(s', s.queue[j]) {
      assert PendingOk(s, s.queue[j]);
    }
    forall j | 0 <= j < |s.unpublished| ensures PendingOk(s', s.unpublished[j]) {
      assert PendingOk(s, s.unpublished[j]);
    }
    assert PendingOk(s, s.queue[0]);
  }

  // Reconciliation: from then on the raw count lags by exactly the events that
  // still lag behind in the database.
  lemma ReconcileCount(s: State, v: int, t: ActionType)
    requires Repo.Inv(s.db) && StructInv(s) && Enabled(s, Reconcile) && Older(s.queue, s.clock) && CountInv(s, v, t)
    ensures CountInv(Next(s, Reconcile), v, t)
  {
    var s' := Next(s, Reconcile);
    var videoID := s.queue[0].event.key.videoID;
    RawCountAfterReconcile(s.watch.store, videoID, s.phase.stat, v, t);
    if v == videoID {
      assert Repo.VideoExact(s.db, videoID);
      assert CountOf(s.phase.stat, t) == |ActiveKeys(s.db.records, v, t)|;
    } else if !s.reflected {
      assert Unreflected(s)[0] == s.queue[0] && Unreflected(s)[1..] == Unreflected(s');
    }
  }

  lemma ReconcileKeepsInv(s: State)
    requires Inv(s) && Enabled(s, Reconcile)
    ensures Inv(Next(s, Reconcile))
  {
    var s' := Next(s, Reconcile);
    TodoOlder(s);
    forall k ensures ActionInv(s', k) {
      assert ActionInv(s, k);
    }
    forall v, t ensures CountInv(s', v, t) {
      assert CountInv(s, v, t);
      ReconcileCount(s, v, t);
    }
    forall j | 0 <= j < |s.queue| ensures PendingOk(s', s.queue[j]) {
      assert PendingOk(s, s.queue[j]);
    }
    forall j | 0 <= j < |s.unpublished| ensures PendingOk(s', s.unpublished[j]) {
      assert PendingOk(s, s.unpublished[j]);
    }
  }

  lemma AckKeepsInv(s: State)
    requires Inv(s) && Enabled(s, Ack)
    ensures Inv(Next(s, Ack))
  {
    var s' := Next(s, Ack);
    assert Todo(s') == Todo(s) && Unreflected(s') == Unreflected(s);
    SameDataKeeps(s, s');
    forall j | 0 <= j < |s'.queue| ensures PendingOk(s', s'.queue[j]) {
      assert PendingOk(s, s.queue[j + 1]);
    }
    forall j | 0 <= j < |s.unpublished| ensures PendingOk(s', s.unpublished[j]) {
      assert PendingOk(s, s.unpublished[j]);
    }
  }

  // Comments and new videos leave actions and their counters alone.
  lemma OtherKeepsActions(db: Repo.Db, op: Repo.Op)
    requires !op.SetAction? && !op.HideVideo?
    ensures var db' := Repo.After(db, op);
            && db'.records == db.records
            && forall v :: v in db.stats ==>
                 && v in db'.stats && db'.stats[v].like == db.stats[v].like
                 && db'.stats[v].favorite == db.stats[v].favorite
  {
  }

  // The steps that move neither an event nor a row.
  predicate Quiet(step: Step) {
    step.Arrive? || step.Read? || step.ReadStat? || step.Redeliver? || step.Other?
  }

  lemma QuietData(s: State, step: Step)
    requires Enabled(s, step) && Quiet(step)
    ensures SameData(s, Next(s, step))
  {
    if step.Other? {
      OtherKeepsActions(s.db, step.op);
    }
  }

  lemma QuietStruct(s: State, step: Step)
    requires StructInv(s) && Enabled(s, step) && Quiet(step)
    ensures StructInv(Next(s, step))
  {
    match step
    case Arrive(id, k, _, _) =>
    case Read(id) => W.WatchesStayValid(s.watch, W.Read(id));
    case Other(op) => OtherKeepsActions(s.db, op);
    case _ =>
  }

  lemma QuietBase(s: State, step: Step)
    requires Repo.Inv(s.db) && BaseInv(s) && Enabled(s, step) && Quiet(step)
    ensures BaseInv(Next(s, step))
  {
    var s' := Next(s, step);
    QuietData(s, step);
    forall j | 0 <= j < |s.queue| ensures PendingOk(s', s.queue[j]) {
      assert PendingOk(s, s.queue[j]);
    }
    forall j | 0 <= j < |s.unpublished| ensures PendingOk(s', s.unpublished[j]) {
      assert PendingOk(s, s.unpublished[j]);
    }
    if step.Arrive? {
      ArriveBase(s, step.key);
    }
  }

  // A video nobody has acted on yet is read with zero counts.
  lemma ArriveBase(s: State, k: ActionKey)
    requires Repo.Inv(s.db) && BaseInv(s) && Interactive(s, k.videoID)
    ensures k.videoID !in s.watch.store.bases ==>
              s.db.stats[k.videoID].like == 0 && s.db.stats[k.videoID].favorite == 0
  {
    assert Repo.VideoExact(s.db, k.videoID);
    if k.videoID !in s.watch.store.bases {
      assert ActiveKeys(s.db.records, k.videoID, Like) == {};
      assert ActiveKeys(s.db.records, k.videoID, Favorite) == {};
    }
  }

  lemma QuietParts(s: State, step: Step)
    requires Inv(s) && Enabled(s, step) && Quiet(step)
    ensures var s' := Next(s, step); StructInv(s') && BaseInv(s') && DataInv(s')
  {
    QuietStruct(s, step);
    QuietBase(s, step);
    QuietData(s, step);
    SameDataKeeps(s, Next(s, step));
  }

  lemma InvStep(s: State, step: Step)
    requires Inv(s) && Enabled(s, step) && Disciplined(s, step)
    ensures Inv(Next(s, step))
  {
    match step
    case Exec(id) =>
      ExecStruct(s, id);
      ExecBase(s, id);
      if W.Commits(s.watch, W.Exec(id)) {
        ExecData(s, id);
      } else {
        SameDataKeeps(s, Next(s, step));
      }
    case Publish(i) => PublishStruct(s, i); PublishBase(s, i); PublishData(s, i);
    case Apply =>
      var e := s.queue[0].event;
      Repo.SetActionKeepsInv(s.db, e.key, e.active, e.idem);
      assert ActionInv(s, e.key);
      ApplyStruct(s);
      ApplyBase(s);
      ApplyData(s);
    case Reconcile => ReconcileKeepsInv(s);
    case Ack => AckKeepsInv(s);
    case Other(op) => Repo.InvStep(s.db, op); QuietParts(s, step);
    case _ => QuietParts(s, step);
  }

  lemma InvInit(s: State)
    requires Initial(s) && Repo.Inv(s.db)
    ensures Inv(s)
  {
    forall v, t ensures CountInv(s, v, t) {
      W.EmptyTotals(v, t, SHARD_COUNT);
      assert ActiveKeys(map[], v, t) == {};
    }
    forall k ensures ActionInv(s, k) {
    }
  }

  lemma {:induction false} InvRun(s: State, steps: seq<Step>)
    requires Inv(s) && Possible(s, steps) && KeepsKeys(s, steps)
    ensures Inv(Run(s, steps))
    decreases |steps|
  {
    if steps != [] {
      InvStep(s, steps[0]);
      InvRun(Next(s, steps[0]), steps[1..]);
    }
  }

  // ----- what it means -----

  // Replaying an action's queued events and then its unpublished one onto its row
  // gives the activity Redis shows.
  ghost predicate Converges(s: State, k: ActionKey) {
    ActiveIn(Replay(s.db.records, Of(s.queue + s.unpublished, k)), k) == ActiveIn(Fast(s), k)
  }

  // Convergence: so it is in every reachable state, even while the head event has
  // already reached the row.
  lemma Convergence(init: State, steps: seq<Step>, k: ActionKey)
    requires Initial(init) && Repo.Inv(init.db) && Possible(init, steps) && KeepsKeys(init, steps)
    ensures Converges(Run(init, steps), k)
  {
    InvInit(init);
    InvRun(init, steps);
    ConvergesInInv(Run(init, steps), k);
  }

  // The row once everything left to do is done: Redis's activity, the last key.
  lemma ReplayTodo(s: State, k: ActionKey)
    requires ActionInv(s, k)
    ensures var row := RecordOf(Replay(s.db.records, Of(Todo(s), k)), k);
            && (IsActive(row.status) <==> ActiveIn(Fast(s), k))
            && row.idem == LastKey(RecordOf(s.db.records, k).idem, Of(Todo(s), k))
  {
    OfMembers(Todo(s), k);
    var todo := Of(Todo(s), k);
    forall i | 0 <= i < |todo| ensures todo[i].key == k {
      assert todo[i] in todo;
    }
    ReplayChain(s.db.records, k, todo, ActiveIn(Fast(s), k));
  }

  lemma ConvergesInInv(s: State, k: ActionKey)
    requires StructInv(s) && ActionInv(s, k)
    ensures Converges(s, k)
  {
    ReplayTodo(s, k);
    ReplayHead(s, k);
  }

  // The key discipline is exact: a change committed in any state of the invariant
  // keeps its action converging if and only if it does not carry the last key.
  lemma ConvergesIff(s: State, id: nat)
    requires Inv(s) && Enabled(s, Exec(id)) && W.Commits(s.watch, W.Exec(id)) && Changes(s, id)
    ensures Converges(Next(s, Exec(id)), s.watch.calls[id].req.key) <==> Disciplined(s, Exec(id))
  {
    var s', req := Next(s, Exec(id)), s.watch.calls[id].req;
    var k, e := req.key, ActionChangedEvent(req.key, req.active, req.idem);
    var todo := Of(Todo(s), k);
    ExecStruct(s, id);
    ExecParts(s, id);
    OfConcat(Todo(s), [Pending(e, s.clock)], k);
    OfOne(Pending(e, s.clock), k);
    assert Of(Todo(s'), k) == todo + [e];
    ReplayHead(s', k);
    ReplayConcat(s.db.records, todo, [e]);
    assert ActionInv(s, k);
    ReplayTodo(s, k);
    ReplayAgreesIff(Replay(s.db.records, todo), e);
  }

  // Every state of the run converges on every action.
  ghost predicate AlwaysConverges(s: State, steps: seq<Step>)
    requires Possible(s, steps)
    decreases |steps|
  {
    (forall k :: Converges(s, k)) && (steps == [] || AlwaysConverges(Next(s, steps[0]), steps[1..]))
  }

  // A run converges throughout if and only if it keeps the key discipline.
  lemma ConvergesExactly(init: State, steps: seq<Step>)
    requires Initial(init) && Repo.Inv(init.db) && Possible(init, steps)
    ensures AlwaysConverges(init, steps) <==> KeepsKeys(init, steps)
  {
    InvInit(init);
    ConvergesWhileKeysKept(init, steps);
  }

  lemma {:induction false} ConvergesWhileKeysKept(s: State, steps: seq<Step>)
    requires Inv(s) && Possible(s, steps)
    ensures AlwaysConverges(s, steps) <==> KeepsKeys(s, steps)
    decreases |steps|
  {
    forall k ensures Converges(s, k) {
      assert ActionInv(s, k);
      ConvergesInInv(s, k);
    }
    if steps != [] {
      var s' := Next(s, steps[0]);
      if Disciplined(s, steps[0]) {
        InvStep(s, steps[0]);
        ConvergesWhileKeysKept(s', steps[1..]);
      } else {
        ConvergesIff(s, steps[0].id);
        assert !Converges(s', s.watch.calls[steps[0].id].req.key);
      }
    }
  }

  // Replaying an applied head onto the row it has already reached changes nothing.
  lemma ReplayHead(s: State, k: ActionKey)
    requires StructInv(s)
    ensures Replay(s.db.records, Of(s.queue + s.unpublished, k)) == Replay(s.db.records, Of(Todo(s), k))
  {
    if s.applied {
      var e := s.queue[0].event;
      assert (s.queue + s.unpublished)[0] == s.queue[0] && (s.queue + s.unpublished)[1..] == Todo(s);
      if e.key == k {
        var all := Of(s.queue + s.unpublished, k);
        assert all == [e] + Of(Todo(s), k);
        assert all[1..] == Of(Todo(s), k);
        assert s.db.records[k := Repo.RowAfter(s.db.records, k, e.active, e.idem).0] == s.db.records;
      } else {
        assert Of(s.queue + s.unpublished, k) == Of(Todo(s), k);
      }
    }
  }

  // With nothing pending the two stores agree on every action and every counter.
  lemma AgreeWhenQuiet(init: State, steps: seq<Step>, k: ActionKey)
    requires Initial(init) && Repo.Inv(init.db) && Possible(init, steps) && KeepsKeys(init, steps)
    requires Run(init, steps).queue == [] && Run(init, steps).unpublished == []
    ensures Agree(Run(init, steps), k)
  {
    InvInit(init);
    InvRun(init, steps);
    AgreeInQuietState(Run(init, steps), k);
  }

  lemma AgreeInQuietState(s: State, k: ActionKey)
    requires Repo.Inv(s.db) && DataInv(s) && s.queue == [] && s.unpublished == []
    ensures Agree(s, k)
  {
    assert Todo(s) == [] && Unreflected(s) == [];
    assert ActionInv(s, k);
    assert CountInv(s, k.videoID, k.actionType);
  }

  // Same activity in Redis and in the rows; the raw Redis count and the database
  // count both are the number of active users.
  ghost predicate Agree(s: State, k: ActionKey) {
    var v, t := k.videoID, k.actionType;
    && ActiveIn(s.db.records, k) == ActiveIn(Fast(s), k)
    && RawCount(s.watch.store, v, t) == |ActiveKeys(Fast(s), v, t)|
    && |ActiveKeys(s.db.records, v, t)| == |ActiveKeys(Fast(s), v, t)|
    && (v in s.db.stats ==> Repo.VideoExact(s.db, v))
  }

  // Exact drift: the raw count is the count the last reconciliation read and all
  // deltas issued since; it misses precisely the deltas of the events issued
  // before the video's last reconciliation that it did not reflect; the clamp a
  // reader applies never widens the gap.
  lemma ExactDrift(init: State, steps: seq<Step>, v: int, t: ActionType)
    requires Initial(init) && Repo.Inv(init.db) && Possible(init, steps) && KeepsKeys(init, steps)
    ensures var s := Run(init, steps);
            var active := |ActiveKeys(Fast(s), v, t)|;
            var raw := RawCount(s.watch.store, v, t);
            && raw == CountOf(LastRead(s, v), t) + Since(s, v, t)
            && active - raw == Sum(Unreflected(s), v, t, ReconciledAt(s, v))
            && (s.phase == Idle && !s.applied ==> Unreflected(s) == s.queue + s.unpublished)
            && -(if active >= raw then active - raw else raw - active) <= active - Clamp(raw)
               <= (if active >= raw then active - raw else raw - active)
  {
    InvInit(init);
    InvRun(init, steps);
    assert CountInv(Run(init, steps), v, t);
  }

  // ----- keys a client never brings back -----

  predicate ChangesOf(s: State, step: Step, k: ActionKey)
    requires Enabled(s, step)
  {
    step.Exec? && W.Commits(s.watch, W.Exec(step.id)) && Changes(s, step.id) && s.watch.calls[step.id].req.key == k
  }

  lemma LastKeyAfterExec(s: State, id: nat, k: ActionKey)
    requires W.WatchesValid(s.watch) && StructInv(s) && Enabled(s, Exec(id))
    ensures LastKeyOf(AfterExec(s, id), k) ==
            if ChangesOf(s, Exec(id), k) then s.watch.calls[id].req.idem else LastKeyOf(s, k)
  {
    if W.Commits(s.watch, W.Exec(id)) {
      ExecParts(s, id);
      var req := s.watch.calls[id].req;
      var p := Pending(ActionChangedEvent(req.key, req.active, req.idem), s.clock);
      OfOne(p, k);
      OfConcat(Todo(s), if Changes(s, id) then [p] else [], k);
    }
  }

  lemma LastKeyAfterApply(s: State, k: ActionKey)
    requires StructInv(s) && KnownStatuses(s.db.records) && Enabled(s, Apply) && ActionInv(s, s.queue[0].event.key)
    ensures LastKeyOf(Next(s, Apply), k) == LastKeyOf(s, k)
  {
    if s.applied {
      ApplyAgain(s);
    } else {
      ApplyHead(s);
      ApplyParts(s);
      OfConcat([s.queue[0]], Todo(Next(s, Apply)), k);
      OfOne(s.queue[0], k);
    }
  }

  // The last key is that of the last request that changed the action, whatever
  // the consumer does.
  lemma LastKeyAfter(s: State, step: Step, k: ActionKey)
    requires Inv(s) && Enabled(s, step)
    ensures LastKeyOf(Next(s, step), k) ==
            if ChangesOf(s, step, k) then s.watch.calls[step.id].req.idem else LastKeyOf(s, k)
  {
    match step
    case Exec(id) => LastKeyAfterExec(s, id, k);
    case Publish(i) => PublishParts(s, i); MoveOf(Tail(s.queue, s.applied), s.unpublished, i, k);
    case Apply => assert ActionInv(s, s.queue[0].event.key); LastKeyAfterApply(s, k);
    case Reconcile =>
    case Ack => assert Todo(Next(s, step)) == Todo(s);
    case _ => QuietData(s, step);
  }

  // A request whose key is empty, stored in Redis, or new to its action.
  predicate BringsNoKeyBack(s: State, step: Step)
    requires Enabled(s, step)
  {
    step.Exec? && W.Commits(s.watch, W.Exec(step.id)) ==>
      var req := s.watch.calls[step.id].req;
      req.idem == "" || req.idem == RecordOf(Fast(s), req.key).idem || !Committed(s, req.key, req.idem)
  }

  predicate Committed(s: State, k: ActionKey, idem: string) {
    exists r :: r in s.watch.committed && r.key == k && r.idem == idem
  }

  predicate BringNoKeyBack(s: State, steps: seq<Step>)
    requires Possible(s, steps)
    decreases |steps|
  {
    steps == [] || (BringsNoKeyBack(s, steps[0]) && BringNoKeyBack(Next(s, steps[0]), steps[1..]))
  }

  ghost predicate LastKeysCommitted(s: State) {
    forall k :: LastKeyOf(s, k) != "" ==> Committed(s, k, LastKeyOf(s, k))
  }

  // Clients who never bring a key back after another one keep the discipline.
  lemma NoKeyBackSuffices(init: State, steps: seq<Step>)
    requires Initial(init) && Repo.Inv(init.db) && Possible(init, steps) && BringNoKeyBack(init, steps)
    ensures KeepsKeys(init, steps)
  {
    InvInit(init);
    NoKeyBackRun(init, steps);
  }

  lemma {:induction false} NoKeyBackRun(s: State, steps: seq<Step>)
    requires Inv(s) && LastKeysCommitted(s) && Possible(s, steps) && BringNoKeyBack(s, steps)
    ensures KeepsKeys(s, steps)
    decreases |steps|
  {
    if steps != [] {
      NoKeyBackStep(s, steps[0]);
      InvStep(s, steps[0]);
      NoKeyBackRun(Next(s, steps[0]), steps[1..]);
    }
  }

  lemma NoKeyBackStep(s: State, step: Step)
    requires Inv(s) && LastKeysCommitted(s) && Enabled(s, step) && BringsNoKeyBack(s, step)
    ensures Disciplined(s, step) && LastKeysCommitted(Next(s, step))
  {
    var s' := Next(s, step);
    if step.Exec? {
      var k := s.watch.calls[step.id].req.key;
      assert LastKeyOf(s, k) != "" ==> Committed(s, k, LastKeyOf(s, k));
    }
    forall k | LastKeyOf(s', k) != "" ensures Committed(s', k, LastKeyOf(s', k)) {
      LastKeyAfter(s, step, k);
      CommittedStays(s, step);
      if step.Exec? && W.Commits(s.watch, W.Exec(step.id)) {
        var req := s.watch.calls[step.id].req;
        assert s'.watch.committed[|s.watch.committed|] == req;
      }
    }
  }

  lemma CommittedStays(s: State, step: Step)
    requires Enabled(s, step)
    ensures forall k, idem :: Committed(s, k, idem) ==> Committed(Next(s, step), k, idem)
  {
    assert s.watch.committed <= Next(s, step).watch.committed;
    forall k, idem | Committed(s, k, idem) ensures Committed(Next(s, step), k, idem) {
      var r :| r in s.watch.committed && r.key == k && r.idem == idem;
      assert r in Next(s, step).watch.committed;
    }
  }

  // ----- a run that breaks the discipline -----

  lemma {:induction false} RunConcat(s: State, a: seq<Step>, b: seq<Step>)
    requires Possible(s, a) && Possible(Run(s, a), b)
    ensures Possible(s, a + b) && Run(s, a + b) == Run(Run(s, a), b)
    decreases |a|
  {
    if a == [] {
      assert a + b == b;
    } else {
      assert (a + b)[1..] == a[1..] + b && (a + b)[0] == a[0];
      RunConcat(Next(s, a[0]), a[1..], b);
    }
  }

  // No call, message or handler under way, and users can act on the video.
  predicate AtRest(s: State, v: int) {
    && s.watch.calls == map[] && s.unpublished == [] && s.queue == [] && s.phase == Idle
    && !s.applied && !s.reflected && Interactive(s, v)
  }

  function RequestSteps(k: ActionKey, active: bool, idem: string): seq<Step> {
    [Arrive(0, k, active, idem), Read(0), Exec(0)]
  }

  const HANDLE_STEPS := [Publish(0), Apply, ReadStat, Reconcile, Ack]

  // One undisturbed request.
  lemma RequestRun(s: State, k: ActionKey, active: bool, idem: string) returns (s': State)
    requires AtRest(s, k.videoID)
    ensures Possible(s, RequestSteps(k, active, idem)) && s' == Run(s, RequestSteps(k, active, idem))
    ensures var d := Decide(RecordOf(Fast(s), k), active, idem);
            && Fast(s') == Fast(s)[k := ActionRecord(d.status, idem)] && s'.db == s.db
            && if d.delta == 0 then AtRest(s', k.videoID)
               else |s'.unpublished| == 1 && s'.unpublished[0].event == ActionChangedEvent(k, active, idem)
                    && AtRest(s'.(unpublished := []), k.videoID)
  {
    var arrived := Next(s, Arrive(0, k, active, idem));
    var watching := Next(arrived, Read(0));
    s' := Next(watching, Exec(0));
    assert [Exec(0)][1..] == [];
    assert Possible(watching, [Exec(0)]) && Run(watching, [Exec(0)]) == s';
    assert [Read(0), Exec(0)][1..] == [Exec(0)];
    assert Possible(arrived, [Read(0), Exec(0)]) && Run(arrived, [Read(0), Exec(0)]) == s';
    assert RequestSteps(k, active, idem)[1..] == [Read(0), Exec(0)];
    assert s'.watch.calls == map[];
  }

  // Its event published and handled once.
  lemma HandleRun(s: State) returns (s': State)
    requires |s.unpublished| == 1 && AtRest(s.(unpublished := []), s.unpublished[0].event.key.videoID)
    ensures Possible(s, HANDLE_STEPS) && s' == Run(s, HANDLE_STEPS)
    ensures var e := s.unpublished[0].event;
            && s'.db.records == s.db.records[e.key := Repo.RowAfter(s.db.records, e.key, e.active, e.idem).0]
            && Fast(s') == Fast(s) && AtRest(s', e.key.videoID)
  {
    var queued := Next(s, Publish(0));
    var applied := Next(queued, Apply);
    var read := Next(applied, ReadStat);
    var done := Next(read, Reconcile);
    s' := Next(done, Ack);
    assert [Ack][1..] == [];
    assert Possible(done, [Ack]) && Run(done, [Ack]) == s';
    assert [Reconcile, Ack][1..] == [Ack];
    assert Possible(read, [Reconcile, Ack]) && Run(read, [Reconcile, Ack]) == s';
    assert [ReadStat, Reconcile, Ack][1..] == [Reconcile, Ack];
    assert Possible(applied, [ReadStat, Reconcile, Ack]) && Run(applied, [ReadStat, Reconcile, Ack]) == s';
    assert [Apply, ReadStat, Reconcile, Ack][1..] == [ReadStat, Reconcile, Ack];
    assert Possible(queued, [Apply, ReadStat, Reconcile, Ack]) && Run(queued, [Apply, ReadStat, Reconcile, Ack]) == s';
    assert HANDLE_STEPS[1..] == [Apply, ReadStat, Reconcile, Ack];
  }

  // Without the discipline the two stores can part for good: like with key "a",
  // like again with key "b" (nothing to publish), un-like with key "a". Redis
  // cancels the action; the database takes the last event for a retry of the
  // first. The run ends with nothing under way.
  lemma ReusedKeyDiverges(init: State, k: ActionKey) returns (steps: seq<Step>)
    requires Initial(init) && Interactive(init, k.videoID)
    ensures steps == RequestSteps(k, true, "a") + HANDLE_STEPS + RequestSteps(k, true, "b")
                     + RequestSteps(k, false, "a") + HANDLE_STEPS
    ensures Possible(init, steps) && AtRest(Run(init, steps), k.videoID)
    ensures ActiveIn(Run(init, steps).db.records, k) && !ActiveIn(Fast(Run(init, steps)), k)
  {
    var s := RequestRun(init, k, true, "a");
    steps := RequestSteps(k, true, "a");
    var s' := HandleRun(s);
    RunConcat(init, steps, HANDLE_STEPS);
    steps := steps + HANDLE_STEPS;
    s := RequestRun(s', k, true, "b");
    RunConcat(init, steps, RequestSteps(k, true, "b"));
    steps := steps + RequestSteps(k, true, "b");
    s' := RequestRun(s, k, false, "a");
    RunConcat(init, steps, RequestSteps(k, false, "a"));
    steps := steps + RequestSteps(k, false, "a");
    s := HandleRun(s');
    RunConcat(init, steps, HANDLE_STEPS);
    steps := steps + HANDLE_STEPS;
  }

  // ----- the machine's steps are the service's and the worker's -----

  // One request left undisturbed is SetActionAsync with a publish that succeeds.
  lemma RequestIsSetActionAsync(s: State, id: nat, k: ActionKey, active: bool, idem: string)
    requires Enabled(s, Arrive(id, k, active, idem)) && !Unpublished(s, k)
    ensures var s1 := Next(s, Arrive(id, k, active, idem));
            && Enabled(s1, Read(id)) && Enabled(Next(s1, Read(id)), Exec(id))
            && var s3 := Next(Next(s1, Read(id)), Exec(id));
               var (after, redis, sent) :=
                 Service.AfterSetActionAsync(Service.State(s.db, []), s.watch.store, [], k, active, idem, true);
               && s3.watch.store == redis && s3.db == after.db
               && s3.unpublished == s.unpublished + (if sent == [] then [] else [Pending(sent[0], s.clock)])
  {
  }

  // Apply, ReadStat and Reconcile on the head are HandleActionChanged.
  lemma StepsAreTheWorker(s: State)
    requires Enabled(s, Apply)
    ensures var s1 := Next(s, Apply);
            && Enabled(s1, ReadStat) && Enabled(Next(s1, ReadStat), Reconcile)
            && var s3 := Next(Next(s1, ReadStat), Reconcile);
               (s3.db, s3.watch.store) == Service.AfterHandled(s.db, s.watch.store, s.queue[0].event)
  {
  }
}
