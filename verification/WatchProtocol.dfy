// Concurrent SetActionState calls. Each call reads the action hash under WATCH
// and executes its transaction later; Redis aborts the transaction when the
// hash was written in between (infra/cache/action_state_cache.go).
module WatchProtocol {
  import opened Base
  import opened InteractionDomain
  import opened ActionStore

  datatype Request = Request(key: ActionKey, active: bool, idem: string, initial: VideoStat)

  // A call before its read, and after it: `version` is what WATCH remembers.
  datatype Call =
    | Arrived(req: Request)
    | Watching(req: Request, seen: ActionRecord, version: nat)

  // `committed` is a history variable: the requests in commit order.
  datatype State = State(store: Store, versions: map<ActionKey, nat>, calls: map<nat, Call>, committed: seq<Request>)

  datatype Step =
    | Arrive(id: nat, req: Request)
    | Read(id: nat)
    | Exec(id: nat)

  const INIT := State(EMPTY_STORE, map[], map[], [])

  function VersionOf(s: State, k: ActionKey): nat {
    if k in s.versions then s.versions[k] else 0
  }

  predicate Enabled(s: State, step: Step) {
    match step
    case Arrive(id, _) => id !in s.calls
    case Read(id) => id in s.calls && s.calls[id].Arrived?
    case Exec(id) => id in s.calls && s.calls[id].Watching?
  }

  // EXEC succeeds when the watched key has not been written since the read.
  predicate Commits(s: State, step: Step)
    requires Enabled(s, step)
  {
    step.Exec? && VersionOf(s, s.calls[step.id].req.key) == s.calls[step.id].version
  }

  function Next(s: State, step: Step): State
    requires Enabled(s, step)
  {
    match step
    case Arrive(id, req) => s.(calls := s.calls[id := Arrived(req)])
    case Read(id) =>
      var req := s.calls[id].req;
      s.(calls := s.calls[id := Watching(req, RecordOf(s.store.actions, req.key), VersionOf(s, req.key))])
    case Exec(id) =>
      var Watching(req, seen, version) := s.calls[id];
      if !Commits(s, step) then
        s.(calls := s.calls - {id})
      else
        State(WriteAction(s.store, req.key, Decide(seen, req.active, req.idem), req.idem, req.initial),
              s.versions[req.key := version + 1], s.calls - {id}, s.committed + [req])
  }

  predicate Legal(s: State, steps: seq<Step>)
    decreases |steps|
  {
    steps == [] || (Enabled(s, steps[0]) && Legal(Next(s, steps[0]), steps[1..]))
  }

  function Run(s: State, steps: seq<Step>): State
    requires Legal(s, steps)
    decreases |steps|
  {
    if steps == [] then s else Run(Next(s, steps[0]), steps[1..])
  }

  // ----- the sequential meaning -----

  function RunOne(s: Store, req: Request): Store {
    WriteAction(s, req.key, Decide(RecordOf(s.actions, req.key), req.active, req.idem), req.idem, req.initial)
  }

  // The requests one after the other, with no concurrency at all.
  function RunAll(reqs: seq<Request>): Store {
    if reqs == [] then EMPTY_STORE
    else RunOne(RunAll(reqs[..|reqs| - 1]), reqs[|reqs| - 1])
  }

  // The deltas that sequential run issues for one action.
  function Issued(reqs: seq<Request>, k: ActionKey): int {
    if reqs == [] then 0
    else
      var before, last := reqs[..|reqs| - 1], reqs[|reqs| - 1];
      Issued(before, k) +
      (if last.key == k then Decide(RecordOf(RunAll(before).actions, k), last.active, last.idem).delta else 0)
  }

  // ----- invariants -----

  // An unchanged version means the watched hash still holds what was read.
  ghost predicate WatchesValid(s: State) {
    forall id :: id in s.calls && s.calls[id].Watching? ==>
      var c := s.calls[id];
      && c.version <= VersionOf(s, c.req.key)
      && (c.version == VersionOf(s, c.req.key) ==> c.seen == RecordOf(s.store.actions, c.req.key))
  }

  ghost predicate Inv(s: State) {
    s.store == RunAll(s.committed) && WatchesValid(s)
  }

  lemma WatchesStayValid(s: State, step: Step)
    requires WatchesValid(s) && Enabled(s, step)
    ensures WatchesValid(Next(s, step))
    // An aborted transaction leaves Redis as it was.
    ensures !Commits(s, step) ==> Next(s, step).store == s.store
    // A committed one has the effect of the call run alone at that moment.
    ensures Commits(s, step) ==> Next(s, step).store == RunOne(s.store, s.calls[step.id].req)
  {
  }

  lemma InvStep(s: State, step: Step)
    requires Inv(s) && Enabled(s, step)
    ensures Inv(Next(s, step))
  {
    WatchesStayValid(s, step);
    var s' := Next(s, step);
    if Commits(s, step) {
      assert s'.committed[..|s'.committed| - 1] == s.committed;
    }
  }

  lemma {:induction false} InvRun(s: State, steps: seq<Step>)
    requires Inv(s) && Legal(s, steps)
    ensures Inv(Run(s, steps))
    decreases |steps|
  {
    if steps != [] {
      InvStep(s, steps[0]);
      InvRun(Next(s, steps[0]), steps[1..]);
    }
  }

  lemma {:induction false} IssuedIsActivity(reqs: seq<Request>, k: ActionKey)
    ensures KnownStatuses(RunAll(reqs).actions)
    ensures Issued(reqs, k) == Bit(ActiveIn(RunAll(reqs).actions, k))
  {
    if reqs != [] {
      IssuedIsActivity(reqs[..|reqs| - 1], k);
      IssuedIsActivity(reqs[..|reqs| - 1], reqs[|reqs| - 1].key);
    }
  }

  // Without a database in the picture every base is what its first request
  // brought; the shards then hold exactly the active users on top of it.
  lemma {:induction false} ShardsCountActiveUsers(reqs: seq<Request>, videoID: int, t: ActionType)
    ensures RawCount(RunAll(reqs), videoID, t) ==
            CountOf(BaseOf(RunAll(reqs), videoID), t) + |ActiveKeys(RunAll(reqs).actions, videoID, t)|
  {
    if reqs == [] {
      EmptyTotals(videoID, t, SHARD_COUNT);
    } else {
      var before, last := RunAll(reqs[..|reqs| - 1]), reqs[|reqs| - 1];
      ShardsCountActiveUsers(reqs[..|reqs| - 1], videoID, t);
      IssuedIsActivity(reqs[..|reqs| - 1], last.key);
      var d := Decide(RecordOf(before.actions, last.key), last.active, last.idem);
      RawCountAfterWrite(before, last.key, d, last.idem, last.initial, videoID, t);
      ActiveKeysAfterWrite(before.actions, last.key, ActionRecord(d.status, last.idem), videoID, t);
    }
  }

  lemma {:induction false} EmptyTotals(videoID: int, t: ActionType, n: nat)
    ensures ShardTotal(map[], videoID, t, n) == 0
  {
    if n > 0 {
      EmptyTotals(videoID, t, n - 1);
    }
  }

  // Serialisability: whatever the interleaving, Redis ends in the state the
  // committed requests produce one after the other in commit order, the deltas
  // issued for an action add up to its activity, and the shards of a video hold
  // its active users.
  lemma Serialisable(steps: seq<Step>, k: ActionKey)
    requires Legal(INIT, steps)
    ensures var s := Run(INIT, steps);
            && s.store == RunAll(s.committed)
            && Issued(s.committed, k) == Bit(ActiveIn(s.store.actions, k))
            && RawCount(s.store, k.videoID, k.actionType) - CountOf(BaseOf(s.store, k.videoID), k.actionType)
               == |ActiveKeys(s.store.actions, k.videoID, k.actionType)|
  {
    assert Inv(INIT);
    InvRun(INIT, steps);
    var s := Run(INIT, steps);
    IssuedIsActivity(s.committed, k);
    ShardsCountActiveUsers(s.committed, k.videoID, k.actionType);
  }
}
