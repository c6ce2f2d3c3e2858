// Consuming view events with a dedup store: claim the key, apply, give the key
// back on failure (application/exposure/worker.go,
// infra/cache/event_dedup_cache.go), under concurrent handlers, duplicate
// publishes, retries (infra/mq/consumer.go) and crashes.
module ViewEvents {
  import opened Base
  import opened Decimal
  import Delivery

  datatype ViewEvent = ViewEvent(
    eventID: string, viewEventID: int, userID: int, videoID: int, eventType: string, watchMs: int, completed: bool)

  const KEY_PREFIX := "rec:consumed_view_event:v1:"

  // viewEventDedupKey: the record id, else the event id, else no key at all.
  function DedupKey(e: ViewEvent): string {
    if e.viewEventID > 0 then KEY_PREFIX + Digits(e.viewEventID)
    else if e.eventID != "" then KEY_PREFIX + "e:" + e.eventID
    else ""
  }

  // Two events share a key exactly when they carry the same record, or carry none
  // and have the same event id.
  lemma KeyIdentifies(a: ViewEvent, b: ViewEvent)
    ensures DedupKey(a) == DedupKey(b) <==>
            if a.viewEventID > 0 || b.viewEventID > 0 then a.viewEventID == b.viewEventID else a.eventID == b.eventID
  {
    var n := |KEY_PREFIX|;
    if a.viewEventID > 0 {
      ValueOfDigits(a.viewEventID);
      assert DedupKey(a)[n..] == Digits(a.viewEventID);
    } else if a.eventID != "" {
      assert DedupKey(a)[n..] == "e:" + a.eventID;
      assert DedupKey(a)[n + 2..] == a.eventID;
    }
    if b.viewEventID > 0 {
      ValueOfDigits(b.viewEventID);
      assert DedupKey(b)[n..] == Digits(b.viewEventID);
    } else if b.eventID != "" {
      assert DedupKey(b)[n..] == "e:" + b.eventID;
      assert DedupKey(b)[n + 2..] == b.eventID;
    }
  }

  // SETNX; without a key every caller may go ahead.
  function ClaimKey(keys: set<string>, key: string): (set<string>, bool) {
    if key == "" then (keys, true) else (keys + {key}, key !in keys)
  }

  function ReleaseKey(keys: set<string>, key: string): set<string> {
    if key == "" then keys else keys - {key}
  }

  // ----- one handler -----

  // Whether the three calls a handler makes go through.
  datatype Calls = Calls(claim: bool, update: bool, release: bool)

  datatype Store = Store(keys: set<string>, applied: seq<ViewEvent>)

  // HandleViewEventRecorded: a dedup store that cannot answer does not stop the event.
  function AfterHandling(dedup: bool, s: Store, event: Option<ViewEvent>, calls: Calls): (Store, bool) {
    if event.None? then (s, true)
    else
      var key := DedupKey(event.value);
      var (keys, claimed) := if dedup && calls.claim then ClaimKey(s.keys, key) else (s.keys, true);
      if !claimed then (s, true)
      else if calls.update then (Store(keys, s.applied + [event.value]), true)
      else (Store(if dedup && calls.release then ReleaseKey(keys, key) else keys, s.applied), false)
  }

  datatype CacheError = Unreachable

  class EventDedupCache {
    var keys: set<string>

    constructor ()
      ensures keys == {}
    {
      keys := {};
    }

    method Claim(key: string, reachable: bool) returns (r: Result<bool, CacheError>)
      modifies this
      ensures key == "" || !reachable ==> keys == old(keys)
      ensures key == "" ==> r == Ok(true)
      ensures key != "" && !reachable ==> r == Err(Unreachable)
      ensures key != "" && reachable ==> r == Ok(key !in old(keys)) && keys == old(keys) + {key}
    {
      if key == "" {
        return Ok(true);
      }
      if !reachable {
        return Err(Unreachable);
      }
      var claimed := key !in keys;
      keys := keys + {key};
      r := Ok(claimed);
    }

    method Release(key: string, reachable: bool)
      modifies this
      ensures keys == if reachable then ReleaseKey(old(keys), key) else old(keys)
    {
      if key == "" || !reachable {
        return;
      }
      keys := keys - {key};
    }
  }

  // The interest profile the events are applied to, as the list of what it took in.
  class Updater {
    var applied: seq<ViewEvent>

    constructor ()
      ensures applied == []
    {
      applied := [];
    }

    method ApplyViewEvent(e: ViewEvent, works: bool) returns (ok: bool)
      modifies this
      ensures ok == works && applied == if works then old(applied) + [e] else old(applied)
    {
      if works {
        applied := applied + [e];
      }
      ok := works;
    }
  }

  class ViewEventWorker {
    const updater: Updater
    const dedup: EventDedupCache?

    constructor (updater: Updater, dedup: EventDedupCache?)
      ensures this.updater == updater && this.dedup == dedup
    {
      this.updater, this.dedup := updater, dedup;
    }

    ghost function View(): Store
      reads updater, dedup
    {
      Store(if dedup != null then dedup.keys else {}, updater.applied)
    }

    method HandleViewEventRecorded(event: Option<ViewEvent>, calls: Calls) returns (ok: bool)
      modifies updater, if dedup != null then {dedup} else {}
      ensures (View(), ok) == AfterHandling(dedup != null, old(View()), event, calls)
    {
      if event.None? {
        return true;
      }
      var key := DedupKey(event.value);
      if dedup != null {
        var claimed := dedup.Claim(key, calls.claim);
        if claimed.Ok? && !claimed.value {
          assert dedup.keys == old(dedup.keys);
          return true;
        }
      }
      ok := updater.ApplyViewEvent(event.value, calls.update);
      if !ok && dedup != null {
        dedup.Release(key, calls.release);
      }
    }
  }

  // Only a dedup store that answers "taken" keeps an event from the updater; without
  // a store, or without an answer, it is handed over.
  lemma OnlyTakenKeysAreSkipped(dedup: bool, s: Store, e: ViewEvent, calls: Calls)
    ensures var (t, ok) := AfterHandling(dedup, s, Some(e), calls);
            if dedup && calls.claim && DedupKey(e) != "" && DedupKey(e) in s.keys then t == s && ok
            else t.applied == s.applied + (if calls.update then [e] else []) && (ok <==> calls.update)
  {
    assert s.applied + [] == s.applied;
  }

  // After a failed update a redelivery applies the event if and only if the key was
  // not claimed or could be given back.
  lemma RetryAppliesIff(dedup: bool, s: Store, e: ViewEvent, claim: bool, release: bool)
    requires DedupKey(e) !in s.keys
    ensures var failed := AfterHandling(dedup, s, Some(e), Calls(claim, false, release)).0;
            var again := AfterHandling(dedup, failed, Some(e), Calls(true, true, true)).0;
            again.applied == s.applied + [e] <==> !dedup || !claim || release || DedupKey(e) == ""
  {
    assert |s.applied + [e]| != |s.applied|;
    assert s.keys + {DedupKey(e)} - {DedupKey(e)} == s.keys;
  }

  // Handling the same event twice applies it twice exactly when it has no key: an
  // event needs a record id or an event id to be counted once.
  lemma TwiceAppliedIff(s: Store, e: ViewEvent)
    requires DedupKey(e) !in s.keys
    ensures var once := AfterHandling(true, s, Some(e), Calls(true, true, true)).0;
            var twice := AfterHandling(true, once, Some(e), Calls(true, true, true)).0;
            twice.applied == s.applied + [e, e] <==> e.viewEventID <= 0 && e.eventID == ""
  {
    assert s.applied + [e] + [e] == s.applied + [e, e];
    assert |s.applied + [e]| != |s.applied + [e, e]|;
    if DedupKey(e) != "" {
      assert DedupKey(e) in s.keys + {DedupKey(e)};
    }
  }

  // ----- many handlers at once -----

  datatype Copy = Copy(event: ViewEvent, retries: nat)

  // Where a handler stands with its copy.
  datatype Stage = Fetched | Claimed | Succeeded | Failed | Released | Duplicate
  datatype Handler = Handler(copy: Copy, stage: Stage)

  datatype State = State(
    queue: seq<Copy>,
    handlers: map<nat, Handler>,
    keys: set<string>,
    applied: seq<ViewEvent>,
    dead: seq<Copy>,
    published: seq<ViewEvent>)

  const INIT := State([], map[], {}, [], [], [])

  datatype Step =
    | Publish(event: ViewEvent)
    | Fetch(id: nat, index: nat)
    | Claim(id: nat)
    | Apply(id: nat, works: bool)
    | Release(id: nat)
    | Finish(id: nat, republished: bool)
    | Crash(id: nat)

  predicate At(s: State, id: nat, stages: set<Stage>) {
    id in s.handlers && s.handlers[id].stage in stages
  }

  // The dedup store answers; a handler may crash at any stage.
  predicate Enabled(s: State, step: Step) {
    match step
    case Publish(_) => true
    case Fetch(id, i) => id !in s.handlers && i < |s.queue|
    case Claim(id) => At(s, id, {Fetched})
    case Apply(id, _) => At(s, id, {Claimed})
    case Release(id) => At(s, id, {Failed})
    case Finish(id, _) => At(s, id, {Succeeded, Released, Duplicate})
    case Crash(id) => id in s.handlers
  }

  function Moved(s: State, id: nat, stage: Stage): map<nat, Handler>
    requires id in s.handlers
  {
    s.handlers[id := s.handlers[id].(stage := stage)]
  }

  // After the handler returned: acknowledged, or retried, or dead-lettered.
  function AfterFinish(s: State, id: nat, republished: bool, maxRetries: nat): State
    requires id in s.handlers
  {
    var h := s.handlers[id];
    var freed := s.(handlers := s.handlers - {id});
    if h.stage != Released then freed
    else if h.copy.retries >= maxRetries then freed.(dead := s.dead + [h.copy])
    else freed.(queue := s.queue + [if republished then h.copy.(retries := h.copy.retries + 1) else h.copy])
  }

  function Next(s: State, step: Step, maxRetries: nat): State
    requires Enabled(s, step)
  {
    match step
    case Publish(e) => s.(queue := s.queue + [Copy(e, 0)], published := s.published + [e])
    case Fetch(id, i) =>
      s.(queue := Without(s.queue, i), handlers := s.handlers[id := Handler(s.queue[i], Fetched)])
    case Claim(id) =>
      var (keys, claimed) := ClaimKey(s.keys, DedupKey(s.handlers[id].copy.event));
      s.(keys := keys, handlers := Moved(s, id, if claimed then Claimed else Duplicate))
    case Apply(id, works) =>
      s.(applied := if works then s.applied + [s.handlers[id].copy.event] else s.applied,
         handlers := Moved(s, id, if works then Succeeded else Failed))
    case Release(id) =>
      s.(keys := ReleaseKey(s.keys, DedupKey(s.handlers[id].copy.event)), handlers := Moved(s, id, Released))
    case Finish(id, republished) => AfterFinish(s, id, republished, maxRetries)
    case Crash(id) => s.(queue := s.queue + [s.handlers[id].copy], handlers := s.handlers - {id})
  }

  // Steps from any state on, and from the start on.
  ghost predicate IsPath(states: seq<State>, steps: seq<Step>, maxRetries: nat) {
    && |states| == |steps| + 1
    && forall i :: 0 <= i < |steps| ==>
         Enabled(states[i], steps[i]) && states[i + 1] == Next(states[i], steps[i], maxRetries)
  }

  ghost predicate IsRun(states: seq<State>, steps: seq<Step>, maxRetries: nat) {
    IsPath(states, steps, maxRetries) && states[0] == INIT
  }

  lemma Extend(states: seq<State>, steps: seq<Step>, step: Step, t: State, maxRetries: nat)
    returns (more: seq<State>, longer: seq<Step>)
    requires IsPath(states, steps, maxRetries)
    requires Enabled(states[|steps|], step) && t == Next(states[|steps|], step, maxRetries)
    ensures IsPath(more, longer, maxRetries) && more[0] == states[0] && more[|longer|] == t
  {
    more, longer := states + [t], steps + [step];
  }

  // The steps of one handler without interruption are HandleViewEventRecorded.
  lemma HandlerIsItsSteps(s: State, id: nat, works: bool, maxRetries: nat)
    requires At(s, id, {Fetched})
    ensures var claimed := Next(s, Claim(id), maxRetries);
            var applied := if At(claimed, id, {Claimed}) then Next(claimed, Apply(id, works), maxRetries) else claimed;
            var done := if At(applied, id, {Failed}) then Next(applied, Release(id), maxRetries) else applied;
            var e := s.handlers[id].copy.event;
            && AfterHandling(true, Store(s.keys, s.applied), Some(e), Calls(true, works, true)) ==
               (Store(done.keys, done.applied), !At(done, id, {Released}))
            && At(done, id, {Succeeded, Released, Duplicate})
  {
    var key := DedupKey(s.handlers[id].copy.event);
    if key in s.keys {
      assert s.keys + {key} == s.keys;
    }
  }

  // The message of a copy, and the broker that delivers it from the one queue bound
  // to its routing key.
  function BrokerOf(c: Copy, maxRetries: nat): Delivery.Broker {
    var msg := Delivery.Message(c.event.eventID, "x", "k", Some(Delivery.Integer(c.retries)), "");
    Delivery.Broker([Delivery.Binding("x", "k", "q")], maxRetries, [Delivery.Copy("q", msg)], [], [])
  }

  // The end of a handler is its delivery: what failed is dead-lettered when its
  // retries are used up, else it waits again, with its count raised if it was
  // republished; what did not fail is gone.
  lemma FinishIsDelivery(s: State, id: nat, republished: bool, maxRetries: nat)
    requires Enabled(s, Finish(id, republished))
    ensures var c, t := s.handlers[id].copy, Next(s, Finish(id, republished), maxRetries);
            var outcome := if At(s, id, {Released}) then Delivery.Failed(republished) else Delivery.Succeeded;
            var b := BrokerOf(c, maxRetries);
            var b' := Delivery.After(b, Delivery.Step(0, outcome, true));
            var dead := Delivery.Settled(b.waiting[0], Delivery.DeadLettered) in b'.settled;
            && t.dead == s.dead + (if dead then [c] else [])
            && |b'.waiting| <= 1
            && t.queue == s.queue + (if b'.waiting == [] then []
                                     else [Copy(c.event, Delivery.RetryCount(b'.waiting[0].msg.retry))])
            && t.handlers == s.handlers - {id} && t.keys == s.keys && t.applied == s.applied
  {
    var b := BrokerOf(s.handlers[id].copy, maxRetries);
    var m := b.waiting[0].msg;
    assert b.bindings[1..] == [];
    assert Delivery.Queues(b, m) == ["q"] && Delivery.Queues(b, Delivery.Retry(m)) == ["q"];
    Delivery.CopiesAre(["q"], Delivery.Retry(m));
    assert s.dead + [] == s.dead && s.queue + [] == s.queue;
  }

  function Successes(applied: seq<ViewEvent>, key: string): nat {
    if applied == [] then 0
    else Successes(applied[..|applied| - 1], key) + Bit(DedupKey(applied[|applied| - 1]) == key)
  }

  // The handler owns the key: claimed and not yet given back or used up.
  predicate Holds(s: State, id: nat, key: string) {
    At(s, id, {Claimed, Failed}) && DedupKey(s.handlers[id].copy.event) == key
  }

  // At most one success, and none beside a handler that owns the key.
  ghost predicate Once(s: State, key: string) {
    && Successes(s.applied, key) <= 1
    && (forall id :: Holds(s, id, key) ==> key in s.keys && Successes(s.applied, key) == 0)
    && (Successes(s.applied, key) == 1 ==> key in s.keys)
    && (forall a, b :: Holds(s, a, key) && Holds(s, b, key) ==> a == b)
  }

  // Ownership comes from a claim only, and an apply or a release ends or follows it.
  lemma HoldersAfter(s: State, step: Step, maxRetries: nat, key: string, id: nat)
    requires Enabled(s, step) && key != "" && Holds(Next(s, step, maxRetries), id, key)
    ensures Holds(s, id, key) || (step == Claim(id) && key !in s.keys)
    ensures !(step == Apply(id, true)) && step != Release(id)
  {
  }

  lemma SuccessesAfter(s: State, step: Step, maxRetries: nat, key: string)
    requires Enabled(s, step)
    ensures var t := Next(s, step, maxRetries);
            Successes(t.applied, key) == Successes(s.applied, key) +
            (if step.Apply? && step.works && Holds(s, step.id, key) then 1 else 0)
  {
    var t := Next(s, step, maxRetries);
    if step.Apply? && step.works {
      assert t.applied[..|s.applied|] == s.applied;
    }
  }

  lemma KeysAfter(s: State, step: Step, maxRetries: nat, key: string)
    requires Enabled(s, step) && key != ""
    ensures var t := Next(s, step, maxRetries);
            && (key in s.keys && key !in t.keys ==> step.Release? && Holds(s, step.id, key))
            && (key !in s.keys && key in t.keys ==> step.Claim? && Holds(t, step.id, key))
            && (step.Claim? && Holds(t, step.id, key) ==> key in t.keys)
  {
  }

  lemma StepKeepsOnce(s: State, step: Step, maxRetries: nat, key: string)
    requires Enabled(s, step) && key != "" && Once(s, key)
    ensures Once(Next(s, step, maxRetries), key)
  {
    var t := Next(s, step, maxRetries);
    SuccessesAfter(s, step, maxRetries, key);
    KeysAfter(s, step, maxRetries, key);
    forall id | Holds(t, id, key) ensures key in t.keys && Successes(t.applied, key) == 0 {
      HoldersAfter(s, step, maxRetries, key, id);
    }
    forall a, b | Holds(t, a, key) && Holds(t, b, key) ensures a == b {
      HoldersAfter(s, step, maxRetries, key, a);
      HoldersAfter(s, step, maxRetries, key, b);
    }
  }

  // However often a record is published, delivered and retried, by however many
  // handlers at once and whoever crashes when, its event is applied at most once.
  lemma {:induction false} AppliedAtMostOnce(states: seq<State>, steps: seq<Step>, maxRetries: nat, i: nat, key: string)
    requires IsRun(states, steps, maxRetries) && i < |states| && key != ""
    ensures Once(states[i], key)
    ensures Successes(states[i].applied, key) <= 1
  {
    if i > 0 {
      AppliedAtMostOnce(states, steps, maxRetries, i - 1, key);
      StepKeepsOnce(states[i - 1], steps[i - 1], maxRetries, key);
    }
  }

  // ----- nothing is lost -----

  // A claimed key is owned by a handler or used up by a success.
  ghost predicate Owned(s: State, key: string) {
    key in s.keys ==> Successes(s.applied, key) == 1 || exists id :: Holds(s, id, key)
  }

  // Queued, being handled, or dead-lettered.
  ghost predicate Present(s: State, key: string) {
    || (exists c :: c in s.queue && DedupKey(c.event) == key)
    || (exists c :: c in s.dead && DedupKey(c.event) == key)
    || (exists id :: At(s, id, {Fetched, Claimed, Failed, Released}) && DedupKey(s.handlers[id].copy.event) == key)
  }

  ghost predicate NotLost(s: State, key: string) {
    (exists e :: e in s.published && DedupKey(e) == key) && Successes(s.applied, key) == 0 ==> Present(s, key)
  }

  // A crash between claim and success or release strands the key.
  predicate CrashesSafely(s: State, step: Step) {
    step.Crash? ==> !At(s, step.id, {Claimed, Failed})
  }

  lemma StepKeepsOwned(s: State, step: Step, maxRetries: nat, key: string)
    requires Enabled(s, step) && CrashesSafely(s, step) && key != "" && Once(s, key) && Owned(s, key)
    ensures Owned(Next(s, step, maxRetries), key)
  {
    var t := Next(s, step, maxRetries);
    SuccessesAfter(s, step, maxRetries, key);
    KeysAfter(s, step, maxRetries, key);
    if key in t.keys {
      if id :| Holds(s, id, key) {
        if !(step == Apply(id, true)) && step != Release(id) {
          assert Holds(t, id, key);
        }
      } else if key !in s.keys {
        assert Holds(t, step.id, key);
      }
    }
  }

  // A copy stays present while its handler has not succeeded and not met a duplicate.
  lemma StepKeepsPresent(s: State, step: Step, maxRetries: nat, key: string)
    requires Enabled(s, step) && Present(s, key)
    ensures var t := Next(s, step, maxRetries);
            || Present(t, key)
            || (step.Claim? && DedupKey(s.handlers[step.id].copy.event) == key && key in s.keys && key != "")
            || (step.Apply? && step.works && Holds(s, step.id, key))
  {
    var t := Next(s, step, maxRetries);
    if c :| c in s.queue && DedupKey(c.event) == key {
      if step.Fetch? {
        var i :| 0 <= i < |s.queue| && s.queue[i] == c;
        if i == step.index {
          assert At(t, step.id, {Fetched, Claimed, Failed, Released});
        } else {
          assert t.queue[if i < step.index then i else i - 1] == c;
        }
      } else {
        assert c in t.queue;
      }
    } else if c :| c in s.dead && DedupKey(c.event) == key {
      assert c in t.dead;
    } else {
      var id :| At(s, id, {Fetched, Claimed, Failed, Released}) && DedupKey(s.handlers[id].copy.event) == key;
      HandledStaysPresent(s, step, maxRetries, key, id);
    }
  }

  lemma HandledStaysPresent(s: State, step: Step, maxRetries: nat, key: string, id: nat)
    requires Enabled(s, step)
    requires At(s, id, {Fetched, Claimed, Failed, Released}) && DedupKey(s.handlers[id].copy.event) == key
    ensures var t := Next(s, step, maxRetries);
            || Present(t, key)
            || (step == Claim(id) && key in s.keys && key != "")
            || (step == Apply(id, true) && Holds(s, id, key))
  {
    var t := Next(s, step, maxRetries);
    if step == Crash(id) || (step.Finish? && step.id == id) {
      if |t.queue| > |s.queue| {
        assert t.queue[|s.queue|] in t.queue;
      } else {
        assert t.dead[|s.dead|] in t.dead;
      }
    } else if !(step == Claim(id) && key in s.keys && key != "") && !(step == Apply(id, true)) {
      assert At(t, id, {Fetched, Claimed, Failed, Released});
    }
  }

  lemma StepKeepsNotLost(s: State, step: Step, maxRetries: nat, key: string)
    requires Enabled(s, step) && CrashesSafely(s, step) && key != "" && Once(s, key) && Owned(s, key) && NotLost(s, key)
    ensures NotLost(Next(s, step, maxRetries), key)
  {
    var t := Next(s, step, maxRetries);
    SuccessesAfter(s, step, maxRetries, key);
    if Successes(t.applied, key) == 0 {
      if Present(s, key) {
        StepKeepsPresent(s, step, maxRetries, key);
        if step.Claim? && key in s.keys {
          var id :| Holds(s, id, key);
          assert Holds(t, id, key);
        }
      } else if step.Publish? {
        assert t.queue[|s.queue|] == Copy(step.event, 0);
      }
    }
  }

  ghost predicate NoStrandedKeys(states: seq<State>, steps: seq<Step>, maxRetries: nat)
    requires IsRun(states, steps, maxRetries)
  {
    forall i :: 0 <= i < |steps| ==> CrashesSafely(states[i], steps[i])
  }

  // While a published record has not been applied, a copy of its event is queued,
  // being handled or dead-lettered.
  lemma {:induction false} NeverLost(states: seq<State>, steps: seq<Step>, maxRetries: nat, i: nat, key: string)
    requires IsRun(states, steps, maxRetries) && NoStrandedKeys(states, steps, maxRetries)
    requires i < |states| && key != ""
    ensures Once(states[i], key) && Owned(states[i], key) && NotLost(states[i], key)
  {
    if i > 0 {
      NeverLost(states, steps, maxRetries, i - 1, key);
      StepKeepsOnce(states[i - 1], steps[i - 1], maxRetries, key);
      StepKeepsOwned(states[i - 1], steps[i - 1], maxRetries, key);
      StepKeepsNotLost(states[i - 1], steps[i - 1], maxRetries, key);
    }
  }

  // A key claimed by nobody who could still give it back or use it up.
  ghost predicate Stranded(s: State, key: string) {
    key in s.keys && Successes(s.applied, key) == 0 && forall id :: !Holds(s, id, key)
  }

  // A stranded key stays stranded: its event is never applied, whatever follows.
  lemma {:induction false} StrandedForever(states: seq<State>, steps: seq<Step>, maxRetries: nat, i: nat, key: string)
    requires IsPath(states, steps, maxRetries) && i < |states| && key != "" && Stranded(states[0], key)
    ensures Stranded(states[i], key)
  {
    if i > 0 {
      StrandedForever(states, steps, maxRetries, i - 1, key);
      SuccessesAfter(states[i - 1], steps[i - 1], maxRetries, key);
      KeysAfter(states[i - 1], steps[i - 1], maxRetries, key);
      forall id ensures !Holds(states[i], id, key) {
        if Holds(states[i], id, key) {
          HoldersAfter(states[i - 1], steps[i - 1], maxRetries, key, id);
        }
      }
    }
  }

  // A continuation that ends with an event of the key applied.
  ghost predicate Applies(s: State, states: seq<State>, steps: seq<Step>, key: string, maxRetries: nat) {
    IsPath(states, steps, maxRetries) && states[0] == s && Successes(states[|steps|].applied, key) > 0
  }

  ghost predicate CanBeApplied(s: State, key: string, maxRetries: nat) {
    exists states, steps :: Applies(s, states, steps, key, maxRetries)
  }

  lemma {:induction false} FreshId(ids: set<nat>) returns (id: nat)
    ensures forall i :: i in ids ==> i < id
    decreases |ids|
  {
    if i :| i in ids {
      var above := FreshId(ids - {i});
      id := if i < above then above else i + 1;
      forall j | j in ids ensures j < id {
        assert j != i ==> j in ids - {i};
      }
    } else {
      id := 0;
    }
  }

  lemma PathPrepend(s: State, step: Step, states: seq<State>, steps: seq<Step>, maxRetries: nat)
    requires Enabled(s, step) && IsPath(states, steps, maxRetries) && states[0] == Next(s, step, maxRetries)
    ensures IsPath([s] + states, [step] + steps, maxRetries)
  {
    var more, longer := [s] + states, [step] + steps;
    forall i | 0 <= i < |longer|
      ensures Enabled(more[i], longer[i]) && more[i + 1] == Next(more[i], longer[i], maxRetries)
    {
      if i > 0 {
        assert more[i] == states[i - 1] && more[i + 1] == states[i] && longer[i] == steps[i - 1];
      }
    }
  }

  lemma AppliesAfter(s: State, step: Step, states: seq<State>, steps: seq<Step>, key: string, maxRetries: nat)
    requires Enabled(s, step) && Applies(Next(s, step, maxRetries), states, steps, key, maxRetries)
    ensures Applies(s, [s] + states, [step] + steps, key, maxRetries)
  {
    PathPrepend(s, step, states, steps, maxRetries);
    assert ([s] + states)[|[step] + steps|] == states[|steps|];
  }

  // Whoever claimed the key applies its event.
  lemma ClaimedApplies(s: State, id: nat, key: string, maxRetries: nat)
    returns (states: seq<State>, steps: seq<Step>)
    requires At(s, id, {Claimed}) && DedupKey(s.handlers[id].copy.event) == key
    ensures Applies(s, states, steps, key, maxRetries)
  {
    var step := Apply(id, true);
    var done := Next(s, step, maxRetries);
    SuccessesAfter(s, step, maxRetries, key);
    assert IsPath([done], [], maxRetries) && [done][0] == done;
    AppliesAfter(s, step, [done], [], key, maxRetries);
    states, steps := [s] + [done], [step] + [];
  }

  // A queued copy whose key is free can be fetched, claimed and applied.
  lemma QueuedApplies(s: State, index: nat, key: string, maxRetries: nat)
    returns (states: seq<State>, steps: seq<Step>)
    requires index < |s.queue| && DedupKey(s.queue[index].event) == key && key !in s.keys
    ensures Applies(s, states, steps, key, maxRetries)
  {
    var id := FreshId(s.handlers.Keys);
    var fetched := Next(s, Fetch(id, index), maxRetries);
    var claimed := Next(fetched, Claim(id), maxRetries);
    states, steps := ClaimedApplies(claimed, id, key, maxRetries);
    AppliesAfter(fetched, Claim(id), states, steps, key, maxRetries);
    states, steps := [fetched] + states, [Claim(id)] + steps;
    AppliesAfter(s, Fetch(id, index), states, steps, key, maxRetries);
    states, steps := [s] + states, [Fetch(id, index)] + steps;
  }

  // Whoever owns the key applies its event, or gives the key back for a queued copy.
  lemma OwnedApplies(s: State, index: nat, key: string, maxRetries: nat)
    returns (states: seq<State>, steps: seq<Step>)
    requires key != "" && Once(s, key) && Owned(s, key)
    requires index < |s.queue| && DedupKey(s.queue[index].event) == key
    ensures Applies(s, states, steps, key, maxRetries)
  {
    if Successes(s.applied, key) > 0 {
      states, steps := [s], [];
    } else if key !in s.keys {
      states, steps := QueuedApplies(s, index, key, maxRetries);
    } else {
      var id :| Holds(s, id, key);
      if At(s, id, {Claimed}) {
        states, steps := ClaimedApplies(s, id, key, maxRetries);
      } else {
        states, steps := QueuedApplies(Next(s, Release(id), maxRetries), index, key, maxRetries);
        AppliesAfter(s, Release(id), states, steps, key, maxRetries);
        states, steps := [s] + states, [Release(id)] + steps;
      }
    }
  }

  // The condition is exact: after the crash of a handler the event can still be
  // applied if and only if that handler did not own the key. If it did, no
  // continuation applies the event; if not, it is not lost.
  lemma CrashIsSafeIff(s: State, id: nat, key: string, maxRetries: nat)
    requires id in s.handlers && DedupKey(s.handlers[id].copy.event) == key && key != ""
    requires Once(s, key) && Owned(s, key)
    ensures CanBeApplied(Next(s, Crash(id), maxRetries), key, maxRetries) <==> CrashesSafely(s, Crash(id))
    ensures CrashesSafely(s, Crash(id)) && NotLost(s, key) ==> NotLost(Next(s, Crash(id), maxRetries), key)
  {
    var t := Next(s, Crash(id), maxRetries);
    StepKeepsOnce(s, Crash(id), maxRetries, key);
    if CrashesSafely(s, Crash(id)) {
      StepKeepsOwned(s, Crash(id), maxRetries, key);
      var states, steps := OwnedApplies(t, |s.queue|, key, maxRetries);
      if NotLost(s, key) {
        StepKeepsNotLost(s, Crash(id), maxRetries, key);
      }
    } else {
      assert Holds(s, id, key);
      forall other ensures !Holds(t, other, key) {
        assert Holds(t, other, key) ==> Holds(s, other, key);
      }
      forall states, steps | IsPath(states, steps, maxRetries) && states[0] == t
        ensures !Applies(t, states, steps, key, maxRetries)
      {
        StrandedForever(states, steps, maxRetries, |steps|, key);
      }
    }
  }

  // And without it an event can vanish: claimed, crashed, delivered again, taken for
  // a duplicate and acknowledged.
  lemma StrandedKeyLosesEvent(e: ViewEvent, maxRetries: nat) returns (states: seq<State>, steps: seq<Step>)
    requires DedupKey(e) != ""
    ensures IsRun(states, steps, maxRetries) && e in states[|steps|].published
    ensures states[|steps|].queue == [] && states[|steps|].handlers == map[]
    ensures states[|steps|].dead == [] && states[|steps|].applied == []
  {
    var key, c := DedupKey(e), Copy(e, 0);
    states, steps := StrandKey(e, maxRetries);
    var fetched := State([], map[0 := Handler(c, Fetched)], {key}, [], [], [e]);
    states, steps := Extend(states, steps, Fetch(0, 0), fetched, maxRetries);
    var duplicate := State([], map[0 := Handler(c, Duplicate)], {key}, [], [], [e]);
    states, steps := Extend(states, steps, Claim(0), duplicate, maxRetries);
    states, steps := Extend(states, steps, Finish(0, true), State([], map[], {key}, [], [], [e]), maxRetries);
  }

  // The run up to the crash.
  lemma StrandKey(e: ViewEvent, maxRetries: nat) returns (states: seq<State>, steps: seq<Step>)
    requires DedupKey(e) != ""
    ensures IsRun(states, steps, maxRetries)
    ensures states[|steps|] == State([Copy(e, 0)], map[], {DedupKey(e)}, [], [], [e])
  {
    var key, c := DedupKey(e), Copy(e, 0);
    states, steps := [INIT], [];
    states, steps := Extend(states, steps, Publish(e), State([c], map[], {}, [], [], [e]), maxRetries);
    var fetched := State([], map[0 := Handler(c, Fetched)], {}, [], [], [e]);
    states, steps := Extend(states, steps, Fetch(0, 0), fetched, maxRetries);
    var claimed := State([], map[0 := Handler(c, Claimed)], {key}, [], [], [e]);
    states, steps := Extend(states, steps, Claim(0), claimed, maxRetries);
    states, steps := Extend(states, steps, Crash(0), State([c], map[], {key}, [], [], [e]), maxRetries);
  }
}
