// The registry of SSE connections, one step per critical section, so that
// register, unregister, Close, dispatch and readers interleave freely
// (infra/realtime/hub.go).
module RealtimeHub {
  import opened Base
  import opened Ranking

  const CLIENT_BUFFER: nat := 16
  const MAX_CONNECTIONS_PER_USER: nat := 5

  datatype Event = Event(kind: string, data: seq<int>)

  // A connection: its channel, whether the hub closed it, and what its reader has
  // taken out so far.
  datatype Client = Client(userID: int, closed: bool, buffer: seq<Event>, received: seq<Event>)

  // Clients are named by their id; `clients` also remembers those that left.
  datatype Registry = Registry(nextID: nat, clients: map<nat, Client>, members: map<int, set<nat>>)

  const EMPTY := Registry(0, map[], map[])

  predicate ById(a: nat, b: nat) {
    a < b
  }

  function Members(r: Registry, userID: int): set<nat> {
    if userID in r.members then r.members[userID] else {}
  }

  predicate IsMember(r: Registry, id: nat) {
    id in r.clients && id in Members(r, r.clients[id].userID)
  }

  function Registered(r: Registry): set<nat> {
    set id | id in r.clients && id in Members(r, r.clients[id].userID)
  }

  // ----- the critical sections -----

  // Those a new connection of the user pushes out: all but the newest ones.
  ghost function Evicted(r: Registry, userID: int): set<nat> {
    Members(r, userID) - Top(ById, Members(r, userID), MAX_CONNECTIONS_PER_USER - 1)
  }

  ghost function Kicked(r: Registry, userID: int): nat {
    |Evicted(r, userID)|
  }

  function CloseIn(clients: map<nat, Client>, ids: set<nat>): map<nat, Client> {
    map id | id in clients :: if id in ids then clients[id].(closed := true) else clients[id]
  }

  // The user's new client takes the place of the evicted ones.
  function Joined(r: Registry, userID: int, evicted: set<nat>): Registry {
    var id := r.nextID + 1;
    Registry(id,
             CloseIn(r.clients, evicted)[id := Client(userID, false, [], [])],
             r.members[userID := Members(r, userID) - evicted + {id}])
  }

  ghost function AfterRegister(r: Registry, userID: int): Registry {
    Joined(r, userID, Evicted(r, userID))
  }

  function AfterRemove(r: Registry, id: nat): Registry
    requires id in r.clients
  {
    var userID := r.clients[id].userID;
    if userID !in r.members then r
    else
      var left := r.members[userID] - {id};
      r.(members := if left == {} then r.members - {userID} else r.members[userID := left])
  }

  function AfterClose(r: Registry, id: nat): Registry {
    r.(clients := CloseIn(r.clients, {id}))
  }

  // trySend on an open channel: false when the buffer is full.
  predicate Full(r: Registry, id: nat)
    requires id in r.clients
  {
    !r.clients[id].closed && |r.clients[id].buffer| >= CLIENT_BUFFER
  }

  function AfterSend(r: Registry, id: nat, event: Event): Registry
    requires id in r.clients
  {
    var c := r.clients[id];
    if c.closed || |c.buffer| >= CLIENT_BUFFER then r
    else r.(clients := r.clients[id := c.(buffer := c.buffer + [event])])
  }

  function AfterRead(r: Registry, id: nat): Registry
    requires id in r.clients && r.clients[id].buffer != []
  {
    var c := r.clients[id];
    r.(clients := r.clients[id := c.(buffer := c.buffer[1..], received := c.received + [c.buffer[0]])])
  }

  // A reader takes the events in the order they were sent, one at a time.
  lemma ReadTakesOldest(r: Registry, id: nat)
    requires id in r.clients && r.clients[id].buffer != []
    ensures var c, c' := r.clients[id], AfterRead(r, id).clients[id];
            && c'.received == c.received + [c.buffer[0]] && [c.buffer[0]] + c'.buffer == c.buffer
            && c'.received + c'.buffer == c.received + c.buffer && |c'.buffer| < |c.buffer|
            && AfterRead(r, id).clients - {id} == r.clients - {id} && AfterRead(r, id).members == r.members
  {
    var c, c' := r.clients[id], AfterRead(r, id).clients[id];
    assert c.buffer == [c.buffer[0]] + c.buffer[1..];
    assert AfterRead(r, id).clients - {id} == r.clients - {id};
  }

  // ----- the machine -----

  // Where the running OnEvent call stands: who is still to be sent the event, and
  // the slow client it is unregistering (still registered, or removed and not yet
  // closed).
  datatype Drop = NoDrop | ToRemove(id: nat) | ToClose(id: nat)
  datatype Dispatch = Dispatch(userID: int, event: Event, targets: set<nat>, drop: Drop)

  datatype Logged = Logged(userID: int, event: Event)

  // `pending` are gauge adjustments and `closing` the closes that calls past their
  // locked section still owe. The rest is history: `log` holds the events in the
  // order of their snapshots, `since` and `left` each client's place in it when it
  // was registered and removed, `missed` the clients whose last snapshotted event
  // found them full or closed.
  datatype State = State(
    reg: Registry,
    gauge: int,
    pending: seq<int>,
    closing: set<nat>,
    dispatch: Option<Dispatch>,
    log: seq<Logged>,
    since: map<nat, nat>,
    left: map<nat, nat>,
    missed: set<nat>)

  const INIT := State(EMPTY, 0, [], {}, None, [], map[], map[], {})

  datatype Step =
    | Register(userID: int)
    | Unregister(id: nat)
    | CloseAll
    | CloseClient(id: nat)
    | Adjust(index: nat)
    | Snapshot(userID: int, event: Event)
    | TrySend(id: nat)
    | DropRemove
    | DropClose
    | Read(id: nat)

  predicate Idle(s: State) {
    s.dispatch.Some? ==> s.dispatch.value.targets == {} && s.dispatch.value.drop == NoDrop
  }

  predicate Enabled(s: State, step: Step) {
    match step
    case Register(_) => true
    case Unregister(id) => id in s.reg.clients
    case CloseAll => true
    case CloseClient(id) => id in s.closing
    case Adjust(i) => i < |s.pending|
    // OnEvent calls come one after the other.
    case Snapshot(userID, event) => Idle(s) && userID > 0 && event.data != []
    case TrySend(id) =>
      s.dispatch.Some? && s.dispatch.value.drop == NoDrop && id in s.dispatch.value.targets && id in s.reg.clients
    case DropRemove =>
      s.dispatch.Some? && s.dispatch.value.drop.ToRemove? && s.dispatch.value.drop.id in s.reg.clients
    case DropClose => s.dispatch.Some? && s.dispatch.value.drop.ToClose?
    case Read(id) => id in s.reg.clients && s.reg.clients[id].buffer != []
  }

  // The clients removed now.
  function Leave(s: State, ids: set<nat>): map<nat, nat> {
    s.left + map id | id in ids :: |s.log|
  }

  function AfterUnregister(s: State, id: nat): State
    requires id in s.reg.clients
  {
    if IsMember(s.reg, id) then
      s.(reg := AfterRemove(s.reg, id), pending := s.pending + [-1], left := Leave(s, {id}))
    else s.(reg := AfterRemove(s.reg, id))
  }

  function AfterTrySend(s: State, id: nat): State
    requires Enabled(s, TrySend(id))
  {
    var d := s.dispatch.value;
    var sent := d.(targets := d.targets - {id});
    if Full(s.reg, id) then s.(dispatch := Some(sent.(drop := ToRemove(id))))
    else
      s.(reg := AfterSend(s.reg, id, d.event), dispatch := Some(sent),
         missed := if s.reg.clients[id].closed then s.missed + {id} else s.missed)
  }

  ghost function AfterJoin(s: State, userID: int): State {
    var kicked: int := Kicked(s.reg, userID);
    s.(reg := AfterRegister(s.reg, userID),
       pending := s.pending + (if kicked > 0 then [-kicked] else []) + [1],
       since := s.since[s.reg.nextID + 1 := |s.log|],
       left := Leave(s, Evicted(s.reg, userID)))
  }

  ghost function Next(s: State, step: Step): State
    requires Enabled(s, step)
  {
    match step
    case Register(userID) => AfterJoin(s, userID)
    case Unregister(id) => AfterUnregister(s, id).(closing := s.closing + {id})
    case CloseAll =>
      var all := Registered(s.reg);
      s.(reg := s.reg.(members := map[]), closing := s.closing + all,
         pending := s.pending + (if |all| > 0 then [-|all|] else []), left := Leave(s, all))
    case CloseClient(id) => s.(reg := AfterClose(s.reg, id), closing := s.closing - {id})
    case Adjust(i) => s.(gauge := s.gauge + s.pending[i], pending := Without(s.pending, i))
    case Snapshot(userID, event) =>
      s.(dispatch := Some(Dispatch(userID, event, Members(s.reg, userID), NoDrop)),
         log := s.log + [Logged(userID, event)])
    case TrySend(id) => AfterTrySend(s, id)
    case DropRemove =>
      var d := s.dispatch.value;
      AfterUnregister(s, d.drop.id).(dispatch := Some(d.(drop := ToClose(d.drop.id))))
    case DropClose =>
      var d := s.dispatch.value;
      s.(reg := AfterClose(s.reg, d.drop.id), dispatch := Some(d.(drop := NoDrop)), missed := s.missed + {d.drop.id})
    case Read(id) => s.(reg := AfterRead(s.reg, id))
  }

  ghost predicate IsRun(states: seq<State>, steps: seq<Step>) {
    && |states| == |steps| + 1 && states[0] == INIT
    && forall i :: 0 <= i < |steps| ==> Enabled(states[i], steps[i]) && states[i + 1] == Next(states[i], steps[i])
  }

  // Serving one target step by step is what Deliver does at once: send, or remove and
  // close; the next target is then at hand.
  lemma StepsAreDeliver(s: State, id: nat)
    requires Enabled(s, TrySend(id)) && id in Members(s.reg, s.reg.clients[id].userID)
    ensures var d := s.dispatch.value;
            var sent := Next(s, TrySend(id));
            var served := d.(targets := d.targets - {id});
            if Full(s.reg, id) then
              && Enabled(sent, DropRemove) && Enabled(Next(sent, DropRemove), DropClose)
              && var t := Next(Next(sent, DropRemove), DropClose);
                 && t.reg == AfterClose(AfterRemove(s.reg, id), id) && t.dispatch == Some(served)
                 && t.pending == s.pending + [-1] && t.gauge == s.gauge
            else
              && sent.reg == AfterSend(s.reg, id, d.event) && sent.dispatch == Some(served)
              && sent.pending == s.pending && sent.gauge == s.gauge
  {
  }

  // ----- the registry invariant -----

  // Every registered client is open.
  ghost predicate OpenMember(r: Registry, userID: int, id: nat) {
    id in Members(r, userID) ==> id in r.clients && r.clients[id].userID == userID && !r.clients[id].closed
  }

  ghost predicate FewMembers(r: Registry, userID: int) {
    |Members(r, userID)| <= MAX_CONNECTIONS_PER_USER
  }

  ghost predicate ClientFits(r: Registry, id: nat) {
    id in r.clients ==> 0 < id <= r.nextID && |r.clients[id].buffer| <= CLIENT_BUFFER
  }

  ghost predicate Sound(r: Registry, userID: int, id: nat) {
    OpenMember(r, userID, id) && FewMembers(r, userID) && ClientFits(r, id)
  }

  ghost predicate ValidRegistry(r: Registry) {
    forall u, id :: Sound(r, u, id)
  }

  lemma ByIdIsTotal()
    ensures StrictTotal(ById)
  {
  }

  lemma CloseKeepsValid(r: Registry, id: nat)
    requires ValidRegistry(r) && !IsMember(r, id)
    ensures ValidRegistry(AfterClose(r, id)) && Registered(AfterClose(r, id)) == Registered(r)
  {
    var r' := AfterClose(r, id);
    forall u, i ensures Sound(r', u, i) {
      assert Sound(r, u, i);
    }
  }

  lemma MembersAfterRemove(r: Registry, id: nat, userID: int)
    requires id in r.clients && OpenMember(r, userID, id)
    ensures Members(AfterRemove(r, id), userID) == Members(r, userID) - {id}
  {
  }

  lemma RemoveKeepsValid(r: Registry, id: nat)
    requires ValidRegistry(r) && id in r.clients
    ensures ValidRegistry(AfterRemove(r, id)) && Registered(AfterRemove(r, id)) == Registered(r) - {id}
    ensures !IsMember(AfterRemove(r, id), id)
  {
    var r' := AfterRemove(r, id);
    forall u, i ensures Sound(r', u, i) {
      assert Sound(r, u, i) && Sound(r, u, id);
      MembersAfterRemove(r, id, u);
      SubsetSize(Members(r, u) - {id}, Members(r, u));
    }
    forall i ensures i in Registered(r') <==> i in Registered(r) - {id} {
      if i in r.clients {
        assert Sound(r, r.clients[i].userID, id);
        MembersAfterRemove(r, id, r.clients[i].userID);
      }
    }
  }

  // A new connection pushes out the user's oldest ones only, as few as make room,
  // and touches nobody else's.
  lemma EvictionTakesOldest(r: Registry, userID: int)
    requires ValidRegistry(r)
    ensures forall out, kept ::
              out in Evicted(r, userID) && kept in Members(r, userID) - Evicted(r, userID) ==> out < kept
    ensures |Members(r, userID)| < MAX_CONNECTIONS_PER_USER ==> Evicted(r, userID) == {}
    ensures |Members(r, userID)| == MAX_CONNECTIONS_PER_USER ==> |Evicted(r, userID)| == 1
    ensures |Members(r, userID) - Evicted(r, userID)| < MAX_CONNECTIONS_PER_USER
    ensures Evicted(r, userID) <= Members(r, userID)
  {
    ByIdIsTotal();
    assert Sound(r, userID, 0);
    var all, kept := Members(r, userID), Top(ById, Members(r, userID), MAX_CONNECTIONS_PER_USER - 1);
    TopSize(ById, all, MAX_CONNECTIONS_PER_USER - 1);
    assert all - (all - kept) == kept;
    assert |all - kept| == |all| - |kept|;
    forall a, b | a in all - kept && b in kept ensures a < b {
      KeptAboveDropped(ById, all, MAX_CONNECTIONS_PER_USER - 1, b, a);
    }
  }

  lemma MembersAfterRegister(r: Registry, userID: int, u: int)
    ensures Members(AfterRegister(r, userID), u) ==
            if u == userID then Members(r, u) - Evicted(r, u) + {r.nextID + 1} else Members(r, u)
  {
  }

  lemma NewIdIsFresh(r: Registry)
    requires ValidRegistry(r)
    ensures r.nextID + 1 !in r.clients && forall u :: r.nextID + 1 !in Members(r, u)
  {
    assert Sound(r, 0, r.nextID + 1);
    forall u ensures r.nextID + 1 !in Members(r, u) {
      assert Sound(r, u, r.nextID + 1);
    }
  }

  lemma RegisterKeepsFew(r: Registry, userID: int, u: int)
    requires ValidRegistry(r)
    ensures FewMembers(AfterRegister(r, userID), u)
  {
    EvictionTakesOldest(r, userID);
    MembersAfterRegister(r, userID, u);
    assert Sound(r, u, 0);
    if u == userID {
      SizeWith(Members(r, u) - Evicted(r, u), r.nextID + 1);
    }
  }

  lemma RegisterKeepsMember(r: Registry, userID: int, u: int, i: nat)
    requires ValidRegistry(r)
    ensures Sound(AfterRegister(r, userID), u, i)
  {
    RegisterKeepsFew(r, userID, u);
    MembersAfterRegister(r, userID, u);
    NewIdIsFresh(r);
    assert Sound(r, u, i) && Sound(r, userID, i);
  }

  lemma RegisterKeepsValid(r: Registry, userID: int)
    requires ValidRegistry(r)
    ensures var r' := AfterRegister(r, userID);
            ValidRegistry(r') && Registered(r') == Registered(r) - Evicted(r, userID) + {r.nextID + 1}
  {
    var r' := AfterRegister(r, userID);
    forall u, i ensures Sound(r', u, i) {
      RegisterKeepsMember(r, userID, u, i);
    }
    NewIdIsFresh(r);
    forall i ensures i in Registered(r') <==> i in Registered(r) - Evicted(r, userID) + {r.nextID + 1} {
      assert Sound(r, userID, i);
      if i in r.clients {
        MembersAfterRegister(r, userID, r.clients[i].userID);
      }
    }
  }

  // ----- the gauge -----

  function Sum(xs: seq<int>): int {
    if xs == [] then 0 else xs[0] + Sum(xs[1..])
  }

  lemma {:induction false} SumConcat(xs: seq<int>, ys: seq<int>)
    ensures Sum(xs + ys) == Sum(xs) + Sum(ys)
    decreases |xs|
  {
    if xs == [] {
      assert xs + ys == ys;
    } else {
      assert (xs + ys)[1..] == xs[1..] + ys;
      SumConcat(xs[1..], ys);
    }
  }

  lemma {:induction false} SumWithout(xs: seq<int>, i: nat)
    requires i < |xs|
    ensures Sum(xs) == xs[i] + Sum(Without(xs, i))
  {
    assert xs == xs[..i] + xs[i..] && xs[i..][1..] == xs[i + 1..];
    SumConcat(xs[..i], xs[i..]);
    SumConcat(xs[..i], xs[i + 1..]);
  }

  // The gauge and the adjustments still owed add up to the registered clients: no
  // arrival is missed and no removal counted twice.
  ghost predicate GaugeExact(s: State) {
    s.gauge + Sum(s.pending) == |Registered(s.reg)|
  }

  lemma UnregisterKeepsGauge(s: State, id: nat)
    requires ValidRegistry(s.reg) && GaugeExact(s) && id in s.reg.clients
    ensures GaugeExact(AfterUnregister(s, id))
  {
    RemoveKeepsValid(s.reg, id);
    SumConcat(s.pending, if IsMember(s.reg, id) then [-1] else []);
    assert Sum([-1]) == -1;
    var all := Registered(s.reg);
    assert IsMember(s.reg, id) <==> id in all;
    assert |all - {id}| == |all| - (if id in all then 1 else 0);
  }

  lemma RegisterKeepsGauge(s: State, userID: int)
    requires ValidRegistry(s.reg) && GaugeExact(s)
    ensures GaugeExact(AfterJoin(s, userID))
  {
    RegisteredAfterRegister(s.reg, userID);
    JoinAdjustments(s.pending, Kicked(s.reg, userID));
  }

  lemma JoinAdjustments(pending: seq<int>, kicked: int)
    requires kicked >= 0
    ensures Sum(pending + (if kicked > 0 then [-kicked] else []) + [1]) == Sum(pending) - kicked + 1
  {
    var kicks := if kicked > 0 then [-kicked] else [];
    assert Sum(kicks) == -kicked && Sum([1]) == 1;
    SumConcat(pending, kicks);
    SumConcat(pending + kicks, [1]);
  }

  lemma RegisteredAfterRegister(r: Registry, userID: int)
    requires ValidRegistry(r)
    ensures |Registered(AfterRegister(r, userID))| == |Registered(r)| - Kicked(r, userID) + 1
  {
    var all, evicted, id := Registered(r), Evicted(r, userID), r.nextID + 1;
    RegisterKeepsValid(r, userID);
    EvictionTakesOldest(r, userID);
    NewIdIsFresh(r);
    forall i | i in evicted ensures i in all {
      assert Sound(r, userID, i);
    }
    assert |all - evicted| == |all| - |evicted|;
    assert |all - evicted + {id}| == |all - evicted| + 1;
  }

  lemma CloseAllKeepsGauge(s: State)
    requires GaugeExact(s)
    ensures GaugeExact(Next(s, CloseAll))
  {
    var all := Registered(s.reg);
    SumConcat(s.pending, if |all| > 0 then [-|all|] else []);
    assert Sum([-|all|]) == -|all|;
    assert Registered(Next(s, CloseAll).reg) == {};
  }

  // ----- what every client has received -----

  function Of(log: seq<Logged>, userID: int): seq<Event> {
    if log == [] then []
    else
      var last := log[|log| - 1];
      Of(log[..|log| - 1], userID) + (if last.userID == userID then [last.event] else [])
  }

  lemma {:induction false} OfConcat(a: seq<Logged>, b: seq<Logged>, userID: int)
    ensures Of(a + b, userID) == Of(a, userID) + Of(b, userID)
    decreases |b|
  {
    if b == [] {
      assert a + b == a;
    } else {
      assert (a + b)[..|a + b| - 1] == a + b[..|b| - 1];
      OfConcat(a, b[..|b| - 1], userID);
    }
  }

  // The end of what the hub sends the client: the end of the log while it is
  // registered, then its place there when it left, less the event it missed.
  function Until(s: State, id: nat): int {
    if id in s.left then s.left[id] - Bit(id in s.missed) else |s.log|
  }

  predicate InLog(s: State, id: nat) {
    id in s.reg.clients && id in s.since && s.since[id] <= Until(s, id) <= |s.log|
  }

  // The client's user's events whose snapshot followed its registration.
  function Expected(s: State, id: nat): seq<Event>
    requires InLog(s, id)
  {
    Of(s.log[s.since[id]..], s.reg.clients[id].userID)
  }

  // Those of them the hub sends it.
  function Sent(s: State, id: nat): seq<Event>
    requires InLog(s, id)
  {
    Of(s.log[s.since[id]..Until(s, id)], s.reg.clients[id].userID)
  }

  // What it has read and what waits in its buffer.
  function Have(c: Client): seq<Event> {
    c.received + c.buffer
  }

  predicate Dropping(s: State, id: nat) {
    s.dispatch.Some? && (s.dispatch.value.drop == ToRemove(id) || s.dispatch.value.drop == ToClose(id))
  }

  // The running dispatch has not served the client, or dropped it.
  predicate Awaits(s: State, id: nat) {
    Dropping(s, id) || (s.dispatch.Some? && id in s.dispatch.value.targets)
  }

  ghost predicate Flow(s: State, id: nat)
    requires InLog(s, id)
  {
    var c := s.reg.clients[id];
    if Awaits(s, id) then Have(c) + [s.dispatch.value.event] == Sent(s, id) && Until(s, id) == |s.log|
    else Have(c) == Sent(s, id)
  }

  // The removed ones have a place where they left; those that missed are closed.
  ghost predicate LeftOk(s: State, id: nat) {
    && (id in s.left <==> id in s.reg.clients && !IsMember(s.reg, id)) && (id in s.left ==> s.left[id] <= |s.log|)
    && (id in s.missed ==> id in s.left && s.reg.clients[id].closed)
  }

  ghost predicate ClientOk(s: State, id: nat) {
    && (id in s.reg.clients ==>
          && InLog(s, id) && Flow(s, id)
          && (!IsMember(s.reg, id) && !s.reg.clients[id].closed ==>
                id in s.closing || (s.dispatch.Some? && s.dispatch.value.drop == ToClose(id))))
    && LeftOk(s, id)
    && (id in s.closing ==> id in s.reg.clients && !IsMember(s.reg, id))
    && (s.dispatch.Some? ==>
          && (id in s.dispatch.value.targets ==>
                id in s.reg.clients && s.reg.clients[id].userID == s.dispatch.value.userID)
          && (Dropping(s, id) ==>
                && id in s.reg.clients && id !in s.dispatch.value.targets
                && s.reg.clients[id].userID == s.dispatch.value.userID)
          && (s.dispatch.value.drop == ToClose(id) ==> !IsMember(s.reg, id)))
  }

  // The running dispatch is about the last event of the log.
  ghost predicate LastLogged(s: State) {
    s.dispatch.Some? ==>
      s.log != [] && s.log[|s.log| - 1] == Logged(s.dispatch.value.userID, s.dispatch.value.event)
  }

  ghost predicate Inv(s: State) {
    ValidRegistry(s.reg) && GaugeExact(s) && LastLogged(s) && forall id :: ClientOk(s, id)
  }

  // ----- every step keeps the invariant -----

  // A step that changes neither the client nor how far it is to be served.
  lemma FlowStays(s: State, t: State, id: nat)
    requires InLog(s, id) && Flow(s, id) && t.log == s.log && id in t.since && t.since[id] == s.since[id]
    requires id in t.reg.clients && t.reg.clients[id].userID == s.reg.clients[id].userID
    requires Have(t.reg.clients[id]) == Have(s.reg.clients[id]) && Until(t, id) == Until(s, id)
    requires Awaits(t, id) <==> Awaits(s, id)
    requires Awaits(t, id) ==> t.dispatch.value.event == s.dispatch.value.event
    ensures InLog(t, id) && Flow(t, id)
  {
  }

  // An awaited event that is not sent ends what the client gets.
  lemma MissesLast(s: State, id: nat)
    requires InLog(s, id) && Flow(s, id) && Awaits(s, id) && LastLogged(s)
    requires s.reg.clients[id].userID == s.dispatch.value.userID
    ensures s.since[id] < |s.log|
    ensures Have(s.reg.clients[id]) == Of(s.log[s.since[id]..|s.log| - 1], s.reg.clients[id].userID)
  {
    var window, c, event := s.log[s.since[id]..|s.log|], s.reg.clients[id], s.dispatch.value.event;
    assert Of(window, c.userID) == Have(c) + [event];
    assert window != [];
    var sent := Of(window[..|window| - 1], c.userID);
    assert Of(window, c.userID) == sent + [event];
    assert Have(c) == (Have(c) + [event])[..|Have(c) + [event]| - 1] == sent;
    assert window[..|window| - 1] == s.log[s.since[id]..|s.log| - 1];
  }

  lemma NewClient(s: State, userID: int)
    requires Inv(s)
    ensures ClientOk(AfterJoin(s, userID), s.reg.nextID + 1)
  {
    var t, id := AfterJoin(s, userID), s.reg.nextID + 1;
    NewIdIsFresh(s.reg);
    MembersAfterRegister(s.reg, userID, userID);
    assert ClientOk(s, id);
    assert t.log[|t.log|..|t.log|] == [];
  }

  lemma OldClientAfterRegister(r: Registry, userID: int, id: nat)
    requires ValidRegistry(r) && id in r.clients
    ensures var r' := AfterRegister(r, userID);
            && id in r'.clients && Have(r'.clients[id]) == Have(r.clients[id])
            && r'.clients[id].userID == r.clients[id].userID
            && (r'.clients[id].closed <==> r.clients[id].closed || id in Evicted(r, userID))
            && (IsMember(r', id) <==> IsMember(r, id) && id !in Evicted(r, userID))
  {
    NewIdIsFresh(r);
    assert Sound(r, userID, id);
    EvictionTakesOldest(r, userID);
    MembersAfterRegister(r, userID, r.clients[id].userID);
  }

  // Being pushed out does not change how far the hub has served a client.
  lemma OldClientFlow(s: State, userID: int, id: nat)
    requires ValidRegistry(s.reg) && ClientOk(s, id) && id in s.reg.clients
    ensures var t := AfterJoin(s, userID);
            InLog(t, id) && Flow(t, id) && LeftOk(t, id)
  {
    var t := AfterJoin(s, userID);
    NewIdIsFresh(s.reg);
    OldClientAfterRegister(s.reg, userID, id);
    EvictionTakesOldest(s.reg, userID);
    assert Sound(s.reg, userID, id);
    assert id in Evicted(s.reg, userID) ==> IsMember(s.reg, id);
    FlowStays(s, t, id);
  }

  lemma RegisterClient(s: State, userID: int, id: nat)
    requires Inv(s)
    ensures ClientOk(AfterJoin(s, userID), id)
  {
    NewIdIsFresh(s.reg);
    assert ClientOk(s, id);
    if id == s.reg.nextID + 1 {
      NewClient(s, userID);
    } else if id in s.reg.clients {
      OldClientAfterRegister(s.reg, userID, id);
      OldClientFlow(s, userID, id);
    } else {
      EvictionTakesOldest(s.reg, userID);
      assert Sound(s.reg, userID, id);
    }
  }

  lemma RemovedClient(s: State, id: nat, other: nat)
    requires Inv(s) && id in s.reg.clients
    ensures IsMember(AfterRemove(s.reg, id), other) <==> IsMember(s.reg, other) && other != id
    ensures AfterRemove(s.reg, id).clients == s.reg.clients
  {
    if other in s.reg.clients {
      assert Sound(s.reg, s.reg.clients[other].userID, id);
      MembersAfterRemove(s.reg, id, s.reg.clients[other].userID);
    }
  }

  // A removal does not change how far the hub has served a client.
  lemma UnregisterKeepsUntil(s: State, gone: nat, id: nat)
    requires Inv(s) && gone in s.reg.clients
    ensures var t := AfterUnregister(s, gone);
            && t.reg.clients == s.reg.clients && (IsMember(t.reg, id) <==> IsMember(s.reg, id) && id != gone)
            && Until(t, id) == Until(s, id) && LeftOk(t, id)
  {
    RemovedClient(s, gone, id);
    assert ClientOk(s, id);
  }

  lemma UnregisterClient(s: State, step: Step, id: nat)
    requires Inv(s) && Enabled(s, step) && (step.Unregister? || step.DropRemove?)
    ensures ClientOk(Next(s, step), id)
  {
    var gone := if step.Unregister? then step.id else s.dispatch.value.drop.id;
    UnregisterKeepsUntil(s, gone, id);
    assert ClientOk(s, id) && ClientOk(s, gone);
    if id in s.reg.clients {
      FlowStays(s, Next(s, step), id);
    }
  }

  lemma DropCloseClient(s: State, id: nat)
    requires Inv(s) && Enabled(s, DropClose)
    ensures ClientOk(Next(s, DropClose), id)
  {
    assert ClientOk(s, id) && ClientOk(s, s.dispatch.value.drop.id);
    if id == s.dispatch.value.drop.id {
      MissesLast(s, id);
    }
  }

  lemma ClosingClient(s: State, step: Step, id: nat)
    requires Inv(s) && Enabled(s, step) && (step.CloseAll? || step.CloseClient?)
    ensures ClientOk(Next(s, step), id)
  {
    assert ClientOk(s, id);
  }

  lemma SnapshotClient(s: State, userID: int, event: Event, id: nat)
    requires Inv(s) && Enabled(s, Snapshot(userID, event))
    ensures ClientOk(Next(s, Snapshot(userID, event)), id)
  {
    var t := Next(s, Snapshot(userID, event));
    assert ClientOk(s, id) && Sound(s.reg, userID, id);
    if id in s.reg.clients {
      var tail := s.log[s.since[id]..|s.log|];
      assert t.log[t.since[id]..|t.log|] == tail + [Logged(userID, event)];
      assert (tail + [Logged(userID, event)])[..|tail|] == tail;
      assert id in s.left ==> t.log[t.since[id]..Until(s, id)] == s.log[s.since[id]..Until(s, id)];
    }
  }

  lemma SendTarget(s: State, id: nat)
    requires Inv(s) && Enabled(s, TrySend(id))
    ensures ClientOk(Next(s, TrySend(id)), id)
  {
    assert ClientOk(s, id) && Sound(s.reg, s.reg.clients[id].userID, id);
    var c := s.reg.clients[id];
    if c.closed {
      MissesLast(s, id);
    } else {
      assert c.received + (c.buffer + [s.dispatch.value.event]) == Have(c) + [s.dispatch.value.event];
    }
  }

  lemma SendClient(s: State, to: nat, id: nat)
    requires Inv(s) && Enabled(s, TrySend(to))
    ensures ClientOk(Next(s, TrySend(to)), id)
  {
    assert ClientOk(s, id) && ClientOk(s, to);
    if id == to {
      SendTarget(s, id);
    } else if id in s.reg.clients {
      FlowStays(s, Next(s, TrySend(to)), id);
    }
  }

  lemma ReadClient(s: State, from: nat, id: nat)
    requires Inv(s) && Enabled(s, Read(from))
    ensures ClientOk(Next(s, Read(from)), id)
  {
    assert ClientOk(s, id);
    var c := s.reg.clients[from];
    assert c.buffer == [c.buffer[0]] + c.buffer[1..];
    assert c.received + [c.buffer[0]] + c.buffer[1..] == c.received + c.buffer;
  }

  lemma StepKeepsClient(s: State, step: Step, id: nat)
    requires Inv(s) && Enabled(s, step)
    ensures ClientOk(Next(s, step), id)
  {
    match step
    case Register(userID) => RegisterClient(s, userID, id);
    case Unregister(_) => UnregisterClient(s, step, id);
    case DropRemove => UnregisterClient(s, step, id);
    case CloseAll => ClosingClient(s, step, id);
    case CloseClient(_) => ClosingClient(s, step, id);
    case DropClose => DropCloseClient(s, id);
    case Adjust(_) => assert ClientOk(s, id);
    case Snapshot(userID, event) => SnapshotClient(s, userID, event, id);
    case TrySend(to) => SendClient(s, to, id);
    case Read(from) => ReadClient(s, from, id);
  }

  // A change of one client's channel leaves the registry as it was.
  lemma ChannelKeepsValid(r: Registry, id: nat, c: Client)
    requires ValidRegistry(r) && id in r.clients && |c.buffer| <= CLIENT_BUFFER
    requires c.userID == r.clients[id].userID && c.closed == r.clients[id].closed
    ensures var r' := r.(clients := r.clients[id := c]); ValidRegistry(r') && Registered(r') == Registered(r)
  {
    var r' := r.(clients := r.clients[id := c]);
    forall u, i ensures Sound(r', u, i) {
      assert Sound(r, u, i);
    }
  }

  lemma StepKeepsRegistry(s: State, step: Step)
    requires Inv(s) && Enabled(s, step)
    ensures ValidRegistry(Next(s, step).reg) && GaugeExact(Next(s, step))
  {
    match step
    case Register(userID) => RegisterKeepsValid(s.reg, userID); RegisterKeepsGauge(s, userID);
    case Unregister(id) => RemoveKeepsValid(s.reg, id); UnregisterKeepsGauge(s, id);
    case DropRemove =>
      RemoveKeepsValid(s.reg, s.dispatch.value.drop.id);
      UnregisterKeepsGauge(s, s.dispatch.value.drop.id);
    case CloseAll => EmptiedKeepsValid(s.reg); CloseAllKeepsGauge(s);
    case CloseClient(id) => assert ClientOk(s, id); CloseKeepsValid(s.reg, id);
    case DropClose => assert ClientOk(s, s.dispatch.value.drop.id); CloseKeepsValid(s.reg, s.dispatch.value.drop.id);
    case Adjust(i) => SumWithout(s.pending, i);
    case Snapshot(_, _) =>
    case TrySend(id) => SendKeepsValid(s.reg, id, s.dispatch.value.event);
    case Read(id) => ReadKeepsValid(s.reg, id);
  }

  lemma EmptiedKeepsValid(r: Registry)
    requires ValidRegistry(r)
    ensures ValidRegistry(r.(members := map[]))
  {
    forall u, i ensures Sound(r.(members := map[]), u, i) {
      assert Sound(r, u, i);
    }
  }

  lemma SendKeepsValid(r: Registry, id: nat, event: Event)
    requires ValidRegistry(r) && id in r.clients
    ensures ValidRegistry(AfterSend(r, id, event)) && Registered(AfterSend(r, id, event)) == Registered(r)
  {
    var c := r.clients[id];
    if !c.closed && |c.buffer| < CLIENT_BUFFER {
      ChannelKeepsValid(r, id, c.(buffer := c.buffer + [event]));
    }
  }

  lemma ReadKeepsValid(r: Registry, id: nat)
    requires ValidRegistry(r) && id in r.clients && r.clients[id].buffer != []
    ensures ValidRegistry(AfterRead(r, id)) && Registered(AfterRead(r, id)) == Registered(r)
  {
    var c := r.clients[id];
    assert Sound(r, 0, id);
    ChannelKeepsValid(r, id, c.(buffer := c.buffer[1..], received := c.received + [c.buffer[0]]));
  }

  lemma {:induction false} RunKeepsInv(states: seq<State>, steps: seq<Step>, i: nat)
    requires IsRun(states, steps) && i < |states|
    ensures Inv(states[i])
  {
    if i == 0 {
      assert Registered(EMPTY) == {};
    } else {
      RunKeepsInv(states, steps, i - 1);
      StepKeepsRegistry(states[i - 1], steps[i - 1]);
      forall id ensures ClientOk(states[i], id) {
        StepKeepsClient(states[i - 1], steps[i - 1], id);
      }
    }
  }

  // ----- the main results -----

  // Every registered client is open, no user has more than five, and the gauge is
  // the number of registered clients once every owed adjustment is made.
  lemma RegistryIsSound(states: seq<State>, steps: seq<Step>, i: nat)
    requires IsRun(states, steps) && i < |states|
    ensures var s := states[i];
            && (forall id :: id in Registered(s.reg) ==> !s.reg.clients[id].closed)
            && (forall u :: |Members(s.reg, u)| <= MAX_CONNECTIONS_PER_USER)
            && s.gauge + Sum(s.pending) == |Registered(s.reg)|
            && (s.pending == [] ==> s.gauge == |Registered(s.reg)|)
  {
    RunKeepsInv(states, steps, i);
    var s := states[i];
    forall id | id in Registered(s.reg) ensures !s.reg.clients[id].closed {
      assert Sound(s.reg, s.reg.clients[id].userID, id);
    }
    forall u ensures |Members(s.reg, u)| <= MAX_CONNECTIONS_PER_USER {
      assert Sound(s.reg, u, 0);
    }
  }

  // Gap-free delivery: what a client has received plus its buffer is exactly its
  // user's events whose snapshot followed its registration and preceded its
  // removal, but for the event the running dispatch still owes it, or the last one
  // when that found it full or already closed. So an open client misses nothing if
  // and only if no event of its user was snapshotted since it was removed; an open
  // client that was removed is about to be closed.
  lemma GapFree(states: seq<State>, steps: seq<Step>, i: nat, id: nat)
    requires IsRun(states, steps) && i < |states| && id in states[i].reg.clients
    ensures var s := states[i];
            var c := s.reg.clients[id];
            && InLog(s, id)
            && (IsMember(s.reg, id) <==> id !in s.left) && (id in s.missed ==> c.closed)
            && (if Awaits(s, id) then Have(c) + [s.dispatch.value.event] == Expected(s, id) else Have(c) == Sent(s, id))
            && Have(c) <= Expected(s, id)
            && (!Awaits(s, id) ==> (Have(c) == Expected(s, id) <==> Of(s.log[Until(s, id)..], c.userID) == []))
            && (Idle(s) && s.closing == {} && !c.closed ==> Have(c) == Expected(s, id))
  {
    RunKeepsInv(states, steps, i);
    var s := states[i];
    assert ClientOk(s, id);
    var since, until := s.since[id], Until(s, id);
    assert s.log[since..] == s.log[since..until] + s.log[until..];
    OfConcat(s.log[since..until], s.log[until..], s.reg.clients[id].userID);
  }

  lemma FirstClient(userID: int)
    ensures Next(INIT, Register(userID)) ==
            State(Registry(1, map[1 := Client(userID, false, [], [])], map[userID := {1}]),
                  0, [1], {}, None, [], map[1 := 0], map[], {})
  {
    assert Members(EMPTY, userID) == {} && Evicted(EMPTY, userID) == {};
  }

  // A client removed and not yet closed does miss its user's next event.
  lemma RemovedClientMisses(event: Event) returns (states: seq<State>, steps: seq<Step>)
    requires event.data != []
    ensures steps == [Register(7), Unregister(1), Snapshot(7, event)] && IsRun(states, steps)
    ensures var s := states[3];
            && 1 in s.reg.clients && !s.reg.clients[1].closed && !Awaits(s, 1) && InLog(s, 1)
            && Have(s.reg.clients[1]) == [] && Expected(s, 1) == [event]
  {
    FirstClient(7);
    var joined := Next(INIT, Register(7));
    var removed := Next(joined, Unregister(1));
    var s := Next(removed, Snapshot(7, event));
    states, steps := [INIT, joined, removed, s], [Register(7), Unregister(1), Snapshot(7, event)];
    assert s.log[s.since[1]..] == [Logged(7, event)] && [Logged(7, event)][..0] == [];
    assert Of([Logged(7, event)], 7) == Of([], 7) + [event];
  }

  // ----- the hub object -----

  // Dropping the oldest of more than k members keeps the k newest.
  lemma TopWithoutOldest(members: set<nat>, oldest: nat, k: nat)
    requires oldest in members && |members| > k && forall id :: id in members && id != oldest ==> oldest < id
    ensures Top(ById, members - {oldest}, k) == Top(ById, members, k)
  {
    assert Above(ById, members, oldest) == members - {oldest};
    forall id | id in members - {oldest} ensures Above(ById, members, id) == Above(ById, members - {oldest}, id) {
    }
  }

  // What the eviction loop has kept so far still holds the newest members.
  ghost predicate KeepsNewest(all: set<nat>, kept: set<nat>) {
    kept <= all && Top(ById, kept, MAX_CONNECTIONS_PER_USER - 1) == Top(ById, all, MAX_CONNECTIONS_PER_USER - 1)
  }

  lemma EvictMore(all: set<nat>, kept: set<nat>, victim: nat)
    requires KeepsNewest(all, kept) && |kept| >= MAX_CONNECTIONS_PER_USER
    requires victim in kept && forall id :: id in kept && id != victim ==> victim < id
    ensures KeepsNewest(all, kept - {victim})
    ensures all - (kept - {victim}) == all - kept + {victim} && |all - kept + {victim}| == |all - kept| + 1
  {
    TopWithoutOldest(kept, victim, MAX_CONNECTIONS_PER_USER - 1);
  }

  lemma EvictedEnough(all: set<nat>, kept: set<nat>)
    requires KeepsNewest(all, kept) && |kept| < MAX_CONNECTIONS_PER_USER
    ensures kept == Top(ById, all, MAX_CONNECTIONS_PER_USER - 1) && all - (all - kept) == kept
  {
    ByIdIsTotal();
    TopSize(ById, kept, MAX_CONNECTIONS_PER_USER - 1);
  }

  lemma RegisterParts(r: Registry, userID: int, clients: map<nat, Client>, kept: set<nat>)
    requires kept == Members(r, userID) - Evicted(r, userID) && clients == CloseIn(r.clients, Evicted(r, userID))
    ensures Registry(r.nextID + 1, clients[r.nextID + 1 := Client(userID, false, [], [])],
                     r.members[userID := kept + {r.nextID + 1}]) == AfterRegister(r, userID)
  {
  }

  lemma MembersExist(r: Registry, userID: int)
    requires ValidRegistry(r)
    ensures Members(r, userID) <= r.clients.Keys
  {
    forall id | id in Members(r, userID) ensures id in r.clients {
      assert Sound(r, userID, id);
    }
  }

  // The targets of a dispatch that could not take the event.
  function Slow(r: Registry, targets: set<nat>): set<nat> {
    set id | id in targets && id in r.clients && Full(r, id)
  }

  // The channels after a dispatch: slow targets closed, the others sent the event.
  function Served(r: Registry, targets: set<nat>, event: Event): map<nat, Client> {
    map id | id in r.clients ::
      var c := r.clients[id];
      if id !in targets || c.closed then c
      else if Full(r, id) then c.(closed := true)
      else c.(buffer := c.buffer + [event])
  }

  // Some targets are served, closed and removed when slow, nobody else is touched,
  // and the gauge has moved by `moved`.
  ghost predicate Dispatched(r: Registry, done: set<nat>, event: Event, now: Registry, moved: int) {
    && ValidRegistry(now) && now.clients == Served(r, done, event) && moved == -|Slow(r, done)|
    && forall u :: Members(now, u) == Members(r, u) - Slow(r, done)
  }

  ghost predicate EventReached(r: Registry, userID: int, event: Event, now: Registry) {
    && now.clients.Keys == r.clients.Keys
    && (forall id :: id in r.clients ==>
          var c := r.clients[id];
          now.clients[id] == if id !in Members(r, userID) then c
                             else if |c.buffer| >= CLIENT_BUFFER then c.(closed := true)
                             else c.(buffer := c.buffer + [event]))
    && (forall u, id ::
          id in Members(now, u) <==>
          id in Members(r, u) && (u == userID && id in r.clients ==> |r.clients[id].buffer| < CLIENT_BUFFER))
  }

  lemma DispatchReaches(r: Registry, userID: int, event: Event, now: Registry, moved: int)
    requires ValidRegistry(r) && Dispatched(r, Members(r, userID), event, now, moved)
    ensures EventReached(r, userID, event, now)
  {
    forall id | id in r.clients
      ensures var c := r.clients[id];
              now.clients[id] == if id !in Members(r, userID) then c
                                 else if |c.buffer| >= CLIENT_BUFFER then c.(closed := true)
                                 else c.(buffer := c.buffer + [event])
    {
      assert Sound(r, userID, id);
    }
    forall u, id
      ensures id in Members(now, u) <==>
              id in Members(r, u) && (u == userID && id in r.clients ==> |r.clients[id].buffer| < CLIENT_BUFFER)
    {
      assert Sound(r, userID, id) && Sound(r, u, id);
    }
  }

  class Hub {
    var nextID: nat
    var clients: map<nat, Client>
    var members: map<int, set<nat>>
    var gauge: int

    constructor ()
      ensures View() == EMPTY && gauge == 0
    {
      nextID, clients, members, gauge := 0, map[], map[], 0;
    }

    ghost function View(): Registry
      reads this
    {
      Registry(nextID, clients, members)
    }

    method Register(userID: int) returns (id: nat)
      requires ValidRegistry(View())
      modifies this
      ensures View() == AfterRegister(old(View()), userID) && id == nextID
      ensures gauge == old(gauge) - Kicked(old(View()), userID) + 1
    {
      ghost var before := Registry(nextID, clients, members);
      MembersExist(before, userID);
      nextID := nextID + 1;
      id := nextID;
      var kept, kicked := EvictOldest(userID, before);
      RegisterParts(before, userID, clients, kept);
      clients := clients[id := Client(userID, false, [], [])];
      members := members[userID := kept + {id}];
      gauge := gauge - kicked;
      gauge := gauge + 1;
    }

    // The loop that makes room.
    method EvictOldest(userID: int, ghost r: Registry) returns (kept: set<nat>, kicked: nat)
      requires Members(r, userID) <= r.clients.Keys && clients == r.clients && members == r.members
      modifies this`clients
      ensures kept == Members(r, userID) - Evicted(r, userID) && kicked == Kicked(r, userID)
      ensures clients == CloseIn(r.clients, Evicted(r, userID))
    {
      ghost var all := Members(r, userID);
      kept, kicked := if userID in members then members[userID] else {}, 0;
      assert clients == CloseIn(r.clients, all - kept);
      while |kept| >= MAX_CONNECTIONS_PER_USER
        invariant KeepsNewest(all, kept) && kicked == |all - kept| && clients == CloseIn(r.clients, all - kept)
        decreases |kept|
      {
        var victim := Oldest(kept);
        EvictMore(all, kept, victim);
        kept := kept - {victim};
        clients := clients[victim := clients[victim].(closed := true)];
        kicked := kicked + 1;
      }
      EvictedEnough(all, kept);
    }

    // The scan for the smallest id.
    static method Oldest(candidates: set<nat>) returns (victim: nat)
      requires |candidates| > 0
      ensures victim in candidates && forall id :: id in candidates && id != victim ==> victim < id
    {
      NonEmpty(candidates);
      victim :| victim in candidates;
      var rest := candidates - {victim};
      while rest != {}
        invariant rest <= candidates && victim in candidates && victim !in rest
        invariant forall id :: id in candidates && id !in rest && id != victim ==> victim < id
        decreases |rest|
      {
        NonEmpty(rest);
        var candidate :| candidate in rest;
        if candidate < victim {
          victim := candidate;
        }
        rest := rest - {candidate};
      }
    }

    method CloseChannel(id: nat)
      requires id in clients
      modifies this`clients
      ensures View() == AfterClose(old(View()), id)
    {
      if !clients[id].closed {
        clients := clients[id := clients[id].(closed := true)];
      }
    }

    method Unregister(id: nat)
      requires ValidRegistry(View()) && id in clients
      modifies this`clients, this`members, this`gauge
      ensures View() == AfterClose(AfterRemove(old(View()), id), id) && ValidRegistry(View())
      ensures gauge == old(gauge) - Bit(IsMember(old(View()), id))
    {
      RemoveKeepsValid(View(), id);
      CloseKeepsValid(AfterRemove(View(), id), id);
      var removed, userID := false, clients[id].userID;
      if userID in members {
        removed := id in members[userID];
        var left := members[userID] - {id};
        if left == {} {
          members := members - {userID};
        } else {
          members := members[userID := left];
        }
      }
      CloseChannel(id);
      if removed {
        gauge := gauge - 1;
      }
    }

    method Close()
      requires ValidRegistry(View())
      modifies this`clients, this`members, this`gauge
      ensures members == map[] && clients == CloseIn(old(clients), Registered(old(View())))
      ensures gauge == old(gauge) - |Registered(old(View()))|
    {
      var all := set id | id in clients && clients[id].userID in members && id in members[clients[id].userID];
      assert all == Registered(View());
      members := map[];
      var rest := all;
      while rest != {}
        invariant rest <= all && members == map[] && gauge == old(gauge)
        invariant clients == CloseIn(old(clients), all - rest)
        decreases |rest|
      {
        NonEmpty(rest);
        var id :| id in rest;
        CloseMore(old(clients), all - rest, id);
        assert all - (rest - {id}) == all - rest + {id};
        CloseChannel(id);
        rest := rest - {id};
      }
      if |all| > 0 {
        gauge := gauge - |all|;
      }
    }

    method TrySend(id: nat, event: Event) returns (sent: bool, open: bool)
      requires id in clients
      modifies this`clients
      ensures View() == AfterSend(old(View()), id, event)
      ensures open == !old(clients[id].closed) && (!sent && open <==> Full(old(View()), id))
    {
      var c := clients[id];
      if c.closed {
        return false, false;
      }
      if |c.buffer| < CLIENT_BUFFER {
        clients := clients[id := c.(buffer := c.buffer + [event])];
        return true, true;
      }
      return false, true;
    }

    // One target: sent the event, or unregistered because its buffer is full.
    method Deliver(id: nat, event: Event)
      requires ValidRegistry(View()) && id in clients
      modifies this`clients, this`members, this`gauge
      ensures var r := old(View());
              if Full(r, id) then
                View() == AfterClose(AfterRemove(r, id), id) && gauge == old(gauge) - Bit(IsMember(r, id))
              else View() == AfterSend(r, id, event) && gauge == old(gauge)
    {
      SendKeepsValid(View(), id, event);
      var sent, open := TrySend(id, event);
      if !sent && open {
        Unregister(id);
      }
    }

    // The user's clients get the event or, when too slow, leave; nobody else is touched.
    method OnEvent(userID: int, event: Event)
      requires ValidRegistry(View())
      modifies this`clients, this`members, this`gauge
      ensures userID <= 0 || event.data == [] ==> View() == old(View()) && gauge == old(gauge)
      ensures userID > 0 && event.data != [] ==>
                Dispatched(old(View()), Members(old(View()), userID), event, View(), gauge - old(gauge))
      // Every registered client of the user has the event behind what it had, or was
      // full and is closed and gone; no other client and no other user changes.
      ensures userID > 0 && event.data != [] ==> EventReached(old(View()), userID, event, View())
    {
      if userID <= 0 || event.data == [] {
        return;
      }
      ghost var r, before := View(), gauge;
      var targets := if userID in members then members[userID] else {};
      var rest := targets;
      StartDispatch(r, event);
      while rest != {}
        invariant rest <= targets && Dispatched(r, targets - rest, event, View(), gauge - before)
        decreases |rest|
      {
        NonEmpty(rest);
        var id :| id in rest;
        assert targets - (rest - {id}) == targets - rest + {id};
        ServeOne(r, userID, targets - rest, id, event, View(), gauge - before);
        ghost var now := View();
        Deliver(id, event);
        assert View() == if Full(r, id) then AfterClose(AfterRemove(now, id), id) else AfterSend(now, id, event);
        rest := rest - {id};
      }
      assert targets - rest == targets;
      DispatchReaches(r, userID, event, View(), gauge - before);
    }
  }

  lemma CloseMore(clients: map<nat, Client>, done: set<nat>, id: nat)
    ensures CloseIn(CloseIn(clients, done), {id}) == CloseIn(clients, done + {id})
  {
  }

  lemma StartDispatch(r: Registry, event: Event)
    requires ValidRegistry(r)
    ensures Dispatched(r, {}, event, r, 0)
  {
    assert Served(r, {}, event) == r.clients && Slow(r, {}) == {};
  }

  // The next target is still as the snapshot found it: sent the event, or removed
  // and closed.
  lemma ServeOne(r: Registry, userID: int, done: set<nat>, id: nat, event: Event, now: Registry, moved: int)
    requires ValidRegistry(r) && done <= Members(r, userID) && id in Members(r, userID) - done
    requires Dispatched(r, done, event, now, moved)
    ensures id in now.clients && !now.clients[id].closed && now.clients[id] == r.clients[id]
    ensures Full(r, id) ==>
              IsMember(now, id) && Dispatched(r, done + {id}, event, AfterClose(AfterRemove(now, id), id), moved - 1)
    ensures !Full(r, id) ==> Dispatched(r, done + {id}, event, AfterSend(now, id, event), moved)
  {
    assert Sound(r, userID, id);
    SendKeepsValid(now, id, event);
    if Full(r, id) {
      ServeSlow(r, userID, done, id, event, now, moved);
    } else {
      assert Slow(r, done + {id}) == Slow(r, done);
      assert AfterSend(now, id, event).clients == Served(r, done + {id}, event);
      forall u ensures Members(AfterSend(now, id, event), u) == Members(now, u) {
      }
    }
  }

  lemma ServedSlow(r: Registry, done: set<nat>, id: nat, event: Event)
    requires id in r.clients && Full(r, id) && id !in done
    ensures Served(r, done + {id}, event) == CloseIn(Served(r, done, event), {id})
  {
  }

  lemma ServeSlow(r: Registry, userID: int, done: set<nat>, id: nat, event: Event, now: Registry, moved: int)
    requires ValidRegistry(r) && done <= Members(r, userID) && id in Members(r, userID) - done
    requires Dispatched(r, done, event, now, moved) && id in r.clients && Full(r, id)
    ensures id in now.clients && IsMember(now, id)
    ensures Dispatched(r, done + {id}, event, AfterClose(AfterRemove(now, id), id), moved - 1)
  {
    assert Sound(r, userID, id);
    var removed := AfterRemove(now, id);
    RemoveKeepsValid(now, id);
    CloseKeepsValid(removed, id);
    assert id !in Slow(r, done) && Slow(r, done + {id}) == Slow(r, done) + {id};
    ServedSlow(r, done, id, event);
    forall u ensures Members(AfterClose(removed, id), u) == Members(r, u) - Slow(r, done + {id}) {
      assert Sound(now, u, id);
      MembersAfterRemove(now, id, u);
    }
  }
}
