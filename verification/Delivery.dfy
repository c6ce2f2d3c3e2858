// Message delivery: one handler run per delivered copy, retries republished with
// an incremented count to every queue bound to the routing key, dead-lettering
// (infra/mq/consumer.go, infra/mq/topology.go).
module Delivery {
  import opened Base
  import opened Ranking

  const DEFAULT_MAX_RETRIES: nat := 3

  // The value of the retry header; brokers hand numbers back in several types.
  datatype Header = Integer(n: int) | Float(x: real) | Other

  datatype Message = Message(id: string, exchange: string, routingKey: string, retry: Option<Header>, body: string)

  // A copy of a message in one queue.
  datatype Copy = Copy(queue: string, msg: Message)

  datatype Binding = Binding(exchange: string, routingKey: string, queue: string)

  // What becomes of a delivery: the body does not decode, or the handler succeeds
  // or fails; after a failure the republish goes through or not.
  datatype Outcome = Undecodable | Succeeded | Failed(republished: bool)

  datatype Fate = Handled | Retried | DeadLettered
  datatype Settled = Settled(copy: Copy, fate: Fate)

  // `runs` lists the queues of the handler runs so far. Copies wait in one sequence;
  // any of them may be delivered next, to any of several consuming processes.
  datatype Broker = Broker(
    bindings: seq<Binding>, maxRetries: nat, waiting: seq<Copy>, settled: seq<Settled>, runs: seq<string>)

  function MaxRetries(configured: int): (r: nat)
    ensures configured > 0 ==> r == configured
    ensures configured <= 0 ==> r == DEFAULT_MAX_RETRIES
  {
    if configured > 0 then configured else DEFAULT_MAX_RETRIES
  }

  // retryCountOf: only positive numbers count; a float is truncated.
  function RetryCount(header: Option<Header>): (count: nat)
    ensures header.Some? && header.value.Integer? && header.value.n > 0 ==> count == header.value.n
    ensures header.Some? && header.value.Float? && header.value.x > 0.0 ==>
              count as real <= header.value.x < count as real + 1.0
    ensures !(header.Some? && (header.value.Integer? || header.value.Float?)) ==> count == 0
  {
    match header
    case Some(Integer(n)) => if n > 0 then n else 0
    case Some(Float(x)) => if x > 0.0 then x.Floor else 0
    case _ => 0
  }

  function BoundTo(bindings: seq<Binding>, exchange: string, routingKey: string): seq<string> {
    if bindings == [] then []
    else
      (if bindings[0].exchange == exchange && bindings[0].routingKey == routingKey then [bindings[0].queue] else [])
      + BoundTo(bindings[1..], exchange, routingKey)
  }

  function Queues(b: Broker, m: Message): seq<string> {
    BoundTo(b.bindings, m.exchange, m.routingKey)
  }

  function Copies(queues: seq<string>, m: Message): seq<Copy> {
    if queues == [] then [] else [Copy(queues[0], m)] + Copies(queues[1..], m)
  }

  function AfterPublish(b: Broker, m: Message): Broker {
    b.(waiting := b.waiting + Copies(Queues(b, m), m))
  }

  function Retry(m: Message): Message {
    m.(retry := Some(Integer(RetryCount(m.retry) + 1)))
  }

  function Exhausted(b: Broker, m: Message): bool {
    RetryCount(m.retry) >= b.maxRetries
  }

  // What an acknowledgement or a rejection does; when it does not reach the broker
  // the copy stays, to be delivered again.
  function Settle(b: Broker, i: nat, fate: Fate, acked: bool): Broker
    requires i < |b.waiting|
  {
    if !acked then b
    else b.(waiting := Without(b.waiting, i), settled := b.settled + [Settled(b.waiting[i], fate)])
  }

  // One turn of the consume loop with retryOrDeadLetter. A requeued copy stays
  // where it was. `acked` says whether the answer reaches the broker: the source
  // ignores the error, also after a republish that went through.
  function AfterDelivery(b: Broker, i: nat, outcome: Outcome, acked: bool): Broker
    requires i < |b.waiting|
  {
    var m := b.waiting[i].msg;
    if outcome == Undecodable then Settle(b, i, DeadLettered, acked)
    else
      var ran := b.(runs := b.runs + [b.waiting[i].queue]);
      if outcome == Succeeded then Settle(ran, i, Handled, acked)
      else if Exhausted(b, m) then Settle(ran, i, DeadLettered, acked)
      else if m.routingKey == "" || !outcome.republished then ran
      else AfterPublish(Settle(ran, i, Retried, acked), Retry(m))
  }

  datatype Step = Step(index: nat, outcome: Outcome, acked: bool)

  function After(b: Broker, step: Step): Broker
    requires step.index < |b.waiting|
  {
    AfterDelivery(b, step.index, step.outcome, step.acked)
  }

  // The delivered copy stays, with its retry count unchanged.
  predicate Stays(b: Broker, step: Step)
    requires step.index < |b.waiting|
  {
    var m := b.waiting[step.index].msg;
    !step.acked || (step.outcome.Failed? && !Exhausted(b, m) && (m.routingKey == "" || !step.outcome.republished))
  }

  ghost predicate IsRun(brokers: seq<Broker>, steps: seq<Step>) {
    && |brokers| == |steps| + 1
    && forall i :: 0 <= i < |steps| ==>
         && steps[i].index < |brokers[i].waiting|
         && brokers[i + 1] == After(brokers[i], steps[i])
  }

  // Republishing and acknowledging always work, and the broker hands out routing keys.
  ghost predicate Reliable(brokers: seq<Broker>, steps: seq<Step>)
    requires IsRun(brokers, steps)
  {
    forall i :: 0 <= i < |steps| ==> !Stays(brokers[i], steps[i])
  }

  // ----- how many handler runs a copy can still cause -----

  // The runs in one queue caused by publishing to n queues a message with `left`
  // attempts: its own, and what each of the n copies can cause.
  function Fanned(n: nat, left: nat): nat {
    if left == 0 then 0 else 1 + n * Fanned(n, left - 1)
  }

  function Pow(n: nat, k: nat): nat {
    if k == 0 then 1 else n * Pow(n, k - 1)
  }

  // In closed form: the geometric sum of the powers of n.
  lemma {:induction false} FannedIsGeometric(n: nat, left: nat)
    ensures (n - 1) * Fanned(n, left) == Pow(n, left) - 1
    ensures n == 1 ==> Fanned(n, left) == left
    ensures n == 2 ==> Fanned(n, left) == Pow(2, left) - 1
  {
    if left > 0 {
      FannedIsGeometric(n, left - 1);
      GeometricStep(n, Fanned(n, left - 1), Pow(n, left - 1));
    }
  }

  lemma GeometricStep(n: int, f: int, p: int)
    requires (n - 1) * f == p - 1
    ensures (n - 1) * (1 + n * f) == n * p - 1
  {
    calc {
      (n - 1) * (1 + n * f);
      (n - 1) + n * ((n - 1) * f);
      (n - 1) + n * (p - 1);
    }
  }

  function Left(maxRetries: nat, count: nat): nat {
    if count < maxRetries then maxRetries - count else 0
  }

  // The runs per queue that retries of a message can still cause.
  function Later(b: Broker, m: Message): nat {
    Fanned(|Queues(b, m)|, Left(b.maxRetries, RetryCount(m.retry)))
  }

  // The runs in all queues that one copy can still cause.
  function Spread(b: Broker, m: Message): (r: nat)
    ensures r >= 1
  {
    1 + |Queues(b, m)| * Later(b, m)
  }

  // The runs in queue q that the copies can still cause.
  function Outlook(b: Broker, copies: seq<Copy>, q: string): nat {
    if copies == [] then 0
    else Bit(copies[0].queue == q) + Later(b, copies[0].msg) + Outlook(b, copies[1..], q)
  }

  // The runs in all queues together.
  function Remaining(b: Broker, copies: seq<Copy>): nat {
    if copies == [] then 0
    else Spread(b, copies[0].msg) + Remaining(b, copies[1..])
  }

  function RunsIn(runs: seq<string>, q: string): nat {
    if runs == [] then 0 else RunsIn(runs[..|runs| - 1], q) + Bit(runs[|runs| - 1] == q)
  }

  predicate SameRules(b: Broker, b': Broker) {
    b.bindings == b'.bindings && b.maxRetries == b'.maxRetries
  }

  lemma {:induction false} OutlookConcat(b: Broker, xs: seq<Copy>, ys: seq<Copy>, q: string)
    ensures Outlook(b, xs + ys, q) == Outlook(b, xs, q) + Outlook(b, ys, q)
    ensures Remaining(b, xs + ys) == Remaining(b, xs) + Remaining(b, ys)
    decreases |xs|
  {
    if xs == [] {
      assert xs + ys == ys;
    } else {
      assert (xs + ys)[1..] == xs[1..] + ys;
      OutlookConcat(b, xs[1..], ys, q);
    }
  }

  lemma {:induction false} OutlookSame(b: Broker, b': Broker, xs: seq<Copy>, q: string)
    requires SameRules(b, b')
    ensures Outlook(b, xs, q) == Outlook(b', xs, q) && Remaining(b, xs) == Remaining(b', xs)
    decreases |xs|
  {
    if xs != [] {
      OutlookSame(b, b', xs[1..], q);
    }
  }

  // Taking one copy out takes its own part out.
  lemma OutlookWithout(b: Broker, xs: seq<Copy>, i: nat, q: string)
    requires i < |xs|
    ensures Outlook(b, xs, q) == Outlook(b, Without(xs, i), q) + Bit(xs[i].queue == q) + Later(b, xs[i].msg)
    ensures Remaining(b, xs) == Remaining(b, Without(xs, i)) + Spread(b, xs[i].msg)
  {
    assert xs == xs[..i] + ([xs[i]] + xs[i + 1..]);
    assert ([xs[i]] + xs[i + 1..])[1..] == xs[i + 1..];
    OutlookConcat(b, xs[..i], [xs[i]] + xs[i + 1..], q);
    OutlookConcat(b, xs[..i], xs[i + 1..], q);
  }

  lemma OneMore(n: int, x: int)
    ensures n * x == x + (n - 1) * x
  {
  }

  lemma {:induction false} OutlookOfCopies(b: Broker, queues: seq<string>, m: Message, q: string)
    requires Distinct(queues)
    ensures Outlook(b, Copies(queues, m), q) == Bit(q in queues) + |queues| * Later(b, m)
    ensures Remaining(b, Copies(queues, m)) == |queues| * Spread(b, m)
    decreases |queues|
  {
    if queues != [] {
      OutlookOfCopies(b, queues[1..], m, q);
      assert Copies(queues, m)[1..] == Copies(queues[1..], m);
      assert q in queues <==> q == queues[0] || q in queues[1..];
      OneMore(|queues|, Later(b, m));
      OneMore(|queues|, Spread(b, m));
    }
  }

  ghost predicate ValidBindings(bindings: seq<Binding>) {
    Distinct(bindings)
  }

  // Bindings without repetition bind a queue at most once to a routing key.
  lemma {:induction false} BoundToDistinct(bindings: seq<Binding>, exchange: string, routingKey: string)
    requires ValidBindings(bindings)
    ensures Distinct(BoundTo(bindings, exchange, routingKey))
    ensures forall q :: q in BoundTo(bindings, exchange, routingKey) <==> Binding(exchange, routingKey, q) in bindings
    decreases |bindings|
  {
    if bindings != [] {
      BoundToDistinct(bindings[1..], exchange, routingKey);
    }
  }

  // A retry spends one run of what the message could cause, no matter how many
  // queues it is republished to.
  lemma RetrySpends(b: Broker, m: Message, q: string)
    requires ValidBindings(b.bindings) && !Exhausted(b, m)
    ensures var copies := Copies(Queues(b, m), Retry(m));
            && Outlook(b, copies, q) == Later(b, m) - 1 + Bit(q in Queues(b, m))
            && Remaining(b, copies) == Spread(b, m) - 1
  {
    BoundToDistinct(b.bindings, m.exchange, m.routingKey);
    OutlookOfCopies(b, Queues(b, m), Retry(m), q);
    assert Queues(b, Retry(m)) == Queues(b, m);
    assert Left(b.maxRetries, RetryCount(Retry(m).retry)) == Left(b.maxRetries, RetryCount(m.retry)) - 1;
    assert Later(b, m) == 1 + |Queues(b, m)| * Later(b, Retry(m));
  }

  // The potential of the proof: runs so far plus runs still possible never grows,
  // and is constant while handlers fail.
  lemma DeliverySpends(b: Broker, step: Step, q: string)
    requires ValidBindings(b.bindings) && step.index < |b.waiting| && !Stays(b, step)
    ensures var b' := After(b, step);
            && SameRules(b, b')
            && RunsIn(b'.runs, q) + Outlook(b', b'.waiting, q) <= RunsIn(b.runs, q) + Outlook(b, b.waiting, q)
            && (step.outcome.Failed? && q in Queues(b, b.waiting[step.index].msg) ==>
                  RunsIn(b'.runs, q) + Outlook(b', b'.waiting, q) == RunsIn(b.runs, q) + Outlook(b, b.waiting, q))
  {
    var i, copy := step.index, b.waiting[step.index];
    var b' := After(b, step);
    assert (b.runs + [copy.queue])[..|b.runs|] == b.runs;
    OutlookSame(b, b', b'.waiting, q);
    OutlookWithout(b, b.waiting, i, q);
    if step.outcome.Failed? && !Exhausted(b, copy.msg) {
      RetriedOutlook(b, i, q);
    }
  }

  // What is left to do shrinks with every delivery.
  lemma DeliveryShrinks(b: Broker, step: Step)
    requires ValidBindings(b.bindings) && step.index < |b.waiting| && !Stays(b, step)
    ensures var b' := After(b, step);
            SameRules(b, b') && Remaining(b', b'.waiting) < Remaining(b, b.waiting)
  {
    var i, m := step.index, b.waiting[step.index].msg;
    var b' := After(b, step);
    OutlookSame(b, b', b'.waiting, "");
    if step.outcome.Failed? && !Exhausted(b, m) {
      RetriedOutlook(b, i, "");
      assert b'.waiting == Without(b.waiting, i) + Copies(Queues(b, m), Retry(m));
    } else {
      OutlookWithout(b, b.waiting, i, "");
      assert b'.waiting == Without(b.waiting, i);
    }
  }

  lemma RetriedOutlook(b: Broker, i: nat, q: string)
    requires ValidBindings(b.bindings) && i < |b.waiting| && !Exhausted(b, b.waiting[i].msg)
    ensures var m := b.waiting[i].msg;
            var waiting := Without(b.waiting, i) + Copies(Queues(b, m), Retry(m));
            && Outlook(b, waiting, q) == Outlook(b, Without(b.waiting, i), q) + Later(b, m) - 1 + Bit(q in Queues(b, m))
            && Remaining(b, waiting) == Remaining(b, b.waiting) - 1
  {
    var m := b.waiting[i].msg;
    RetrySpends(b, m, q);
    OutlookConcat(b, Without(b.waiting, i), Copies(Queues(b, m), Retry(m)), q);
    OutlookWithout(b, b.waiting, i, q);
  }

  lemma {:induction false} RunSpends(brokers: seq<Broker>, steps: seq<Step>, q: string, i: nat)
    requires IsRun(brokers, steps) && Reliable(brokers, steps) && ValidBindings(brokers[0].bindings) && i < |brokers|
    ensures SameRules(brokers[0], brokers[i])
    ensures RunsIn(brokers[i].runs, q) + Outlook(brokers[i], brokers[i].waiting, q) <=
            RunsIn(brokers[0].runs, q) + Outlook(brokers[0], brokers[0].waiting, q)
    ensures i + Remaining(brokers[i], brokers[i].waiting) <= Remaining(brokers[0], brokers[0].waiting)
  {
    if i > 0 {
      RunSpends(brokers, steps, q, i - 1);
      DeliverySpends(brokers[i - 1], steps[i - 1], q);
      DeliveryShrinks(brokers[i - 1], steps[i - 1]);
    }
  }

  // b holds nothing but one freshly published message.
  ghost predicate JustPublished(b: Broker, m: Message) {
    && ValidBindings(b.bindings) && b.waiting == Copies(Queues(b, m), m) && RetryCount(m.retry) == 0
    && b.settled == [] && b.runs == []
  }

  lemma PublishedOutlook(b: Broker, m: Message, q: string)
    requires JustPublished(b, m)
    ensures var bound := Fanned(|Queues(b, m)|, b.maxRetries + 1);
            && Outlook(b, b.waiting, q) <= bound && Remaining(b, b.waiting) == |Queues(b, m)| * bound
            && (q in Queues(b, m) ==> Outlook(b, b.waiting, q) == bound)
  {
    BoundToDistinct(b.bindings, m.exchange, m.routingKey);
    OutlookOfCopies(b, Queues(b, m), m, q);
    assert Spread(b, m) == Fanned(|Queues(b, m)|, b.maxRetries + 1);
  }

  // When republishing succeeds, any pattern of handler outcomes ends: one publish to
  // n queues is over after at most n * (1 + n + ... + n^maxRetries) deliveries, and
  // causes at most 1 + n + ... + n^maxRetries handler runs in each queue.
  lemma RetriesAreBounded(brokers: seq<Broker>, steps: seq<Step>, m: Message, q: string)
    requires IsRun(brokers, steps) && Reliable(brokers, steps) && JustPublished(brokers[0], m)
    ensures var n, bound := |Queues(brokers[0], m)|, Fanned(|Queues(brokers[0], m)|, brokers[0].maxRetries + 1);
            && RunsIn(brokers[|steps|].runs, q) <= bound
            && |steps| <= n * bound
  {
    RunSpends(brokers, steps, q, |steps|);
    PublishedOutlook(brokers[0], m, q);
  }

  // For two queues on one routing key the bound is 2^(maxRetries+1) - 1 per queue,
  // for a queue of its own it is maxRetries + 1.
  lemma BoundInClosedForm(brokers: seq<Broker>, steps: seq<Step>, m: Message, q: string)
    requires IsRun(brokers, steps) && Reliable(brokers, steps) && JustPublished(brokers[0], m)
    ensures |Queues(brokers[0], m)| == 2 ==> RunsIn(brokers[|steps|].runs, q) <= Pow(2, brokers[0].maxRetries + 1) - 1
    ensures |Queues(brokers[0], m)| == 1 ==> RunsIn(brokers[|steps|].runs, q) <= brokers[0].maxRetries + 1
  {
    RetriesAreBounded(brokers, steps, m, q);
    FannedIsGeometric(|Queues(brokers[0], m)|, brokers[0].maxRetries + 1);
  }

  predicate Addressed(m: Message, m0: Message) {
    m.exchange == m0.exchange && m.routingKey == m0.routingKey && m.id == m0.id && m.body == m0.body
  }

  lemma {:induction false} CopiesAre(queues: seq<string>, m: Message)
    ensures |Copies(queues, m)| == |queues|
    ensures forall k :: 0 <= k < |queues| ==> Copies(queues, m)[k] == Copy(queues[k], m)
    decreases |queues|
  {
    if queues != [] {
      CopiesAre(queues[1..], m);
    }
  }

  ghost predicate AllOf(b: Broker, m: Message) {
    && (forall c :: c in b.waiting ==> Addressed(c.msg, m) && c.queue in Queues(b, m))
    && (forall x :: x in b.settled ==> Addressed(x.copy.msg, m))
  }

  lemma DeliveryKeepsContent(b: Broker, step: Step, m: Message)
    requires step.index < |b.waiting| && AllOf(b, m)
    ensures AllOf(After(b, step), m) && SameRules(b, After(b, step))
  {
    assert b.waiting[step.index] in b.waiting;
    CopiesAre(Queues(b, m), Retry(b.waiting[step.index].msg));
  }

  // What never changes about one publish: content, address and queues of its copies.
  lemma {:induction false} RetriesKeepContent(brokers: seq<Broker>, steps: seq<Step>, m: Message, i: nat)
    requires IsRun(brokers, steps) && JustPublished(brokers[0], m) && i < |brokers|
    ensures SameRules(brokers[0], brokers[i]) && AllOf(brokers[i], m)
  {
    if i == 0 {
      CopiesAre(Queues(brokers[0], m), m);
    } else {
      RetriesKeepContent(brokers, steps, m, i - 1);
      DeliveryKeepsContent(brokers[i - 1], steps[i - 1], m);
    }
  }

  // The bound is reached: if every handler run fails and nothing waits any more,
  // each queue has seen exactly that many runs.
  lemma BoundIsReached(brokers: seq<Broker>, steps: seq<Step>, m: Message, q: string)
    requires IsRun(brokers, steps) && Reliable(brokers, steps) && JustPublished(brokers[0], m)
    requires q in Queues(brokers[0], m) && brokers[|steps|].waiting == []
    requires forall k :: 0 <= k < |steps| ==> steps[k].outcome.Failed?
    ensures RunsIn(brokers[|steps|].runs, q) == Fanned(|Queues(brokers[0], m)|, brokers[0].maxRetries + 1)
  {
    FailuresKeepOutlook(brokers, steps, m, q, |steps|);
    PublishedOutlook(brokers[0], m, q);
  }

  lemma {:induction false} FailuresKeepOutlook(brokers: seq<Broker>, steps: seq<Step>, m: Message, q: string, i: nat)
    requires IsRun(brokers, steps) && Reliable(brokers, steps) && JustPublished(brokers[0], m)
    requires q in Queues(brokers[0], m) && i < |brokers|
    requires forall k :: 0 <= k < |steps| ==> steps[k].outcome.Failed?
    ensures RunsIn(brokers[i].runs, q) + Outlook(brokers[i], brokers[i].waiting, q) ==
            Outlook(brokers[0], brokers[0].waiting, q)
    decreases i
  {
    if i > 0 {
      FailuresKeepOutlook(brokers, steps, m, q, i - 1);
      RetriesKeepContent(brokers, steps, m, i - 1);
      assert brokers[i - 1].waiting[steps[i - 1].index] in brokers[i - 1].waiting;
      DeliverySpends(brokers[i - 1], steps[i - 1], q);
    }
  }

  // ----- no copy is lost -----

  function CopiesOf(settled: seq<Settled>): seq<Copy> {
    seq(|settled|, i requires 0 <= i < |settled| => settled[i].copy)
  }

  // Every copy that waits or has been settled.
  function Ledger(b: Broker): multiset<Copy> {
    multiset(b.waiting) + multiset(CopiesOf(b.settled))
  }

  lemma DeliveryKeepsLedger(b: Broker, step: Step)
    requires step.index < |b.waiting|
    ensures Ledger(b) <= Ledger(After(b, step))
  {
    var b', i := After(b, step), step.index;
    if b'.settled == b.settled {
      PrefixCounts(b.waiting, b'.waiting);
    } else {
      assert CopiesOf(b'.settled) == CopiesOf(b.settled) + [b.waiting[i]];
      PrefixCounts(Without(b.waiting, i), b'.waiting);
      WithoutCounts(b.waiting, i);
    }
  }

  lemma PrefixCounts(xs: seq<Copy>, ys: seq<Copy>)
    requires xs <= ys
    ensures multiset(xs) <= multiset(ys)
  {
    assert ys == xs + ys[|xs|..];
  }

  lemma WithoutCounts(xs: seq<Copy>, i: nat)
    requires i < |xs|
    ensures multiset(xs) == multiset(Without(xs, i)) + multiset{xs[i]}
  {
    assert xs == xs[..i] + [xs[i]] + xs[i + 1..];
  }

  lemma {:induction false} Monotone(xs: seq<nat>, i: nat, j: nat)
    requires i <= j < |xs| && forall k :: 0 <= k < |xs| - 1 ==> xs[k] <= xs[k + 1]
    ensures xs[i] <= xs[j]
    decreases j
  {
    if i < j {
      Monotone(xs, i, j - 1);
    }
  }

  lemma LedgerGrows(brokers: seq<Broker>, steps: seq<Step>, i: nat, j: nat, c: Copy)
    requires IsRun(brokers, steps) && i <= j < |brokers|
    ensures Ledger(brokers[i])[c] <= Ledger(brokers[j])[c]
  {
    var xs: seq<nat> := seq(|brokers|, k requires 0 <= k < |brokers| => Ledger(brokers[k])[c]);
    forall k | 0 <= k < |steps| ensures xs[k] <= xs[k + 1] {
      DeliveryKeepsLedger(brokers[k], steps[k]);
    }
    Monotone(xs, i, j);
  }

  // Whatever the outcomes, requeues and lost answers included, a copy that once waited
  // in a queue waits there still or has been acknowledged or dead-lettered.
  lemma EveryCopySettles(brokers: seq<Broker>, steps: seq<Step>, i: nat, j: nat)
    requires IsRun(brokers, steps) && i <= j < |brokers|
    ensures multiset(brokers[i].waiting) <= Ledger(brokers[j])
    ensures brokers[j].waiting == [] ==> multiset(brokers[i].waiting) <= multiset(CopiesOf(brokers[j].settled))
  {
    forall c ensures multiset(brokers[i].waiting)[c] <= Ledger(brokers[j])[c] {
      LedgerGrows(brokers, steps, i, j, c);
    }
    if brokers[j].waiting == [] {
      assert Ledger(brokers[j]) == multiset(CopiesOf(brokers[j].settled));
    }
  }

  ghost predicate WaitsIn(waiting: seq<Copy>, m: Message, q: string) {
    exists c :: c in waiting && c.queue == q && Addressed(c.msg, m)
  }

  ghost predicate DeadIn(settled: seq<Settled>, m: Message, q: string) {
    exists x :: x in settled && x.copy.queue == q && Addressed(x.copy.msg, m) && x.fate == DeadLettered
  }

  // What the broker learns of a delivery whose copy leaves: handled if and only if
  // the handler succeeded, dead-lettered if and only if the body does not decode or
  // the last retry failed, retried if and only if it failed and was republished.
  lemma FateOfDelivery(b: Broker, step: Step)
    requires step.index < |b.waiting|
    ensures var b', c := After(b, step), b.waiting[step.index];
            if Stays(b, step) then b'.settled == b.settled
            else
              && |b'.settled| == |b.settled| + 1 && b'.settled[..|b.settled|] == b.settled
              && b'.settled[|b.settled|].copy == c
              && var fate := b'.settled[|b.settled|].fate;
                 && (fate == Handled <==> step.outcome == Succeeded)
                 && (fate == DeadLettered <==>
                     step.outcome == Undecodable || (step.outcome.Failed? && Exhausted(b, c.msg)))
                 && (fate == Retried <==> step.outcome.Failed? && !Exhausted(b, c.msg))
  {
  }

  // A delivery from q whose handler succeeded and whose acknowledgement arrived.
  predicate HandledIn(b: Broker, step: Step, m: Message, q: string)
    requires step.index < |b.waiting|
  {
    var c := b.waiting[step.index];
    c.queue == q && Addressed(c.msg, m) && step.outcome == Succeeded && step.acked
  }

  // One delivery: a waiting copy leaves its queue handled, dead-lettered there, or
  // with a copy behind it.
  lemma DeliveryKeepsWaiting(b: Broker, step: Step, m: Message, q: string)
    requires step.index < |b.waiting| && q in Queues(b, m) && WaitsIn(b.waiting, m, q)
    ensures var b' := After(b, step);
            WaitsIn(b'.waiting, m, q) || DeadIn(b'.settled, m, q) || HandledIn(b, step, m, q)
  {
    var b' := After(b, step);
    var c :| c in b.waiting && c.queue == q && Addressed(c.msg, m);
    StaysOrSettles(b, step, c);
    if c in b'.waiting {
      assert WaitsIn(b'.waiting, m, q);
    } else {
      FateOfDelivery(b, step);
      var x := b'.settled[|b.settled|];
      assert x in b'.settled;
      if x.fate == Retried {
        CopiesAre(Queues(b, m), Retry(c.msg));
        var j :| 0 <= j < |Queues(b, m)| && Queues(b, m)[j] == q;
        assert Copies(Queues(b, m), Retry(c.msg))[j] in b'.waiting;
      }
    }
  }

  lemma DeliveryKeepsDead(b: Broker, step: Step, m: Message, q: string)
    requires step.index < |b.waiting| && DeadIn(b.settled, m, q)
    ensures DeadIn(After(b, step).settled, m, q)
  {
    var x :| x in b.settled && x.copy.queue == q && Addressed(x.copy.msg, m) && x.fate == DeadLettered;
    assert x in After(b, step).settled;
  }

  // Only the delivered copy can leave the queues, and then it is settled.
  lemma StaysOrSettles(b: Broker, step: Step, c: Copy)
    requires step.index < |b.waiting| && c in b.waiting
    ensures var b' := After(b, step);
            || c in b'.waiting
            || (c == b.waiting[step.index] && |b'.settled| == |b.settled| + 1 && b'.settled[|b.settled|].copy == c)
  {
    var k :| 0 <= k < |b.waiting| && b.waiting[k] == c;
    if After(b, step).settled == b.settled {
      assert After(b, step).waiting[k] == c;
    } else if k != step.index {
      assert Without(b.waiting, step.index)[if k < step.index then k else k - 1] == c;
    }
  }

  ghost predicate HandledBefore(brokers: seq<Broker>, steps: seq<Step>, i: nat, m: Message, q: string)
    requires IsRun(brokers, steps) && i <= |steps|
  {
    exists k :: 0 <= k < i && HandledIn(brokers[k], steps[k], m, q)
  }

  // For every queue a message was published to: a copy waits there, or lies in that
  // queue's dead letters, or a handler run of an earlier delivery from that queue
  // succeeded and was acknowledged.
  lemma {:induction false} NothingLost(brokers: seq<Broker>, steps: seq<Step>, m: Message, q: string, i: nat)
    requires IsRun(brokers, steps) && JustPublished(brokers[0], m) && q in Queues(brokers[0], m) && i < |brokers|
    ensures || WaitsIn(brokers[i].waiting, m, q)
            || DeadIn(brokers[i].settled, m, q)
            || HandledBefore(brokers, steps, i, m, q)
  {
    if i == 0 {
      CopiesAre(Queues(brokers[0], m), m);
      var j :| 0 <= j < |Queues(brokers[0], m)| && Queues(brokers[0], m)[j] == q;
      assert brokers[0].waiting[j] == Copy(q, m);
      assert Copy(q, m) in brokers[0].waiting;
    } else {
      NothingLost(brokers, steps, m, q, i - 1);
      RetriesKeepContent(brokers, steps, m, i - 1);
      if k :| 0 <= k < i - 1 && HandledIn(brokers[k], steps[k], m, q) {
        assert HandledBefore(brokers, steps, i, m, q);
      } else if DeadIn(brokers[i - 1].settled, m, q) {
        DeliveryKeepsDead(brokers[i - 1], steps[i - 1], m, q);
      } else {
        DeliveryKeepsWaiting(brokers[i - 1], steps[i - 1], m, q);
      }
    }
  }

  // ----- when republishing or acknowledging does not work -----

  // A delivery makes progress exactly when the copy leaves: the answer reaches the
  // broker, and after a failure the retries are used up or the copy is republished.
  lemma ProgressIff(b: Broker, step: Step)
    requires ValidBindings(b.bindings) && step.index < |b.waiting|
    ensures var m := b.waiting[step.index].msg;
            Remaining(b, After(b, step).waiting) < Remaining(b, b.waiting)
            <==> step.acked && (step.outcome.Failed? ==>
                                  Exhausted(b, m) || (m.routingKey != "" && step.outcome.republished))
  {
    var b' := After(b, step);
    if Stays(b, step) {
      if b'.waiting != b.waiting {
        OutlookConcat(b, b.waiting, b'.waiting[|b.waiting|..], "");
        assert b'.waiting == b.waiting + b'.waiting[|b.waiting|..];
      }
    } else {
      DeliveryShrinks(b, step);
      OutlookSame(b, b', b'.waiting, "");
    }
  }

  function Again(b: Broker, step: Step, times: nat): Broker
    requires step.index < |b.waiting| && Stays(b, step)
    ensures b.waiting <= Again(b, step, times).waiting && Again(b, step, times).maxRetries == b.maxRetries
  {
    if times == 0 then b else After(Again(b, step, times - 1), step)
  }

  // Otherwise the same copy can run any number of times, its retry count never
  // moving, so the bound above needs its condition.
  lemma {:induction false} StayingRunsForever(b: Broker, step: Step, times: nat)
    requires step.index < |b.waiting| && Stays(b, step) && step.outcome != Undecodable
    ensures RunsIn(Again(b, step, times).runs, b.waiting[step.index].queue) ==
            RunsIn(b.runs, b.waiting[step.index].queue) + times
    ensures Again(b, step, times).waiting[step.index] == b.waiting[step.index]
  {
    if times > 0 {
      StayingRunsForever(b, step, times - 1);
      var before := Again(b, step, times - 1).runs;
      assert (before + [b.waiting[step.index].queue])[..|before|] == before;
    }
  }

  // ----- the topology -----

  datatype Topology = Topology(
    interactionExchange: string, actionChangedQueue: string, actionChangedRouting: string,
    videoExchange: string, videoPublishedQueue: string, videoEmbeddingQueue: string, videoPublishedRouting: string,
    exposureExchange: string, viewEventRecordedQueue: string, viewEventRecordedRouting: string)

  function Declared(t: Topology): set<Binding> {
    {Binding(t.interactionExchange, t.actionChangedRouting, t.actionChangedQueue),
     Binding(t.videoExchange, t.videoPublishedRouting, t.videoPublishedQueue),
     Binding(t.videoExchange, t.videoPublishedRouting, t.videoEmbeddingQueue),
     Binding(t.exposureExchange, t.viewEventRecordedRouting, t.viewEventRecordedQueue)}
  }

  // Different things have different names.
  predicate WellNamed(t: Topology) {
    && (t.interactionExchange, t.actionChangedRouting) != (t.videoExchange, t.videoPublishedRouting)
    && (t.interactionExchange, t.actionChangedRouting) != (t.exposureExchange, t.viewEventRecordedRouting)
    && (t.videoExchange, t.videoPublishedRouting) != (t.exposureExchange, t.viewEventRecordedRouting)
    && t.videoPublishedQueue != t.videoEmbeddingQueue
  }

  lemma TwoElements(queues: seq<string>, a: string, b: string)
    requires Distinct(queues) && forall q :: q in queues <==> q == a || q == b
    ensures |queues| == if a == b then 1 else 2
  {
    assert Elements(queues) == {a, b} by {
      forall q ensures q in Elements(queues) <==> q in queues {
      }
    }
    ElementsSize(queues);
  }

  // video.published is the one routing key that feeds two queues; the others feed one.
  lemma SharedRoutingKey(t: Topology, bindings: seq<Binding>)
    requires WellNamed(t) && ValidBindings(bindings) && forall x :: x in bindings <==> x in Declared(t)
    ensures var queues := BoundTo(bindings, t.videoExchange, t.videoPublishedRouting);
            |queues| == 2 && t.videoPublishedQueue in queues && t.videoEmbeddingQueue in queues
    ensures BoundTo(bindings, t.interactionExchange, t.actionChangedRouting) == [t.actionChangedQueue]
    ensures BoundTo(bindings, t.exposureExchange, t.viewEventRecordedRouting) == [t.viewEventRecordedQueue]
  {
    BoundToDistinct(bindings, t.videoExchange, t.videoPublishedRouting);
    BoundToDistinct(bindings, t.interactionExchange, t.actionChangedRouting);
    BoundToDistinct(bindings, t.exposureExchange, t.viewEventRecordedRouting);
    var actions := BoundTo(bindings, t.interactionExchange, t.actionChangedRouting);
    var videos := BoundTo(bindings, t.videoExchange, t.videoPublishedRouting);
    var views := BoundTo(bindings, t.exposureExchange, t.viewEventRecordedRouting);
    TwoElements(videos, t.videoPublishedQueue, t.videoEmbeddingQueue);
    TwoElements(actions, t.actionChangedQueue, t.actionChangedQueue);
    TwoElements(views, t.viewEventRecordedQueue, t.viewEventRecordedQueue);
    assert actions[0] in actions && views[0] in views;
  }

  // ----- the broker object -----

  class RabbitMQ {
    const maxRetries: nat
    var bindings: seq<Binding>
    var waiting: seq<Copy>
    var settled: seq<Settled>
    var runs: seq<string>

    constructor (maxRetries: int)
      ensures View() == Broker([], MaxRetries(maxRetries), [], [], [])
    {
      this.maxRetries := MaxRetries(maxRetries);
      bindings, waiting, settled, runs := [], [], [], [];
    }

    ghost function View(): Broker
      reads this
    {
      Broker(bindings, maxRetries, waiting, settled, runs)
    }

    method QueueBind(queue: string, routingKey: string, exchange: string)
      requires ValidBindings(bindings)
      modifies this`bindings
      ensures ValidBindings(bindings)
      ensures forall x :: x in bindings <==> x in old(bindings) || x == Binding(exchange, routingKey, queue)
    {
      if Binding(exchange, routingKey, queue) !in bindings {
        bindings := bindings + [Binding(exchange, routingKey, queue)];
      }
    }

    method EnsureTopology(t: Topology)
      requires ValidBindings(bindings)
      modifies this`bindings
      ensures ValidBindings(bindings)
      ensures forall x :: x in bindings <==> x in old(bindings) || x in Declared(t)
    {
      QueueBind(t.actionChangedQueue, t.actionChangedRouting, t.interactionExchange);
      QueueBind(t.videoPublishedQueue, t.videoPublishedRouting, t.videoExchange);
      QueueBind(t.videoEmbeddingQueue, t.videoPublishedRouting, t.videoExchange);
      QueueBind(t.viewEventRecordedQueue, t.viewEventRecordedRouting, t.exposureExchange);
    }

    method Publish(m: Message)
      modifies this`waiting
      ensures View() == AfterPublish(old(View()), m)
    {
      waiting := waiting + Copies(BoundTo(bindings, m.exchange, m.routingKey), m);
    }

    // Nothing happens when the acknowledgement does not reach the broker.
    method Ack(i: nat, fate: Fate, acked: bool)
      requires i < |waiting|
      modifies this`waiting, this`settled
      ensures View() == Settle(old(View()), i, fate, acked)
    {
      if acked {
        settled := settled + [Settled(waiting[i], fate)];
        waiting := Without(waiting, i);
      }
    }

    // A requeued copy keeps its place; otherwise the dead-letter exchange takes it.
    method Nack(i: nat, requeue: bool, acked: bool)
      requires i < |waiting|
      modifies this`waiting, this`settled
      ensures View() == if requeue then old(View()) else Settle(old(View()), i, DeadLettered, acked)
    {
      if !requeue {
        Ack(i, DeadLettered, acked);
      }
    }

    // One delivery of the consume loop.
    method HandleDelivery(i: nat, outcome: Outcome, acked: bool)
      requires i < |waiting|
      modifies this
      ensures View() == AfterDelivery(old(View()), i, outcome, acked)
    {
      if outcome.Undecodable? {
        Nack(i, false, acked);
        return;
      }
      runs := runs + [waiting[i].queue];
      if outcome.Failed? {
        RetryOrDeadLetter(i, outcome.republished, acked);
        return;
      }
      Ack(i, Handled, acked);
    }

    method RetryOrDeadLetter(i: nat, republished: bool, acked: bool)
      requires i < |waiting|
      modifies this`waiting, this`settled
      ensures var b, m := old(View()), old(waiting[i].msg);
              View() == if Exhausted(b, m) then Settle(b, i, DeadLettered, acked)
                        else if m.routingKey == "" || !republished then b
                        else AfterPublish(Settle(b, i, Retried, acked), Retry(m))
    {
      var delivery := waiting[i];
      var attempt := RetryCount(delivery.msg.retry);
      if attempt >= maxRetries {
        Nack(i, false, acked);
        return;
      }
      if delivery.msg.routingKey == "" {
        Nack(i, true, acked);
        return;
      }
      if !republished {
        Nack(i, true, acked);
        return;
      }
      ghost var before := waiting;
      Publish(delivery.msg.(retry := Some(Integer(attempt + 1))));
      assert Without(waiting, i) == Without(before, i) + waiting[|before|..];
      Ack(i, Retried, acked);
    }

    // Consuming until nothing waits ends for every pattern of handler failures and
    // every order of delivery, and then every copy is settled.
    method Drain(succeeds: (nat, Copy) -> bool, pick: seq<Copy> -> nat)
      requires ValidBindings(bindings) && forall c :: c in waiting ==> c.msg.routingKey != ""
      modifies this
      ensures waiting == []
      ensures multiset(old(waiting)) <= multiset(CopiesOf(settled))
    {
      ghost var start := View();
      var turn := 0;
      while waiting != []
        invariant Draining(start, View())
        decreases Remaining(View(), waiting)
      {
        var i := pick(waiting) % |waiting|;
        var outcome := if succeeds(turn, waiting[i]) then Succeeded else Failed(true);
        DrainStep(start, View(), i, outcome);
        HandleDelivery(i, outcome, true);
        turn := turn + 1;
      }
      Drained(start, View());
    }
  }

  ghost predicate Draining(start: Broker, b: Broker) {
    && ValidBindings(b.bindings) && (forall c :: c in b.waiting ==> c.msg.routingKey != "")
    && Ledger(start) <= Ledger(b)
  }

  lemma DrainStep(start: Broker, b: Broker, i: nat, outcome: Outcome)
    requires Draining(start, b) && i < |b.waiting| && (outcome == Succeeded || outcome == Failed(true))
    ensures var b' := AfterDelivery(b, i, outcome, true);
            Draining(start, b') && Remaining(b', b'.waiting) < Remaining(b, b.waiting)
  {
    assert b.waiting[i] in b.waiting;
    DeliveryShrinks(b, Step(i, outcome, true));
    DeliveryKeepsLedger(b, Step(i, outcome, true));
    DrainKeepsKeys(b, i, outcome);
  }

  lemma DrainKeepsKeys(b: Broker, i: nat, outcome: Outcome)
    requires i < |b.waiting| && forall c :: c in b.waiting ==> c.msg.routingKey != ""
    ensures forall c :: c in AfterDelivery(b, i, outcome, true).waiting ==> c.msg.routingKey != ""
  {
    assert b.waiting[i] in b.waiting;
    CopiesAre(Queues(b, b.waiting[i].msg), Retry(b.waiting[i].msg));
  }

  lemma Drained(start: Broker, b: Broker)
    requires Ledger(start) <= Ledger(b) && b.waiting == []
    ensures multiset(start.waiting) <= multiset(CopiesOf(b.settled))
  {
    assert multiset(start.waiting) <= Ledger(start);
    assert Ledger(b) == multiset(CopiesOf(b.settled));
  }
}
