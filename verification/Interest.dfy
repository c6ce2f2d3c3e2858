// The interest vector of a user: the batch aggregate over recent views
// (infra/persistence/recommendation/gorm.go), its cached form that is corrected
// view by view (infra/cache/user_interest_cache.go), and the weights of views
// (domain/recommendation/entity.go). Vectors are over the reals.
module Interest {
  import opened Base

  const EVENT_TYPE_PLAY := "play"
  const EVENT_TYPE_COMPLETE := "complete"
  const AGGREGATE_LIMIT: nat := 200

  type Vector = seq<real>

  function Times(x: real, y: real): real {
    x * y
  }

  function Over(x: real, y: real): real
    requires y != 0.0
  {
    x / y
  }

  // One recorded view with the stored embedding of its video, if that decodes.
  datatype View = View(eventType: string, watchMs: int, completed: bool, vector: Option<Vector>)

  predicate IsPositiveEventType(eventType: string) {
    eventType == EVENT_TYPE_PLAY || eventType == EVENT_TYPE_COMPLETE
  }

  // Watching longer never weighs less, a completed view one more; a recorded view
  // (watch time not negative) weighs between 1 and 3.
  function EventWeight(eventType: string, watchMs: int, completed: bool): (w: real)
    ensures watchMs >= 0 ==> 1.0 <= w <= 3.0
    ensures eventType == EVENT_TYPE_COMPLETE ==> w == 3.0
    ensures eventType == EVENT_TYPE_PLAY && watchMs >= 30000 ==> w == if completed then 3.0 else 2.0
    ensures eventType == EVENT_TYPE_PLAY && 0 <= watchMs <= 30000 ==>
              (w - (if completed then 2.0 else 1.0)) * 30000.0 == watchMs as real
    ensures !IsPositiveEventType(eventType) ==> w == 1.0
  {
    if eventType == EVENT_TYPE_COMPLETE then 3.0
    else if eventType == EVENT_TYPE_PLAY then
      var weight := 1.0 + watchMs as real / 30000.0;
      (if weight > 2.0 then 2.0 else weight) + (if completed then 1.0 else 0.0)
    else 1.0
  }

  function WeightOf(v: View): real {
    EventWeight(v.eventType, v.watchMs, v.completed)
  }

  // The views that count towards the vector.
  predicate Counts(v: View, dimension: nat) {
    IsPositiveEventType(v.eventType) && v.vector.Some? && |v.vector.value| == dimension
  }

  // What a view adds to the weight, and to coordinate i of the weighted sum.
  function Part(v: View, dimension: nat): real {
    if Counts(v, dimension) then WeightOf(v) else 0.0
  }

  function Term(v: View, dimension: nat, i: nat): real
    requires i < dimension
  {
    if Counts(v, dimension) then Times(v.vector.value[i], WeightOf(v)) else 0.0
  }

  function Total(xs: seq<real>): real {
    if xs == [] then 0.0 else Total(xs[..|xs| - 1]) + xs[|xs| - 1]
  }

  function Scale(xs: Vector, c: real): Vector {
    seq(|xs|, i requires 0 <= i < |xs| => Times(xs[i], c))
  }

  function Parts(views: seq<View>, dimension: nat): seq<real> {
    seq(|views|, k requires 0 <= k < |views| => Part(views[k], dimension))
  }

  function Terms(views: seq<View>, dimension: nat, i: nat): seq<real>
    requires i < dimension
  {
    seq(|views|, k requires 0 <= k < |views| => Term(views[k], dimension, i))
  }

  function Weight(views: seq<View>, dimension: nat): real {
    Total(Parts(views, dimension))
  }

  // Coordinate i of the weighted sum.
  function SumAt(views: seq<View>, dimension: nat, i: nat): real
    requires i < dimension
  {
    Total(Terms(views, dimension, i))
  }

  ghost predicate Recorded(views: seq<View>) {
    forall v :: v in views ==> v.watchMs >= 0
  }

  predicate SomeCount(views: seq<View>, dimension: nat) {
    exists v :: v in views && Counts(v, dimension)
  }

  // The weighted mean, or nothing when no view counts.
  function Aggregate(views: seq<View>, dimension: nat): Vector {
    if dimension == 0 || Weight(views, dimension) == 0.0 then []
    else seq(dimension, i requires 0 <= i < dimension => Over(SumAt(views, dimension, i), Weight(views, dimension)))
  }

  lemma {:induction false} TotalConcat(xs: seq<real>, ys: seq<real>)
    ensures Total(xs + ys) == Total(xs) + Total(ys)
    decreases |ys|
  {
    if ys == [] {
      assert xs + ys == xs;
    } else {
      assert (xs + ys)[..|xs + ys| - 1] == xs + ys[..|ys| - 1];
      TotalConcat(xs, ys[..|ys| - 1]);
    }
  }

  lemma SumConcat(a: seq<View>, b: seq<View>, dimension: nat, i: nat)
    requires i < dimension
    ensures SumAt(a + b, dimension, i) == SumAt(a, dimension, i) + SumAt(b, dimension, i)
    ensures Weight(a + b, dimension) == Weight(a, dimension) + Weight(b, dimension)
  {
    assert Terms(a + b, dimension, i) == Terms(a, dimension, i) + Terms(b, dimension, i);
    assert Parts(a + b, dimension) == Parts(a, dimension) + Parts(b, dimension);
    TotalConcat(Terms(a, dimension, i), Terms(b, dimension, i));
    TotalConcat(Parts(a, dimension), Parts(b, dimension));
  }

  lemma WeightSnoc(views: seq<View>, v: View, dimension: nat)
    ensures Weight(views + [v], dimension) == Weight(views, dimension) + Part(v, dimension)
  {
    assert Parts(views + [v], dimension) == Parts(views, dimension) + [Part(v, dimension)];
  }

  lemma SumSnoc(views: seq<View>, v: View, dimension: nat, i: nat)
    requires i < dimension
    ensures SumAt(views + [v], dimension, i) == SumAt(views, dimension, i) + Term(v, dimension, i)
  {
    assert Terms(views + [v], dimension, i) == Terms(views, dimension, i) + [Term(v, dimension, i)];
  }

  lemma {:induction false} WeightPositive(views: seq<View>, dimension: nat)
    requires Recorded(views)
    ensures Weight(views, dimension) >= 0.0
    ensures SomeCount(views, dimension) <==> Weight(views, dimension) > 0.0
    decreases |views|
  {
    if views != [] {
      var before, last := views[..|views| - 1], views[|views| - 1];
      WeightPositive(before, dimension);
      WeightSnoc(before, last, dimension);
      assert views == before + [last];
      assert forall v :: v in views <==> v in before || v == last;
    }
  }

  // ----- the batch reference -----

  function PositiveRows(views: seq<View>): seq<View> {
    if views == [] then []
    else
      var before, last := PositiveRows(views[..|views| - 1]), views[|views| - 1];
      if IsPositiveEventType(last.eventType) then before + [last] else before
  }

  lemma {:induction false} RowsSuffice(views: seq<View>, dimension: nat, i: nat)
    requires i < dimension
    ensures SumAt(PositiveRows(views), dimension, i) == SumAt(views, dimension, i)
    ensures Weight(PositiveRows(views), dimension) == Weight(views, dimension)
    decreases |views|
  {
    if views != [] {
      var before, last := views[..|views| - 1], views[|views| - 1];
      RowsSuffice(before, dimension, i);
      assert views == before + [last];
      SumSnoc(before, last, dimension, i);
      WeightSnoc(before, last, dimension);
      SumSnoc(PositiveRows(before), last, dimension, i);
      WeightSnoc(PositiveRows(before), last, dimension);
    }
  }

  lemma {:induction false} RowsArePositive(views: seq<View>, k: nat)
    requires k < |PositiveRows(views)|
    ensures IsPositiveEventType(PositiveRows(views)[k].eventType)
    decreases |views|
  {
    var before := PositiveRows(views[..|views| - 1]);
    if k < |before| {
      RowsArePositive(views[..|views| - 1], k);
    }
  }

  function AddedTo(sum: Vector, v: Vector, weight: real): Vector
    requires |sum| == |v|
  {
    seq(|sum|, i requires 0 <= i < |sum| => sum[i] + Times(v[i], weight))
  }

  method AddWeighted(sum: array<real>, v: Vector, weight: real)
    requires sum.Length == |v|
    modifies sum
    ensures sum[..] == AddedTo(old(sum[..]), v, weight)
  {
    var i := 0;
    while i < |v|
      invariant 0 <= i <= |v|
      invariant forall j :: 0 <= j < i ==> sum[j] == old(sum[j]) + Times(v[j], weight)
      invariant forall j :: i <= j < |v| ==> sum[j] == old(sum[j])
    {
      sum[i] := sum[i] + Times(v[i], weight);
      i := i + 1;
    }
  }

  ghost predicate SumsAre(sum: Vector, views: seq<View>, dimension: nat) {
    |sum| == dimension && forall i :: 0 <= i < dimension ==> sum[i] == SumAt(views, dimension, i)
  }

  lemma SumsSnoc(sum: Vector, views: seq<View>, v: View, dimension: nat)
    requires SumsAre(sum, views, dimension)
    ensures var sums := if Counts(v, dimension) then AddedTo(sum, v.vector.value, WeightOf(v)) else sum;
            SumsAre(sums, views + [v], dimension)
  {
    forall i | 0 <= i < dimension
      ensures SumAt(views + [v], dimension, i) == SumAt(views, dimension, i) + Term(v, dimension, i)
    {
      SumSnoc(views, v, dimension, i);
    }
  }

  // The sum is made of zeros when the first row that counts comes.
  function Started(sum: Vector, dimension: nat): Vector {
    if sum == [] then seq(dimension, _ => 0.0) else sum
  }

  // Where the loop stands after some rows: no sum is made before the first row that counts.
  ghost predicate Accumulated(sum: Vector, totalWeight: real, rows: seq<View>, dimension: nat) {
    && totalWeight == Weight(rows, dimension)
    && (if dimension == 0 then sum == [] else sum == [] ==> totalWeight == 0.0)
    && (dimension > 0 ==> SumsAre(Started(sum, dimension), rows, dimension))
  }

  lemma AccumulateOne(sum: Vector, totalWeight: real, rows: seq<View>, row: View, dimension: nat)
    requires Accumulated(sum, totalWeight, rows, dimension)
    ensures !Counts(row, dimension) ==> Accumulated(sum, totalWeight, rows + [row], dimension)
    ensures Counts(row, dimension) && dimension > 0 ==>
              Accumulated(AddedTo(Started(sum, dimension), row.vector.value, WeightOf(row)),
                          totalWeight + WeightOf(row), rows + [row], dimension)
    ensures Counts(row, dimension) && dimension == 0 ==>
              Accumulated(sum, totalWeight + WeightOf(row), rows + [row], dimension)
  {
    WeightSnoc(rows, row, dimension);
    if dimension > 0 {
      SumsSnoc(Started(sum, dimension), rows, row, dimension);
    }
  }

  method AddRow(sum: array<real>, v: Vector, weight: real) returns (r: array<real>)
    requires sum.Length == 0 || sum.Length == |v|
    modifies sum
    ensures r == sum || fresh(r)
    ensures r.Length == |v| && (|v| > 0 ==> r[..] == AddedTo(Started(old(sum[..]), |v|), v, weight))
  {
    r := sum;
    if sum.Length == 0 {
      r := new real[|v|](i => 0.0);
    }
    assert |v| > 0 ==> r[..] == Started(sum[..], |v|);
    AddWeighted(r, v, weight);
  }

  method Accumulate(rows: seq<View>, dimension: nat) returns (sum: array<real>, totalWeight: real)
    requires forall row :: row in rows ==> IsPositiveEventType(row.eventType)
    ensures fresh(sum) && Accumulated(sum[..], totalWeight, rows, dimension)
    ensures sum.Length == 0 || sum.Length == dimension
  {
    sum := new real[0];
    totalWeight := 0.0;
    var k := 0;
    while k < |rows|
      invariant 0 <= k <= |rows| && fresh(sum)
      invariant sum.Length == 0 || sum.Length == dimension
      invariant Accumulated(sum[..], totalWeight, rows[..k], dimension)
    {
      var row := rows[k];
      assert rows[..k + 1] == rows[..k] + [row];
      AccumulateOne(sum[..], totalWeight, rows[..k], row, dimension);
      if row.vector.Some? && |row.vector.value| == dimension {
        var weight := WeightOf(row);
        sum := AddRow(sum, row.vector.value, weight);
        totalWeight := totalWeight + weight;
      }
      k := k + 1;
    }
    assert rows[..k] == rows;
  }

  // The rows of the query: of the positive views, newest first, at most 200.
  function Newest(views: seq<View>): seq<View> {
    var positive := PositiveRows(views);
    if |positive| > AGGREGATE_LIMIT then positive[..AGGREGATE_LIMIT] else positive
  }

  // They are the positive views of the newest few: of all, or of just enough to make
  // the limit full.
  lemma {:induction false} NewestArePrefix(views: seq<View>) returns (n: nat)
    ensures n <= |views| && Newest(views) == PositiveRows(views[..n])
    ensures |Newest(views)| <= AGGREGATE_LIMIT && (n < |views| ==> |Newest(views)| == AGGREGATE_LIMIT)
    decreases |views|
  {
    if |PositiveRows(views)| <= AGGREGATE_LIMIT {
      n := |views|;
      assert views[..n] == views;
    } else {
      var rest := views[..|views| - 1];
      n := NewestArePrefix(rest);
      assert views[..n] == rest[..n];
      if |PositiveRows(rest)| == AGGREGATE_LIMIT {
        n := |views| - 1;
        assert PositiveRows(views)[..AGGREGATE_LIMIT] == PositiveRows(rest);
      } else {
        assert PositiveRows(views)[..AGGREGATE_LIMIT] == PositiveRows(rest)[..AGGREGATE_LIMIT];
      }
    }
  }

  // The loop accumulates over the newest views, then divides in place.
  method AggregateUserInterestVector(views: seq<View>, dimension: nat) returns (vector: Vector, totalWeight: real)
    ensures vector == Aggregate(Newest(views), dimension)
    ensures vector != [] ==> totalWeight == Weight(Newest(views), dimension)
    ensures |PositiveRows(views)| <= AGGREGATE_LIMIT ==> vector == Aggregate(views, dimension)
    ensures |PositiveRows(views)| <= AGGREGATE_LIMIT && vector != [] ==> totalWeight == Weight(views, dimension)
    ensures vector == [] ==> totalWeight == 0.0
  {
    var positive := PositiveRows(views);
    var rows := if |positive| > AGGREGATE_LIMIT then positive[..AGGREGATE_LIMIT] else positive;
    forall row | row in rows ensures IsPositiveEventType(row.eventType) {
      var k :| 0 <= k < |rows| && rows[k] == row;
      RowsArePositive(views, k);
    }
    SameAggregate(views, dimension);
    var sum: array<real>;
    sum, totalWeight := Accumulate(rows, dimension);
    if sum.Length == 0 || totalWeight == 0.0 {
      return [], 0.0;
    }
    ghost var was := sum[..];
    DivideAll(sum, totalWeight);
    vector := sum[..];
    assert vector == Aggregate(rows, dimension);
  }

  lemma SameAggregate(views: seq<View>, dimension: nat)
    ensures Aggregate(PositiveRows(views), dimension) == Aggregate(views, dimension)
    ensures dimension > 0 ==> Weight(PositiveRows(views), dimension) == Weight(views, dimension)
  {
    if dimension > 0 {
      RowsSuffice(views, dimension, 0);
      forall i | 0 <= i < dimension
        ensures SumAt(PositiveRows(views), dimension, i) == SumAt(views, dimension, i)
      {
        RowsSuffice(views, dimension, i);
      }
    }
  }

  method DivideAll(sum: array<real>, totalWeight: real)
    requires totalWeight != 0.0
    modifies sum
    ensures forall i :: 0 <= i < sum.Length ==> sum[i] == Over(old(sum[i]), totalWeight)
  {
    var k := 0;
    while k < sum.Length
      invariant 0 <= k <= sum.Length
      invariant forall i :: 0 <= i < k ==> sum[i] == Over(old(sum[i]), totalWeight)
      invariant forall i :: k <= i < sum.Length ==> sum[i] == old(sum[i])
    {
      sum[k] := Over(sum[k], totalWeight);
      k := k + 1;
    }
  }

  // ----- the cached form -----

  // The weighted sum and the weight, not the mean.
  datatype Snapshot = Snapshot(sum: Vector, weight: real, dimension: int)

  type Cache = map<int, Snapshot>

  function VectorOf(s: Snapshot, expected: int): Vector {
    if s.weight <= 0.0 || expected <= 0 || s.dimension != expected || |s.sum| != expected then []
    else seq(|s.sum|, i requires 0 <= i < |s.sum| => Over(s.sum[i], s.weight))
  }

  // Load: an unusable snapshot is dropped and reads as a miss.
  function Loaded(cache: Cache, dimension: int, userID: int): Option<Vector> {
    if userID <= 0 || userID !in cache || VectorOf(cache[userID], dimension) == [] then None
    else Some(VectorOf(cache[userID], dimension))
  }

  function AfterStore(cache: Cache, dimension: int, userID: int, vector: Vector, weight: real): Cache {
    if userID <= 0 || |vector| != dimension || weight <= 0.0 then cache
    else cache[userID := Snapshot(Scale(vector, weight), weight, |vector|)]
  }

  function AfterApply(cache: Cache, dimension: int, userID: int, vector: Vector, weight: real): Cache {
    if userID <= 0 || vector == [] || weight <= 0.0 then cache
    else if |vector| != dimension then cache - {userID}
    else if userID !in cache then cache
    else
      var s := cache[userID];
      if s.dimension != dimension || s.weight <= 0.0 || |s.sum| != dimension then cache - {userID}
      else
        cache[userID := s.(sum := AddedTo(s.sum, vector, weight), weight := s.weight + weight)]
  }

  // One consumed view: only positive views of videos with a usable vector correct
  // the cache.
  function AfterView(cache: Cache, dimension: nat, userID: int, v: View): Cache {
    if Counts(v, dimension) then AfterApply(cache, dimension, userID, v.vector.value, WeightOf(v)) else cache
  }

  function AfterViews(cache: Cache, dimension: nat, userID: int, views: seq<View>): Cache {
    if views == [] then cache
    else AfterView(AfterViews(cache, dimension, userID, views[..|views| - 1]), dimension, userID, views[|views| - 1])
  }

  // The snapshot holds the sums over the views.
  ghost predicate Holds(cache: Cache, dimension: nat, userID: int, views: seq<View>) {
    && userID in cache
    && var s := cache[userID];
    s.dimension == dimension && s.weight == Weight(views, dimension) && SumsAre(s.sum, views, dimension)
  }

  lemma MeanTimesWeight(x: real, w: real)
    requires w != 0.0
    ensures Times(Over(x, w), w) == x
  {
  }

  lemma StoreHolds(cache: Cache, dimension: nat, userID: int, views: seq<View>)
    requires userID > 0 && dimension > 0 && Recorded(views) && SomeCount(views, dimension)
    ensures Holds(AfterStore(cache, dimension, userID, Aggregate(views, dimension), Weight(views, dimension)),
                  dimension, userID, views)
  {
    WeightPositive(views, dimension);
    var w := Weight(views, dimension);
    forall i | 0 <= i < dimension ensures Scale(Aggregate(views, dimension), w)[i] == SumAt(views, dimension, i) {
      MeanTimesWeight(SumAt(views, dimension, i), w);
    }
  }

  lemma ApplyHolds(cache: Cache, dimension: nat, userID: int, views: seq<View>, v: View)
    requires userID > 0 && dimension > 0 && v.watchMs >= 0
    requires Holds(cache, dimension, userID, views) && Weight(views, dimension) > 0.0
    ensures Holds(AfterView(cache, dimension, userID, v), dimension, userID, views + [v])
    ensures Weight(views + [v], dimension) > 0.0
  {
    WeightSnoc(views, v, dimension);
    SumsSnoc(cache[userID].sum, views, v, dimension);
  }

  lemma {:induction false} ViewsHold(cache: Cache, dimension: nat, userID: int, a: seq<View>, b: seq<View>)
    requires userID > 0 && dimension > 0 && Recorded(b)
    requires Holds(cache, dimension, userID, a) && Weight(a, dimension) > 0.0
    ensures Holds(AfterViews(cache, dimension, userID, b), dimension, userID, a + b)
    ensures Weight(a + b, dimension) > 0.0
    decreases |b|
  {
    if b == [] {
      assert a + b == a;
    } else {
      var before, last := b[..|b| - 1], b[|b| - 1];
      ViewsHold(cache, dimension, userID, a, before);
      assert last in b;
      ApplyHolds(AfterViews(cache, dimension, userID, before), dimension, userID, a + before, last);
      assert a + b == a + before + [last];
    }
  }

  // Storing the aggregate of the views so far and then applying each later view
  // makes Load return the aggregate of all of them.
  lemma IncrementalEqualsBatch(cache: Cache, dimension: nat, userID: int, a: seq<View>, b: seq<View>)
    requires userID > 0 && dimension > 0 && Recorded(a) && Recorded(b) && SomeCount(a, dimension)
    ensures var stored := AfterStore(cache, dimension, userID, Aggregate(a, dimension), Weight(a, dimension));
            Loaded(AfterViews(stored, dimension, userID, b), dimension, userID) == Some(Aggregate(a + b, dimension))
  {
    var stored := AfterStore(cache, dimension, userID, Aggregate(a, dimension), Weight(a, dimension));
    WeightPositive(a, dimension);
    StoreHolds(cache, dimension, userID, a);
    ViewsHold(stored, dimension, userID, a, b);
    assert VectorOf(AfterViews(stored, dimension, userID, b)[userID], dimension) == Aggregate(a + b, dimension);
  }

  // Without a stored baseline no view makes one: the next Load still misses and the
  // caller aggregates afresh.
  lemma {:induction false} ColdCacheStaysCold(cache: Cache, dimension: nat, userID: int, views: seq<View>)
    requires userID !in cache
    ensures userID !in AfterViews(cache, dimension, userID, views)
    ensures Loaded(AfterViews(cache, dimension, userID, views), dimension, userID) == None
    decreases |views|
  {
    if views != [] {
      ColdCacheStaysCold(cache, dimension, userID, views[..|views| - 1]);
    }
  }

  // A vector of another dimension, or a snapshot of another one, ends in a miss, and
  // no call touches another user.
  lemma MisfitIsDropped(cache: Cache, dimension: nat, userID: int, vector: Vector, weight: real)
    requires userID > 0 && vector != [] && weight > 0.0
    requires |vector| != dimension || (userID in cache && VectorOf(cache[userID], dimension) == [])
    ensures userID !in AfterApply(cache, dimension, userID, vector, weight)
    ensures Loaded(AfterApply(cache, dimension, userID, vector, weight), dimension, userID) == None
  {
    if |vector| == dimension {
      var s := cache[userID];
      assert s.dimension == dimension && s.weight > 0.0 && |s.sum| == dimension ==>
               |VectorOf(s, dimension)| == dimension;
    }
  }

  lemma OthersKeepTheirs(cache: Cache, dimension: nat, userID: int, vector: Vector, weight: real, other: int)
    requires other != userID
    ensures Loaded(AfterApply(cache, dimension, userID, vector, weight), dimension, other) ==
            Loaded(AfterStore(cache, dimension, userID, vector, weight), dimension, other) ==
            Loaded(cache, dimension, other)
  {
  }

  // ----- order and bounds -----

  lemma SumWithout(b: seq<View>, j: nat, dimension: nat, i: nat)
    requires i < dimension && j < |b|
    ensures var rest := b[..j] + b[j + 1..];
            && SumAt(b, dimension, i) == SumAt(rest, dimension, i) + Term(b[j], dimension, i)
            && Weight(b, dimension) == Weight(rest, dimension) + Part(b[j], dimension)
  {
    assert b == b[..j] + [b[j]] + b[j + 1..];
    SumConcat(b[..j] + [b[j]], b[j + 1..], dimension, i);
    SumSnoc(b[..j], b[j], dimension, i);
    WeightSnoc(b[..j], b[j], dimension);
    SumConcat(b[..j], b[j + 1..], dimension, i);
  }

  lemma {:induction false} SumPermutes(a: seq<View>, b: seq<View>, dimension: nat, i: nat)
    requires i < dimension && multiset(a) == multiset(b)
    ensures SumAt(a, dimension, i) == SumAt(b, dimension, i) && Weight(a, dimension) == Weight(b, dimension)
    decreases |a|
  {
    if a == [] {
      assert |multiset(b)| == 0;
    } else {
      var j := MatchLast(a, b);
      SumPermutes(a[..|a| - 1], b[..j] + b[j + 1..], dimension, i);
      SumWithout(b, j, dimension, i);
      SumWithout(a, |a| - 1, dimension, i);
      assert a[..|a| - 1] + a[|a|..] == a[..|a| - 1];
    }
  }

  lemma MatchLast(a: seq<View>, b: seq<View>) returns (j: nat)
    requires multiset(a) == multiset(b) && a != []
    ensures j < |b| && b[j] == a[|a| - 1] && multiset(b[..j] + b[j + 1..]) == multiset(a[..|a| - 1])
  {
    var last := a[|a| - 1];
    assert a == a[..|a| - 1] + [last];
    assert last in multiset(b);
    j :| 0 <= j < |b| && b[j] == last;
    var rest := b[..j] + b[j + 1..];
    assert multiset(b) == multiset(rest) + multiset{last} by {
      assert b == b[..j] + [last] + b[j + 1..];
    }
    assert multiset(a) == multiset(a[..|a| - 1]) + multiset{last};
    assert multiset(rest) == multiset(b) - multiset{last};
  }

  lemma AggregatePermutes(a: seq<View>, b: seq<View>, dimension: nat)
    requires multiset(a) == multiset(b)
    ensures Aggregate(a, dimension) == Aggregate(b, dimension)
  {
    if dimension > 0 {
      SumPermutes(a, b, dimension, 0);
    }
    forall i | 0 <= i < dimension ensures SumAt(a, dimension, i) == SumAt(b, dimension, i) {
      SumPermutes(a, b, dimension, i);
    }
  }

  lemma RecordedPermutes(b: seq<View>, c: seq<View>)
    requires multiset(b) == multiset(c) && Recorded(b)
    ensures Recorded(c)
  {
    forall v | v in c ensures v.watchMs >= 0 {
      assert v in multiset(c);
      assert v in b;
    }
  }

  // The order in which later views arrive does not matter.
  lemma ArrivalOrderIsIrrelevant(cache: Cache, dimension: nat, userID: int, a: seq<View>, b: seq<View>, c: seq<View>)
    requires userID > 0 && dimension > 0 && Recorded(a) && Recorded(b) && SomeCount(a, dimension)
    requires multiset(b) == multiset(c)
    ensures var stored := AfterStore(cache, dimension, userID, Aggregate(a, dimension), Weight(a, dimension));
            Loaded(AfterViews(stored, dimension, userID, b), dimension, userID) ==
            Loaded(AfterViews(stored, dimension, userID, c), dimension, userID)
  {
    RecordedPermutes(b, c);
    IncrementalEqualsBatch(cache, dimension, userID, a, b);
    IncrementalEqualsBatch(cache, dimension, userID, a, c);
    assert multiset(a + b) == multiset(a + c);
    AggregatePermutes(a + b, a + c, dimension);
  }

  lemma {:induction false} TotalMonotone(xs: seq<real>, ys: seq<real>)
    requires |xs| == |ys| && forall k :: 0 <= k < |xs| ==> xs[k] <= ys[k]
    ensures Total(xs) <= Total(ys)
    decreases |xs|
  {
    if xs != [] {
      TotalMonotone(xs[..|xs| - 1], ys[..|ys| - 1]);
    }
  }

  lemma {:induction false} TotalScales(xs: seq<real>, c: real)
    ensures Total(Scale(xs, c)) == Times(c, Total(xs))
    decreases |xs|
  {
    if xs != [] {
      var n := |xs| - 1;
      TotalScales(xs[..n], c);
      assert Scale(xs, c)[..n] == Scale(xs[..n], c);
      Distribute(c, Total(xs[..n]), xs[n]);
      Distribute(c, xs[n], 0.0);
    }
  }

  lemma Distribute(x: real, a: real, b: real)
    ensures Times(x, a + b) == Times(x, a) + Times(x, b)
    ensures Times(x, a) == Times(a, x)
  {
  }

  lemma SumBounds(views: seq<View>, dimension: nat, i: nat, lo: real, hi: real)
    requires i < dimension && Recorded(views)
    requires forall v :: v in views && Counts(v, dimension) ==> lo <= v.vector.value[i] <= hi
    ensures Times(lo, Weight(views, dimension)) <= SumAt(views, dimension, i) <= Times(hi, Weight(views, dimension))
  {
    var xs, ws := Terms(views, dimension, i), Parts(views, dimension);
    forall k | 0 <= k < |views| ensures Scale(ws, lo)[k] <= xs[k] <= Scale(ws, hi)[k] {
      var v := views[k];
      assert v in views;
      if Counts(v, dimension) {
        Scaled(lo, v.vector.value[i], WeightOf(v));
        Scaled(v.vector.value[i], hi, WeightOf(v));
        Distribute(lo, WeightOf(v), 0.0);
        Distribute(hi, WeightOf(v), 0.0);
      } else {
        assert Times(0.0, lo) == 0.0 && Times(0.0, hi) == 0.0;
      }
    }
    TotalMonotone(Scale(ws, lo), xs);
    TotalMonotone(xs, Scale(ws, hi));
    TotalScales(ws, lo);
    TotalScales(ws, hi);
  }

  lemma Scaled(x: real, y: real, w: real)
    requires x <= y && w >= 0.0
    ensures Times(x, w) <= Times(y, w) && Times(x, w) == Times(w, x)
  {
  }

  // Every coordinate lies between the least and the greatest of the vectors that
  // contribute to it.
  lemma CoordinatesStayBetween(views: seq<View>, dimension: nat, i: nat, lo: real, hi: real)
    requires i < dimension && Recorded(views) && SomeCount(views, dimension)
    requires forall v :: v in views && Counts(v, dimension) ==> lo <= v.vector.value[i] <= hi
    ensures |Aggregate(views, dimension)| == dimension && lo <= Aggregate(views, dimension)[i] <= hi
  {
    WeightPositive(views, dimension);
    SumBounds(views, dimension, i, lo, hi);
    QuotientBetween(SumAt(views, dimension, i), Weight(views, dimension), lo, hi);
  }

  lemma QuotientBetween(x: real, w: real, lo: real, hi: real)
    requires w > 0.0 && Times(lo, w) <= x <= Times(hi, w)
    ensures lo <= Over(x, w) <= hi
  {
    MeanTimesWeight(x, w);
    if Over(x, w) < lo {
      StrictlyScaled(Over(x, w), lo, w);
    }
    if Over(x, w) > hi {
      StrictlyScaled(hi, Over(x, w), w);
    }
  }

  lemma StrictlyScaled(x: real, y: real, w: real)
    requires x < y && w > 0.0
    ensures Times(x, w) < Times(y, w)
  {
    assert (y - x) * w > 0.0;
  }

  // Why the later views must not be among the earlier ones: counting a view again
  // leaves a coordinate alone exactly when the view lies on the mean there.
  lemma CountedTwiceIff(a: seq<View>, v: View, dimension: nat, i: nat)
    requires i < dimension && Recorded(a) && v in a && Counts(v, dimension)
    ensures |Aggregate(a, dimension)| == dimension && |Aggregate(a + [v], dimension)| == dimension
    ensures Aggregate(a + [v], dimension)[i] == Aggregate(a, dimension)[i] <==>
            v.vector.value[i] == Aggregate(a, dimension)[i]
  {
    WeightPositive(a, dimension);
    AggregateSnoc(a, v, dimension, i);
    MeanMoves(SumAt(a, dimension, i), Weight(a, dimension), v.vector.value[i], WeightOf(v));
  }

  lemma AggregateSnoc(a: seq<View>, v: View, dimension: nat, i: nat)
    requires i < dimension && Counts(v, dimension) && WeightOf(v) > 0.0 && Weight(a, dimension) > 0.0
    ensures |Aggregate(a, dimension)| == dimension && |Aggregate(a + [v], dimension)| == dimension
    ensures Aggregate(a, dimension)[i] == Over(SumAt(a, dimension, i), Weight(a, dimension))
    ensures Aggregate(a + [v], dimension)[i] ==
            Over(SumAt(a, dimension, i) + Times(v.vector.value[i], WeightOf(v)), Weight(a, dimension) + WeightOf(v))
  {
    SumSnoc(a, v, dimension, i);
    WeightSnoc(a, v, dimension);
  }

  lemma MeanMoves(s: real, w: real, x: real, y: real)
    requires w > 0.0 && y > 0.0
    ensures Over(s + Times(x, y), w + y) == Over(s, w) <==> x == Over(s, w)
  {
    var m, n := Over(s, w), Over(s + Times(x, y), w + y);
    MeanTimesWeight(s, w);
    MeanTimesWeight(s + Times(x, y), w + y);
    Distribute(m, w, y);
    if x == m {
      QuotientBetween(s + Times(x, y), w + y, m, m);
    }
    if n == m {
      if x < m {
        StrictlyScaled(x, m, y);
      } else if m < x {
        StrictlyScaled(m, x, y);
      }
    }
  }

  class UserInterestCache {
    const dimension: int
    var snapshots: Cache

    constructor (dimension: int)
      ensures this.dimension == dimension && snapshots == map[]
    {
      this.dimension, snapshots := dimension, map[];
    }

    method Load(userID: int) returns (vector: Option<Vector>)
      modifies this
      ensures vector == Loaded(old(snapshots), dimension, userID)
      ensures snapshots == if userID > 0 && vector.None? then old(snapshots) - {userID} else old(snapshots)
    {
      if userID <= 0 {
        return None;
      }
      if userID !in snapshots {
        assert snapshots - {userID} == snapshots;
        return None;
      }
      var v := VectorOf(snapshots[userID], dimension);
      if v == [] {
        Invalidate(userID);
        return None;
      }
      vector := Some(v);
    }

    method Store(userID: int, vector: Vector, weight: real)
      modifies this
      ensures snapshots == AfterStore(old(snapshots), dimension, userID, vector, weight)
    {
      if userID <= 0 || |vector| != dimension || weight <= 0.0 {
        return;
      }
      var sum := new real[|vector|](i => 0.0);
      var i := 0;
      while i < |vector|
        invariant 0 <= i <= |vector|
        invariant snapshots == old(snapshots)
        invariant forall j :: 0 <= j < i ==> sum[j] == Times(vector[j], weight)
      {
        sum[i] := Times(vector[i], weight);
        i := i + 1;
      }
      assert sum[..] == Scale(vector, weight);
      snapshots := snapshots[userID := Snapshot(sum[..], weight, |vector|)];
    }

    method Apply(userID: int, vector: Vector, weight: real)
      modifies this
      ensures snapshots == AfterApply(old(snapshots), dimension, userID, vector, weight)
    {
      if userID <= 0 || |vector| == 0 || weight <= 0.0 {
        return;
      }
      if |vector| != dimension {
        Invalidate(userID);
        return;
      }
      if userID !in snapshots {
        return;
      }
      var s := snapshots[userID];
      if s.dimension != dimension || s.weight <= 0.0 || |s.sum| != dimension {
        Invalidate(userID);
        return;
      }
      var sum := new real[|s.sum|](i requires 0 <= i < |s.sum| => s.sum[i]);
      assert sum[..] == s.sum;
      AddWeighted(sum, vector, weight);
      snapshots := snapshots[userID := s.(sum := sum[..], weight := s.weight + weight)];
    }

    method Invalidate(userID: int)
      modifies this
      ensures snapshots == if userID > 0 then old(snapshots) - {userID} else old(snapshots)
    {
      if userID > 0 {
        snapshots := snapshots - {userID};
      }
    }
  }
}
