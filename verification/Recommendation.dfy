// Recommendation pages: ranking, the score cursor, and spreading authors over a
// page (application/recommendation/service.go).
module Recommendation {
  import opened Base
  import opened Ranking
  import FeedDomain

  const DEFAULT_LIMIT: int := 10
  const MAX_LIMIT: int := 100
  const CANDIDATE_POOL_MULTIPLIER: int := 8
  const MIN_CANDIDATE_POOL_SIZE: int := 50
  const MAX_CANDIDATE_POOL_SIZE: int := 500
  const SCORE_GAP: real := 0.000000001

  datatype Candidate = Candidate(videoID: int, authorID: int, rankScore: real, publishedAt: int)
  datatype Cursor = Cursor(rankScore: real, publishedAt: int, videoID: int)

  function NormalizeLimit(limit: int): (r: nat)
    ensures 1 <= r <= MAX_LIMIT && (1 <= limit <= MAX_LIMIT ==> r == limit)
  {
    if limit <= 0 then DEFAULT_LIMIT else if limit > MAX_LIMIT then MAX_LIMIT else limit
  }

  // The pool always has room for more than one page.
  function CandidatePoolLimit(limit: int): (r: int)
    ensures MIN_CANDIDATE_POOL_SIZE <= r <= MAX_CANDIDATE_POOL_SIZE
    ensures limit <= MAX_LIMIT ==> r > limit
    // Eight pages of candidates, as far as the bounds allow.
    ensures MIN_CANDIDATE_POOL_SIZE <= CANDIDATE_POOL_MULTIPLIER * limit <= MAX_CANDIDATE_POOL_SIZE ==>
              r == CANDIDATE_POOL_MULTIPLIER * limit
  {
    var poolLimit := limit * CANDIDATE_POOL_MULTIPLIER;
    var atLeast := if poolLimit < MIN_CANDIDATE_POOL_SIZE then MIN_CANDIDATE_POOL_SIZE else poolLimit;
    if atLeast > MAX_CANDIDATE_POOL_SIZE then MAX_CANDIDATE_POOL_SIZE else atLeast
  }

  // Score, then publish time, then id, all descending: `a` is ranked after `b`.
  // The video ids of a pool differ, so the author never decides.
  predicate RankedAfter(a: Candidate, b: Candidate) {
    || a.rankScore < b.rankScore
    || (a.rankScore == b.rankScore && a.publishedAt < b.publishedAt)
    || (a.rankScore == b.rankScore && a.publishedAt == b.publishedAt && a.videoID < b.videoID)
    || (a.rankScore == b.rankScore && a.publishedAt == b.publishedAt && a.videoID == b.videoID
        && a.authorID < b.authorID)
  }

  lemma RankedAfterIsTotal()
    ensures StrictTotal(RankedAfter)
  {
  }

  function CursorOf(c: Candidate): Cursor {
    Cursor(c.rankScore, c.publishedAt, c.videoID)
  }

  // The cursor that asks for what follows a candidate: none at the start.
  function CursorAt(from: Option<Candidate>): Option<Cursor> {
    match from
    case None => None
    case Some(c) => Some(CursorOf(c))
  }

  predicate SameScore(left: real, right: real) {
    -SCORE_GAP < left - right < SCORE_GAP
  }

  // The filter's condition.
  predicate Passes(c: Candidate, cursor: Cursor) {
    || c.rankScore < cursor.rankScore
    || (SameScore(c.rankScore, cursor.rankScore) && c.publishedAt < cursor.publishedAt)
    || (SameScore(c.rankScore, cursor.rankScore) && c.publishedAt == cursor.publishedAt && c.videoID < cursor.videoID)
  }

  // What a cursor exactly below (score, time, id) would leave.
  predicate Beyond(c: Candidate, cursor: Cursor) {
    || c.rankScore < cursor.rankScore
    || (c.rankScore == cursor.rankScore && c.publishedAt < cursor.publishedAt)
    || (c.rankScore == cursor.rankScore && c.publishedAt == cursor.publishedAt && c.videoID < cursor.videoID)
  }

  // The filter never drops a candidate ranked after the cursor, and it passes one
  // ranked before it exactly when that candidate's score is greater by less than
  // the gap and its publish time and id are past the cursor's.
  lemma FilterIsExactUpToGap(c: Candidate, cursor: Cursor)
    ensures Beyond(c, cursor) ==> Passes(c, cursor)
    ensures Passes(c, cursor) && !Beyond(c, cursor) <==>
            && 0.0 < c.rankScore - cursor.rankScore < SCORE_GAP
            && (c.publishedAt < cursor.publishedAt
                || (c.publishedAt == cursor.publishedAt && c.videoID < cursor.videoID))
  {
  }

  ghost predicate UniqueVideos(s: set<Candidate>) {
    forall a, b :: a in s && b in s && a.videoID == b.videoID ==> a == b
  }

  // Unequal scores of the pool lie at least the gap apart.
  ghost predicate Gapped(s: set<Candidate>) {
    forall a, b :: a in s && b in s && a.rankScore < b.rankScore ==> b.rankScore - a.rankScore >= SCORE_GAP
  }

  function Filtered(ranked: seq<Candidate>, cursor: Option<Cursor>): seq<Candidate> {
    if cursor.None? || ranked == [] then ranked
    else
      var before, last := Filtered(ranked[..|ranked| - 1], cursor), ranked[|ranked| - 1];
      if Passes(last, cursor.value) then before + [last] else before
  }

  method FilterByCursor(candidates: seq<Candidate>, cursor: Option<Cursor>) returns (filtered: seq<Candidate>)
    ensures filtered == Filtered(candidates, cursor)
  {
    if cursor == None {
      return candidates;
    }
    filtered := [];
    var i := 0;
    while i < |candidates|
      invariant 0 <= i <= |candidates|
      invariant filtered == Filtered(candidates[..i], cursor)
    {
      assert candidates[..i + 1][..i] == candidates[..i];
      if Passes(candidates[i], cursor.value) {
        filtered := filtered + [candidates[i]];
      }
      i := i + 1;
    }
    assert candidates[..i] == candidates;
  }

  // Filtering a listing lists what passes, in the same order.
  lemma {:induction false} FilteredLists(ranked: seq<Candidate>, s: set<Candidate>, cursor: Cursor)
    requires Lists(RankedAfter, ranked, s)
    ensures Lists(RankedAfter, Filtered(ranked, Some(cursor)), set c | c in s && Passes(c, cursor))
    decreases |ranked|
  {
    var kept := set c | c in s && Passes(c, cursor);
    if ranked == [] {
      assert kept == {};
    } else {
      var before, last := ranked[..|ranked| - 1], ranked[|ranked| - 1];
      FilteredLists(before, Elements(before), cursor);
      ElementsSnoc(ranked);
      var r := Filtered(ranked, Some(cursor));
      if Passes(last, cursor) {
        assert r[..|r| - 1] == Filtered(before, Some(cursor));
        ElementsSnoc(r);
        forall j | 0 <= j < |r| - 1 ensures RankedAfter(last, r[j]) {
          assert r[j] in Elements(r[..|r| - 1]);
          var k :| 0 <= k < |before| && before[k] == r[j];
          assert ranked[k] == r[j];
        }
      }
    }
  }

  // On a pool with the gap, the cursor of a candidate leaves exactly what is ranked
  // below it.
  lemma CursorContinues(s: set<Candidate>, from: Candidate)
    requires UniqueVideos(s) && Gapped(s) && from in s
    ensures (set c | c in s && Passes(c, CursorOf(from))) == Below(RankedAfter, s, Some(from))
  {
    forall c | c in s ensures Passes(c, CursorOf(from)) <==> RankedAfter(c, from) {
      FilterIsExactUpToGap(c, CursorOf(from));
    }
  }

  // ----- spreading authors over a page -----

  function Present(xs: seq<Option<Candidate>>): seq<Candidate> {
    if xs == [] then []
    else
      var before, last := Present(xs[..|xs| - 1]), xs[|xs| - 1];
      if last.Some? then before + [last.value] else before
  }

  function Somes(xs: seq<Candidate>): seq<Option<Candidate>> {
    seq(|xs|, i requires 0 <= i < |xs| => Some(xs[i]))
  }

  // No two neighbours by one (known) author.
  ghost predicate Spread(xs: seq<Candidate>) {
    forall i :: 0 <= i < |xs| - 1 && xs[i].authorID == xs[i + 1].authorID ==> xs[i].authorID == 0
  }

  ghost predicate AllBy(xs: seq<Candidate>, authorID: int) {
    forall i :: 0 <= i < |xs| ==> xs[i].authorID == authorID
  }

  // A spread part, then what could not be spread: all by the author the spread part
  // ends with.
  ghost predicate Interleaved(output: seq<Candidate>, k: nat) {
    && k <= |output| && Spread(output[..k])
    && (k < |output| ==> k > 0 && AllBy(output[k..], output[k - 1].authorID))
  }

  // ----- where every candidate is shown -----

  // The author before position i, `before` standing in front of the list.
  function AuthorBefore(before: int, xs: seq<Candidate>, i: nat): int
    requires i <= |xs|
  {
    if i == 0 then before else xs[i - 1].authorID
  }

  // The candidate at i is by the author of the one in front of it. In the first pass
  // (`first`) unknown authors, 0, are no one's.
  predicate Repeats(first: bool, before: int, xs: seq<Candidate>, i: nat)
    requires i < |xs|
  {
    xs[i].authorID == AuthorBefore(before, xs, i) && !(first && xs[i].authorID == 0)
  }

  // A pass places the first candidate of every run of one author, in order, and puts
  // off the others, in order.
  function Placed(first: bool, before: int, xs: seq<Candidate>): seq<Candidate> {
    if xs == [] then []
    else Placed(first, before, xs[..|xs| - 1]) + (if Repeats(first, before, xs, |xs| - 1) then [] else [xs[|xs| - 1]])
  }

  function PutOff(first: bool, before: int, xs: seq<Candidate>): (r: seq<Candidate>)
    ensures |Placed(first, before, xs)| + |r| == |xs|
  {
    if xs == [] then []
    else PutOff(first, before, xs[..|xs| - 1]) + (if Repeats(first, before, xs, |xs| - 1) then [xs[|xs| - 1]] else [])
  }

  // Pass after pass over what was put off, until one places nothing.
  function Turns(before: int, delayed: seq<Candidate>): seq<Candidate>
    decreases |delayed|
  {
    if Placed(false, before, delayed) == [] then delayed
    else
      Placed(false, before, delayed)
      + Turns(AuthorBefore(before, delayed, |delayed|), PutOff(false, before, delayed))
  }

  // The order a page is shown in.
  function InterleavedOrder(xs: seq<Candidate>): seq<Candidate> {
    Placed(true, 0, xs) + Turns(AuthorBefore(0, xs, |xs|), PutOff(true, 0, xs))
  }

  // The position in that order of the candidate at i.
  function TurnPosition(before: int, delayed: seq<Candidate>, i: nat): nat
    requires i < |delayed|
    decreases |delayed|
  {
    if Placed(false, before, delayed) == [] then i
    else if !Repeats(false, before, delayed, i) then |Placed(false, before, delayed[..i])|
    else
      PassAt(false, before, delayed, i);
      |Placed(false, before, delayed)|
      + TurnPosition(AuthorBefore(before, delayed, |delayed|), PutOff(false, before, delayed),
                     |PutOff(false, before, delayed[..i])|)
  }

  function Position(xs: seq<Candidate>, i: nat): nat
    requires i < |xs|
  {
    if !Repeats(true, 0, xs, i) then |Placed(true, 0, xs[..i])|
    else
      PassAt(true, 0, xs, i);
      |Placed(true, 0, xs)| + TurnPosition(AuthorBefore(0, xs, |xs|), PutOff(true, 0, xs), |PutOff(true, 0, xs[..i])|)
  }

  // Where one pass leaves the candidate at i.
  lemma {:induction false} PassAt(first: bool, before: int, xs: seq<Candidate>, i: nat)
    requires i < |xs|
    ensures var placed, off := |Placed(first, before, xs[..i])|, |PutOff(first, before, xs[..i])|;
            if Repeats(first, before, xs, i)
            then off < |PutOff(first, before, xs)| && PutOff(first, before, xs)[off] == xs[i]
            else placed < |Placed(first, before, xs)| && Placed(first, before, xs)[placed] == xs[i]
    decreases |xs|
  {
    if i < |xs| - 1 {
      PassAt(first, before, xs[..|xs| - 1], i);
      assert xs[..|xs| - 1][..i] == xs[..i];
    }
  }

  // Later candidates of a pass come later.
  lemma {:induction false} PassGrows(first: bool, before: int, xs: seq<Candidate>, i: nat, j: nat)
    requires i < j <= |xs|
    ensures |Placed(first, before, xs[..i])| + Bit(!Repeats(first, before, xs, i)) <= |Placed(first, before, xs[..j])|
    ensures |PutOff(first, before, xs[..i])| + Bit(Repeats(first, before, xs, i)) <= |PutOff(first, before, xs[..j])|
    decreases j
  {
    assert xs[..j][..j - 1] == xs[..j - 1];
    if i < j - 1 {
      PassGrows(first, before, xs, i, j - 1);
    }
  }

  lemma {:induction false} TurnsAt(before: int, delayed: seq<Candidate>, i: nat)
    requires i < |delayed|
    ensures |Turns(before, delayed)| == |delayed|
    ensures TurnPosition(before, delayed, i) < |delayed|
    ensures Turns(before, delayed)[TurnPosition(before, delayed, i)] == delayed[i]
    decreases |delayed|
  {
    if Placed(false, before, delayed) != [] {
      PassAt(false, before, delayed, i);
      var rest, last := PutOff(false, before, delayed), AuthorBefore(before, delayed, |delayed|);
      if Repeats(false, before, delayed, i) {
        TurnsAt(last, rest, |PutOff(false, before, delayed[..i])|);
      } else if rest != [] {
        TurnsAt(last, rest, 0);
      }
    }
  }

  lemma {:induction false} TurnsApart(before: int, delayed: seq<Candidate>, i: nat, j: nat)
    requires i < j < |delayed|
    ensures TurnPosition(before, delayed, i) != TurnPosition(before, delayed, j)
    decreases |delayed|
  {
    if Placed(false, before, delayed) != [] {
      PassAt(false, before, delayed, i);
      PassAt(false, before, delayed, j);
      PassGrows(false, before, delayed, i, j);
      if Repeats(false, before, delayed, i) && Repeats(false, before, delayed, j) {
        TurnsApart(AuthorBefore(before, delayed, |delayed|), PutOff(false, before, delayed),
                   |PutOff(false, before, delayed[..i])|, |PutOff(false, before, delayed[..j])|);
      }
    }
  }

  // Every candidate is shown at its position, no two at the same one; the first of
  // each run of one author stands behind the firsts of the runs before it.
  lemma ShownAtPosition(xs: seq<Candidate>, i: nat)
    requires i < |xs|
    ensures |InterleavedOrder(xs)| == |xs| && Position(xs, i) < |xs|
    ensures InterleavedOrder(xs)[Position(xs, i)] == xs[i]
    ensures forall j :: 0 <= j < |xs| && j != i ==> Position(xs, j) != Position(xs, i)
    ensures !Repeats(true, 0, xs, i) ==> Position(xs, i) == |Placed(true, 0, xs[..i])| < |Placed(true, 0, xs)|
    ensures Repeats(true, 0, xs, i) ==> Position(xs, i) >= |Placed(true, 0, xs)|
  {
    PassAt(true, 0, xs, i);
    var rest, last := PutOff(true, 0, xs), AuthorBefore(0, xs, |xs|);
    if Repeats(true, 0, xs, i) {
      TurnsAt(last, rest, |PutOff(true, 0, xs[..i])|);
    } else if rest != [] {
      TurnsAt(last, rest, 0);
    }
    forall j | 0 <= j < |xs| && j != i ensures Position(xs, j) != Position(xs, i) {
      PositionsApart(xs, if i < j then i else j, if i < j then j else i);
    }
  }

  lemma PositionsApart(xs: seq<Candidate>, i: nat, j: nat)
    requires i < j < |xs|
    ensures Position(xs, i) != Position(xs, j)
    ensures !Repeats(true, 0, xs, i) ==> Position(xs, i) < Position(xs, j)
    ensures Repeats(true, 0, xs, i) && !Repeats(true, 0, xs, j) ==> Position(xs, j) < Position(xs, i)
  {
    PassAt(true, 0, xs, i);
    PassAt(true, 0, xs, j);
    PassGrows(true, 0, xs, i, j);
    if Repeats(true, 0, xs, i) && Repeats(true, 0, xs, j) {
      TurnsApart(AuthorBefore(0, xs, |xs|), PutOff(true, 0, xs),
                 |PutOff(true, 0, xs[..i])|, |PutOff(true, 0, xs[..j])|);
    }
  }

  // Candidates without equal neighbours are shown as they are ranked.
  lemma {:induction false} SpreadIsPlaced(xs: seq<Candidate>)
    requires Spread(xs)
    ensures Placed(true, 0, xs) == xs && PutOff(true, 0, xs) == []
    decreases |xs|
  {
    if xs != [] {
      SpreadIsPlaced(xs[..|xs| - 1]);
    }
  }

  lemma SpreadStaysInOrder(xs: seq<Candidate>)
    requires Spread(xs)
    ensures InterleavedOrder(xs) == xs
  {
    SpreadIsPlaced(xs);
    assert Placed(false, AuthorBefore(0, xs, |xs|), []) == [];
  }

  ghost predicate RunOf(xs: seq<Candidate>, authorID: int, i: nat, j: nat)
    requires j < |xs|
  {
    forall k :: i <= k <= j ==> xs[k].authorID == authorID
  }

  // Of a run whose first is put off every candidate is put off, right behind it.
  lemma {:induction false} RunIsPutOff(first: bool, before: int, xs: seq<Candidate>, authorID: int, i: nat, j: nat)
    requires i <= j < |xs| && authorID != 0 && RunOf(xs, authorID, i, j) && Repeats(first, before, xs, i)
    ensures Repeats(first, before, xs, j)
    ensures |PutOff(first, before, xs[..j])| == |PutOff(first, before, xs[..i])| + j - i
    decreases j
  {
    if i < j {
      RunIsPutOff(first, before, xs, authorID, i, j - 1);
      assert xs[..j][..j - 1] == xs[..j - 1];
    }
  }

  lemma RunIsPutOffAt(first: bool, before: int, xs: seq<Candidate>, authorID: int, i: nat, j: nat)
    requires i <= j < |xs| && authorID != 0 && RunOf(xs, authorID, i, j) && Repeats(first, before, xs, i)
    ensures var b := |PutOff(first, before, xs[..i])| + j - i;
            b < |PutOff(first, before, xs)| && PutOff(first, before, xs)[b].authorID == authorID
  {
    RunIsPutOff(first, before, xs, authorID, i, j);
    PassAt(first, before, xs, j);
  }

  // So it is a run of what is put off.
  lemma RunStaysRun(first: bool, before: int, xs: seq<Candidate>, authorID: int, i: nat, j: nat)
    requires i <= j < |xs| && authorID != 0 && RunOf(xs, authorID, i, j) && Repeats(first, before, xs, i)
    ensures Repeats(first, before, xs, j)
    ensures var a, b := |PutOff(first, before, xs[..i])|, |PutOff(first, before, xs[..j])|;
            b == a + j - i && b < |PutOff(first, before, xs)| && RunOf(PutOff(first, before, xs), authorID, a, b)
  {
    var a, off := |PutOff(first, before, xs[..i])|, PutOff(first, before, xs);
    RunIsPutOff(first, before, xs, authorID, i, j);
    RunIsPutOffAt(first, before, xs, authorID, i, j);
    forall k | a <= k <= a + j - i ensures off[k].authorID == authorID {
      RunIsPutOffAt(first, before, xs, authorID, i, i + k - a);
    }
  }

  // Candidates of one run keep their order.
  lemma {:induction false} TurnsKeepRun(before: int, delayed: seq<Candidate>, authorID: int, i: nat, j: nat)
    requires i < j < |delayed| && authorID != 0 && RunOf(delayed, authorID, i, j)
    ensures TurnPosition(before, delayed, i) < TurnPosition(before, delayed, j)
    decreases |delayed|
  {
    if Placed(false, before, delayed) != [] {
      PassAt(false, before, delayed, i);
      PassAt(false, before, delayed, j);
      if Repeats(false, before, delayed, i) {
        RunStaysRun(false, before, delayed, authorID, i, j);
        TurnsKeepRun(AuthorBefore(before, delayed, |delayed|), PutOff(false, before, delayed), authorID,
                     |PutOff(false, before, delayed[..i])|, |PutOff(false, before, delayed[..j])|);
      }
    }
  }

  // No repeat of the author comes before another run of the author: every run but
  // the last is one candidate long.
  ghost predicate OnlyLastRunRepeats(xs: seq<Candidate>, authorID: int) {
    forall i, j ::
      (0 <= i < j < |xs| && xs[i].authorID == authorID && xs[j].authorID == authorID && Repeats(true, 0, xs, i))
      ==> Repeats(true, 0, xs, j)
  }

  lemma {:induction false} RunBack(xs: seq<Candidate>, authorID: int, i: nat, j: nat)
    requires OnlyLastRunRepeats(xs, authorID) && authorID != 0 && i <= j < |xs|
    requires xs[i].authorID == authorID && xs[j].authorID == authorID && Repeats(true, 0, xs, i)
    ensures RunOf(xs, authorID, i, j)
    decreases j
  {
    if i < j {
      assert Repeats(true, 0, xs, j);
      RunBack(xs, authorID, i, j - 1);
    }
  }

  // The candidates of one author are shown in rank order if and only if every run of
  // that author but the last is one candidate long.
  lemma AuthorKeepsOrderIff(xs: seq<Candidate>, authorID: int)
    requires authorID != 0
    ensures (forall i, j :: 0 <= i < j < |xs| && xs[i].authorID == authorID && xs[j].authorID == authorID ==>
               Position(xs, i) < Position(xs, j))
            <==> OnlyLastRunRepeats(xs, authorID)
  {
    if OnlyLastRunRepeats(xs, authorID) {
      forall i, j | 0 <= i < j < |xs| && xs[i].authorID == authorID && xs[j].authorID == authorID
        ensures Position(xs, i) < Position(xs, j)
      {
        PositionsApart(xs, i, j);
        if Repeats(true, 0, xs, i) {
          RunBack(xs, authorID, i, j);
          RunStaysRun(true, 0, xs, authorID, i, j);
          TurnsKeepRun(AuthorBefore(0, xs, |xs|), PutOff(true, 0, xs), authorID,
                       |PutOff(true, 0, xs[..i])|, |PutOff(true, 0, xs[..j])|);
        }
      }
    } else {
      var i, j :| 0 <= i < j < |xs| && xs[i].authorID == authorID && xs[j].authorID == authorID
                  && Repeats(true, 0, xs, i) && !Repeats(true, 0, xs, j);
      PositionsApart(xs, i, j);
    }
  }

  // It can fail: of four candidates by authors 1, 1, 2, 1 the second is shown last.
  lemma SecondShownLast(xs: seq<Candidate>)
    requires |xs| == 4 && xs[0].authorID == xs[1].authorID == xs[3].authorID == 1 && xs[2].authorID == 2
    ensures Position(xs, 1) == 3 && Position(xs, 3) == 2
  {
    ShownAtPosition(xs, 0);
    ShownAtPosition(xs, 1);
    ShownAtPosition(xs, 2);
    ShownAtPosition(xs, 3);
    PositionsApart(xs, 0, 2);
    PositionsApart(xs, 0, 3);
    PositionsApart(xs, 2, 3);
    PositionsApart(xs, 1, 2);
    PositionsApart(xs, 1, 3);
  }

  lemma PassOf(first: bool, before: int, xs: seq<Candidate>, c: Candidate)
    ensures var repeats := c.authorID == AuthorBefore(before, xs, |xs|) && !(first && c.authorID == 0);
            && Placed(first, before, xs + [c]) == Placed(first, before, xs) + (if repeats then [] else [c])
            && PutOff(first, before, xs + [c]) == PutOff(first, before, xs) + (if repeats then [c] else [])
  {
    assert (xs + [c])[..|xs|] == xs;
  }

  lemma SpreadMore(xs: seq<Candidate>, c: Candidate)
    requires Spread(xs) && (xs != [] && c.authorID != 0 ==> xs[|xs| - 1].authorID != c.authorID)
    ensures Spread(xs + [c])
  {
  }

  // A pass loses nothing.
  lemma {:induction false} PassContent(first: bool, before: int, xs: seq<Candidate>)
    ensures multiset(Placed(first, before, xs)) + multiset(PutOff(first, before, xs)) == multiset(xs)
    decreases |xs|
  {
    if xs != [] {
      var rest, last := xs[..|xs| - 1], xs[|xs| - 1];
      PassContent(first, before, rest);
      assert xs == rest + [last];
      PassOf(first, before, rest, last);
      CountOne(Placed(first, before, rest), PutOff(first, before, rest), Placed(first, before, xs),
               PutOff(first, before, xs), rest, last);
    }
  }

  // One candidate more, on one of the two sides.
  lemma CountOne(
    placed: seq<Candidate>, off: seq<Candidate>, placed': seq<Candidate>, off': seq<Candidate>,
    seen: seq<Candidate>, c: Candidate)
    requires multiset(placed) + multiset(off) == multiset(seen)
    requires (placed' == placed + [c] && off' == off) || (placed' == placed && off' == off + [c])
    ensures multiset(placed') + multiset(off') == multiset(seen + [c])
  {
    assert multiset(placed') + multiset(off') == multiset(placed) + multiset(off) + multiset{c};
  }

  // A pass places no two neighbours by one author, and ends with the author of the
  // last candidate; if it places nothing, all were by the author before.
  lemma {:induction false} PassFacts(first: bool, before: int, xs: seq<Candidate>)
    ensures var placed := Placed(first, before, xs);
            && Spread(placed)
            && AuthorBefore(before, xs, |xs|) == AuthorBefore(before, placed, |placed|)
            && (placed == [] ==> PutOff(first, before, xs) == xs && AllBy(xs, before))
            && (placed != [] && !first ==> placed[0].authorID != before)
            && (xs != [] && !Repeats(first, before, xs, 0) ==> placed != [] && placed[0] == xs[0])
    decreases |xs|
  {
    if xs != [] {
      var rest, last := xs[..|xs| - 1], xs[|xs| - 1];
      PassFacts(first, before, rest);
      if !Repeats(first, before, xs, |xs| - 1) {
        SpreadMore(Placed(first, before, rest), last);
      }
    }
  }

  lemma {:induction false} TurnsContent(before: int, delayed: seq<Candidate>)
    ensures multiset(Turns(before, delayed)) == multiset(delayed)
    decreases |delayed|
  {
    var placed, off := Placed(false, before, delayed), PutOff(false, before, delayed);
    if placed != [] {
      PassContent(false, before, delayed);
      TurnsContent(AuthorBefore(before, delayed, |delayed|), off);
    }
  }

  lemma SpreadJoin(a: seq<Candidate>, b: seq<Candidate>)
    requires Spread(a) && Spread(b) && (a != [] && b != [] ==> a[|a| - 1].authorID != b[0].authorID)
    ensures Spread(a + b)
  {
  }

  // Turns behind a spread part extend it and leave a tail by the author they end with.
  lemma {:induction false} TurnsSpread(output: seq<Candidate>, delayed: seq<Candidate>) returns (k: nat)
    requires output != [] && Spread(output)
    ensures Interleaved(output + Turns(output[|output| - 1].authorID, delayed), k)
    decreases |delayed|
  {
    var last := output[|output| - 1].authorID;
    var placed, off := Placed(false, last, delayed), PutOff(false, last, delayed);
    PassFacts(false, last, delayed);
    if placed == [] {
      k := |output|;
      assert (output + delayed)[..k] == output && (output + delayed)[k..] == delayed;
    } else {
      SpreadJoin(output, placed);
      k := TurnsSpread(output + placed, off);
      var turns := Turns(AuthorBefore(last, delayed, |delayed|), off);
      assert output + placed + turns == output + (placed + turns);
    }
  }

  // The order a page is shown in: a permutation with the first candidate first, a part
  // without equal neighbours, then a tail by the author before it.
  lemma OrderFacts(xs: seq<Candidate>) returns (k: nat)
    ensures var order := InterleavedOrder(xs);
            && multiset(order) == multiset(xs) && Interleaved(order, k)
            && (xs != [] ==> order != [] && order[0] == xs[0])
  {
    var placed, off := Placed(true, 0, xs), PutOff(true, 0, xs);
    PassFacts(true, 0, xs);
    if xs == [] {
      k := 0;
      TurnsOfNothing(0);
    } else {
      k := TurnsSpread(placed, off);
      PassContent(true, 0, xs);
      TurnsContent(AuthorBefore(0, xs, |xs|), off);
    }
  }

  lemma TurnsOfNothing(before: int)
    ensures Turns(before, []) == []
  {
    assert Placed(false, before, []) == [];
  }

  // Where the first pass stands after the candidates seen.
  ghost predicate Passed(seen: seq<Candidate>, output: seq<Candidate>, delayed: seq<Candidate>, previous: int) {
    && output == Placed(true, 0, seen) && delayed == PutOff(true, 0, seen)
    && previous == AuthorBefore(0, seen, |seen|)
  }

  lemma PassOne(seen: seq<Candidate>, output: seq<Candidate>, delayed: seq<Candidate>, previous: int, c: Candidate)
    requires Passed(seen, output, delayed, previous)
    ensures if previous != 0 && c.authorID == previous then Passed(seen + [c], output, delayed + [c], previous)
            else Passed(seen + [c], output + [c], delayed, c.authorID)
  {
    PassOf(true, 0, seen, c);
  }

  // The first pass: who repeats the author before is put off.
  method FirstPass(candidates: seq<Option<Candidate>>)
    returns (output: seq<Candidate>, delayed: seq<Candidate>, ghost previous: int)
    ensures Passed(Present(candidates), output, delayed, previous)
    ensures Spread(output) && multiset(output) + multiset(delayed) == multiset(Present(candidates))
    ensures output == [] <==> Present(candidates) == []
    ensures output != [] ==> output[0] == Present(candidates)[0] && previous == output[|output| - 1].authorID
  {
    output, delayed := [], [];
    var previousAuthorID := 0;
    var i := 0;
    while i < |candidates|
      invariant 0 <= i <= |candidates| && Passed(Present(candidates[..i]), output, delayed, previousAuthorID)
    {
      assert candidates[..i + 1][..i] == candidates[..i];
      if candidates[i].Some? {
        var candidate := candidates[i].value;
        PassOne(Present(candidates[..i]), output, delayed, previousAuthorID, candidate);
        if previousAuthorID != 0 && candidate.authorID == previousAuthorID {
          delayed := delayed + [candidate];
        } else {
          output := output + [candidate];
          previousAuthorID := candidate.authorID;
        }
      }
      i := i + 1;
    }
    assert candidates[..i] == candidates;
    previous := previousAuthorID;
    PassedFacts(Present(candidates), output, delayed, previous);
  }

  lemma PassedFacts(seen: seq<Candidate>, output: seq<Candidate>, delayed: seq<Candidate>, previous: int)
    requires Passed(seen, output, delayed, previous)
    ensures Spread(output) && multiset(output) + multiset(delayed) == multiset(seen)
    ensures output == [] <==> seen == []
    ensures output != [] ==> output[0] == seen[0] && previous == output[|output| - 1].authorID
  {
    PassFacts(true, 0, seen);
    PassContent(true, 0, seen);
  }

  // Where a turn behind `output` stands after some of those put off.
  ghost predicate Turned(
    output: seq<Candidate>, seen: seq<Candidate>, placed: seq<Candidate>, remaining: seq<Candidate>)
    requires output != []
  {
    var last := output[|output| - 1].authorID;
    && placed == output + Placed(false, last, seen) && remaining == PutOff(false, last, seen)
    && placed[|placed| - 1].authorID == AuthorBefore(last, seen, |seen|)
  }

  lemma TurnOne(
    output: seq<Candidate>, seen: seq<Candidate>, placed: seq<Candidate>, remaining: seq<Candidate>, c: Candidate)
    requires output != [] && Turned(output, seen, placed, remaining)
    ensures if placed[|placed| - 1].authorID == c.authorID then Turned(output, seen + [c], placed, remaining + [c])
            else Turned(output, seen + [c], placed + [c], remaining)
  {
    PassOf(false, output[|output| - 1].authorID, seen, c);
  }

  // One turn over those put off: who can follow the last one placed does.
  method PlaceDelayed(output: seq<Candidate>, delayed: seq<Candidate>)
    returns (placed: seq<Candidate>, remaining: seq<Candidate>, progressed: bool)
    requires output != []
    ensures Turned(output, delayed, placed, remaining) && (progressed <==> placed != output)
    ensures progressed ==> |remaining| < |delayed|
  {
    placed, remaining, progressed := output, [], false;
    var i := 0;
    while i < |delayed|
      invariant 0 <= i <= |delayed| && Turned(output, delayed[..i], placed, remaining)
      invariant progressed <==> |placed| > |output|
    {
      assert delayed[..i + 1] == delayed[..i] + [delayed[i]];
      TurnOne(output, delayed[..i], placed, remaining, delayed[i]);
      var candidate := delayed[i];
      if placed[|placed| - 1].authorID == candidate.authorID {
        remaining := remaining + [candidate];
      } else {
        placed := placed + [candidate];
        progressed := true;
      }
      i := i + 1;
    }
    assert delayed[..i] == delayed;
  }

  // A turn loses nothing and places no neighbours by one author; when it places
  // nothing, one author is left.
  lemma TurnFacts(
    output: seq<Candidate>, delayed: seq<Candidate>, placed: seq<Candidate>, remaining: seq<Candidate>)
    requires Spread(output) && output != [] && Turned(output, delayed, placed, remaining)
    ensures Spread(placed) && output <= placed && |placed| + |remaining| == |output| + |delayed|
    ensures multiset(placed) + multiset(remaining) == multiset(output) + multiset(delayed)
    ensures placed == output ==> AllBy(remaining, output[|output| - 1].authorID)
  {
    var last := output[|output| - 1].authorID;
    PassFacts(false, last, delayed);
    PassContent(false, last, delayed);
    SpreadJoin(output, Placed(false, last, delayed));
  }

  // A list in the order pages are shown in: nothing lost, the first one first, no two
  // neighbours by one author up to k, then a tail by the author before it; without
  // equal neighbours the list as it was.
  ghost predicate InOrder(xs: seq<Candidate>, output: seq<Option<Candidate>>, k: nat) {
    && output == Somes(InterleavedOrder(xs))
    && multiset(Present(output)) == multiset(xs)
    && (xs != [] ==> output != [] && output[0] == Some(xs[0]))
    && Interleaved(Present(output), k)
    && (Spread(xs) ==> output == Somes(xs))
  }

  lemma OrderIsInOrder(xs: seq<Candidate>) returns (k: nat)
    ensures InOrder(xs, Somes(InterleavedOrder(xs)), k)
  {
    k := OrderFacts(xs);
    PresentSomes(InterleavedOrder(xs));
    if Spread(xs) {
      SpreadStaysInOrder(xs);
    }
  }

  lemma OrderContent(xs: seq<Candidate>)
    ensures multiset(Present(Somes(InterleavedOrder(xs)))) == multiset(xs)
  {
    var k := OrderIsInOrder(xs);
  }

  // The candidates that are not nil in that order; up to two are left as they are.
  method InterleaveByAuthor(candidates: seq<Option<Candidate>>) returns (output: seq<Option<Candidate>>)
    ensures |candidates| <= 2 ==> output == candidates
    ensures |candidates| > 2 ==> output == Somes(InterleavedOrder(Present(candidates)))
  {
    if |candidates| <= 2 {
      return candidates;
    }
    ghost var previous;
    var first, delayed, placed;
    first, delayed, previous := FirstPass(candidates);
    placed := PlaceAll(first, delayed);
    TurnsOfNothing(previous);
    output := Somes(placed);
  }

  // What the turns still to come make of it.
  function AllPlaced(placed: seq<Candidate>, rest: seq<Candidate>): seq<Candidate> {
    placed + Turns(AuthorBefore(0, placed, |placed|), rest)
  }

  // One turn, as seen from the end.
  lemma TurnOn(placed: seq<Candidate>, rest: seq<Candidate>, more: seq<Candidate>, remaining: seq<Candidate>)
    requires placed != [] && Turned(placed, rest, more, remaining)
    ensures AllPlaced(placed, rest) ==
            if more == placed then AllPlaced(placed + remaining, []) else AllPlaced(more, remaining)
  {
    var last := placed[|placed| - 1].authorID;
    PassFacts(false, last, rest);
    if more == placed {
      assert |Placed(false, last, rest)| == 0;
      TurnsOfNothing(AuthorBefore(0, placed + remaining, |placed + remaining|));
    } else {
      assert Placed(false, last, rest) != [];
      var turns := Turns(AuthorBefore(last, rest, |rest|), remaining);
      assert more + turns == placed + (Placed(false, last, rest) + turns);
    }
  }

  // The loop over those put off.
  method PlaceAll(output: seq<Candidate>, delayed: seq<Candidate>) returns (placed: seq<Candidate>)
    requires Spread(output) && (delayed != [] ==> output != [])
    ensures placed == AllPlaced(output, delayed)
  {
    placed := output;
    var rest := delayed;
    while rest != []
      invariant AllPlaced(placed, rest) == AllPlaced(output, delayed)
      invariant rest != [] ==> Spread(placed) && placed != []
      decreases |rest|
    {
      var more, remaining, progressed := PlaceDelayed(placed, rest);
      TurnOn(placed, rest, more, remaining);
      TurnFacts(placed, rest, more, remaining);
      if !progressed {
        placed, rest := placed + remaining, [];
      } else {
        placed, rest := more, remaining;
      }
    }
    TurnsOfNothing(AuthorBefore(0, placed, |placed|));
  }

  lemma {:induction false} PresentSomes(xs: seq<Candidate>)
    ensures Present(Somes(xs)) == xs
    decreases |xs|
  {
    if xs != [] {
      PresentSomes(xs[..|xs| - 1]);
      assert Somes(xs)[..|xs| - 1] == Somes(xs[..|xs| - 1]);
      assert xs == xs[..|xs| - 1] + [xs[|xs| - 1]];
    }
  }

  // ----- pages -----

  datatype Error = InvalidUserID | InvalidCursor
  datatype Page = Page(candidates: seq<Option<Candidate>>, next: Option<Cursor>, hasMore: bool)

  predicate ValidCursor(cursor: Cursor) {
    cursor.videoID > 0 && cursor.publishedAt != FeedDomain.ZERO_TIME
  }

  function EncodeCursor(cursor: Cursor): Option<Cursor> {
    if ValidCursor(cursor) then Some(cursor) else None
  }

  method SortCandidates(a: array<Candidate>)
    modifies a
    ensures a[..] == Sorted(RankedAfter, old(a[..]))
  {
    RankedAfterIsTotal();
    SortInPlace(RankedAfter, a);
  }

  // The copies of the pool's candidates with their scores, in rank order.
  method RankCandidates(pool: seq<Option<Candidate>>, score: Candidate -> real) returns (ranked: seq<Candidate>)
    ensures ranked == Sorted(RankedAfter, Scored(pool, score))
  {
    ranked := [];
    var i := 0;
    while i < |pool|
      invariant 0 <= i <= |pool|
      invariant ranked == Scored(pool[..i], score)
    {
      assert pool[..i + 1][..i] == pool[..i];
      if pool[i].Some? {
        ranked := ranked + [pool[i].value.(rankScore := score(pool[i].value))];
      }
      i := i + 1;
    }
    assert pool[..i] == pool;
    var a := new Candidate[|ranked|](k requires 0 <= k < |ranked| => ranked[k]);
    assert a[..] == ranked;
    SortCandidates(a);
    ranked := a[..];
  }

  function Scored(pool: seq<Option<Candidate>>, score: Candidate -> real): seq<Candidate> {
    if pool == [] then []
    else
      var before, last := Scored(pool[..|pool| - 1], score), pool[|pool| - 1];
      if last.Some? then before + [last.value.(rankScore := score(last.value))] else before
  }

  // The pool's candidates, each with its score; nils are left out.
  ghost function ScoredSet(pool: seq<Option<Candidate>>, score: Candidate -> real): set<Candidate> {
    set i | 0 <= i < |pool| && pool[i].Some? :: pool[i].value.(rankScore := score(pool[i].value))
  }

  lemma {:induction false} ScoredIsPool(pool: seq<Option<Candidate>>, score: Candidate -> real)
    ensures Elements(Scored(pool, score)) == ScoredSet(pool, score)
    ensures |Scored(pool, score)| == |Present(pool)|
    decreases |pool|
  {
    if pool != [] {
      var n := |pool| - 1;
      var rest := pool[..n];
      ScoredIsPool(rest, score);
      forall x ensures x in ScoredSet(pool, score) <==>
        x in ScoredSet(rest, score) || (pool[n].Some? && x == pool[n].value.(rankScore := score(pool[n].value)))
      {
        if x in ScoredSet(pool, score) {
          var i :| 0 <= i < |pool| && pool[i].Some? && x == pool[i].value.(rankScore := score(pool[i].value));
          assert i < n ==> rest[i] == pool[i];
        }
        if x in ScoredSet(rest, score) {
          var i :| 0 <= i < |rest| && rest[i].Some? && x == rest[i].value.(rankScore := score(rest[i].value));
          assert pool[i] == rest[i];
        }
      }
      if pool[n].Some? {
        ElementsSnoc(Scored(pool, score));
        assert Scored(pool, score)[..|Scored(rest, score)|] == Scored(rest, score);
      }
    }
  }

  // Exactly the candidates that are not nil, in order.
  lemma {:induction false} PresentAt(xs: seq<Option<Candidate>>, i: nat)
    requires i < |xs| && xs[i].Some?
    ensures |Present(xs[..i])| < |Present(xs)| && Present(xs)[|Present(xs[..i])|] == xs[i].value
    decreases |xs|
  {
    if i < |xs| - 1 {
      PresentAt(xs[..|xs| - 1], i);
      assert xs[..|xs| - 1][..i] == xs[..i];
    }
  }

  lemma {:induction false} PresentCounts(xs: seq<Option<Candidate>>, c: Candidate)
    ensures multiset(Present(xs))[c] == multiset(xs)[Some(c)]
    decreases |xs|
  {
    if xs != [] {
      PresentCounts(xs[..|xs| - 1], c);
      assert xs == xs[..|xs| - 1] + [xs[|xs| - 1]];
    }
  }

  // What a page is cut from: the scored pool.
  ghost predicate UsablePool(pool: seq<Option<Candidate>>, score: Candidate -> real) {
    var xs := Scored(pool, score);
    && Distinct(xs) && UniqueVideos(Elements(xs)) && Gapped(Elements(xs))
    && forall x :: x in Elements(xs) ==> ValidCursor(CursorOf(x))
  }

  // What passes the cursor's filter, in rank order, and the page cut from it.
  function Remaining(pool: seq<Option<Candidate>>, score: Candidate -> real, cursor: Option<Cursor>): seq<Candidate> {
    Filtered(Sorted(RankedAfter, Scored(pool, score)), cursor)
  }

  function Cut(rest: seq<Candidate>, n: nat): seq<Candidate> {
    if |rest| > n then rest[..n] else rest
  }

  function NextCursor(cut: seq<Candidate>): Option<Cursor> {
    if cut == [] then None else EncodeCursor(CursorOf(cut[|cut| - 1]))
  }

  // The answer to one request: the page cut from what passes, spread by author, with
  // the cursor of the last one in rank order.
  function AnswerTo(
    pool: seq<Option<Candidate>>, score: Candidate -> real, cursor: Option<Cursor>, n: nat): Page
  {
    var rest := Remaining(pool, score, cursor);
    Page(Somes(InterleavedOrder(Cut(rest, n))), NextCursor(Cut(rest, n)), |rest| > n)
  }

  // Below the cursor of a ranked candidate of a usable pool: the ranking's page.
  ghost predicate IsRankingPage(
    pool: seq<Option<Candidate>>, score: Candidate -> real, cursor: Option<Cursor>, n: nat,
    page: seq<Candidate>, hasMore: bool)
  {
    forall from: Option<Candidate> ::
      UsablePool(pool, score) && (from.Some? ==> from.value in Elements(Scored(pool, score)))
      && cursor == CursorAt(from) ==>
        IsPage(RankedAfter, Elements(Scored(pool, score)), from, n, page, hasMore)
  }

  // The page the cursor asks for.
  method Recommend(
    pool: seq<Option<Candidate>>, score: Candidate -> real, userID: int, cursor: Option<Cursor>, limit: int)
    returns (r: Result<Page, Error>)
    ensures cursor.Some? && !ValidCursor(cursor.value) ==> r == Err(InvalidCursor)
    ensures userID <= 0 && (cursor.Some? ==> ValidCursor(cursor.value)) ==> r == Err(InvalidUserID)
    ensures userID > 0 && (cursor.Some? ==> ValidCursor(cursor.value)) ==>
              r == Ok(AnswerTo(pool, score, cursor, NormalizeLimit(limit)))
  {
    if cursor.Some? && !ValidCursor(cursor.value) {
      return Err(InvalidCursor);
    }
    if userID <= 0 {
      return Err(InvalidUserID);
    }
    var n := NormalizeLimit(limit);
    var ranked := RankCandidates(pool, score);
    ranked := FilterByCursor(ranked, cursor);
    var hasMore := |ranked| > n;
    if hasMore {
      ranked := ranked[..n];
    }
    var next := if ranked == [] then None else EncodeCursor(CursorOf(ranked[|ranked| - 1]));
    PresentSomes(ranked);
    ShortStaysInOrder(ranked);
    var shown := InterleaveByAuthor(Somes(ranked));
    r := Ok(Page(shown, next, hasMore));
  }

  // Up to two candidates are in that order already.
  lemma ShortStaysInOrder(cut: seq<Candidate>)
    ensures |cut| <= 2 ==> InterleavedOrder(cut) == cut
  {
    if |cut| <= 2 && Spread(cut) {
      SpreadStaysInOrder(cut);
    } else if |cut| == 2 {
      PassOf(true, 0, [], cut[0]);
      PassOf(true, 0, [cut[0]], cut[1]);
      PassOf(false, cut[1].authorID, [], cut[1]);
      assert cut == [] + [cut[0]] + [cut[1]] && [] + [cut[0]] == [cut[0]] && [] + [cut[1]] == [cut[1]];
    }
  }

  // An answer shows the page that was cut, nothing lost and the first one first, with
  // equal neighbours only in a tail by one author; below the cursor of a ranked
  // candidate of a usable pool that is the ranking's page.
  lemma AnswerShowsPage(pool: seq<Option<Candidate>>, score: Candidate -> real, cursor: Option<Cursor>, n: nat)
    returns (page: seq<Candidate>, k: nat)
    ensures var answer := AnswerTo(pool, score, cursor, n);
            && InOrder(page, answer.candidates, k) && answer.next == NextCursor(page)
            && IsRankingPage(pool, score, cursor, n, page, answer.hasMore)
  {
    page := Cut(Remaining(pool, score, cursor), n);
    k := OrderIsInOrder(page);
    CutIsPage(pool, score, cursor, n);
  }

  // Wherever a cursor may come from.
  lemma CutIsPage(pool: seq<Option<Candidate>>, score: Candidate -> real, cursor: Option<Cursor>, n: nat)
    ensures var rest := Remaining(pool, score, cursor);
            IsRankingPage(pool, score, cursor, n, Cut(rest, n), |rest| > n)
  {
    var rest := Remaining(pool, score, cursor);
    forall from: Option<Candidate> |
      && UsablePool(pool, score)
      && (from.Some? ==> from.value in Elements(Scored(pool, score)))
      && cursor == CursorAt(from)
      ensures IsPage(RankedAfter, Elements(Scored(pool, score)), from, n, Cut(rest, n), |rest| > n)
    {
      PageIsPage(pool, score, from, n);
    }
  }

  lemma PageIsPage(pool: seq<Option<Candidate>>, score: Candidate -> real, from: Option<Candidate>, n: nat)
    requires UsablePool(pool, score) && (from.Some? ==> from.value in Elements(Scored(pool, score)))
    ensures var rest := Remaining(pool, score, CursorAt(from));
            IsPage(RankedAfter, Elements(Scored(pool, score)), from, n, Cut(rest, n), |rest| > n)
  {
    var xs := Scored(pool, score);
    var s, ranked := Elements(xs), Sorted(RankedAfter, xs);
    RankedAfterIsTotal();
    SortedLists(RankedAfter, xs);
    var rest := if from.Some? then Filtered(ranked, Some(CursorOf(from.value))) else ranked;
    if from.Some? {
      FilteredLists(ranked, s, CursorOf(from.value));
      CursorContinues(s, from.value);
    }
    assert Lists(RankedAfter, rest, Below(RankedAfter, s, from));
    ListingSize(RankedAfter, rest, Below(RankedAfter, s, from));
    PrefixListsTop(RankedAfter, rest, Below(RankedAfter, s, from), n);
    assert rest[..|rest|] == rest;
  }

  // ----- following the cursors -----

  // The same pages, but for the order of each.
  ghost predicate SamePages(pages: seq<seq<Candidate>>, shown: seq<seq<Candidate>>) {
    |pages| == |shown| && forall i :: 0 <= i < |pages| ==> multiset(shown[i]) == multiset(pages[i])
  }

  lemma SamePagesCons(page: seq<Candidate>, more: seq<seq<Candidate>>, shown: seq<seq<Candidate>>)
    requires shown != [] && multiset(shown[0]) == multiset(page) && SamePages(more, shown[1..])
    ensures SamePages([page] + more, shown)
  {
    forall i | 0 < i < |shown| ensures multiset(shown[i]) == multiset(([page] + more)[i]) {
      assert shown[i] == shown[1..][i - 1];
    }
  }

  lemma {:induction false} FlattenKeepsContent(pages: seq<seq<Candidate>>, shown: seq<seq<Candidate>>)
    requires SamePages(pages, shown)
    ensures multiset(Flatten(shown)) == multiset(Flatten(pages))
    decreases |pages|
  {
    if pages != [] {
      FlattenKeepsContent(pages[1..], shown[1..]);
    }
  }

  // A client's walk: each request carries the cursor of the answer before, until
  // an answer announces no more.
  ghost predicate IsCursorWalk(
    pool: seq<Option<Candidate>>, score: Candidate -> real, cursor: Option<Cursor>, n: nat, answers: seq<Page>)
    decreases |answers|
  {
    && answers != []
    && answers[0] == AnswerTo(pool, score, cursor, n)
    && (answers[0].hasMore <==> |answers| > 1)
    && (|answers| > 1 ==> IsCursorWalk(pool, score, answers[0].next, n, answers[1..]))
  }

  function Shown(answers: seq<Page>): seq<seq<Candidate>> {
    seq(|answers|, i requires 0 <= i < |answers| => Present(answers[i].candidates))
  }

  lemma ShownRest(answers: seq<Page>)
    requires answers != []
    ensures Shown(answers)[1..] == Shown(answers[1..]) && Shown(answers)[0] == Present(answers[0].candidates)
  {
  }

  // One answer is the ranking's page below the candidate its cursor came from, and
  // its own cursor is that of a ranked candidate again.
  lemma AnswerIsPage(
    pool: seq<Option<Candidate>>, score: Candidate -> real, from: Option<Candidate>, n: nat, answer: Page)
    returns (page: seq<Candidate>)
    requires UsablePool(pool, score) && n > 0 && (from.Some? ==> from.value in Elements(Scored(pool, score)))
    requires answer == AnswerTo(pool, score, CursorAt(from), n)
    ensures IsPage(RankedAfter, Elements(Scored(pool, score)), from, n, page, answer.hasMore)
    ensures multiset(Present(answer.candidates)) == multiset(page)
    ensures answer.hasMore ==>
              && page != [] && page[|page| - 1] in Elements(Scored(pool, score))
              && answer.next == CursorAt(Some(page[|page| - 1]))
  {
    page := Cut(Remaining(pool, score, CursorAt(from)), n);
    PageIsPage(pool, score, from, n);
    OrderContent(page);
    if answer.hasMore {
      assert page[|page| - 1] in Elements(page);
    }
  }

  lemma WalkCons(s: set<Candidate>, from: Option<Candidate>, n: nat, page: seq<Candidate>, more: seq<seq<Candidate>>)
    requires IsPage(RankedAfter, s, from, n, page, true) && page != []
    requires IsWalk(RankedAfter, s, Some(page[|page| - 1]), n, more)
    ensures IsWalk(RankedAfter, s, from, n, [page] + more)
  {
    assert ([page] + more)[1..] == more;
  }

  // The pages of such a walk walk down the ranking.
  lemma {:induction false} CursorWalkIsWalk(
    pool: seq<Option<Candidate>>, score: Candidate -> real, from: Option<Candidate>, n: nat, answers: seq<Page>)
    returns (pages: seq<seq<Candidate>>)
    requires UsablePool(pool, score) && n > 0 && (from.Some? ==> from.value in Elements(Scored(pool, score)))
    requires IsCursorWalk(pool, score, CursorAt(from), n, answers)
    ensures IsWalk(RankedAfter, Elements(Scored(pool, score)), from, n, pages) && SamePages(pages, Shown(answers))
    decreases |answers|
  {
    var page := AnswerIsPage(pool, score, from, n, answers[0]);
    if |answers| == 1 {
      pages := [page];
    } else {
      var more := CursorWalkIsWalk(pool, score, Some(page[|page| - 1]), n, answers[1..]);
      pages := [page] + more;
      WalkCons(Elements(Scored(pool, score)), from, n, page, more);
      ShownRest(answers);
      SamePagesCons(page, more, Shown(answers));
    }
  }

  // Whatever order a page shows its candidates in, the walk shows each once, and
  // a page shows only what ranks below the pages before it.
  lemma {:induction false} WalkInRankOrder(
    s: set<Candidate>, from: Option<Candidate>, n: nat, pages: seq<seq<Candidate>>, i: nat, j: nat)
    requires IsWalk(RankedAfter, s, from, n, pages) && i < j < |pages|
    ensures forall a, b :: a in pages[i] && b in pages[j] ==> RankedAfter(b, a)
    decreases |pages|
  {
    if i > 0 {
      WalkInRankOrder(s, Some(pages[0][|pages[0]| - 1]), n, pages[1..], i - 1, j - 1);
    } else {
      var last := pages[0][|pages[0]| - 1];
      RankedAfterIsTotal();
      WalkVisitsAll(RankedAfter, s, Some(last), n, pages[1..]);
      FlattenHolds(pages[1..], j - 1);
      forall a, b | a in pages[0] && b in pages[j] ensures RankedAfter(b, a) {
        assert b in Below(RankedAfter, s, Some(last));
        assert a == last || RankedAfter(last, a);
      }
    }
  }

  lemma {:induction false} FlattenHolds(pages: seq<seq<Candidate>>, j: nat)
    requires j < |pages|
    ensures forall b :: b in pages[j] ==> b in Elements(Flatten(pages))
    decreases |pages|
  {
    var all, tail := Flatten(pages), Flatten(pages[1..]);
    if j > 0 {
      FlattenHolds(pages[1..], j - 1);
    }
    forall b | b in pages[j] ensures b in Elements(all) {
      if j > 0 {
        var k :| 0 <= k < |tail| && tail[k] == b;
        assert all[|pages[0]| + k] == b;
      } else {
        var k :| 0 <= k < |pages[0]| && pages[0][k] == b;
        assert all[k] == b;
      }
    }
  }

  lemma ShownInRankOrder(s: set<Candidate>, n: nat, pages: seq<seq<Candidate>>, shown: seq<seq<Candidate>>)
    requires IsWalk(RankedAfter, s, None, n, pages) && SamePages(pages, shown)
    ensures forall i, j, a, b :: 0 <= i < j < |shown| && a in shown[i] && b in shown[j] ==> RankedAfter(b, a)
  {
    forall i, j, a, b | 0 <= i < j < |shown| && a in shown[i] && b in shown[j] ensures RankedAfter(b, a) {
      assert a in multiset(pages[i]) && b in multiset(pages[j]);
      WalkInRankOrder(s, None, n, pages, i, j);
    }
  }

  lemma ShowsEachOnce(s: set<Candidate>, n: nat, pages: seq<seq<Candidate>>, shown: seq<seq<Candidate>>)
    requires IsWalk(RankedAfter, s, None, n, pages) && SamePages(pages, shown)
    ensures Distinct(Flatten(shown)) && Elements(Flatten(shown)) == s
  {
    RankedAfterIsTotal();
    WalkVisitsAll(RankedAfter, s, None, n, pages);
    FlattenKeepsContent(pages, shown);
    SameMultisetSameElements(Flatten(shown), Flatten(pages));
    DistinctIffCounts(Flatten(shown));
    DistinctIffCounts(Flatten(pages));
  }

  // For a fixed usable pool, clock and limit: following NextCursor from the first
  // request on shows every candidate exactly once, and no page shows one that ranks
  // above a candidate of an earlier page.
  lemma PagesPartitionRanking(pool: seq<Option<Candidate>>, score: Candidate -> real, n: nat, answers: seq<Page>)
    requires UsablePool(pool, score) && n > 0 && IsCursorWalk(pool, score, None, n, answers)
    ensures Distinct(Flatten(Shown(answers))) && Elements(Flatten(Shown(answers))) == ScoredSet(pool, score)
    ensures forall i, j, a, b :: 0 <= i < j < |answers| && a in Shown(answers)[i] && b in Shown(answers)[j] ==>
              RankedAfter(b, a)
  {
    var s := Elements(Scored(pool, score));
    var pages := CursorWalkIsWalk(pool, score, None, n, answers);
    ScoredIsPool(pool, score);
    ShowsEachOnce(s, n, pages, Shown(answers));
    ShownInRankOrder(s, n, pages, Shown(answers));
  }
}
