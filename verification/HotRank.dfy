// The hot ranking: score deltas in minute buckets, the window rebuilt from the
// last sixty of them, and its pages by offset (infra/cache/hot_rank_cache.go,
// infra/cache/cache_keys.go, application/feed/strategy_hot.go).
module HotRank {
  import opened Base
  import opened Ranking
  import opened Decimal
  import FeedDomain
  import Domain = InteractionDomain
  import Service = InteractionService

  const HOT_WINDOW_MINUTES: nat := 60
  const MEMBER_WIDTH: nat := 20
  const NANOS_PER_MINUTE: int := 60 * FeedDomain.NANOS

  // A sorted set: members with their scores.
  type Bucket = map<string, int>

  datatype Record = Record(videoID: int, delta: int, at: int)

  // The minute a time lies in.
  function Minute(at: int): int {
    at / NANOS_PER_MINUTE
  }

  function Member(videoID: nat): string {
    Padded(videoID, MEMBER_WIDTH)
  }

  function HotRankVideoID(member: string): (r: Option<int>)
    ensures r.Some? ==> 0 < r.value <= MAX_INT64
  {
    var value := TrimZeros(member);
    if value == "" then None
    else
      var id := ParseInt(value);
      if id.Some? && id.value > 0 then id else None
  }

  predicate IsID(videoID: int) {
    0 < videoID <= MAX_INT64
  }

  lemma IDsFit(videoID: int)
    requires IsID(videoID)
    ensures videoID < Pow10(MEMBER_WIDTH)
  {
    assert Pow10(10) == 10000000000;
    assert Pow10(20) == 100000000000000000000;
  }

  // Reading a member gives back the id it was written for.
  lemma MemberRoundTrip(videoID: int)
    requires IsID(videoID)
    ensures HotRankVideoID(Member(videoID)) == Some(videoID)
  {
    IDsFit(videoID);
    PaddedFits(videoID, MEMBER_WIDTH);
    ValueOfDigits(videoID);
    ParseDigits(Digits(videoID));
  }

  lemma ParseDigits(s: string)
    requires s != [] && AllDigits(s) && Value(s) <= MAX_INT64
    ensures ParseInt(s) == Some(Value(s))
  {
    assert IsDigit(s[0]);
  }

  // The byte order of members is the numeric order of ids.
  lemma MemberOrderIsNumeric(v: int, w: int)
    requires IsID(v) && IsID(w)
    ensures Less(Member(v), Member(w)) <==> v < w
    ensures Member(v) == Member(w) <==> v == w
  {
    IDsFit(v);
    IDsFit(w);
    PaddedFits(v, MEMBER_WIDTH);
    PaddedFits(w, MEMBER_WIDTH);
    LessIsNumeric(Member(v), Member(w));
  }

  // ----- buckets and windows -----

  function BucketAt(buckets: map<int, Bucket>, minute: int): Bucket {
    if minute in buckets then buckets[minute] else map[]
  }

  function ScoreIn(bucket: Bucket, member: string): int {
    if member in bucket then bucket[member] else 0
  }

  // ZINCRBY on the bucket of the minute.
  function AfterAdd(buckets: map<int, Bucket>, r: Record): map<int, Bucket> {
    if r.videoID <= 0 || r.delta == 0 then buckets
    else
      var bucket, member := BucketAt(buckets, Minute(r.at)), Member(r.videoID);
      buckets[Minute(r.at) := bucket[member := ScoreIn(bucket, member) + r.delta]]
  }

  function AfterAll(log: seq<Record>): map<int, Bucket> {
    if log == [] then map[] else AfterAdd(AfterAll(log[..|log| - 1]), log[|log| - 1])
  }

  function WindowKeys(end: int): seq<int> {
    seq(HOT_WINDOW_MINUTES, i => end - (HOT_WINDOW_MINUTES - 1) + i)
  }

  function UnionMembers(buckets: map<int, Bucket>, keys: seq<int>): set<string> {
    if keys == [] then {}
    else UnionMembers(buckets, keys[..|keys| - 1]) + BucketAt(buckets, keys[|keys| - 1]).Keys
  }

  function UnionScore(buckets: map<int, Bucket>, keys: seq<int>, member: string): int {
    if keys == [] then 0
    else UnionScore(buckets, keys[..|keys| - 1], member) + ScoreIn(BucketAt(buckets, keys[|keys| - 1]), member)
  }

  // ZUNIONSTORE with SUM, then only scores above zero stay.
  function Rebuilt(buckets: map<int, Bucket>, end: int): Bucket {
    map member | member in UnionMembers(buckets, WindowKeys(end)) && UnionScore(buckets, WindowKeys(end), member) > 0 ::
      UnionScore(buckets, WindowKeys(end), member)
  }

  // The reference: the deltas of a video over the sixty minutes that end with `end`.
  function DirectSum(log: seq<Record>, videoID: int, end: int): int {
    if log == [] then 0
    else
      var r := log[|log| - 1];
      DirectSum(log[..|log| - 1], videoID, end)
      + (if r.videoID == videoID && end - HOT_WINDOW_MINUTES < Minute(r.at) <= end then r.delta else 0)
  }

  lemma {:induction false} ScoreAfterAdd(buckets: map<int, Bucket>, keys: seq<int>, r: Record, videoID: int)
    requires IsID(videoID) && r.videoID <= MAX_INT64
    requires forall i, j :: 0 <= i < j < |keys| ==> keys[i] != keys[j]
    ensures UnionScore(AfterAdd(buckets, r), keys, Member(videoID)) ==
            UnionScore(buckets, keys, Member(videoID))
              + (if r.videoID == videoID && Minute(r.at) in keys then r.delta else 0)
    decreases |keys|
  {
    if keys != [] {
      var before, last := keys[..|keys| - 1], keys[|keys| - 1];
      ScoreAfterAdd(buckets, before, r, videoID);
      if r.videoID > 0 {
        MemberOrderIsNumeric(r.videoID, videoID);
      }
      assert Minute(r.at) in keys <==> Minute(r.at) in before || Minute(r.at) == last;
    }
  }

  lemma {:induction false} UnscoredIsZero(buckets: map<int, Bucket>, keys: seq<int>, member: string)
    requires member !in UnionMembers(buckets, keys)
    ensures UnionScore(buckets, keys, member) == 0
    decreases |keys|
  {
    if keys != [] {
      UnscoredIsZero(buckets, keys[..|keys| - 1], member);
    }
  }

  lemma {:induction false} UnionIsDirectSum(log: seq<Record>, videoID: int, end: int)
    requires IsID(videoID) && forall r :: r in log ==> r.videoID <= MAX_INT64
    ensures UnionScore(AfterAll(log), WindowKeys(end), Member(videoID)) == DirectSum(log, videoID, end)
    decreases |log|
  {
    if log == [] {
      EmptyScores(WindowKeys(end), Member(videoID));
    } else {
      var before, r := log[..|log| - 1], log[|log| - 1];
      UnionIsDirectSum(before, videoID, end);
      ScoreAfterAdd(AfterAll(before), WindowKeys(end), r, videoID);
      InWindow(end, Minute(r.at));
    }
  }

  lemma InWindow(end: int, minute: int)
    ensures minute in WindowKeys(end) <==> end - HOT_WINDOW_MINUTES < minute <= end
  {
    if end - HOT_WINDOW_MINUTES < minute <= end {
      assert WindowKeys(end)[minute - end + HOT_WINDOW_MINUTES - 1] == minute;
    }
  }

  lemma {:induction false} EmptyScores(keys: seq<int>, member: string)
    ensures UnionScore(map[], keys, member) == 0
    decreases |keys|
  {
    if keys != [] {
      EmptyScores(keys[..|keys| - 1], member);
    }
  }

  // With no bucket expired, a rebuilt window holds exactly the videos whose deltas
  // over its minutes sum to more than zero, with that sum.
  lemma WindowIsDirectSum(log: seq<Record>, videoID: int, end: int)
    requires IsID(videoID) && forall r :: r in log ==> r.videoID <= MAX_INT64
    ensures var window := Rebuilt(AfterAll(log), end);
            && (Member(videoID) in window <==> DirectSum(log, videoID, end) > 0)
            && (Member(videoID) in window ==> window[Member(videoID)] == DirectSum(log, videoID, end))
  {
    UnionIsDirectSum(log, videoID, end);
    if Member(videoID) !in UnionMembers(AfterAll(log), WindowKeys(end)) {
      UnscoredIsZero(AfterAll(log), WindowKeys(end), Member(videoID));
    }
  }

  ghost predicate NamedMember(m: string) {
    exists v: int :: IsID(v) && m == Member(v)
  }

  ghost predicate Named(members: set<string>) {
    forall m :: m in members ==> NamedMember(m)
  }

  lemma {:induction false} BucketsAreNamed(log: seq<Record>, minute: int)
    requires forall r :: r in log ==> r.videoID <= MAX_INT64
    ensures Named(BucketAt(AfterAll(log), minute).Keys)
    decreases |log|
  {
    if log != [] {
      BucketsAreNamed(log[..|log| - 1], minute);
      assert log[|log| - 1] in log;
    }
  }

  lemma {:induction false} UnionIsNamed(log: seq<Record>, keys: seq<int>)
    requires forall r :: r in log ==> r.videoID <= MAX_INT64
    ensures Named(UnionMembers(AfterAll(log), keys))
    decreases |keys|
  {
    if keys != [] {
      UnionIsNamed(log, keys[..|keys| - 1]);
      BucketsAreNamed(log, keys[|keys| - 1]);
    }
  }

  // Nothing but members written for ids is ever in a window.
  lemma RebuiltIsNamed(log: seq<Record>, end: int)
    requires forall r :: r in log ==> r.videoID <= MAX_INT64
    ensures Named(Rebuilt(AfterAll(log), end).Keys)
  {
    UnionIsNamed(log, WindowKeys(end));
  }

  // When every recorded delta lies in the window, a video's window score is the hot
  // score of its current counts (the recorded scores are conserved).
  lemma {:induction false} WindowScoreIsHotScore(ops: seq<Service.Op>, log: seq<Record>, videoID: int, end: int)
    requires IsID(videoID)
    requires |log| == |Service.AfterAll(ops).hot|
    requires forall i :: 0 <= i < |log| ==>
               && Service.AfterAll(ops).hot[i] == Service.HotDelta(log[i].videoID, log[i].delta)
               && log[i].videoID <= MAX_INT64 && end - HOT_WINDOW_MINUTES < Minute(log[i].at) <= end
    ensures var score := Service.ScoreHotFeedItem(Service.StatOf(Service.AfterAll(ops).db, videoID));
            var window := Rebuilt(AfterAll(log), end);
            && (Member(videoID) in window <==> score > 0)
            && (Member(videoID) in window ==> window[Member(videoID)] == score)
  {
    Service.HotScoreConservation(ops, videoID);
    DirectSumIsHotSum(log, Service.AfterAll(ops).hot, videoID, end);
    WindowIsDirectSum(log, videoID, end);
  }

  lemma {:induction false} DirectSumIsHotSum(log: seq<Record>, hot: seq<Service.HotDelta>, videoID: int, end: int)
    requires |log| == |hot| && forall i :: 0 <= i < |log| ==>
               && hot[i] == Service.HotDelta(log[i].videoID, log[i].delta)
               && end - HOT_WINDOW_MINUTES < Minute(log[i].at) <= end
    ensures DirectSum(log, videoID, end) == Service.HotSum(hot, videoID)
    decreases |log|
  {
    if log != [] {
      DirectSumIsHotSum(log[..|log| - 1], hot[..|hot| - 1], videoID, end);
    }
  }

  // ----- the ranking of a window -----

  datatype Entry = Entry(member: string, score: int)

  // By score, then by member.
  predicate HotOrder(a: Entry, b: Entry) {
    a.score < b.score || (a.score == b.score && Less(a.member, b.member))
  }

  lemma {:induction false} LessTransitive(a: string, b: string, c: string)
    requires Less(a, b) && Less(b, c)
    ensures Less(a, c)
    decreases |a|
  {
    if a != [] && a[0] == b[0] && b[0] == c[0] {
      LessTransitive(a[1..], b[1..], c[1..]);
    }
  }

  lemma {:induction false} LessTotal(a: string, b: string)
    ensures !Less(a, a)
    ensures a == b || Less(a, b) || Less(b, a)
    decreases |a|
  {
    if a != [] {
      if b != [] && a[0] == b[0] {
        LessTotal(a[1..], b[1..]);
        assert a == [a[0]] + a[1..] && b == [b[0]] + b[1..];
      } else {
        LessTotal(a[1..], a[1..]);
      }
    }
  }

  lemma HotOrderIsTotal()
    ensures StrictTotal(HotOrder)
  {
    forall a: Entry, b: Entry ensures !HotOrder(a, a) && (a == b || HotOrder(a, b) || HotOrder(b, a)) {
      LessTotal(a.member, b.member);
    }
    forall a: Entry, b: Entry, c: Entry | HotOrder(a, b) && HotOrder(b, c) ensures HotOrder(a, c) {
      if a.score == b.score == c.score {
        LessTransitive(a.member, b.member, c.member);
      }
    }
  }

  function EntriesOf(window: Bucket): set<Entry> {
    set m | m in window :: Entry(m, window[m])
  }

  datatype HotItem = HotItem(videoID: int, hotScore: int)

  // What a page shows of the ranked entries: members that are no ids are skipped.
  function ItemsOf(entries: seq<Entry>): seq<HotItem> {
    if entries == [] then []
    else
      var before, last := ItemsOf(entries[..|entries| - 1]), entries[|entries| - 1];
      var id := HotRankVideoID(last.member);
      if id.Some? then before + [HotItem(id.value, last.score)] else before
  }

  // ZREVRANGE offset offset+limit-1.
  function Slice<T>(r: seq<T>, offset: nat, limit: nat): seq<T> {
    if offset >= |r| then []
    else if offset + limit < |r| then r[offset..offset + limit]
    else r[offset..]
  }

  ghost predicate AllNamed(r: seq<Entry>) {
    forall i :: 0 <= i < |r| ==> NamedMember(r[i].member)
  }

  function ItemOf(e: Entry): HotItem {
    var id := HotRankVideoID(e.member);
    HotItem(if id.Some? then id.value else 0, e.score)
  }

  // With named members only, every entry is shown, under the id it was written for.
  lemma {:induction false} ItemsOfNamed(r: seq<Entry>)
    requires AllNamed(r)
    ensures |ItemsOf(r)| == |r| && forall i :: 0 <= i < |r| ==> ItemsOf(r)[i] == ItemOf(r[i])
    decreases |r|
  {
    if r != [] {
      ItemsOfNamed(r[..|r| - 1]);
      ReadNamed(r[|r| - 1].member);
    }
  }

  lemma ReadNamed(member: string)
    requires NamedMember(member)
    ensures HotRankVideoID(member).Some? && Member(HotRankVideoID(member).value) == member
  {
    var v: int :| IsID(v) && member == Member(v);
    MemberRoundTrip(v);
  }

  lemma SliceOfItems(r: seq<Entry>, offset: nat, limit: nat)
    requires AllNamed(r)
    ensures ItemsOf(Slice(r, offset, limit)) == Slice(ItemsOf(r), offset, limit)
  {
    var part := Slice(r, offset, limit);
    ItemsOfNamed(r);
    SliceNamed(r, offset, limit);
    ItemsOfNamed(part);
    SliceOfShown(ItemsOf(part), r, ItemsOf(r), offset, limit);
  }

  lemma SliceOfShown(a: seq<HotItem>, r: seq<Entry>, all: seq<HotItem>, offset: nat, limit: nat)
    requires |all| == |r| && forall i :: 0 <= i < |r| ==> all[i] == ItemOf(r[i])
    requires var part := Slice(r, offset, limit);
             && |a| == |part|
             && forall i :: 0 <= i < |part| ==> a[i] == ItemOf(part[i])
    ensures a == Slice(all, offset, limit)
  {
  }

  lemma SliceNamed(r: seq<Entry>, offset: nat, limit: nat)
    requires AllNamed(r)
    ensures AllNamed(Slice(r, offset, limit))
  {
  }

  // Higher scores first, among equal scores the higher id.
  lemma ItemsAreRanked(window: Bucket, r: seq<Entry>, i: nat, j: nat)
    requires Named(window.Keys) && Lists(HotOrder, r, EntriesOf(window)) && i < j < |r|
    ensures |ItemsOf(r)| == |r|
    ensures var a, b := ItemsOf(r)[i], ItemsOf(r)[j];
            a.hotScore > b.hotScore || (a.hotScore == b.hotScore && a.videoID > b.videoID)
  {
    EntriesNamed(window, r);
    ItemsOfNamed(r);
    assert HotOrder(r[j], r[i]);
    ReadNamed(r[i].member);
    ReadNamed(r[j].member);
    MemberOrderIsNumeric(ItemsOf(r)[j].videoID, ItemsOf(r)[i].videoID);
  }

  lemma EntriesNamed(window: Bucket, r: seq<Entry>)
    requires Named(window.Keys) && Lists(HotOrder, r, EntriesOf(window))
    ensures AllNamed(r)
  {
    forall i | 0 <= i < |r| ensures NamedMember(r[i].member) {
      assert r[i] in Elements(r);
      assert r[i].member in window.Keys;
    }
  }

  // ----- the cache object -----

  class HotRankCache {
    var buckets: map<int, Bucket>
    var windows: map<int, Bucket>

    constructor ()
      ensures buckets == map[] && windows == map[]
    {
      buckets, windows := map[], map[];
    }

    method AddHotScore(videoID: int, scoreDelta: int, at: int)
      modifies this`buckets
      ensures buckets == AfterAdd(old(buckets), Record(videoID, scoreDelta, at))
      // Whoever walks a window that was built keeps it.
      ensures forall end :: end in windows ==> WindowAt(end) == old(WindowAt(end))
    {
      if videoID <= 0 || scoreDelta == 0 {
        return;
      }
      var key, member := Minute(at), Member(videoID);
      var bucket := BucketAt(buckets, key);
      buckets := buckets[key := bucket[member := ScoreIn(bucket, member) + scoreDelta]];
    }

    // The keys of the sixty minutes, oldest first.
    static method HotWindowMinuteKeys(end: int) returns (keys: seq<int>)
      ensures keys == WindowKeys(end)
    {
      keys := [];
      var index: int := HOT_WINDOW_MINUTES - 1;
      while index >= 0
        invariant -1 <= index < HOT_WINDOW_MINUTES
        invariant keys == WindowKeys(end)[..HOT_WINDOW_MINUTES - 1 - index]
      {
        keys := keys + [end - index];
        index := index - 1;
      }
    }

    // A key without members does not exist.
    method RebuildHotWindow(end: int)
      modifies this`windows
      ensures windows == if Rebuilt(buckets, end) == map[] then old(windows) - {end}
                         else old(windows)[end := Rebuilt(buckets, end)]
    {
      var keys := HotWindowMinuteKeys(end);
      var window: Bucket := map member | member in UnionMembers(buckets, keys) :: UnionScore(buckets, keys, member);
      window := map member | member in window && window[member] > 0 :: window[member];
      assert window == Rebuilt(buckets, end);
      windows := if window == map[] then windows - {end} else windows[end := window];
    }

    // The window a page of that minute is read from: the cached one, else rebuilt.
    function WindowAt(end: int): Bucket
      reads this
    {
      if end in windows then windows[end] else Rebuilt(buckets, end)
    }

    method ListHotWindowPage(windowEnd: int, offset: int, limit: int) returns (items: seq<HotItem>)
      modifies this`windows
      ensures limit <= 0 ==> items == [] && windows == old(windows)
      ensures limit > 0 ==> WindowAt(Minute(windowEnd)) == old(WindowAt(Minute(windowEnd)))
      // The first page builds the window from the buckets and leaves it for the others.
      ensures limit > 0 ==>
                var end := Minute(windowEnd);
                windows == if end in old(windows) || Rebuilt(buckets, end) == map[] then old(windows)
                           else old(windows)[end := Rebuilt(buckets, end)]
      ensures limit > 0 ==> forall r :: Lists(HotOrder, r, EntriesOf(WindowAt(Minute(windowEnd)))) ==>
                items == ItemsOf(Slice(r, if offset < 0 then 0 else offset, limit))
    {
      if limit <= 0 {
        return [];
      }
      var from := if offset < 0 then 0 else offset;
      var end := Minute(windowEnd);
      ghost var window := WindowAt(end);
      if end !in windows {
        RebuildHotWindow(end);
      }
      assert BucketAt(windows, end) == window;
      HotOrderIsTotal();
      var ranked := ListSet(HotOrder, EntriesOf(BucketAt(windows, end)));
      var values := Slice(ranked, from, limit);
      items := ReadItems(values);
      forall r | Lists(HotOrder, r, EntriesOf(window)) ensures r == ranked {
        ListingUnique(HotOrder, r, ranked, EntriesOf(window));
      }
    }

    static method ReadItems(values: seq<Entry>) returns (items: seq<HotItem>)
      ensures items == ItemsOf(values)
    {
      items := [];
      var i := 0;
      while i < |values|
        invariant 0 <= i <= |values|
        invariant items == ItemsOf(values[..i])
      {
        assert values[..i + 1][..i] == values[..i];
        var videoID := HotRankVideoID(values[i].member);
        if videoID.Some? {
          items := items + [HotItem(videoID.value, values[i].score)];
        }
        i := i + 1;
      }
      assert values[..i] == values;
    }
  }

  // Fetching one entry more than the page shows tells whether more follow.
  lemma PageOfFetched(window: Bucket, r: seq<Entry>, offset: nat, limit: nat, fetched: seq<HotItem>)
    requires Named(window.Keys) && Lists(HotOrder, r, EntriesOf(window))
    requires fetched == ItemsOf(Slice(r, offset, limit + 1))
    ensures (if |fetched| > limit then fetched[..limit] else fetched) == Slice(ItemsOf(r), offset, limit)
    ensures |fetched| > limit <==> |ItemsOf(r)| > offset + limit
  {
    EntriesNamed(window, r);
    SliceOfItems(r, offset, limit + 1);
  }

  datatype Cursor = Cursor(windowEnd: int, offset: nat)
  datatype Page = Page(items: seq<HotItem>, next: Option<Cursor>, hasMore: bool)

  // The page at an offset of a ranking: the slice, exact HasMore, and the offset
  // where the next slice starts.
  predicate Shows(ranking: seq<HotItem>, end: int, offset: nat, limit: nat, page: Page) {
    && page.items == Slice(ranking, offset, limit) && (page.hasMore <==> |ranking| > offset + limit)
    && NextOffset(end, offset, page)
  }

  predicate NextOffset(end: int, offset: nat, page: Page) {
    && (page.next.Some? <==> page.items != [])
    && (page.next.Some? ==>
          Minute(page.next.value.windowEnd) == end && page.next.value.offset == offset + |page.items|)
  }

  class HotStrategy {
    const cache: HotRankCache

    constructor (cache: HotRankCache)
      ensures this.cache == cache
    {
      this.cache := cache;
    }

    // Pages of one snapshot are consecutive slices of its ranking, with exact
    // HasMore and the offset where the next slice starts.
    method ListPageFromHotWindow(now: int, cursor: Option<Cursor>, limit: nat) returns (page: Page)
      modifies cache`windows
      ensures var end := Minute(if cursor.Some? then cursor.value.windowEnd else now);
              var offset := if cursor.Some? then cursor.value.offset else 0;
              && cache.WindowAt(end) == old(cache.WindowAt(end))
              && NextOffset(end, offset, page)
              && (forall r :: Named(cache.WindowAt(end).Keys) && Lists(HotOrder, r, EntriesOf(cache.WindowAt(end))) ==>
                    Shows(ItemsOf(r), end, offset, limit, page))
    {
      var windowEnd := Minute(if cursor.Some? then cursor.value.windowEnd else now) * NANOS_PER_MINUTE;
      assert Minute(windowEnd) == Minute(if cursor.Some? then cursor.value.windowEnd else now);
      var offset := if cursor.Some? then cursor.value.offset else 0;
      var items := cache.ListHotWindowPage(windowEnd, offset, limit + 1);
      ghost var window := cache.WindowAt(Minute(windowEnd));
      ghost var fetched := items;
      var hasMore := |items| > limit;
      if hasMore {
        items := items[..limit];
      }
      forall r | Named(window.Keys) && Lists(HotOrder, r, EntriesOf(window))
        ensures items == Slice(ItemsOf(r), offset, limit) && (hasMore <==> |ItemsOf(r)| > offset + limit)
      {
        PageOfFetched(window, r, offset, limit, fetched);
      }
      page := Page(items, if items == [] then None else Some(Cursor(windowEnd, offset + |items|)), hasMore);
    }
  }

  // ----- offset pages tile the ranking -----

  // A client's walk over one ranking: each request carries the cursor of the page
  // before, until a page announces no more.
  predicate IsOffsetWalk(ranking: seq<HotItem>, end: int, offset: nat, limit: nat, pages: seq<Page>)
    decreases |pages|
  {
    && pages != [] && Shows(ranking, end, offset, limit, pages[0]) && (pages[0].hasMore <==> |pages| > 1)
    && (|pages| > 1 ==>
          pages[0].next.Some? && IsOffsetWalk(ranking, end, pages[0].next.value.offset, limit, pages[1..]))
  }

  function ItemsIn(pages: seq<Page>): seq<HotItem> {
    if pages == [] then [] else pages[0].items + ItemsIn(pages[1..])
  }

  lemma {:induction false} SlicesTile(ranking: seq<HotItem>, end: int, offset: nat, limit: nat, pages: seq<Page>)
    requires limit > 0 && offset <= |ranking| && IsOffsetWalk(ranking, end, offset, limit, pages)
    ensures ItemsIn(pages) == ranking[offset..]
    decreases |pages|
  {
    var items := pages[0].items;
    if |pages| > 1 {
      SlicesTile(ranking, end, offset + |items|, limit, pages[1..]);
      assert ranking[offset..] == items + ranking[offset + |items|..];
    } else {
      assert ItemsIn(pages[1..]) == [];
    }
  }

  // Following the cursors lists exactly the videos of the window with their scores,
  // the higher ranked first, so each once.
  lemma OffsetPagesTile(window: Bucket, end: int, limit: nat, pages: seq<Page>, r: seq<Entry>)
    requires Named(window.Keys) && Lists(HotOrder, r, EntriesOf(window))
    requires limit > 0 && IsOffsetWalk(ItemsOf(r), end, 0, limit, pages)
    ensures var shown := ItemsIn(pages);
            && (forall v :: IsID(v) && Member(v) in window ==> HotItem(v, window[Member(v)]) in shown)
            && (forall x :: x in shown ==> IsID(x.videoID) && Member(x.videoID) in window
                                           && x.hotScore == window[Member(x.videoID)])
            && (forall i, j :: 0 <= i < j < |shown| ==> Hotter(shown[i], shown[j]))
  {
    SlicesTile(ItemsOf(r), end, 0, limit, pages);
    EntriesNamed(window, r);
    ItemsOfNamed(r);
    var shown := ItemsIn(pages);
    assert shown == ItemsOf(r);
    forall v | IsID(v) && Member(v) in window ensures HotItem(v, window[Member(v)]) in shown {
      VideoIsShown(window, r, v);
    }
    forall x | x in shown
      ensures IsID(x.videoID) && Member(x.videoID) in window && x.hotScore == window[Member(x.videoID)]
    {
      var i :| 0 <= i < |shown| && shown[i] == x;
      ShownIsVideo(window, r, i);
    }
    forall i, j | 0 <= i < j < |shown| ensures Hotter(shown[i], shown[j]) {
      ItemsAreRanked(window, r, i, j);
    }
  }

  predicate Hotter(a: HotItem, b: HotItem) {
    a.hotScore > b.hotScore || (a.hotScore == b.hotScore && a.videoID > b.videoID)
  }

  lemma VideoIsShown(window: Bucket, r: seq<Entry>, v: int)
    requires AllNamed(r) && Lists(HotOrder, r, EntriesOf(window)) && IsID(v) && Member(v) in window
    ensures HotItem(v, window[Member(v)]) in ItemsOf(r)
  {
    ItemsOfNamed(r);
    assert Entry(Member(v), window[Member(v)]) in EntriesOf(window);
    var i :| 0 <= i < |r| && r[i] == Entry(Member(v), window[Member(v)]);
    MemberRoundTrip(v);
    assert ItemsOf(r)[i] == HotItem(v, window[Member(v)]);
  }

  lemma ShownIsVideo(window: Bucket, r: seq<Entry>, i: nat)
    requires AllNamed(r) && Lists(HotOrder, r, EntriesOf(window)) && i < |ItemsOf(r)|
    ensures var x := ItemsOf(r)[i];
            IsID(x.videoID) && Member(x.videoID) in window && x.hotScore == window[Member(x.videoID)]
  {
    ItemsOfNamed(r);
    ReadNamed(r[i].member);
    assert r[i] in Elements(r);
  }
}
