// Finite sets under a strict total order: the k greatest elements, the listing
// from greatest to least, and what a cursor walk over it visits. Shared by the
// bounded sorted sets, the index pages and the recommendation pages.
module Ranking {
  import opened Base

  type Order<!E> = (E, E) -> bool

  ghost predicate StrictTotal<E(!new)>(lt: Order<E>) {
    && (forall a :: !lt(a, a))
    && (forall a, b, c :: lt(a, b) && lt(b, c) ==> lt(a, c))
    && (forall a, b :: a == b || lt(a, b) || lt(b, a))
  }

  ghost function Above<E>(lt: Order<E>, s: set<E>, e: E): set<E> {
    set f | f in s && lt(e, f)
  }

  // The k greatest elements: those with fewer than k above them.
  ghost function Top<E>(lt: Order<E>, s: set<E>, k: nat): set<E> {
    set e | e in s && |Above(lt, s, e)| < k
  }

  lemma SubsetSize<E>(a: set<E>, b: set<E>)
    requires a <= b
    ensures |a| <= |b|
    ensures |a| == |b| ==> a == b
  {
    assert b == a + (b - a);
    assert |b| == |a| + |b - a|;
  }

  lemma {:induction false} HasLeast<E(!new)>(lt: Order<E>, s: set<E>) returns (m: E)
    requires StrictTotal(lt) && exists e :: e in s
    ensures m in s && Above(lt, s, m) == s - {m}
    decreases |s|
  {
    var e :| e in s;
    m := e;
    if f :| f in s - {e} {
      var l := HasLeast(lt, s - {e});
      m := if lt(l, e) then l else e;
      forall x | x in s - {m} ensures lt(m, x) {
        assert x != e && x != l ==> x in s - {e} - {l};
      }
    } else {
      assert forall f :: f in s ==> f in s - {e} || f == e;
    }
  }

  lemma NonEmpty<E>(s: set<E>)
    ensures |s| > 0 ==> exists e :: e in s
  {
    if !exists e :: e in s {
      assert s == {};
    }
  }

  lemma AboveShrinks<E(!new)>(lt: Order<E>, s: set<E>, e: E, f: E)
    requires StrictTotal(lt) && f in Above(lt, s, e)
    ensures Above(lt, s, f) < Above(lt, s, e)
    ensures |Above(lt, s, f)| < |Above(lt, s, e)|
  {
    SubsetSize(Above(lt, s, f), Above(lt, s, e));
  }

  // What is kept lies above what is dropped.
  lemma KeptAboveDropped<E(!new)>(lt: Order<E>, s: set<E>, k: nat, kept: E, dropped: E)
    requires StrictTotal(lt) && kept in Top(lt, s, k) && dropped in s - Top(lt, s, k)
    ensures lt(dropped, kept)
  {
    if lt(kept, dropped) {
      AboveShrinks(lt, s, kept, dropped);
    }
  }

  // Above any element the k greatest keep everything, or at least k elements.
  lemma {:induction false} TopKeepsAbove<E(!new)>(lt: Order<E>, s: set<E>, k: nat, e: E)
    requires StrictTotal(lt)
    ensures |Above(lt, s, e)| <= k ==> Above(lt, Top(lt, s, k), e) == Above(lt, s, e)
    ensures |Above(lt, s, e)| >= k ==> |Above(lt, Top(lt, s, k), e)| >= k
    decreases |Above(lt, s, e)|
  {
    var above := Above(lt, s, e);
    if |above| <= k {
      forall f | f in above ensures f in Top(lt, s, k) {
        AboveShrinks(lt, s, e, f);
      }
    } else {
      NonEmpty(above);
      var m := HasLeast(lt, above);
      assert Above(lt, s, m) == Above(lt, above, m);
      TopKeepsAbove(lt, s, k, m);
      assert Above(lt, Top(lt, s, k), m) <= Above(lt, Top(lt, s, k), e);
      SubsetSize(Above(lt, Top(lt, s, k), m), Above(lt, Top(lt, s, k), e));
    }
  }

  // Trimming early loses nothing: the k greatest of a union can be taken from
  // the k greatest of its parts.
  lemma TopUnion<E(!new)>(lt: Order<E>, a: set<E>, b: set<E>, k: nat)
    requires StrictTotal(lt)
    ensures Top(lt, Top(lt, a, k) + b, k) == Top(lt, a + b, k)
  {
    var t := Top(lt, a, k);
    forall e ensures e in Top(lt, t + b, k) <==> e in Top(lt, a + b, k) {
      TopKeepsAbove(lt, a, k, e);
      assert Above(lt, t + b, e) == Above(lt, t, e) + Above(lt, b, e);
      assert Above(lt, a + b, e) == Above(lt, a, e) + Above(lt, b, e);
      SubsetSize(Above(lt, a, e), Above(lt, a + b, e));
      SubsetSize(Above(lt, t, e), Above(lt, t + b, e));
      SubsetSize(Above(lt, t + b, e), Above(lt, a + b, e));
    }
  }

  lemma {:induction false} TopSize<E(!new)>(lt: Order<E>, s: set<E>, k: nat)
    requires StrictTotal(lt)
    ensures |Top(lt, s, k)| == if |s| < k then |s| else k
    ensures |s| <= k ==> Top(lt, s, k) == s
    decreases |s|
  {
    if e :| e in s {
      var m := HasLeast(lt, s);
      TopSize(lt, s - {m}, k);
      forall x | x in s - {m} ensures Above(lt, s, x) == Above(lt, s - {m}, x) {
        assert x in Above(lt, s, m);
      }
      assert Top(lt, s, k) == Top(lt, s - {m}, k) + (if |s| - 1 < k then {m} else {});
      if |s| <= k {
        assert Top(lt, s, k) == s;
      }
    } else {
      assert s == {} && Top(lt, s, k) == {};
    }
  }

  // ----- listings -----

  ghost predicate Descending<E>(lt: Order<E>, r: seq<E>) {
    forall i, j :: 0 <= i < j < |r| ==> lt(r[j], r[i])
  }

  ghost function Elements<E>(r: seq<E>): set<E> {
    set i | 0 <= i < |r| :: r[i]
  }

  // r lists s from greatest to least, each element once.
  ghost predicate Lists<E>(lt: Order<E>, r: seq<E>, s: set<E>) {
    Descending(lt, r) && Elements(r) == s
  }

  lemma {:induction false} ListingSize<E(!new)>(lt: Order<E>, r: seq<E>, s: set<E>)
    requires StrictTotal(lt) && Lists(lt, r, s)
    ensures |r| == |s|
    decreases |r|
  {
    if r != [] {
      var last := r[|r| - 1];
      forall e ensures e in Elements(r[..|r| - 1]) <==> e in s - {last} {
        if e in s - {last} {
          var i :| 0 <= i < |r| && r[i] == e;
          assert r[..|r| - 1][i] == e;
        }
      }
      ListingSize(lt, r[..|r| - 1], s - {last});
      assert last in s;
    }
  }

  // The elements before position i are exactly those above the element at i.
  lemma PrefixIsAbove<E(!new)>(lt: Order<E>, r: seq<E>, s: set<E>, i: nat)
    requires StrictTotal(lt) && Lists(lt, r, s) && i < |r|
    ensures Elements(r[..i]) == Above(lt, s, r[i])
    ensures |Above(lt, s, r[i])| == i
  {
    forall e ensures e in Elements(r[..i]) <==> e in Above(lt, s, r[i]) {
      if e in Above(lt, s, r[i]) {
        var j :| 0 <= j < |r| && r[j] == e;
        assert r[..i][j] == e;
      }
      if e in Elements(r[..i]) {
        var j :| 0 <= j < |r[..i]| && r[..i][j] == e;
        assert r[j] == e;
      }
    }
    ListingSize(lt, r[..i], Above(lt, s, r[i]));
  }

  // A prefix of a listing lists the greatest elements.
  lemma PrefixListsTop<E(!new)>(lt: Order<E>, r: seq<E>, s: set<E>, k: nat)
    requires StrictTotal(lt) && Lists(lt, r, s)
    ensures Lists(lt, r[..if k < |r| then k else |r|], Top(lt, s, k))
  {
    var n := if k < |r| then k else |r|;
    forall e ensures e in Elements(r[..n]) <==> e in Top(lt, s, k) {
      if e in s {
        var i :| 0 <= i < |r| && r[i] == e;
        PrefixIsAbove(lt, r, s, i);
        assert i < n ==> r[..n][i] == e;
      }
      if e in Elements(r[..n]) {
        var j :| 0 <= j < |r[..n]| && r[..n][j] == e;
        assert r[j] == e;
        PrefixIsAbove(lt, r, s, j);
      }
    }
  }

  // A set has one listing only.
  lemma ListingUnique<E(!new)>(lt: Order<E>, a: seq<E>, b: seq<E>, s: set<E>)
    requires StrictTotal(lt) && Lists(lt, a, s) && Lists(lt, b, s)
    ensures a == b
  {
    ListingSize(lt, a, s);
    ListingSize(lt, b, s);
    forall i | 0 <= i < |a| ensures a[i] == b[i] {
      assert a[i] in s;
      var j :| 0 <= j < |b| && b[j] == a[i];
      PrefixIsAbove(lt, a, s, i);
      PrefixIsAbove(lt, b, s, j);
    }
  }

  // ----- cursor walks -----

  ghost function Below<E>(lt: Order<E>, s: set<E>, cursor: Option<E>): set<E> {
    match cursor
    case None => s
    case Some(c) => set e | e in s && lt(e, c)
  }

  // One page of a walk: the n greatest elements below the cursor, whether more
  // remain below them, and the cursor that continues the walk.
  ghost predicate IsPage<E>(lt: Order<E>, s: set<E>, cursor: Option<E>, n: nat, page: seq<E>, hasMore: bool) {
    var rest := Below(lt, s, cursor);
    && Lists(lt, page, Top(lt, rest, n))
    && (hasMore <==> |rest| > n)
  }

  // Pages that follow each other: each starts at the last element of the one
  // before, all but the last announce more, the last does not.
  ghost predicate IsWalk<E>(lt: Order<E>, s: set<E>, cursor: Option<E>, n: nat, pages: seq<seq<E>>)
    decreases |pages|
  {
    && pages != []
    && IsPage(lt, s, cursor, n, pages[0], |pages| > 1)
    && (|pages| > 1 ==> pages[0] != [] && IsWalk(lt, s, Some(pages[0][|pages[0]| - 1]), n, pages[1..]))
  }

  function Flatten<E>(pages: seq<seq<E>>): seq<E> {
    if pages == [] then [] else pages[0] + Flatten(pages[1..])
  }

  // What is left below a page's last element is what the page did not show.
  lemma PageLeaves<E(!new)>(lt: Order<E>, s: set<E>, cursor: Option<E>, n: nat, page: seq<E>)
    requires StrictTotal(lt) && page != [] && Lists(lt, page, Top(lt, Below(lt, s, cursor), n))
    ensures Below(lt, s, Some(page[|page| - 1])) == Below(lt, s, cursor) - Elements(page)
  {
    var rest, last := Below(lt, s, cursor), page[|page| - 1];
    assert last in Elements(page);
    forall e ensures e in Below(lt, s, Some(last)) <==> e in rest - Elements(page) {
      if e in Elements(page) {
        var i :| 0 <= i < |page| && page[i] == e;
        assert i < |page| - 1 ==> lt(last, page[i]);
      }
      if e in rest - Elements(page) {
        KeptAboveDropped(lt, rest, n, last, e);
      }
    }
  }

  // Following the cursor visits every element below it exactly once, in order.
  lemma {:induction false} WalkVisitsAll<E(!new)>(
    lt: Order<E>, s: set<E>, cursor: Option<E>, n: nat, pages: seq<seq<E>>)
    requires StrictTotal(lt) && IsWalk(lt, s, cursor, n, pages)
    ensures Lists(lt, Flatten(pages), Below(lt, s, cursor))
    decreases |pages|
  {
    var rest := Below(lt, s, cursor);
    if |pages| == 1 {
      assert Flatten(pages) == pages[0] by {
        assert pages[1..] == [];
      }
      TopSize(lt, rest, n);
    } else {
      var last := pages[0][|pages[0]| - 1];
      WalkVisitsAll(lt, s, Some(last), n, pages[1..]);
      JoinPage(lt, s, cursor, n, pages[0], Flatten(pages[1..]));
    }
  }

  // A page followed by a listing of what is below it lists what is below the cursor.
  lemma JoinPage<E(!new)>(lt: Order<E>, s: set<E>, cursor: Option<E>, n: nat, page: seq<E>, tail: seq<E>)
    requires StrictTotal(lt) && page != [] && Lists(lt, page, Top(lt, Below(lt, s, cursor), n))
    requires Lists(lt, tail, Below(lt, s, Some(page[|page| - 1])))
    ensures Lists(lt, page + tail, Below(lt, s, cursor))
  {
    var rest, below := Below(lt, s, cursor), Below(lt, s, Some(page[|page| - 1]));
    PageLeaves(lt, s, cursor, n, page);
    JoinListings(lt, page, tail, below);
    assert Elements(page) <= rest;
    assert Elements(page) + below == rest;
  }

  lemma JoinListings<E(!new)>(lt: Order<E>, a: seq<E>, b: seq<E>, s: set<E>)
    requires StrictTotal(lt) && a != [] && Descending(lt, a) && Lists(lt, b, s)
    requires forall e :: e in s ==> lt(e, a[|a| - 1])
    ensures Lists(lt, a + b, Elements(a) + s)
  {
    forall e ensures e in Elements(a + b) <==> e in Elements(a) + s {
      if i :| 0 <= i < |a| && a[i] == e {
        assert (a + b)[i] == e;
      }
      if i :| 0 <= i < |b| && b[i] == e {
        assert (a + b)[|a| + i] == e;
      }
    }
    forall i, j | 0 <= i < j < |a + b| ensures lt((a + b)[j], (a + b)[i]) {
      if i < |a| <= j {
        assert b[j - |a|] in s;
        assert i < |a| - 1 ==> lt(a[|a| - 1], a[i]);
      }
    }
  }

  // A walk with a positive page size always moves on: a page that announces more
  // is not empty, so the walk ends after finitely many pages.
  lemma MoreMeansProgress<E(!new)>(lt: Order<E>, s: set<E>, cursor: Option<E>, n: nat, page: seq<E>)
    requires StrictTotal(lt) && n > 0 && IsPage(lt, s, cursor, n, page, true)
    ensures page != [] && |page| == n
    ensures |Below(lt, s, Some(page[|page| - 1]))| == |Below(lt, s, cursor)| - n
  {
    var rest := Below(lt, s, cursor);
    TopSize(lt, rest, n);
    ListingSize(lt, page, Top(lt, rest, n));
    PageLeaves(lt, s, cursor, n, page);
    assert rest == (rest - Elements(page)) + Elements(page);
  }

  // ----- sorted insertion, greatest first -----

  // Adding to a listing; an element already listed stays where it is.
  function Insert<E(==)>(lt: Order<E>, z: seq<E>, x: E): seq<E> {
    if z == [] then [x]
    else if z[0] == x then z
    else if lt(z[0], x) then [x] + z
    else [z[0]] + Insert(lt, z[1..], x)
  }

  lemma {:induction false} InsertLists<E(!new)>(lt: Order<E>, z: seq<E>, s: set<E>, x: E)
    requires StrictTotal(lt) && Lists(lt, z, s)
    ensures Lists(lt, Insert(lt, z, x), s + {x})
    decreases |z|
  {
    if z == [] {
      assert [x][0] == x && Elements([x]) == {x} && s == {};
    } else {
      SplitFirst(lt, z, s);
      if z[0] == x {
        assert s + {x} == s;
      } else if lt(z[0], x) {
        JoinFirst(lt, x, z, s);
      } else {
        InsertLists(lt, z[1..], s - {z[0]}, x);
        JoinFirst(lt, z[0], Insert(lt, z[1..], x), s - {z[0]} + {x});
        assert s - {z[0]} + {x} + {z[0]} == s + {x};
      }
    }
  }

  lemma SplitFirst<E(!new)>(lt: Order<E>, z: seq<E>, s: set<E>)
    requires StrictTotal(lt) && z != [] && Lists(lt, z, s)
    ensures Lists(lt, z[1..], s - {z[0]})
    ensures z[0] in s && forall e :: e in s && e != z[0] ==> lt(e, z[0])
  {
    assert z[0] in Elements(z);
    forall e ensures e in Elements(z[1..]) <==> e in s - {z[0]} {
      if e in s - {z[0]} {
        var i :| 0 <= i < |z| && z[i] == e;
        assert z[1..][i - 1] == e;
      }
      if i :| 0 <= i < |z[1..]| && z[1..][i] == e {
        assert z[i + 1] == e;
      }
    }
  }

  lemma JoinFirst<E(!new)>(lt: Order<E>, x: E, z: seq<E>, s: set<E>)
    requires StrictTotal(lt) && Lists(lt, z, s) && forall e :: e in s ==> lt(e, x)
    ensures Lists(lt, [x] + z, s + {x})
  {
    forall e ensures e in Elements([x] + z) <==> e in s + {x} {
      if e in s {
        var i :| 0 <= i < |z| && z[i] == e;
        assert ([x] + z)[i + 1] == e;
      }
      assert ([x] + z)[0] == x;
    }
    forall i | 0 < i < |[x] + z| ensures lt(([x] + z)[i], x) {
      assert z[i - 1] in Elements(z);
    }
  }

  lemma TopFirst<E(!new)>(lt: Order<E>, s: set<E>, first: E, k: nat)
    requires StrictTotal(lt) && k > 0 && first in s && forall e :: e in s && e != first ==> lt(e, first)
    ensures Top(lt, s, k) == Top(lt, s - {first}, k - 1) + {first}
  {
    assert Above(lt, s, first) == {};
    forall e | e in s - {first} ensures |Above(lt, s, e)| == |Above(lt, s - {first}, e)| + 1 {
      assert Above(lt, s, e) == Above(lt, s - {first}, e) + {first};
    }
  }

  lemma ElementsSnoc<E>(xs: seq<E>)
    requires xs != []
    ensures Elements(xs) == Elements(xs[..|xs| - 1]) + {xs[|xs| - 1]}
  {
    var before := xs[..|xs| - 1];
    forall e ensures e in Elements(xs) <==> e in Elements(before) + {xs[|xs| - 1]} {
      if i :| 0 <= i < |xs| && xs[i] == e {
        assert i < |before| ==> before[i] == e;
      }
      if i :| 0 <= i < |before| && before[i] == e {
        assert xs[i] == e;
      }
    }
  }

  lemma ElementsConcat<E>(a: seq<E>, b: seq<E>)
    ensures Elements(a + b) == Elements(a) + Elements(b)
  {
    forall e ensures e in Elements(a + b) <==> e in Elements(a) + Elements(b) {
      if i :| 0 <= i < |a| && a[i] == e {
        assert (a + b)[i] == e;
      }
      if i :| 0 <= i < |b| && b[i] == e {
        assert (a + b)[|a| + i] == e;
      }
    }
  }

  lemma {:induction false} ElementsSize<E>(xs: seq<E>)
    requires Distinct(xs)
    ensures |Elements(xs)| == |xs|
    decreases |xs|
  {
    if xs != [] {
      ElementsSize(xs[..|xs| - 1]);
      ElementsSnoc(xs);
    }
  }

  // Orders that agree on a set have the same greatest elements and listings.
  lemma AgreeingOrders<E(!new)>(lt: Order<E>, other: Order<E>, s: set<E>, k: nat, r: seq<E>)
    requires forall a, b :: a in s && b in s ==> (lt(a, b) <==> other(a, b))
    ensures Top(lt, s, k) == Top(other, s, k)
    ensures Elements(r) <= s ==> (Descending(lt, r) <==> Descending(other, r))
  {
    forall e | e in s ensures Above(lt, s, e) == Above(other, s, e) {
    }
    if Elements(r) <= s {
      forall i | 0 <= i < |r| ensures r[i] in s {
        assert r[i] in Elements(r);
      }
    }
  }

  // A set as a listing, picking its elements in any order.
  method ListSet<E(==, !new)>(lt: Order<E>, s: set<E>) returns (r: seq<E>)
    requires StrictTotal(lt)
    ensures Lists(lt, r, s)
  {
    r := [];
    var rest := s;
    while rest != {}
      invariant rest <= s && Lists(lt, r, s - rest)
      decreases |rest|
    {
      NonEmpty(rest);
      var e :| e in rest;
      InsertLists(lt, r, s - rest, e);
      r := Insert(lt, r, e);
      assert s - (rest - {e}) == s - rest + {e};
      rest := rest - {e};
    }
    assert s - rest == s;
  }

  // ----- sorting with repetitions, greatest first -----

  // Insertion before the first element less than x.
  function Place<E>(lt: Order<E>, z: seq<E>, x: E): seq<E> {
    if z == [] then [x]
    else if lt(z[0], x) then [x] + z
    else [z[0]] + Place(lt, z[1..], x)
  }

  function Sorted<E>(lt: Order<E>, xs: seq<E>): seq<E> {
    if xs == [] then []
    else Place(lt, Sorted(lt, xs[..|xs| - 1]), xs[|xs| - 1])
  }

  ghost predicate NonIncreasing<E>(lt: Order<E>, z: seq<E>) {
    forall i, j :: 0 <= i < j < |z| ==> !lt(z[i], z[j])
  }

  lemma {:induction false} PlaceAt<E>(lt: Order<E>, z: seq<E>, x: E, j: nat)
    requires j <= |z|
    requires forall i :: 0 <= i < j ==> !lt(z[i], x)
    requires j < |z| ==> lt(z[j], x)
    ensures Place(lt, z, x) == z[..j] + [x] + z[j..]
    decreases |z|
  {
    if z != [] && j > 0 {
      PlaceAt(lt, z[1..], x, j - 1);
      assert z[..j] == [z[0]] + z[1..][..j - 1];
      assert z[1..][j - 1..] == z[j..];
    }
  }

  lemma {:induction false} PlaceKeepsElements<E>(lt: Order<E>, z: seq<E>, x: E)
    ensures multiset(Place(lt, z, x)) == multiset(z) + multiset{x}
    ensures |Place(lt, z, x)| == |z| + 1
    ensures forall e :: e in Place(lt, z, x) ==> e == x || e in z
    decreases |z|
  {
    if z != [] && !lt(z[0], x) {
      PlaceKeepsElements(lt, z[1..], x);
      assert z == [z[0]] + z[1..];
    }
  }

  lemma {:induction false} PlaceSorts<E(!new)>(lt: Order<E>, z: seq<E>, x: E)
    requires StrictTotal(lt) && NonIncreasing(lt, z)
    ensures NonIncreasing(lt, Place(lt, z, x))
    decreases |z|
  {
    if z != [] {
      if lt(z[0], x) {
        forall j | 0 <= j < |z| ensures !lt(x, z[j]) {
          assert j > 0 ==> !lt(z[0], z[j]);
        }
      } else {
        PlaceSorts(lt, z[1..], x);
        PlaceKeepsElements(lt, z[1..], x);
        forall j | 0 <= j < |z| ensures !lt(z[0], Place(lt, z[1..], x)[j]) {
          assert Place(lt, z[1..], x)[j] in Place(lt, z[1..], x);
        }
      }
    }
  }

  // The sorted form orders the elements and neither loses nor repeats one.
  lemma {:induction false} SortedIsSorted<E(!new)>(lt: Order<E>, xs: seq<E>)
    requires StrictTotal(lt)
    ensures NonIncreasing(lt, Sorted(lt, xs))
    ensures multiset(Sorted(lt, xs)) == multiset(xs) && |Sorted(lt, xs)| == |xs|
    decreases |xs|
  {
    if xs != [] {
      SortedIsSorted(lt, xs[..|xs| - 1]);
      PlaceSorts(lt, Sorted(lt, xs[..|xs| - 1]), xs[|xs| - 1]);
      PlaceKeepsElements(lt, Sorted(lt, xs[..|xs| - 1]), xs[|xs| - 1]);
      assert xs == xs[..|xs| - 1] + [xs[|xs| - 1]];
    }
  }

  ghost predicate Distinct<E>(xs: seq<E>) {
    forall i, j :: 0 <= i < j < |xs| ==> xs[i] != xs[j]
  }

  lemma DistinctIffCounts<E>(xs: seq<E>)
    ensures Distinct(xs) <==> forall e :: multiset(xs)[e] <= 1
  {
    if Distinct(xs) {
      forall e ensures multiset(xs)[e] <= 1 {
        CountAtMostOne(xs, e);
      }
    } else {
      var i, j :| 0 <= i < j < |xs| && xs[i] == xs[j];
      assert xs == xs[..j] + xs[j..];
      assert xs[..j][i] == xs[i] && xs[j..][0] == xs[i];
      assert multiset(xs)[xs[i]] == multiset(xs[..j])[xs[i]] + multiset(xs[j..])[xs[i]];
    }
  }

  lemma {:induction false} CountAtMostOne<E>(xs: seq<E>, e: E)
    requires Distinct(xs)
    ensures multiset(xs)[e] <= 1
    decreases |xs|
  {
    if xs != [] {
      var before := xs[..|xs| - 1];
      CountAtMostOne(before, e);
      assert xs == before + [xs[|xs| - 1]];
      assert xs[|xs| - 1] !in before;
    }
  }

  lemma SameMultisetSameElements<E>(a: seq<E>, b: seq<E>)
    requires multiset(a) == multiset(b)
    ensures Elements(a) == Elements(b)
  {
    forall e ensures e in Elements(a) <==> e in Elements(b) {
      assert e in a <==> e in multiset(a);
      assert e in b <==> e in multiset(b);
    }
  }

  // Distinct elements come out as the listing of their set.
  lemma {:induction false} SortedLists<E(!new)>(lt: Order<E>, xs: seq<E>)
    requires StrictTotal(lt) && Distinct(xs)
    ensures Lists(lt, Sorted(lt, xs), Elements(xs))
  {
    SortedIsSorted(lt, xs);
    DistinctIffCounts(xs);
    DistinctIffCounts(Sorted(lt, xs));
    SameMultisetSameElements(Sorted(lt, xs), xs);
  }

  // x held at position j of z, followed by what is not sorted yet.
  ghost function Holding<E>(z: seq<E>, x: E, j: nat, rest: seq<E>): seq<E>
    requires j <= |z|
  {
    z[..j] + [x] + z[j..] + rest
  }

  lemma MoveLeft<E>(s: seq<E>, z: seq<E>, x: E, j: nat, rest: seq<E>)
    requires 0 < j <= |z| && s == Holding(z, x, j, rest)
    ensures |s| == |z| + 1 + |rest| && s[j - 1] == z[j - 1] && s[j] == x
    ensures s[j - 1 := x][j := z[j - 1]] == Holding(z, x, j - 1, rest)
  {
  }

  lemma {:induction false} PlaceHere<E(!new)>(lt: Order<E>, z: seq<E>, x: E, j: nat, rest: seq<E>)
    requires StrictTotal(lt) && NonIncreasing(lt, z) && j <= |z|
    requires j > 0 ==> !lt(z[j - 1], x)
    requires j < |z| ==> lt(z[j], x)
    ensures Holding(z, x, j, rest) == Place(lt, z, x) + rest
  {
    forall k | 0 <= k < j ensures !lt(z[k], x) {
      assert k < j - 1 ==> !lt(z[k], z[j - 1]);
    }
    PlaceAt(lt, z, x, j);
  }

  // Moves the element behind the sorted prefix z to its place.
  method PlaceInArray<E(!new)>(lt: Order<E>, a: array<E>, i: nat, ghost z: seq<E>, ghost rest: seq<E>)
    requires StrictTotal(lt) && NonIncreasing(lt, z) && |z| == i
    requires i < a.Length && a[..] == z + [a[i]] + rest
    modifies a
    ensures a[..] == Place(lt, z, old(a[i])) + rest
  {
    ghost var x := a[i];
    var j := i;
    assert a[..] == Holding(z, x, j, rest);
    while j > 0 && lt(a[j - 1], a[j])
      invariant 0 <= j <= i
      invariant a[..] == Holding(z, x, j, rest)
      invariant j < i ==> lt(z[j], x)
    {
      ghost var before := a[..];
      MoveLeft(before, z, x, j, rest);
      assert before[j - 1] == a[j - 1] && before[j] == a[j];
      a[j - 1], a[j] := a[j], a[j - 1];
      assert a[..] == before[j - 1 := x][j := z[j - 1]];
      j := j - 1;
    }
    if j > 0 {
      MoveLeft(a[..], z, x, j, rest);
      assert a[..][j - 1] == a[j - 1] && a[..][j] == a[j];
    }
    PlaceHere(lt, z, x, j, rest);
  }

  // The state of the outer loop: the first i elements sorted, the others as they were.
  ghost function SortedUpTo<E>(lt: Order<E>, was: seq<E>, i: nat): seq<E>
    requires i <= |was|
  {
    Sorted(lt, was[..i]) + was[i..]
  }

  lemma SortedUpToStep<E(!new)>(lt: Order<E>, was: seq<E>, i: nat)
    requires StrictTotal(lt) && i < |was|
    ensures var z := Sorted(lt, was[..i]);
            && |z| == i && NonIncreasing(lt, z)
            && SortedUpTo(lt, was, i) == z + [was[i]] + was[i + 1..]
            && SortedUpTo(lt, was, i)[i] == was[i]
            && SortedUpTo(lt, was, i + 1) == Place(lt, z, was[i]) + was[i + 1..]
  {
    SortedIsSorted(lt, was[..i]);
    assert was[..i + 1][..i] == was[..i];
  }

  method SortInPlace<E(!new)>(lt: Order<E>, a: array<E>)
    requires StrictTotal(lt)
    modifies a
    ensures a[..] == Sorted(lt, old(a[..]))
  {
    ghost var was := a[..];
    var i := 0;
    while i < a.Length
      invariant 0 <= i <= a.Length
      invariant a[..] == SortedUpTo(lt, was, i)
    {
      SortedUpToStep(lt, was, i);
      assert a[..][i] == a[i];
      PlaceInArray(lt, a, i, Sorted(lt, was[..i]), was[i + 1..]);
      i := i + 1;
    }
    assert was[..i] == was && was[i..] == [];
  }
}
