/**
 * Searching for cages a snake can stay in over [checkin, checkout]
 * (get_available_cages): the database query, its ordering, and the loop
 * that emits a cage once per open window covering the stay.
 */
module Availability {
  import opened Wrappers
  import opened Data

  // ----- The query -----

  /** The cage has at least a quarter of the snake's length in square metres. */
  predicate SizeFits(c: Cage, snake: Snake) {
    c.squareMeters >= snake.length / 4.0
  }

  /** A venomous snake only goes into a cage that allows dangerous snakes. */
  predicate PolicyFits(c: Cage, snake: Snake) {
    snake.isVenomous ==> c.allowDangerousSnakes
  }

  predicate Eligible(c: Cage, snake: Snake) {
    SizeFits(c, snake) && PolicyFits(c, snake)
  }

  /**
   * The two date conditions of the database query. A list field matches a
   * condition when SOME element meets it, so the two may be met by
   * different bookings.
   */
  predicate DatePreFilter(bs: seq<Booking>, checkin: int): (r: bool)
    ensures r ==> |bs| > 0
    ensures (exists k :: 0 <= k < |bs| && bs[k].checkInDate <= checkin <= bs[k].checkOutDate) ==> r
  {
    (exists k :: 0 <= k < |bs| && bs[k].checkInDate <= checkin) &&
    (exists k :: 0 <= k < |bs| && bs[k].checkOutDate >= checkin)
  }

  /** A cage the database query returns. */
  predicate Selected(c: Cage, checkin: int, snake: Snake): (r: bool)
    reads c
    ensures r ==> SizeFits(c, snake) && PolicyFits(c, snake) && |c.bookings| > 0
    ensures Eligible(c, snake) && (exists k :: 0 <= k < |c.bookings| && c.bookings[k].checkInDate <= checkin <= c.bookings[k].checkOutDate) ==> r
  {
    Eligible(c, snake) && DatePreFilter(c.bookings, checkin)
  }

  /** The cages the query keeps, in store order. */
  function Query(cages: seq<Cage>, checkin: int, snake: Snake): (r: seq<Cage>)
    reads set c | c in cages
    ensures forall x :: x in r ==> x in cages
    ensures multiset(r) <= multiset(cages)
    ensures forall x :: x in cages ==> multiset(r)[x] == if Selected(x, checkin, snake) then multiset(cages)[x] else 0
  {
    if cages == [] then []
    else
      var init, last := cages[..|cages| - 1], cages[|cages| - 1];
      assert cages == init + [last];
      Query(init, checkin, snake) + (if Selected(last, checkin, snake) then [last] else [])
  }

  // ----- The ordering: price ascending, then square metres descending -----

  predicate RankLe(a: Cage, b: Cage) {
    a.price < b.price || (a.price == b.price && a.squareMeters >= b.squareMeters)
  }

  predicate SortedByRank(s: seq<Cage>) {
    forall i, j :: 0 <= i < j < |s| ==> RankLe(s[i], s[j])
  }

  function Insert(c: Cage, s: seq<Cage>): (r: seq<Cage>)
    requires SortedByRank(s)
    ensures forall x :: x in r ==> x == c || x in s
    ensures multiset(r) == multiset(s) + multiset{c}
    ensures SortedByRank(r)
  {
    if s == [] then [c]
    else if RankLe(c, s[0]) then [c] + s
    else
      var rest := Insert(c, s[1..]);
      assert s == [s[0]] + s[1..];
      assert forall x :: x in rest ==> x in multiset(rest);
      assert forall k :: 1 <= k < |s| ==> RankLe(s[0], s[k]);
      SortedCons(s[0], rest);
      [s[0]] + rest
  }

  /** The ordering the database applies; cages of equal rank may come in any order. */
  function OrderByPriceThenSize(cs: seq<Cage>): (r: seq<Cage>)
    ensures forall x :: x in r ==> x in cs
    ensures multiset(r) == multiset(cs)
    ensures SortedByRank(r)
  {
    if cs == [] then []
    else
      assert cs == [cs[0]] + cs[1..];
      Insert(cs[0], OrderByPriceThenSize(cs[1..]))
  }

  // ----- The emitting loop -----

  /** How many windows of a list are open for the stay. */
  function QualifyingCount(bs: seq<Booking>, checkin: int, checkout: int): nat {
    if bs == [] then 0
    else QualifyingCount(bs[..|bs| - 1], checkin, checkout) + (if bs[|bs| - 1].OpenFor(checkin, checkout) then 1 else 0)
  }

  function Copies(c: Cage, n: nat): seq<Cage> {
    if n == 0 then [] else Copies(c, n - 1) + [c]
  }

  /** Each cage of cs, in order, repeated once per window open for the stay. */
  function Matches(cs: seq<Cage>, checkin: int, checkout: int): (r: seq<Cage>)
    reads set c | c in cs
    ensures forall k :: 0 <= k < |r| ==> r[k] in cs && QualifyingCount(r[k].bookings, checkin, checkout) > 0
  {
    if cs == [] then []
    else
      var last := cs[|cs| - 1];
      CopiesAll(last, QualifyingCount(last.bookings, checkin, checkout));
      Matches(cs[..|cs| - 1], checkin, checkout) + Copies(last, QualifyingCount(last.bookings, checkin, checkout))
  }

  /** The nested loop of the search: each cage, in order, once per window open for the stay. */
  method EmitPerOpenWindow(sorted: seq<Cage>, checkin: int, checkout: int) returns (finalCages: seq<Cage>)
    ensures finalCages == Matches(sorted, checkin, checkout)
  {
    finalCages := [];
    var i := 0;
    while i < |sorted|
      invariant 0 <= i <= |sorted|
      invariant finalCages == Matches(sorted[..i], checkin, checkout)
    {
      var c := sorted[i];
      var bs := c.bookings;
      ghost var before := finalCages;
      var j := 0;
      while j < |bs|
        invariant 0 <= j <= |bs|
        invariant finalCages == before + Copies(c, QualifyingCount(bs[..j], checkin, checkout))
      {
        ghost var n := QualifyingCount(bs[..j], checkin, checkout);
        QualifyingCountPrefix(bs, j, checkin, checkout);
        if bs[j].OpenFor(checkin, checkout) {
          CopiesSnoc(before, c, n);
          finalCages := finalCages + [c];
        }
        j := j + 1;
      }
      assert bs[..j] == bs;
      MatchesPrefix(sorted, i, checkin, checkout);
      i := i + 1;
    }
    assert sorted[..i] == sorted;
  }

  method GetAvailableCages(cages: seq<Cage>, checkin: int, checkout: int, snake: Snake) returns (finalCages: seq<Cage>)
    ensures finalCages == SearchResult(cages, checkin, checkout, snake)
    ensures forall c :: c in finalCages ==> c in cages && Eligible(c, snake) && QualifyingCount(c.bookings, checkin, checkout) > 0
    ensures SortedByRank(finalCages)
    ensures forall x :: x in cages ==>
      multiset(finalCages)[x] == (if Selected(x, checkin, snake) then multiset(cages)[x] else 0) * QualifyingCount(x.bookings, checkin, checkout)
    ensures checkin <= checkout ==> forall x :: x in cages ==>
      multiset(finalCages)[x] == if Eligible(x, snake) then multiset(cages)[x] * QualifyingCount(x.bookings, checkin, checkout) else 0
  {
    var sorted := OrderByPriceThenSize(Query(cages, checkin, snake));
    finalCages := EmitPerOpenWindow(sorted, checkin, checkout);
    SearchResultSorted(cages, checkin, checkout, snake);
    forall c | c in finalCages
      ensures c in cages && Eligible(c, snake) && QualifyingCount(c.bookings, checkin, checkout) > 0
    {
      SearchResultMember(cages, checkin, checkout, snake, c);
    }
    forall x | x in cages
      ensures multiset(finalCages)[x] == (if Selected(x, checkin, snake) then multiset(cages)[x] else 0) * QualifyingCount(x.bookings, checkin, checkout)
    {
      SearchResultCount(cages, checkin, checkout, snake, x);
    }
    if checkin <= checkout {
      forall x | x in cages
        ensures multiset(finalCages)[x] == if Eligible(x, snake) then multiset(cages)[x] * QualifyingCount(x.bookings, checkin, checkout) else 0
      {
        SearchResultCountOrdered(cages, checkin, checkout, snake, x);
      }
    }
  }

  // ----- Lemmas -----

  /** The result of the search, with the query, ordering and emitting loop composed. */
  function SearchResult(cages: seq<Cage>, checkin: int, checkout: int, snake: Snake): seq<Cage>
    reads set c | c in cages
  {
    Matches(OrderByPriceThenSize(Query(cages, checkin, snake)), checkin, checkout)
  }

  /** The result is ordered by price ascending, then square metres descending. */
  lemma SearchResultSorted(cages: seq<Cage>, checkin: int, checkout: int, snake: Snake)
    ensures SortedByRank(SearchResult(cages, checkin, checkout, snake))
  {
    MatchesSorted(OrderByPriceThenSize(Query(cages, checkin, snake)), checkin, checkout);
  }

  /** A cage is emitted once per open window covering the stay, if the query selects it. */
  lemma SearchResultCount(cages: seq<Cage>, checkin: int, checkout: int, snake: Snake, x: Cage)
    requires x in cages
    ensures multiset(SearchResult(cages, checkin, checkout, snake))[x]
         == (if Selected(x, checkin, snake) then multiset(cages)[x] else 0) * QualifyingCount(x.bookings, checkin, checkout)
  {
    MatchesCount(OrderByPriceThenSize(Query(cages, checkin, snake)), checkin, checkout, x);
  }

  /** For a stay with checkin <= checkout the date conditions of the query change nothing. */
  lemma SearchResultCountOrdered(cages: seq<Cage>, checkin: int, checkout: int, snake: Snake, x: Cage)
    requires x in cages && checkin <= checkout
    ensures multiset(SearchResult(cages, checkin, checkout, snake))[x]
         == if Eligible(x, snake) then multiset(cages)[x] * QualifyingCount(x.bookings, checkin, checkout) else 0
  {
    SearchResultCount(cages, checkin, checkout, snake, x);
    if Eligible(x, snake) && QualifyingCount(x.bookings, checkin, checkout) > 0 {
      PreFilterRedundant(x.bookings, checkin, checkout);
    }
  }

  /** Every emitted cage is a stored, eligible cage with a window open for the stay. */
  lemma SearchResultMember(cages: seq<Cage>, checkin: int, checkout: int, snake: Snake, c: Cage)
    requires c in SearchResult(cages, checkin, checkout, snake)
    ensures c in cages && Eligible(c, snake) && QualifyingCount(c.bookings, checkin, checkout) > 0
  {
    var query := Query(cages, checkin, snake);
    var sorted := OrderByPriceThenSize(query);
    MatchesCount(sorted, checkin, checkout, c);
    var ms: multiset<Cage> := multiset(sorted);
    ProductPositive(ms[c], QualifyingCount(c.bookings, checkin, checkout));
    assert c in multiset(query);
    assert c in multiset(cages);
  }

  lemma MatchesPrefix(cs: seq<Cage>, i: nat, checkin: int, checkout: int)
    requires i < |cs|
    ensures Matches(cs[..i + 1], checkin, checkout)
         == Matches(cs[..i], checkin, checkout) + Copies(cs[i], QualifyingCount(cs[i].bookings, checkin, checkout))
  {
    assert cs[..i + 1][..i] == cs[..i];
  }

  lemma CopiesSnoc(prefix: seq<Cage>, c: Cage, n: nat)
    ensures (prefix + Copies(c, n)) + [c] == prefix + Copies(c, n + 1)
  {
  }

  lemma QualifyingCountPrefix(bs: seq<Booking>, j: nat, checkin: int, checkout: int)
    requires j < |bs|
    ensures QualifyingCount(bs[..j + 1], checkin, checkout)
         == QualifyingCount(bs[..j], checkin, checkout) + if bs[j].OpenFor(checkin, checkout) then 1 else 0
  {
    assert bs[..j + 1][..j] == bs[..j];
  }

  lemma ProductPositive(a: nat, b: nat)
    requires a * b > 0
    ensures a > 0 && b > 0
  {
  }

  lemma {:induction false} CopiesCount(c: Cage, n: nat, x: Cage)
    ensures multiset(Copies(c, n))[x] == if x == c then n else 0
  {
    if n > 0 {
      CopiesCount(c, n - 1, x);
    }
  }

  /** A cage occurs in the emitted list once per occurrence in cs and open window. */
  lemma {:induction false} MatchesCount(cs: seq<Cage>, checkin: int, checkout: int, x: Cage)
    ensures multiset(Matches(cs, checkin, checkout))[x] == multiset(cs)[x] * QualifyingCount(x.bookings, checkin, checkout)
  {
    if cs != [] {
      var init, last := cs[..|cs| - 1], cs[|cs| - 1];
      var q := QualifyingCount(x.bookings, checkin, checkout);
      var copies := Copies(last, QualifyingCount(last.bookings, checkin, checkout));
      assert cs == init + [last];
      assert Matches(cs, checkin, checkout) == Matches(init, checkin, checkout) + copies;
      MatchesCount(init, checkin, checkout, x);
      CopiesCount(last, QualifyingCount(last.bookings, checkin, checkout), x);
      var mi: multiset<Cage> := multiset(init);
      var m := mi[x];
      if x == last {
        assert multiset(cs)[x] == m + 1;
        assert (m + 1) * q == m * q + q;
      } else {
        assert multiset(cs)[x] == m;
      }
    }
  }

  lemma {:induction false} CopiesAll(c: Cage, n: nat)
    ensures |Copies(c, n)| == n && forall i :: 0 <= i < n ==> Copies(c, n)[i] == c
  {
    if n > 0 {
      CopiesAll(c, n - 1);
    }
  }

  lemma SortedCons(h: Cage, t: seq<Cage>)
    requires SortedByRank(t)
    requires forall x :: x in t ==> RankLe(h, x)
    ensures SortedByRank([h] + t)
  {
    forall i, j | 0 <= i < j < |[h] + t| ensures RankLe(([h] + t)[i], ([h] + t)[j]) {
      assert ([h] + t)[j] == t[j - 1];
      if i > 0 {
        assert ([h] + t)[i] == t[i - 1];
      }
    }
  }

  lemma SortedConcat(a: seq<Cage>, b: seq<Cage>)
    requires SortedByRank(a) && SortedByRank(b)
    requires forall x, y :: x in a && y in b ==> RankLe(x, y)
    ensures SortedByRank(a + b)
  {
    forall i, j | 0 <= i < j < |a + b| ensures RankLe((a + b)[i], (a + b)[j]) {
      if j < |a| {
      } else if i >= |a| {
        assert (a + b)[i] == b[i - |a|] && (a + b)[j] == b[j - |a|];
      } else {
        assert (a + b)[i] in a && (a + b)[j] in b;
      }
    }
  }

  /** Emitting preserves the order of the cages. */
  lemma {:induction false} MatchesSorted(cs: seq<Cage>, checkin: int, checkout: int)
    requires SortedByRank(cs)
    ensures SortedByRank(Matches(cs, checkin, checkout))
  {
    if cs != [] {
      var init, last := cs[..|cs| - 1], cs[|cs| - 1];
      var n := QualifyingCount(last.bookings, checkin, checkout);
      MatchesSorted(init, checkin, checkout);
      CopiesAll(last, n);
      forall x, y | x in Matches(init, checkin, checkout) && y in Copies(last, n) ensures RankLe(x, y) {
        MatchesCount(init, checkin, checkout, x);
        assert x in init;
      }
      SortedConcat(Matches(init, checkin, checkout), Copies(last, n));
    }
  }

  /** The two date conditions may be met by different windows, neither of which spans the check-in day. */
  lemma DatePreFilterAnyElement()
    ensures var bs := [Booking(0, 1, None, None, None), Booking(5, 10, None, None, None)];
      && DatePreFilter(bs, 3)
      && forall k :: 0 <= k < |bs| ==> !(bs[k].checkInDate <= 3 <= bs[k].checkOutDate)
  {
    var bs := [Booking(0, 1, None, None, None), Booking(5, 10, None, None, None)];
    assert bs[0].checkInDate <= 3;
    assert bs[1].checkOutDate >= 3;
  }

  /** A window open for a well-ordered stay also meets both date conditions of the query. */
  lemma {:induction false} PreFilterRedundant(bs: seq<Booking>, checkin: int, checkout: int)
    requires checkin <= checkout
    requires QualifyingCount(bs, checkin, checkout) > 0
    ensures DatePreFilter(bs, checkin)
  {
    var init := bs[..|bs| - 1];
    if bs[|bs| - 1].OpenFor(checkin, checkout) {
      assert bs[|bs| - 1].checkInDate <= checkin;
    } else {
      PreFilterRedundant(init, checkin, checkout);
      var k :| 0 <= k < |init| && init[k].checkInDate <= checkin;
      assert bs[k] == init[k];
      var m :| 0 <= m < |init| && init[m].checkOutDate >= checkin;
      assert bs[m] == init[m];
    }
  }
}
