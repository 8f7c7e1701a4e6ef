/**
 * The bookings a guest account holds (get_bookings_for_user): every window
 * whose guest owner is the account, each paired with the cage it belongs to.
 */
module History {
  import opened Wrappers
  import opened Data
  import opened Reservations

  /** A booking tagged with the cage it came from. */
  datatype CageBooking = CageBooking(cage: Cage, booking: Booking)

  /** The windows of a list held by the account, in stored order. */
  function OwnedBy(bs: seq<Booking>, accountId: ObjectId): (r: seq<Booking>)
    ensures forall b :: b in r <==> b in bs && b.guestOwnerId == Some(accountId)
    ensures |r| <= |bs|
  {
    if bs == [] then []
    else (if bs[0].guestOwnerId == Some(accountId) then [bs[0]] else []) + OwnedBy(bs[1..], accountId)
  }

  function Tagged(c: Cage, bs: seq<Booking>): (r: seq<CageBooking>)
    ensures |r| == |bs| && forall k :: 0 <= k < |bs| ==> r[k] == CageBooking(c, bs[k])
  {
    if bs == [] then [] else [CageBooking(c, bs[0])] + Tagged(c, bs[1..])
  }

  /** The comprehension: cage by cage, then booking by booking. */
  function Collect(cages: seq<Cage>, accountId: ObjectId): (r: seq<CageBooking>)
    reads set c | c in cages
    ensures forall k :: 0 <= k < |r| ==> r[k].cage in cages && r[k].booking.guestOwnerId == Some(accountId)
  {
    if cages == [] then []
    else Tagged(cages[0], OwnedBy(cages[0].bookings, accountId)) + Collect(cages[1..], accountId)
  }

  /** Some window of the cage is held by the account. */
  predicate HoldsWindow(c: Cage, accountId: ObjectId)
    reads c
  {
    exists k :: 0 <= k < |c.bookings| && c.bookings[k].guestOwnerId == Some(accountId)
  }

  /** The cages the database query returns: those with some window held by the account. */
  function BookedCages(cages: seq<Cage>, accountId: ObjectId): (r: seq<Cage>)
    reads set c | c in cages
    ensures forall k :: 0 <= k < |r| ==> r[k] in cages && HoldsWindow(r[k], accountId)
    ensures forall c :: c in cages && HoldsWindow(c, accountId) ==> c in r
    ensures forall c :: c in cages ==> multiset(r)[c] == if HoldsWindow(c, accountId) then multiset(cages)[c] else 0
  {
    if cages == [] then []
    else
      var first := cages[0];
      assert cages == [first] + cages[1..];
      (if HoldsWindow(first, accountId) then [first] else []) + BookedCages(cages[1..], accountId)
  }

  function GetBookingsForUser(cages: seq<Cage>, accountId: ObjectId): (r: seq<CageBooking>)
    reads set c | c in cages
    ensures forall k :: 0 <= k < |r| ==> r[k].cage in cages && r[k].booking in r[k].cage.bookings && r[k].booking.guestOwnerId == Some(accountId)
    ensures forall c, b :: c in cages && b in c.bookings && b.guestOwnerId == Some(accountId) ==> CageBooking(c, b) in r
    ensures r == Collect(cages, accountId)
  {
    QueryIsRedundant(cages, accountId);
    CollectMembers(cages, accountId);
    Collect(BookedCages(cages, accountId), accountId)
  }

  // ----- Lemmas -----

  /** An entry is in the collected list exactly when it is a held window of one of the cages. */
  lemma {:induction false} CollectMembers(cages: seq<Cage>, accountId: ObjectId)
    ensures var r := Collect(cages, accountId);
      forall k :: 0 <= k < |r| ==> r[k].cage in cages && r[k].booking in r[k].cage.bookings && r[k].booking.guestOwnerId == Some(accountId)
    ensures forall c, b :: c in cages && b in c.bookings && b.guestOwnerId == Some(accountId) ==> CageBooking(c, b) in Collect(cages, accountId)
  {
    if cages != [] {
      var first, rest := cages[0], cages[1..];
      CollectMembers(rest, accountId);
      var owned := OwnedBy(first.bookings, accountId);
      var head := Tagged(first, owned);
      var r := Collect(cages, accountId);
      assert r == head + Collect(rest, accountId);
      forall k | 0 <= k < |r|
        ensures r[k].cage in cages && r[k].booking in r[k].cage.bookings && r[k].booking.guestOwnerId == Some(accountId)
      {
        if k < |head| {
          assert r[k] == CageBooking(first, owned[k]);
          assert owned[k] in owned;
        } else {
          assert r[k] == Collect(rest, accountId)[k - |head|];
        }
      }
      forall c, b | c in cages && b in c.bookings && b.guestOwnerId == Some(accountId)
        ensures CageBooking(c, b) in r
      {
        if c == first {
          var k :| 0 <= k < |owned| && owned[k] == b;
          assert r[k] == CageBooking(c, b);
        } else {
          assert c in rest;
          var m :| 0 <= m < |Collect(rest, accountId)| && Collect(rest, accountId)[m] == CageBooking(c, b);
          assert r[|head| + m] == CageBooking(c, b);
        }
      }
    }
  }

  /** Collecting over joined cage lists joins the results, so the cages' order is kept. */
  lemma {:induction false} CollectAppend(a: seq<Cage>, b: seq<Cage>, accountId: ObjectId)
    ensures Collect(a + b, accountId) == Collect(a, accountId) + Collect(b, accountId)
  {
    if a == [] {
      assert a + b == b;
    } else {
      assert (a + b)[1..] == a[1..] + b;
      CollectAppend(a[1..], b, accountId);
    }
  }

  /** The database filter on guest owner leaves the comprehension's result unchanged. */
  lemma {:induction false} QueryIsRedundant(cages: seq<Cage>, accountId: ObjectId)
    ensures Collect(BookedCages(cages, accountId), accountId) == Collect(cages, accountId)
  {
    if cages != [] {
      var first, rest := cages[0], cages[1..];
      QueryIsRedundant(rest, accountId);
      if HoldsWindow(first, accountId) {
        CollectAppend([first], BookedCages(rest, accountId), accountId);
        assert [first][1..] == [];
      } else {
        assert BookedCages(cages, accountId) == BookedCages(rest, accountId);
      }
    }
  }

  /** Each held window is kept as often as it is stored; every other window is dropped. */
  lemma {:induction false} OwnedByCount(bs: seq<Booking>, accountId: ObjectId, b: Booking)
    ensures multiset(OwnedBy(bs, accountId))[b] == if b.guestOwnerId == Some(accountId) then multiset(bs)[b] else 0
  {
    if bs != [] {
      assert bs == [bs[0]] + bs[1..];
      OwnedByCount(bs[1..], accountId, b);
    }
  }

  /** Filtering joined window lists joins the results, so the stored order is kept. */
  lemma {:induction false} OwnedByAppend(a: seq<Booking>, b: seq<Booking>, accountId: ObjectId)
    ensures OwnedBy(a + b, accountId) == OwnedBy(a, accountId) + OwnedBy(b, accountId)
  {
    if a == [] {
      assert a + b == b;
    } else {
      assert (a + b)[1..] == a[1..] + b;
      OwnedByAppend(a[1..], b, accountId);
    }
  }

  /**
   * When every window keeps its claim fields together, a successful booking
   * puts the claimed window into the guest's own bookings in that cage, at
   * the claimed window's position, and keeps the entries already there.
   */
  lemma ClaimAddsToOwnHistory(bs: seq<Booking>, checkin: int, checkout: int, ownerId: ObjectId, snakeId: ObjectId, now: int)
    requires AllClaimsConsistent(bs)
    requires ClaimFirst(bs, checkin, checkout, ownerId, snakeId, now).Some?
    ensures var i := FirstOpen(bs, checkin, checkout).value;
      && OwnedBy(bs, ownerId) == OwnedBy(bs[..i], ownerId) + OwnedBy(bs[i + 1..], ownerId)
      && OwnedBy(ClaimFirst(bs, checkin, checkout, ownerId, snakeId, now).value, ownerId)
         == OwnedBy(bs[..i], ownerId) + [bs[i].Claimed(ownerId, snakeId, now)] + OwnedBy(bs[i + 1..], ownerId)
    ensures |OwnedBy(ClaimFirst(bs, checkin, checkout, ownerId, snakeId, now).value, ownerId)| == |OwnedBy(bs, ownerId)| + 1
  {
    var i := FirstOpen(bs, checkin, checkout).value;
    var w := bs[i].Claimed(ownerId, snakeId, now);
    assert ClaimFirst(bs, checkin, checkout, ownerId, snakeId, now).value == bs[i := w];
    assert bs[i].ClaimConsistent();
    ClaimOneWindow(bs, i, w, ownerId);
    var pre, post := OwnedBy(bs[..i], ownerId), OwnedBy(bs[i + 1..], ownerId);
    assert |OwnedBy(bs[i := w], ownerId)| == |pre| + 1 + |post|;
    assert |OwnedBy(bs, ownerId)| == |pre| + |post|;
  }

  /** Replacing a window nobody holds by one the account holds puts it between the held windows around it. */
  lemma ClaimOneWindow(bs: seq<Booking>, i: nat, w: Booking, accountId: ObjectId)
    requires i < |bs| && bs[i].guestOwnerId.None? && w.guestOwnerId == Some(accountId)
    ensures OwnedBy(bs, accountId) == OwnedBy(bs[..i], accountId) + OwnedBy(bs[i + 1..], accountId)
    ensures OwnedBy(bs[i := w], accountId) == OwnedBy(bs[..i], accountId) + [w] + OwnedBy(bs[i + 1..], accountId)
  {
    OwnedByAround(bs, i, accountId);
    var after := bs[i := w];
    OwnedByAround(after, i, accountId);
    assert after[..i] == bs[..i] && after[i + 1..] == bs[i + 1..];
  }

  /** Filtering a list around one of its windows: the entries before it, that window if held, the entries after. */
  lemma OwnedByAround(bs: seq<Booking>, i: nat, accountId: ObjectId)
    requires i < |bs|
    ensures OwnedBy(bs, accountId)
         == OwnedBy(bs[..i], accountId) + (if bs[i].guestOwnerId == Some(accountId) then [bs[i]] else []) + OwnedBy(bs[i + 1..], accountId)
  {
    assert bs == bs[..i] + ([bs[i]] + bs[i + 1..]);
    OwnedByAppend(bs[..i], [bs[i]] + bs[i + 1..], accountId);
    OwnedByAppend([bs[i]], bs[i + 1..], accountId);
    assert [bs[i]][1..] == [];
  }

  lemma {:induction false} OwnedCountUpdate(bs: seq<Booking>, i: nat, b: Booking, accountId: ObjectId)
    requires i < |bs|
    ensures |OwnedBy(bs[i := b], accountId)|
         == |OwnedBy(bs, accountId)|
            - (if bs[i].guestOwnerId == Some(accountId) then 1 else 0)
            + (if b.guestOwnerId == Some(accountId) then 1 else 0)
  {
    if i == 0 {
      assert bs[i := b][1..] == bs[1..];
    } else {
      assert bs[i := b][1..] == bs[1..][i - 1 := b];
      OwnedCountUpdate(bs[1..], i - 1, b, accountId);
    }
  }

  /** A newly added window is unclaimed, so the guest's bookings in that cage stay the same. */
  lemma {:induction false} NewWindowNotInHistory(bs: seq<Booking>, startDate: int, days: int, accountId: ObjectId)
    ensures OwnedBy(bs + [Booking(startDate, startDate + days, None, None, None)], accountId) == OwnedBy(bs, accountId)
  {
    var w := Booking(startDate, startDate + days, None, None, None);
    if bs != [] {
      assert (bs + [w])[1..] == bs[1..] + [w];
      NewWindowNotInHistory(bs[1..], startDate, days, accountId);
    }
  }
}
