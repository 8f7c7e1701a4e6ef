/**
 * Changing a cage's windows: claiming the first open window that covers a
 * stay (book_cage) and appending a new open window (add_available_date).
 */
module Reservations {
  import opened Wrappers
  import opened Data
  import opened Availability

  /** The position of the first window, in stored order, open for the stay. */
  function FirstOpen(bs: seq<Booking>, checkin: int, checkout: int): (r: Option<nat>)
    ensures r.Some? ==> r.value < |bs| && bs[r.value].OpenFor(checkin, checkout)
    ensures r.Some? ==> forall k :: 0 <= k < r.value ==> !bs[k].OpenFor(checkin, checkout)
    ensures r.None? <==> forall k :: 0 <= k < |bs| ==> !bs[k].OpenFor(checkin, checkout)
  {
    if bs == [] then None
    else if bs[0].OpenFor(checkin, checkout) then Some(0)
    else match FirstOpen(bs[1..], checkin, checkout)
      case None => None
      case Some(k) => Some(k + 1)
  }

  /**
   * The windows after a booking: the first window open for the stay claimed
   * by the guest, or None when there is none (the booking then fails).
   */
  function ClaimFirst(bs: seq<Booking>, checkin: int, checkout: int, ownerId: ObjectId, snakeId: ObjectId, now: int): (r: Option<seq<Booking>>)
    ensures r.Some? <==> exists k :: 0 <= k < |bs| && bs[k].OpenFor(checkin, checkout)
    ensures r.Some? ==> |r.value| == |bs|
    ensures r.Some? ==> forall k :: 0 <= k < |bs| && !bs[k].OpenFor(checkin, checkout) ==> r.value[k] == bs[k]
    ensures r.Some? ==> exists i ::
              && FirstOpen(bs, checkin, checkout) == Some(i)
              && r.value[i] == bs[i].Claimed(ownerId, snakeId, now)
              && forall k :: 0 <= k < |bs| && k != i ==> r.value[k] == bs[k]
    ensures r.Some? && AllClaimsConsistent(bs) ==> AllClaimsConsistent(r.value)
  {
    match FirstOpen(bs, checkin, checkout)
    case None => None
    case Some(i) => Some(bs[i := bs[i].Claimed(ownerId, snakeId, now)])
  }

  /** How book_cage ends: the window it claimed, or the failure of line 126 when none was found. */
  datatype Outcome = Booked(index: nat) | NoOpenWindow

  /**
   * Claims, for the guest's account and snake, the first window of the cage
   * that is unclaimed and covers [checkin, checkout]. `now` is the clock
   * reading stored as the booking date. Without such a window nothing changes.
   */
  method BookCage(account: Owner, snake: Snake, cage: Cage, checkin: int, checkout: int, now: int) returns (r: Outcome)
    modifies cage
    ensures r.Booked? <==> exists k :: 0 <= k < |old(cage.bookings)| && old(cage.bookings)[k].OpenFor(checkin, checkout)
    ensures r.Booked? ==> r.index < |old(cage.bookings)| && FirstOpen(old(cage.bookings), checkin, checkout) == Some(r.index)
    ensures r.Booked? ==> cage.bookings == old(cage.bookings)[r.index := old(cage.bookings)[r.index].Claimed(account.id, snake.id, now)]
    ensures r.NoOpenWindow? ==> cage.bookings == old(cage.bookings)
    ensures ClaimFirst(old(cage.bookings), checkin, checkout, account.id, snake.id, now) == if r.Booked? then Some(cage.bookings) else None
  {
    var bs := cage.bookings;
    var found: Option<nat> := None;
    var j := 0;
    while j < |bs|
      invariant 0 <= j <= |bs|
      invariant found.None?
      invariant forall k :: 0 <= k < j ==> !bs[k].OpenFor(checkin, checkout)
    {
      if bs[j].OpenFor(checkin, checkout) {
        found := Some(j);
        break;
      }
      j := j + 1;
    }
    match found
    case None =>
      r := NoOpenWindow;
    case Some(i) =>
      cage.bookings := bs[i := bs[i].Claimed(account.id, snake.id, now)];
      r := Booked(i);
  }

  /**
   * Appends to the cage an open window from startDate to startDate + days;
   * the windows already there, claimed or not, stay as they are.
   */
  method AddAvailableDate(selectedCage: Cage, startDate: int, days: int) returns (cage: Cage)
    modifies selectedCage
    ensures cage == selectedCage
    ensures cage.bookings == old(selectedCage.bookings) + [Booking(startDate, startDate + days, None, None, None)]
  {
    var booking := Booking(startDate, startDate + days, None, None, None);
    cage := selectedCage;
    cage.bookings := cage.bookings + [booking];
  }

  // ----- Lemmas -----

  /** A cage has a window open for the stay exactly when a booking for it succeeds. */
  lemma {:induction false} OpenCountPositiveIffBookable(bs: seq<Booking>, checkin: int, checkout: int)
    ensures QualifyingCount(bs, checkin, checkout) > 0 <==> FirstOpen(bs, checkin, checkout).Some?
  {
    if bs != [] {
      var init := bs[..|bs| - 1];
      OpenCountPositiveIffBookable(init, checkin, checkout);
      if FirstOpen(init, checkin, checkout).Some? {
        var i := FirstOpen(init, checkin, checkout).value;
        assert bs[i] == init[i];
      }
      if FirstOpen(bs, checkin, checkout).Some? && !bs[|bs| - 1].OpenFor(checkin, checkout) {
        var i := FirstOpen(bs, checkin, checkout).value;
        assert init[i] == bs[i];
      }
    }
  }

  /** Replacing one window changes the open count by what that window contributed. */
  lemma {:induction false} OpenCountUpdate(bs: seq<Booking>, i: nat, b: Booking, checkin: int, checkout: int)
    requires i < |bs|
    ensures QualifyingCount(bs[i := b], checkin, checkout)
         == QualifyingCount(bs, checkin, checkout)
            - (if bs[i].OpenFor(checkin, checkout) then 1 else 0)
            + (if b.OpenFor(checkin, checkout) then 1 else 0)
  {
    var n := |bs|;
    var init := bs[..n - 1];
    if i == n - 1 {
      assert bs[i := b][..n - 1] == init;
    } else {
      assert bs[i := b][..n - 1] == init[i := b];
      OpenCountUpdate(init, i, b, checkin, checkout);
    }
  }

  /** A successful booking removes exactly one window open for the stay. */
  lemma ClaimRemovesOneOpenWindow(bs: seq<Booking>, checkin: int, checkout: int, ownerId: ObjectId, snakeId: ObjectId, now: int)
    requires ClaimFirst(bs, checkin, checkout, ownerId, snakeId, now).Some?
    ensures QualifyingCount(ClaimFirst(bs, checkin, checkout, ownerId, snakeId, now).value, checkin, checkout)
         == QualifyingCount(bs, checkin, checkout) - 1
  {
    var i := FirstOpen(bs, checkin, checkout).value;
    OpenCountUpdate(bs, i, bs[i].Claimed(ownerId, snakeId, now), checkin, checkout);
  }

  /**
   * Re-validation: when the window a booking claimed was the only one open
   * for the stay, a second booking of the same stay on that cage fails.
   */
  lemma SecondBookingFails(bs: seq<Booking>, checkin: int, checkout: int,
                           ownerId: ObjectId, snakeId: ObjectId, now: int,
                           ownerId2: ObjectId, snakeId2: ObjectId, now2: int)
    requires QualifyingCount(bs, checkin, checkout) == 1
    requires ClaimFirst(bs, checkin, checkout, ownerId, snakeId, now).Some?
    ensures ClaimFirst(ClaimFirst(bs, checkin, checkout, ownerId, snakeId, now).value, checkin, checkout, ownerId2, snakeId2, now2).None?
  {
    var after := ClaimFirst(bs, checkin, checkout, ownerId, snakeId, now).value;
    ClaimRemovesOneOpenWindow(bs, checkin, checkout, ownerId, snakeId, now);
    OpenCountPositiveIffBookable(after, checkin, checkout);
  }

  /** A cage has at most as many successful bookings of a stay as it has windows open for it. */
  lemma {:induction false} BookingsBoundedByOpenWindows(bs: seq<Booking>, checkin: int, checkout: int,
                                                      guests: seq<(ObjectId, ObjectId, int)>)
    requires |guests| > QualifyingCount(bs, checkin, checkout)
    ensures ClaimAll(bs, checkin, checkout, guests).None?
    decreases |guests|
  {
    var (o, s, t) := guests[0];
    var first := ClaimFirst(bs, checkin, checkout, o, s, t);
    OpenCountPositiveIffBookable(bs, checkin, checkout);
    if first.Some? {
      ClaimRemovesOneOpenWindow(bs, checkin, checkout, o, s, t);
      BookingsBoundedByOpenWindows(first.value, checkin, checkout, guests[1..]);
    }
  }

  /** Books the same stay on one cage for each guest in turn; None once a booking fails. */
  function ClaimAll(bs: seq<Booking>, checkin: int, checkout: int, guests: seq<(ObjectId, ObjectId, int)>): Option<seq<Booking>>
    decreases |guests|
  {
    if guests == [] then Some(bs)
    else
      var (o, s, t) := guests[0];
      match ClaimFirst(bs, checkin, checkout, o, s, t)
      case None => None
      case Some(after) => ClaimAll(after, checkin, checkout, guests[1..])
  }

  /** Every cage the search lists for a stay can be booked for that stay. */
  lemma ListedCageIsBookable(cages: seq<Cage>, checkin: int, checkout: int, snake: Snake, c: Cage,
                             ownerId: ObjectId, snakeId: ObjectId, now: int)
    requires c in SearchResult(cages, checkin, checkout, snake)
    ensures ClaimFirst(c.bookings, checkin, checkout, ownerId, snakeId, now).Some?
  {
    SearchResultMember(cages, checkin, checkout, snake, c);
    OpenCountPositiveIffBookable(c.bookings, checkin, checkout);
  }

  /** Adding a window never takes a booking away from the windows already there. */
  lemma {:induction false} AppendKeepsFirstOpen(bs: seq<Booking>, w: Booking, checkin: int, checkout: int)
    ensures FirstOpen(bs + [w], checkin, checkout)
         == if FirstOpen(bs, checkin, checkout).Some? then FirstOpen(bs, checkin, checkout)
            else if w.OpenFor(checkin, checkout) then Some(|bs|) else None
  {
    if bs != [] {
      assert (bs + [w])[1..] == bs[1..] + [w];
      AppendKeepsFirstOpen(bs[1..], w, checkin, checkout);
    }
  }
}
