/**
 * A client of the services, using only their contracts: one cage with one
 * open window, a booking, and a second booking of the same stay that finds
 * the window gone.
 */
module Scenarios {
  import opened Wrappers
  import opened Data
  import opened Reservations
  import opened History

  /** A cage of 20 square metres, not for dangerous snakes, open from day 1 to day 10. */
  method NewCageWithOneWindow() returns (cage: Cage)
    ensures fresh(cage) && cage.squareMeters == 20.0 && !cage.allowDangerousSnakes
    ensures cage.bookings == [Booking(1, 10, None, None, None)]
  {
    cage := new Cage(7, "Sunny", false, true, true, 20.0, 30.0);
    var _ := AddAvailableDate(cage, 1, 9);
  }

  /** A harmless python is booked into the only window; the same stay cannot be booked again. */
  method BookOneWindowTwice(guest: Owner)
  {
    var cage := NewCageWithOneWindow();
    var python := Snake(3, "Monty", 40.0, "python", false);

    var first := BookCage(guest, python, cage, 2, 5, 100);
    assert first == Booked(0);
    var second := BookCage(guest, python, cage, 2, 5, 101);
    assert second == NoOpenWindow;

    var held := GetBookingsForUser([cage], guest.id);
    assert CageBooking(cage, cage.bookings[0]) in held by {
      assert cage.bookings[0] in cage.bookings;
    }
  }
}
