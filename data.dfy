/**
 * The documents the booking services work on: snakes, cages with their
 * booking windows, and owner accounts. Dates are whole day numbers;
 * lengths, areas and prices are exact reals.
 */
module Data {
  import opened Wrappers

  /** A database identifier (a Mongo ObjectId, kept abstract as a number). */
  type ObjectId = nat

  /** A snake registered by its owner; never changed after creation. */
  datatype Snake = Snake(id: ObjectId, name: string, length: real, species: string, isVenomous: bool)

  /**
   * One availability window of a cage. It is open while no guest snake is
   * recorded; a claim sets guest owner, guest snake and booking date.
   */
  datatype Booking = Booking(
    checkInDate: int,
    checkOutDate: int,
    guestOwnerId: Option<ObjectId>,
    guestSnakeId: Option<ObjectId>,
    bookedDate: Option<int>)
  {
    /** The test shared by the search and the booking loop: unclaimed and covering [checkin, checkout], bounds inclusive. */
    predicate OpenFor(checkin: int, checkout: int) {
      checkInDate <= checkin && checkOutDate >= checkout && guestSnakeId.None?
    }

    /** The three claim fields are either all set or all absent. */
    predicate ClaimConsistent() {
      (guestOwnerId.Some? <==> guestSnakeId.Some?) && (guestSnakeId.Some? <==> bookedDate.Some?)
    }

    /** This window claimed by a guest (the three assignments of a booking). */
    function Claimed(ownerId: ObjectId, snakeId: ObjectId, at: int): (b: Booking)
      ensures b.checkInDate == checkInDate && b.checkOutDate == checkOutDate
      ensures b.guestOwnerId == Some(ownerId) && b.guestSnakeId == Some(snakeId) && b.bookedDate == Some(at)
      ensures b.ClaimConsistent() && forall ci, co :: !b.OpenFor(ci, co)
    {
      this.(guestOwnerId := Some(ownerId), guestSnakeId := Some(snakeId), bookedDate := Some(at))
    }
  }

  /** Every window of a list keeps its claim fields together. */
  predicate AllClaimsConsistent(bs: seq<Booking>) {
    forall k :: 0 <= k < |bs| ==> bs[k].ClaimConsistent()
  }

  /** A cage document. Only its list of bookings changes after registration. */
  class Cage {
    const id: ObjectId
    const name: string
    const squareMeters: real
    const isCarpeted: bool
    const hasToys: bool
    const allowDangerousSnakes: bool
    const price: real
    var bookings: seq<Booking>

    constructor (id: ObjectId, name: string, allowDangerous: bool, hasToys: bool, carpeted: bool, meters: real, price: real)
      ensures this.id == id && this.name == name && allowDangerousSnakes == allowDangerous
      ensures this.hasToys == hasToys && isCarpeted == carpeted && squareMeters == meters && this.price == price
      ensures bookings == []
    {
      this.id := id;
      this.name := name;
      this.allowDangerousSnakes := allowDangerous;
      this.hasToys := hasToys;
      this.isCarpeted := carpeted;
      this.squareMeters := meters;
      this.price := price;
      bookings := [];
    }
  }

  /** An account: the ids of the cages and snakes it registered only ever grow. */
  class Owner {
    const id: ObjectId
    const name: string
    const email: string
    var cageIds: seq<ObjectId>
    var snakeIds: seq<ObjectId>

    constructor (id: ObjectId, name: string, email: string)
      ensures this.id == id && this.name == name && this.email == email
      ensures cageIds == [] && snakeIds == []
    {
      this.id := id;
      this.name := name;
      this.email := email;
      cageIds := [];
      snakeIds := [];
    }
  }
}
