# Snake BnB: cage search and booking, modelled in Dafny

Snake BnB lets cage owners advertise cages with open date windows and lets
snake owners find and book a cage. This project models the service layer's
core in `snake_bnb/services/data_services.py`:

- **search** (`get_available_cages`): keep the cages big enough for the snake
  (square metres at least a quarter of its length), keep only cages that allow
  dangerous snakes when the snake is venomous, order by price ascending and size
  descending, then emit a cage once for every unclaimed window that covers the
  requested stay, both bounds inclusive;
- **booking** (`book_cage`): claim, for the guest's account and snake, the first
  window of the cage in stored order that is unclaimed and covers the stay.
  Claiming sets guest owner, guest snake and booking date together. When no
  window qualifies, the code fails at the first assignment;
- **adding availability** (`add_available_date`): append an unclaimed window
  from a start day to start + days;
- **booking history** (`get_bookings_for_user`): every window whose guest owner
  is the account, paired with its cage, in cage-then-window order;
- the id-list appends of `register_cage` and `add_snake`.

Cages and owner accounts are classes, because the code updates their fields
in place (`Cage.bookings`, `Owner.cage_ids`, `Owner.snake_ids`). Snakes and
booking windows are datatypes. The database becomes an explicit
`seq<Cage>` in store order. Dates are whole day numbers. Lengths, areas and
prices are exact reals. The clock (`datetime.now()`) and the identifiers the
database assigns on save are parameters.

Files: `wrappers.dfy` (Option), `data.dfy` (documents), `availability.dfy`
(search), `reservations.dfy` (booking and adding windows), `history.dfy`
(booking history), `registration.dfy` (cage and snake registration),
`scenarios.dfy` (a client that books a one-window cage twice, using only the
contracts).

Where the system's design description and the code disagree, the model
follows the code:

- The design rejects `checkin >= checkout` as an invalid range. The code does
  not check the range, so the model takes any pair of days.
- The design has search return (cage, window) pairs. The code returns the cage
  object once per qualifying window, and so does the model.
- The design asks for an atomic claim that makes a racing booking fail. The
  code scans the cage object its caller passes in, sets the fields and saves, with no guard. The model states
  the sequential claim and its re-validation (a later booking re-scans the
  current windows).
- The design requires every window to end after it starts. `add_available_date`
  does not check `days`, so the model allows empty or reversed windows too.
- The database query of the search also filters on dates (lines 92-93); the
  model keeps that filter exactly, with the database's any-element semantics
  for list fields, and proves it changes nothing when `checkin <= checkout`.

## Model

| member | source | states |
|---|---|---|
| `Data.Booking.Claimed` | mongodb-quickstart/snake-bnb/snake_bnb/services/data_services.py:126-128 | a claimed window keeps its dates, records the given guest account id, guest snake id and booking time, and is open for no stay any more |
| `Data.Cage.constructor` | mongodb-quickstart/snake-bnb/snake_bnb/services/data_services.py:30-36 | a new cage has the given name, flags, size and price and no windows |
| `Data.Owner.constructor` | mongodb-quickstart/snake-bnb/snake_bnb/services/data_services.py:12-19 | a new account has the given name and email and no cages or snakes |
| `Availability.DatePreFilter` | mongodb-quickstart/snake-bnb/snake_bnb/services/data_services.py:92-93 | the two date conditions hold for a non-empty window list and whenever one window spans the check-in day |
| `Availability.DatePreFilterAnyElement` | mongodb-quickstart/snake-bnb/snake_bnb/services/data_services.py:92-93 | the two date conditions can be met by two different windows, neither of which spans the check-in day |
| `Availability.Selected` | mongodb-quickstart/snake-bnb/snake_bnb/services/data_services.py:88-97 | a cage the query returns fits the snake's size, obeys the venom policy and has a window; an eligible cage with a window spanning the check-in day is returned |
| `Availability.Query` | mongodb-quickstart/snake-bnb/snake_bnb/services/data_services.py:88-97 | the query keeps each stored cage as often as it is stored when it fits the snake, obeys the venom policy and meets both date conditions, and drops it otherwise |
| `Availability.Insert` | mongodb-quickstart/snake-bnb/snake_bnb/services/data_services.py:99 | inserting into a price-then-size ordered list keeps it ordered and adds exactly that cage |
| `Availability.OrderByPriceThenSize` | mongodb-quickstart/snake-bnb/snake_bnb/services/data_services.py:99 | the ordered cages are a permutation of the input, sorted by price ascending and then square metres descending |
| `Availability.Matches` | mongodb-quickstart/snake-bnb/snake_bnb/services/data_services.py:101-109 | every emitted cage is one of the ordered cages and has a window open for the stay |
| `Availability.EmitPerOpenWindow` | mongodb-quickstart/snake-bnb/snake_bnb/services/data_services.py:101-111 | the nested loop appends each cage, in order, once per window open for the stay |
| `Availability.GetAvailableCages` | mongodb-quickstart/snake-bnb/snake_bnb/services/data_services.py:85-111 | every returned cage is stored, big enough, allowed for a venomous snake and has an open window covering the stay; the list is price-then-size ordered; each cage appears once per covering open window; for checkin <= checkout the date pre-filter changes nothing |
| `Availability.SearchResultSorted` | mongodb-quickstart/snake-bnb/snake_bnb/services/data_services.py:99-111 | emitting once per window keeps the price-then-size order of the query |
| `Availability.SearchResultCount` | mongodb-quickstart/snake-bnb/snake_bnb/services/data_services.py:89-111 | a stored cage occurs in the result exactly (selected by the query) times (its number of open covering windows) |
| `Availability.SearchResultCountOrdered` | mongodb-quickstart/snake-bnb/snake_bnb/services/data_services.py:88-108 | for checkin <= checkout the count depends only on size, venom policy and open covering windows, never on the date pre-filter |
| `Availability.SearchResultMember` | mongodb-quickstart/snake-bnb/snake_bnb/services/data_services.py:88-108 | a returned cage is stored, has at least a quarter of the snake's length in square metres, allows dangerous snakes if the snake is venomous, and has an open covering window |
| `Availability.MatchesCount` | mongodb-quickstart/snake-bnb/snake_bnb/services/data_services.py:102-109 | the emitting loop yields each cage its number of input occurrences times its number of open covering windows |
| `Availability.MatchesSorted` | mongodb-quickstart/snake-bnb/snake_bnb/services/data_services.py:102-109 | the emitting loop preserves a price-then-size ordering |
| `Availability.PreFilterRedundant` | mongodb-quickstart/snake-bnb/snake_bnb/services/data_services.py:92-106 | a window open for a stay with checkin <= checkout makes the cage meet both date conditions of the query |
| `Reservations.FirstOpen` | mongodb-quickstart/snake-bnb/snake_bnb/services/data_services.py:117-124 | the scan finds the first window in stored order that is unclaimed and covers the stay, or reports that none does |
| `Reservations.ClaimFirst` | mongodb-quickstart/snake-bnb/snake_bnb/services/data_services.py:115-128 | a booking succeeds exactly when some window is open for the stay; it then replaces exactly the first open window, in stored order, by that window claimed with the given account id, snake id and time, keeps every other window (later open ones included) and the number of windows, and keeps all claims whole |
| `Reservations.BookCage` | mongodb-quickstart/snake-bnb/snake_bnb/services/data_services.py:114-130 | claims the first open covering window with the account id, snake id and booking date and changes no other window; fails without changing anything when no window is open for the stay |
| `Reservations.AddAvailableDate` | mongodb-quickstart/snake-bnb/snake_bnb/services/data_services.py:52-61 | appends exactly one unclaimed window from start to start + days and keeps every existing window, claimed or not |
| `Reservations.OpenCountPositiveIffBookable` | mongodb-quickstart/snake-bnb/snake_bnb/services/data_services.py:104-124 | a cage has an open covering window counted by the search exactly when the booking scan finds one |
| `Reservations.ClaimRemovesOneOpenWindow` | mongodb-quickstart/snake-bnb/snake_bnb/services/data_services.py:117-127 | a successful booking lowers the number of windows open for the stay by exactly one |
| `Reservations.SecondBookingFails` | mongodb-quickstart/snake-bnb/snake_bnb/services/data_services.py:117-127 | when the claimed window was the only one open for the stay, a second booking of that stay fails |
| `Reservations.BookingsBoundedByOpenWindows` | mongodb-quickstart/snake-bnb/snake_bnb/services/data_services.py:117-127 | more successive bookings of one stay than there are open covering windows end in a failure: a window is never claimed twice |
| `Reservations.ListedCageIsBookable` | mongodb-quickstart/snake-bnb/snake_bnb/services/data_services.py:101-124 | every cage the search lists for a stay can be booked for that stay |
| `Reservations.AppendKeepsFirstOpen` | mongodb-quickstart/snake-bnb/snake_bnb/services/data_services.py:52-59 | adding a window leaves the window a booking would claim unchanged, and supplies one only when none existed and the new window covers the stay |
| `History.OwnedBy` | mongodb-quickstart/snake-bnb/snake_bnb/services/data_services.py:149-150 | keeps exactly the windows whose guest owner is the account |
| `History.OwnedByCount` | mongodb-quickstart/snake-bnb/snake_bnb/services/data_services.py:149-150 | each window held by the account is kept as often as it is stored, and every other window is dropped |
| `History.OwnedByAppend` | mongodb-quickstart/snake-bnb/snake_bnb/services/data_services.py:148-150 | filtering two joined window lists gives the first list's held windows followed by the second's: stored order is kept |
| `History.Tagged` | mongodb-quickstart/snake-bnb/snake_bnb/services/data_services.py:142-147 | pairs every window, in order, with its cage |
| `History.BookedCages` | mongodb-quickstart/snake-bnb/snake_bnb/services/data_services.py:136-140 | the query returns exactly the stored cages with a window held by the account, each as often as it is stored |
| `History.Collect` | mongodb-quickstart/snake-bnb/snake_bnb/services/data_services.py:146-151 | every entry of the comprehension is tagged with one of the given cages and is held by the account |
| `History.GetBookingsForUser` | mongodb-quickstart/snake-bnb/snake_bnb/services/data_services.py:133-153 | an entry is returned exactly when it is a window of a stored cage held by the account, tagged with that cage; the result is the comprehension over all stored cages, so with CollectAppend, OwnedByAppend and OwnedByCount it comes in cage-then-window store order with each held window as often as it is stored |
| `History.CollectMembers` | mongodb-quickstart/snake-bnb/snake_bnb/services/data_services.py:146-151 | the comprehension yields exactly the held windows of the given cages, each with its cage |
| `History.CollectAppend` | mongodb-quickstart/snake-bnb/snake_bnb/services/data_services.py:146-151 | the comprehension over two runs of cages is the first run's result followed by the second's: cage order is kept |
| `History.QueryIsRedundant` | mongodb-quickstart/snake-bnb/snake_bnb/services/data_services.py:136-151 | the database filter on guest owner does not change the comprehension's result |
| `History.ClaimAddsToOwnHistory` | mongodb-quickstart/snake-bnb/snake_bnb/services/data_services.py:126-150 | with whole claims, a successful booking inserts the claimed window into the guest's bookings in that cage between the held windows stored before and after it, keeps all earlier entries, and so adds exactly one |
| `History.NewWindowNotInHistory` | mongodb-quickstart/snake-bnb/snake_bnb/services/data_services.py:52-59 | a newly added window is held by nobody, so no account's bookings change |
| `Registration.RegisterCage` | mongodb-quickstart/snake-bnb/snake_bnb/services/data_services.py:27-44 | creates a cage with the given attributes and no windows and appends its id to the owner's cage ids, leaving the snake ids alone |
| `Registration.AddSnake` | mongodb-quickstart/snake-bnb/snake_bnb/services/data_services.py:64-76 | creates the snake and appends its id to the owner's snake ids, leaving the cage ids alone |

## Left out

- The database plumbing (`objects`, `filter`, `only`, `first`, `save`, ObjectId generation): the store is an explicit sequence of cages, and the ids are parameters.
- RegisterCage: the code saves the cage, then looks the owner up again by email and appends the cage id to that fetched copy; the model appends to the given owner, so a stale caller-side copy is not modelled, nor the failure when no account has that email, which the code raises only after the cage is saved and leaves a saved cage no owner lists.
- AddSnake: the same as RegisterCage, for the snake and the owner's snake ids: a stale caller-side copy and the failure after the snake is saved are not modelled.
- `find_account_by_email`, `find_cages_for_user`, `get_snakes_for_user`: they only forward to the database. `create_account` is the `Owner` constructor, without the save. `get_bookings_for_user` takes the account id instead of looking the account up by email, so the failure when no account has that email is not modelled.
- `AddAvailableDate`: the code re-fetches the cage by id and appends to the fetched copy; the model appends to the given cage, so a stale caller-side copy and a missing cage id are not modelled.
- Booking windows are values inside the cage's list. The code mutates the window object in place and attaches the cage to it (`booking.cage = cage`); aliasing of window objects between lists is not modelled, and the tagging is a pair.
- `.only("bookings", "name")`: the history cages are full objects in the model, not partially loaded documents.
- Floating point: `length / 4` and the size comparison use exact reals, so rounding at the boundary is not modelled.
- `datetime` and `timedelta`: days are integers and the booking time is a parameter.
- Concurrency: two racing `book_cage` calls on copies of the same cage can both succeed in the code; the model is sequential and proves only that a booking re-scans the current windows.
- `OrderByPriceThenSize`: cages of equal price and size keep their store order (a stable sort); the database leaves that order unspecified, so only the sortedness and permutation contracts are the source's promise, and the result equation of `GetAvailableCages` fixes one admissible order.
- `data/bookings.py`, `data/cages.py`, `data/owners.py` and `data/snakes.py` are not part of this model: the documents carry the fields this code reads or writes, and nothing else.
