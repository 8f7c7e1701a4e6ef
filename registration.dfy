/**
 * Registering a cage or a snake for an owner: the new document is created
 * and its id appended to the owner's list; the identifier the database
 * assigns on save is a parameter.
 */
module Registration {
  import opened Data

  method RegisterCage(activeAccount: Owner, cageId: ObjectId, name: string, allowDangerous: bool,
                      hasToys: bool, carpeted: bool, meters: real, price: real) returns (cage: Cage)
    modifies activeAccount
    ensures fresh(cage)
    ensures cage.id == cageId && cage.name == name && cage.allowDangerousSnakes == allowDangerous
    ensures cage.hasToys == hasToys && cage.isCarpeted == carpeted && cage.squareMeters == meters && cage.price == price
    ensures cage.bookings == []
    ensures activeAccount.cageIds == old(activeAccount.cageIds) + [cageId]
    ensures activeAccount.snakeIds == old(activeAccount.snakeIds)
  {
    cage := new Cage(cageId, name, allowDangerous, hasToys, carpeted, meters, price);
    activeAccount.cageIds := activeAccount.cageIds + [cage.id];
  }

  method AddSnake(account: Owner, snakeId: ObjectId, name: string, length: real, species: string, isVenomous: bool)
    returns (snake: Snake)
    modifies account
    ensures snake.id == snakeId && snake.name == name && snake.length == length
    ensures snake.species == species && snake.isVenomous == isVenomous
    ensures account.snakeIds == old(account.snakeIds) + [snakeId]
    ensures account.cageIds == old(account.cageIds)
  {
    snake := Snake(snakeId, name, length, species, isVenomous);
    account.snakeIds := account.snakeIds + [snake.id];
  }
}
