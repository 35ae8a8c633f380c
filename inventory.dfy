/** The inventory entries a player's cache holds. The Expiration enum itself is not part of
    this model: only the three tests the cache and the price table make of it are. */
module Inventory {

  /** How an inventory entry expires: after a number of days, never, or after a number of
      uses (one tier per code). */
  datatype Expiration = Days7 | Days30 | DaysPerm | Usage(tier: int)
  {
    predicate IsUsage() {
      Usage?
    }

    predicate IsDays() {
      this == Days7 || this == Days30
    }

    predicate IsPermanent() {
      this == DaysPerm
    }
  }

  /** The currency of a purchase. */
  datatype Payment = Kash | Points

  /** An item, with its remaining uses and the time its days run out. */
  datatype Item = Item(inventoryId: int, expiration: Expiration, usages: int, timestampExpire: int)

  datatype Skill = Skill(inventoryId: int, expiration: Expiration, timestampExpire: int)

  datatype Celebration = Celebration(inventoryId: int, expiration: Expiration, timestampExpire: int)
}
