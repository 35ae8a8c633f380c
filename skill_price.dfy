/** One row of the skill price table: a price per duration, in each currency. */
module SkillPrices {
  import opened Wrappers
  import opened Inventory

  datatype SkillPrice = SkillPrice(kash7: int, kash30: int, kashPerm: int,
                                   points7: int, points30: int, pointsPerm: int)
  {
    /** The six prices in the order a table row stores them. */
    function ToRow(): (row: seq<int>)
      ensures |row| == 6
    {
      [kash7, kash30, kashPerm, points7, points30, pointsPerm]
    }

    /** The price of a skill for a duration and a currency; -1 for a duration the table
        does not price. */
    function GetPriceFor(expiration: Expiration, payment: Payment): (r: int)
      ensures expiration.IsDays() || expiration.IsPermanent() ==> r in ToRow()
      ensures expiration.IsUsage() ==> r == -1
    {
      match expiration
      case Days7 => if payment == Kash then kash7 else points7
      case Days30 => if payment == Kash then kash30 else points30
      case DaysPerm => if payment == Kash then kashPerm else pointsPerm
      case _ => -1
    }
  }

  /** The price read from the next six values of a row, in order; none when the row runs out
      first. */
  function FromRow(row: seq<int>): (r: Option<SkillPrice>)
    ensures r.Some? <==> |row| >= 6
    ensures r.Some? ==> r.value.ToRow() == row[..6]
  {
    if |row| < 6 then None
    else Some(SkillPrice(row[0], row[1], row[2], row[3], row[4], row[5]))
  }

  /** Writing a price as a row and reading it back gives the same price. */
  lemma RowRoundTrip(p: SkillPrice)
    ensures FromRow(p.ToRow()) == Some(p)
  {
  }

  /** The column of the row that prices a duration in a currency: the three kash prices
      first, then the three point prices, each from the shortest duration up. */
  function Column(expiration: Expiration, payment: Payment): (c: nat)
    requires expiration in {Days7, Days30, DaysPerm}
    ensures c < 6
    ensures payment == Kash <==> c < 3
  {
    (if payment == Kash then 0 else 3) +
    (match expiration case Days7 => 0 case Days30 => 1 case _ => 2)
  }

  /** The lookup agrees with the table layout: a priced duration reads its column of the
      row, and every other duration gives -1. */
  lemma PriceIsColumn(p: SkillPrice, expiration: Expiration, payment: Payment)
    ensures expiration in {Days7, Days30, DaysPerm} ==>
              p.GetPriceFor(expiration, payment) == p.ToRow()[Column(expiration, payment)]
    ensures expiration !in {Days7, Days30, DaysPerm} ==> p.GetPriceFor(expiration, payment) == -1
  {
  }
}
