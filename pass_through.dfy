/** `domain.RoomKind`, `domain.RoomType`, `domain.Money` and
    `domain.ReserverPayer`: data the core stores or checks for null and
    otherwise passes through. */
module PassThrough {
  import opened CreditCards
  import opened Identities

  datatype RoomKind = Single | Double | Suite

  /** An amount of money; the core never computes with it. */
  datatype Money = Money(amount: real, currency: string)

  datatype RoomType = RoomType(kind: RoomKind, cost: Money)

  /** The person paying: checked for null by `makeReservation` and then dropped. */
  datatype ReserverPayer = ReserverPayer(card: CreditCard, id: Identity)
}
