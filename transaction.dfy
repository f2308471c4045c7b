/** The trade record of transaction.go and the tape queries the core
    calls but that are not part of this model. */
module Txns {
  import opened Pairs

  /** `TraderType`: which side was the maker. */
  datatype TraderType = Buyer | Seller

  /** `Transaction`: one trade on a pair; a positive amount is a buy. */
  datatype Transaction = Transaction(pair: Pair, price: real, amount: real, timeStamp: int,
                                     maker: TraderType, txnID: string)

  /** `Transactions.Between(from, to)`: the trades of a tape in a time
      window. Its code is not part of this model. */
  type BetweenFn = (seq<Transaction>, int, int) -> seq<Transaction>

  /** The least a window query must do: answer only trades of the tape
      whose time stamps lie in the window, ends included. */
  ghost predicate BetweenSane(between: BetweenFn)
  {
    forall tape, from, to, k :: 0 <= k < |between(tape, from, to)| ==>
      between(tape, from, to)[k] in tape && from <= between(tape, from, to)[k].timeStamp <= to
  }

  /** `Transactions.Fill(price, amount)`: how much of an order at `price`
      for `amount` a tape fills. Its code is not part of this model. */
  type FillFn = (seq<Transaction>, real, real) -> real

  /** The least a fill rule must do: fill on the side of the order and
      at most what was asked. */
  ghost predicate FillSane(fill: FillFn)
  {
    forall tape, price, amount {:trigger fill(tape, price, amount)} ::
      (amount >= 0.0 ==> 0.0 <= fill(tape, price, amount) <= amount) &&
      (amount <= 0.0 ==> amount <= fill(tape, price, amount) <= 0.0)
  }
}
