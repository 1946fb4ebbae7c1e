/**
 * The transaction record produced by the parser and consumed by every later
 * stage, and the amount of a transaction (Quantity x UnitPrice).
 */
module Records {

  datatype Transaction = Transaction(
    transactionId: string,
    date: string,          // `YYYY-MM-DD`; ordered as a string
    productId: string,
    productName: string,   // commas already removed
    quantity: int,
    unitPrice: real,
    customerId: string,
    region: string)

  /** `tx["Quantity"] * tx["UnitPrice"]`. */
  function Amount(t: Transaction): real {
    t.quantity as real * t.unitPrice
  }

  /** The sum of a per-record measure, accumulated in input order. */
  function SumOf(txs: seq<Transaction>, f: Transaction -> real): real {
    if |txs| == 0 then 0.0 else SumOf(txs[..|txs| - 1], f) + f(txs[|txs| - 1])
  }

  /** The sum of the amounts, accumulated in input order. */
  function TotalAmount(txs: seq<Transaction>): real {
    SumOf(txs, Amount)
  }

  /** The sum of the quantities, accumulated in input order. */
  function TotalQuantity(txs: seq<Transaction>): int {
    if |txs| == 0 then 0 else TotalQuantity(txs[..|txs| - 1]) + txs[|txs| - 1].quantity
  }

  /** With strictly positive quantities and prices, every non-empty set of
      transactions has a strictly positive total. */
  lemma {:induction false} PositiveTotal(txs: seq<Transaction>)
    requires |txs| > 0
    requires forall i :: 0 <= i < |txs| ==> txs[i].quantity > 0 && txs[i].unitPrice > 0.0
    ensures TotalAmount(txs) > 0.0
  {
    var t := txs[|txs| - 1];
    assert Amount(t) > 0.0 by {
      assert t.quantity as real >= 1.0;
    }
    if |txs| > 1 {
      PositiveTotal(txs[..|txs| - 1]);
    }
    assert TotalAmount(txs) == TotalAmount(txs[..|txs| - 1]) + Amount(t);
  }
}
