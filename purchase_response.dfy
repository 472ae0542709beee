/** The purchase request and response records and the three factories of
    `PurchaseResponse`. Timestamps are left out; a Java `null` is `None`. */
module Dto {
  import opened Wrappers
  import Decimal

  /** What a buyer submits: which product and how many units. */
  datatype PurchaseRequest = PurchaseRequest(productId: int, quantity: int)

  datatype PurchaseResponse = PurchaseResponse(
    success: bool,
    message: string,
    orderId: Option<string>,
    productId: int,
    quantity: int,
    remainingStock: Option<int>)

  const SuccessMessage: string := "Purchase successful"
  const OutOfStockIntro: string := "Out of stock. Requested: "
  const AvailableSeparator: string := ", Available: "

  /** The message of an out-of-stock response. */
  function OutOfStockMessage(quantity: int, remainingStock: int): string {
    OutOfStockIntro + Decimal.FromInt(quantity) + AvailableSeparator + Decimal.FromInt(remainingStock)
  }

  /** A granted purchase: the only kind of response that names an order. */
  function Success(orderId: string, productId: int, quantity: int, remainingStock: int): (r: PurchaseResponse)
    ensures r.success && r.message == SuccessMessage
    ensures r.orderId == Some(orderId) && r.remainingStock == Some(remainingStock)
    ensures r.productId == productId && r.quantity == quantity
  {
    PurchaseResponse(true, SuccessMessage, Some(orderId), productId, quantity, Some(remainingStock))
  }

  /** A refused purchase with a free-text reason and no stock figure. */
  function Failure(message: string, productId: int, quantity: int): (r: PurchaseResponse)
    ensures !r.success && r.message == message
    ensures r.orderId == None && r.remainingStock == None
    ensures r.productId == productId && r.quantity == quantity
  {
    PurchaseResponse(false, message, None, productId, quantity, None)
  }

  /** A refusal for lack of stock, reporting the units that were available. */
  function OutOfStock(productId: int, quantity: int, remainingStock: int): (r: PurchaseResponse)
    ensures !r.success && r.message == OutOfStockMessage(quantity, remainingStock)
    ensures r.orderId == None && r.remainingStock == Some(remainingStock)
    ensures r.productId == productId && r.quantity == quantity
  {
    PurchaseResponse(false, OutOfStockMessage(quantity, remainingStock), None, productId, quantity, Some(remainingStock))
  }

  /** The responses the three factories can build. */
  ghost predicate FromFactory(r: PurchaseResponse) {
    (exists o, p, q, s :: r == Success(o, p, q, s)) ||
    (exists m, p, q :: r == Failure(m, p, q)) ||
    (exists p, q, s :: r == OutOfStock(p, q, s))
  }

  /** Of all factory-made responses, exactly the successful ones carry an
      order id, and each of those also carries a stock figure. */
  lemma OnlySuccessCarriesOrderId(r: PurchaseResponse)
    requires FromFactory(r)
    ensures r.orderId.Some? <==> r.success
    ensures r.success ==> r.remainingStock.Some? && r.message == SuccessMessage
  {
  }

  /** The out-of-stock message can be read back: it determines both the
      requested and the available quantity. */
  lemma OutOfStockMessageDeterminesCounts(q1: int, s1: int, q2: int, s2: int)
    requires OutOfStockMessage(q1, s1) == OutOfStockMessage(q2, s2)
    ensures q1 == q2 && s1 == s2
  {
    assert !Decimal.IsNumeral(AvailableSeparator[0]);
    Decimal.ReadBackPair(OutOfStockIntro, AvailableSeparator, q1, s1, q2, s2);
  }

  /** The code's out-of-stock message is not the "Insufficient stock" that
      InventoryServiceTest expects: the two differ in their first character. */
  lemma OutOfStockIsNotInsufficientStock(q: int, s: int)
    ensures OutOfStockMessage(q, s) != "Insufficient stock"
  {
    assert OutOfStockMessage(q, s)[0] == 'O';
  }
}
