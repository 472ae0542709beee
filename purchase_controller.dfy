/** `PurchaseController`: the synchronous gateway. Each endpoint forwards to
    the inventory service and maps its result (or its exception) to a reply. */
module SyncController {
  import opened Wrappers
  import opened Http
  import Decimal
  import RedisKeys
  import opened Dto
  import opened ProductStore
  import opened Inventory

  /** The body of a stock query: the stock record or a text message. */
  datatype StockBody = StockResponse(productId: int, stock: int) | Message(text: string)

  /** `purchase`: 200 for a granted purchase, 409 for any refusal (the
      service's response unchanged), 500 with a failure response when the
      service throws. */
  function PurchaseReply(request: PurchaseRequest, call: Call<PurchaseResponse>): (r: Reply<PurchaseResponse>)
    ensures r.status == StatusOk <==> call.Returned? && call.value.success
    ensures r.status == StatusConflict <==> call.Returned? && !call.value.success
    ensures r.status == StatusInternalServerError <==> call.Threw?
    ensures call.Returned? ==> r.body == call.value
    ensures call.Threw? ==>
      r.body == Failure("Internal server error: " + call.exception.message, request.productId, request.quantity)
  {
    match call
    case Returned(response) =>
      if response.success then Reply(StatusOk, response) else Reply(StatusConflict, response)
    case Threw(e) =>
      Reply(StatusInternalServerError, Failure("Internal server error: " + e.message, request.productId, request.quantity))
  }

  /** `getStock`: 404 when the service knows no stock, 200 with the stock
      record otherwise, 500 when the service throws. */
  function StockReply(productId: int, call: Call<Option<int>>): (r: Reply<StockBody>)
    ensures r.status == StatusOk <==> call.Returned? && call.value.Some?
    ensures r.status == StatusNotFound <==> call == Returned(None)
    ensures r.status == StatusInternalServerError <==> call.Threw?
    ensures r.status == StatusOk ==> r.body == StockResponse(productId, call.value.value)
    ensures r.status == StatusNotFound ==> r.body == Message("Product not found: " + Decimal.FromInt(productId))
    ensures call.Threw? ==> r.body == Message("Error retrieving stock: " + call.exception.message)
  {
    match call
    case Returned(None) => Reply(StatusNotFound, Message("Product not found: " + Decimal.FromInt(productId)))
    case Returned(Some(stock)) => Reply(StatusOk, StockResponse(productId, stock))
    case Threw(e) => Reply(StatusInternalServerError, Message("Error retrieving stock: " + e.message))
  }

  /** `initializeStock`: 200 on success, 404 with the message of an
      `IllegalArgumentException`, 500 for any other exception. */
  function InitializeStockReply(productId: int, call: Call<()>): (r: Reply<string>)
    ensures r.status == StatusOk <==> call.Returned?
    ensures r.status == StatusNotFound <==> call.Threw? && call.exception.IllegalArgumentException?
    ensures r.status == StatusNotFound ==> r.body == call.exception.message
    ensures r.status == StatusOk ==> r.body == "Stock initialized for product: " + Decimal.FromInt(productId)
    ensures r.status == StatusInternalServerError ==> r.body == "Error initializing stock: " + call.exception.message
    ensures r.status in {StatusOk, StatusNotFound, StatusInternalServerError}
  {
    match call
    case Returned(_) => Reply(StatusOk, "Stock initialized for product: " + Decimal.FromInt(productId))
    case Threw(IllegalArgumentException(m)) => Reply(StatusNotFound, m)
    case Threw(RuntimeException(m)) => Reply(StatusInternalServerError, "Error initializing stock: " + m)
  }

  /** `resetStock`: 200 on success, 500 when the service throws. */
  function ResetStockReply(productId: int, stock: int, call: Call<()>): (r: Reply<string>)
    ensures r.status == StatusOk <==> call.Returned?
    ensures r.status != StatusOk ==> r.status == StatusInternalServerError
    ensures r.status == StatusOk ==>
      r.body == "Stock reset to " + Decimal.FromInt(stock) + " for product: " + Decimal.FromInt(productId)
    ensures call.Threw? ==> r.body == "Error resetting stock: " + call.exception.message
  {
    match call
    case Returned(_) =>
      Reply(StatusOk, "Stock reset to " + Decimal.FromInt(stock) + " for product: " + Decimal.FromInt(productId))
    case Threw(e) => Reply(StatusInternalServerError, "Error resetting stock: " + e.message)
  }

  /** Over the modelled service, a purchase answers 200 exactly when the
      units are reserved and 409 otherwise; the 500 branch is never taken,
      because `processPurchase` catches its own exceptions. */
  lemma SyncStatusReflectsReservation(ledger: Ledger, rows: Table, request: PurchaseRequest, adjustment: int, orderId: string)
    ensures var p := PurchaseSpec(ledger, rows, request, adjustment, orderId);
      var r := PurchaseReply(request, Returned(p.response));
      && (r.status == StatusOk <==>
            request.productId in rows &&
            CounterBefore(ledger, rows, request.productId) >= request.quantity &&
            CounterBefore(ledger, rows, request.productId) + adjustment - request.quantity >= 0)
      && (r.status != StatusOk ==> r.status == StatusConflict && p.rows == rows)
  {
  }

  /** Over the modelled service, a stock query answers 404 exactly when the
      product has neither a ledger entry nor a row, and initialisation
      answers 404 exactly when the product has no row. */
  lemma NotFoundMeansUnknownProduct(ledger: Ledger, rows: Table, productId: int)
    ensures StockReply(productId, Returned(CurrentStockSpec(ledger, rows, productId).0)).status == StatusNotFound
      <==> Counter(ledger, productId).None? && productId !in rows
    ensures InitializeStockReply(productId, SeedSpec(ledger, rows, productId).0).status == StatusNotFound
      <==> productId !in rows
  {
  }

  class PurchaseController {
    const service: InventoryService

    constructor (service: InventoryService)
      ensures this.service == service
    {
      this.service := service;
    }

    /** POST /purchase. Bean validation rejects a request whose quantity is
        not positive before this method runs. */
    method Purchase(request: PurchaseRequest, adjustment: int, orderId: string) returns (reply: Reply<PurchaseResponse>)
      requires request.quantity > 0
      modifies service, service.repo
      ensures var p := PurchaseSpec(old(service.ledger), old(service.repo.rows), request, adjustment, orderId);
        && reply == PurchaseReply(request, Returned(p.response))
        && service.ledger == p.ledger && service.repo.rows == p.rows
      ensures service.repo.nextId == old(service.repo.nextId)
    {
      var response := service.ProcessPurchase(request, adjustment, orderId);
      reply := PurchaseReply(request, Returned(response));
    }

    /** GET /stock/{productId}. */
    method GetStock(productId: int) returns (reply: Reply<StockBody>)
      modifies service
      ensures var (stock, ledger) := CurrentStockSpec(old(service.ledger), service.repo.rows, productId);
        reply == StockReply(productId, Returned(stock)) && service.ledger == ledger
    {
      var stock := service.GetCurrentStock(productId);
      reply := StockReply(productId, Returned(stock));
    }

    /** POST /stock/init/{productId}. */
    method InitializeStock(productId: int) returns (reply: Reply<string>)
      modifies service
      ensures var (outcome, ledger) := SeedSpec(old(service.ledger), service.repo.rows, productId);
        reply == InitializeStockReply(productId, outcome) && service.ledger == ledger
    {
      var outcome := service.InitializeStock(productId);
      reply := InitializeStockReply(productId, outcome);
    }

    /** PUT /stock/{productId}/reset. */
    method ResetStock(productId: int, stock: int) returns (reply: Reply<string>)
      modifies service
      ensures reply == ResetStockReply(productId, stock, Returned(()))
      ensures service.ledger == old(service.ledger)[RedisKeys.ProductStockKey(productId) := stock]
    {
      service.ResetStock(productId, stock);
      reply := ResetStockReply(productId, stock, Returned(()));
    }
  }
}
