/** `PurchaseMessageConsumer`: the worker that takes a queued purchase
    request, runs it through the inventory service, and announces the new
    stock of a granted purchase. */
module Consumer {
  import opened Wrappers
  import opened Http
  import RedisKeys
  import opened Dto
  import opened ProductStore
  import opened Inventory
  import opened Messaging

  /** What the consumer does with the service's result: the stock updates it
      publishes, and the message of the exception it rethrows, if any. */
  datatype Handling = Handling(updates: seq<StockUpdate>, rethrown: Option<string>)

  function HandleResult(call: Call<PurchaseResponse>): (h: Handling)
    ensures |h.updates| <= 1
    ensures |h.updates| == 1 <==> call.Returned? && call.value.success
    ensures |h.updates| == 1 ==> h.updates[0] == StockUpdate(call.value.productId, call.value.remainingStock)
    ensures h.rethrown.Some? <==> call.Threw?
    ensures call.Threw? ==> h.rethrown == Some("Failed to process purchase: " + call.exception.message)
  {
    match call
    case Returned(response) =>
      if response.success then Handling([StockUpdate(response.productId, response.remainingStock)], None)
      else Handling([], None)
    case Threw(e) => Handling([], Some("Failed to process purchase: " + e.message))
  }

  /** Over the modelled service, the stock update of a granted purchase
      reports the product's new ledger counter, and a refused purchase
      publishes nothing. */
  lemma UpdateReportsLedger(ledger: Ledger, rows: Table, request: PurchaseRequest, adjustment: int, orderId: string)
    ensures var p := PurchaseSpec(ledger, rows, request, adjustment, orderId);
      var h := HandleResult(Returned(p.response));
      && h.rethrown == None
      && (p.response.success ==>
            h.updates == [StockUpdate(request.productId, Counter(p.ledger, request.productId))])
      && (!p.response.success ==> h.updates == [])
  {
  }

  class PurchaseMessageConsumer {
    const service: InventoryService
    const broker: MessageBroker

    constructor (service: InventoryService, broker: MessageBroker)
      ensures this.service == service && this.broker == broker
    {
      this.service := service;
      this.broker := broker;
    }

    /** The listener on the purchase queue: one call of `processPurchase`,
        then one stock update when it succeeded. */
    method ProcessPurchaseRequest(request: PurchaseRequest, adjustment: int, orderId: string)
      returns (rethrown: Option<string>)
      modifies service, service.repo, broker
      ensures var p := PurchaseSpec(old(service.ledger), old(service.repo.rows), request, adjustment, orderId);
        && service.ledger == p.ledger && service.repo.rows == p.rows
        && broker.stockUpdates == old(broker.stockUpdates) + HandleResult(Returned(p.response)).updates
        && rethrown == None
      ensures broker.purchaseQueue == old(broker.purchaseQueue)
      ensures service.repo.nextId == old(service.repo.nextId)
    {
      var response := service.ProcessPurchase(request, adjustment, orderId);
      var handling := HandleResult(Returned(response));
      if response.success {
        broker.PublishStockUpdate(StockUpdate(response.productId, response.remainingStock));
      }
      rethrown := handling.rethrown;
    }

    /** The listener on the dead-letter queue only logs; its empty frame
        says it changes nothing. */
    method HandleFailedPurchase(request: PurchaseRequest)
    {
    }
  }
}
