/** The two RabbitMQ destinations the application writes to, as logs of the
    messages that reached them: the purchase queue and the stock-update
    exchange. */
module Messaging {
  import opened Wrappers
  import opened Dto

  /** `StockUpdateMessage` without its timestamp. */
  datatype StockUpdate = StockUpdate(productId: int, stock: Option<int>)

  class MessageBroker {
    var purchaseQueue: seq<PurchaseRequest>
    var stockUpdates: seq<StockUpdate>

    constructor ()
      ensures purchaseQueue == [] && stockUpdates == []
    {
      purchaseQueue := [];
      stockUpdates := [];
    }

    /** A purchase request delivered to the purchase queue. */
    method EnqueuePurchase(request: PurchaseRequest)
      modifies this
      ensures purchaseQueue == old(purchaseQueue) + [request]
      ensures stockUpdates == old(stockUpdates)
    {
      purchaseQueue := purchaseQueue + [request];
    }

    /** A stock update delivered to the stock-update exchange. */
    method PublishStockUpdate(update: StockUpdate)
      modifies this
      ensures stockUpdates == old(stockUpdates) + [update]
      ensures purchaseQueue == old(purchaseQueue)
    {
      stockUpdates := stockUpdates + [update];
    }
  }
}
