/** `AsyncPurchaseController`: the asynchronous gateway. It only publishes
    the request to the purchase queue and answers at once with a tracking id;
    it never consults the stock ledger. */
module AsyncController {
  import opened Wrappers
  import opened Http
  import opened Dto
  import opened Messaging

  /** `AsyncPurchaseResponse` without its timestamp. */
  datatype AsyncPurchaseResponse = AsyncPurchaseResponse(
    accepted: bool,
    message: string,
    trackingId: Option<string>,
    productId: int,
    quantity: int)

  const AcceptedMessage: string := "Purchase request accepted and queued for processing"
  const QueueFailedMessage: string := "Failed to queue purchase request. Please try again."

  /** The reply to a publish attempt: `published` is what
      `publishPurchaseRequest` returned or threw, `trackingId` the freshly
      generated tracking id. 202 with the tracking id when the request was
      queued, 503 when the publisher reported failure, 500 when it threw. */
  function AsyncReply(request: PurchaseRequest, published: Call<bool>, trackingId: string): (r: Reply<AsyncPurchaseResponse>)
    ensures r.status == StatusAccepted <==> published == Returned(true)
    ensures r.status == StatusServiceUnavailable <==> published == Returned(false)
    ensures r.status == StatusInternalServerError <==> published.Threw?
    ensures r.body.accepted <==> r.status == StatusAccepted
    ensures r.body.trackingId.Some? <==> r.body.accepted
    ensures r.body.accepted ==> r.body.trackingId == Some(trackingId) && r.body.message == AcceptedMessage
    ensures published == Returned(false) ==> r.body.message == QueueFailedMessage
    ensures published.Threw? ==> r.body.message == "Internal server error: " + published.exception.message
    ensures r.body.productId == request.productId && r.body.quantity == request.quantity
  {
    match published
    case Returned(true) =>
      Reply(StatusAccepted,
        AsyncPurchaseResponse(true, AcceptedMessage, Some(trackingId), request.productId, request.quantity))
    case Returned(false) =>
      Reply(StatusServiceUnavailable,
        AsyncPurchaseResponse(false, QueueFailedMessage, None, request.productId, request.quantity))
    case Threw(e) =>
      Reply(StatusInternalServerError,
        AsyncPurchaseResponse(false, "Internal server error: " + e.message, None, request.productId, request.quantity))
  }

  /** The accepted message carries the suffix " for processing" that
      PurchaseControllerTest and PurchaseIntegrationTest leave out. */
  lemma AcceptedMessageHasSuffix()
    ensures AcceptedMessage == "Purchase request accepted and queued" + " for processing"
    ensures AcceptedMessage != "Purchase request accepted and queued"
  {
  }

  class AsyncPurchaseController {
    const broker: MessageBroker

    constructor (broker: MessageBroker)
      ensures this.broker == broker
    {
      this.broker := broker;
    }

    /** POST /async/purchase. One publish attempt, whose outcome `published`
        is supplied by the caller of the model; the request lands on the
        queue exactly when the publisher reports success. */
    method PurchaseAsync(request: PurchaseRequest, published: Call<bool>, trackingId: string)
      returns (reply: Reply<AsyncPurchaseResponse>)
      requires request.quantity > 0
      modifies broker
      ensures reply == AsyncReply(request, published, trackingId)
      ensures broker.purchaseQueue ==
        if reply.body.accepted then old(broker.purchaseQueue) + [request] else old(broker.purchaseQueue)
      ensures broker.stockUpdates == old(broker.stockUpdates)
    {
      if published == Returned(true) {
        broker.EnqueuePurchase(request);
      }
      reply := AsyncReply(request, published, trackingId);
    }
  }
}
