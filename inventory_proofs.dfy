/** What the stock ledger and the reservation guarantee: no oversell, exact
    rollback, lazy seeding, and per-product isolation of the counters. */
module InventoryProofs {
  import opened Wrappers
  import opened Http
  import RedisKeys
  import opened Dto
  import opened ProductStore
  import opened Inventory

  /** Every counter in the ledger is at least zero. */
  ghost predicate CountersNonNegative(ledger: Ledger) {
    forall key :: key in ledger ==> ledger[key] >= 0
  }

  // ----- One reservation attempt -----

  /** The counter moves by the other callers' adjustment once the pre-check
      has passed, and by minus the quantity exactly when the units are sold. */
  lemma ReserveAccounting(current: int, quantity: int, adjustment: int)
    ensures var (after, outcome) := Reserve(current, quantity, adjustment);
      after == current
        + (if outcome.Refused? then 0 else adjustment)
        - (if outcome.Reserved? then quantity else 0)
  {
  }

  /** Without interference (or with other callers only adding stock) the
      rollback branch can never run: the pre-check already guarantees that
      the decrement stays at zero or above. */
  lemma RollbackNeedsInterference(current: int, quantity: int, adjustment: int)
    requires adjustment >= 0
    ensures !Reserve(current, quantity, adjustment).1.RolledBack?
  {
  }

  /** A counter that is and stays non-negative under the other callers'
      adjustment is non-negative after the attempt, and a sale never reports
      a negative remainder. */
  lemma ReserveNeverNegative(current: int, quantity: int, adjustment: int)
    ensures Reserve(current, quantity, adjustment).1.Reserved? ==>
      Reserve(current, quantity, adjustment).1.remaining >= 0
    ensures current >= 0 && current + adjustment >= 0 ==> Reserve(current, quantity, adjustment).0 >= 0
  {
  }

  // ----- One processPurchase -----

  /** An unknown product is refused with "Product not found" and neither the
      ledger nor the table is touched. */
  lemma PurchaseUnknownProduct(ledger: Ledger, rows: Table, request: PurchaseRequest, adjustment: int, orderId: string)
    requires request.productId !in rows
    ensures PurchaseSpec(ledger, rows, request, adjustment, orderId)
      == Purchase(Failure("Product not found", request.productId, request.quantity), ledger, rows)
  {
  }

  /** A purchase on a product without a ledger entry behaves exactly like the
      same purchase after the entry was seeded from the durable stock. */
  lemma PurchaseSeedsFromDurableStock(ledger: Ledger, rows: Table, request: PurchaseRequest, adjustment: int, orderId: string)
    requires request.productId in rows
    requires Counter(ledger, request.productId) == None
    ensures PurchaseSpec(ledger, rows, request, adjustment, orderId)
      == PurchaseSpec(SeedSpec(ledger, rows, request.productId).1, rows, request, adjustment, orderId)
  {
    var key := RedisKeys.ProductStockKey(request.productId);
    var seeded := SeedSpec(ledger, rows, request.productId).1;
    assert CounterBefore(seeded, rows, request.productId) == CounterBefore(ledger, rows, request.productId);
    var after := Reserve(CounterBefore(ledger, rows, request.productId), request.quantity, adjustment).0;
    assert seeded[key := after] == ledger[key := after];
  }

  /** Too few units: an out-of-stock answer that reports the counter, the
      counter keeps that value (seeded if it was missing), the table is
      untouched, and a present ledger is left as it was. */
  lemma PurchaseOutOfStock(ledger: Ledger, rows: Table, request: PurchaseRequest, adjustment: int, orderId: string)
    requires request.productId in rows
    requires CounterBefore(ledger, rows, request.productId) < request.quantity
    ensures var p := PurchaseSpec(ledger, rows, request, adjustment, orderId);
      var current := CounterBefore(ledger, rows, request.productId);
      && p.response == OutOfStock(request.productId, request.quantity, current)
      && Counter(p.ledger, request.productId) == Some(current)
      && p.rows == rows
      && (Counter(ledger, request.productId).Some? ==> p.ledger == ledger)
  {
  }

  /** A purchase succeeds exactly when the product exists, the counter covers
      the quantity and the decrement stays at zero or above; then the counter
      drops by the quantity (after the others' adjustment), the response
      reports the new counter, which is not negative, and the durable row is
      decremented the same way. */
  lemma PurchaseSucceeds(ledger: Ledger, rows: Table, request: PurchaseRequest, adjustment: int, orderId: string)
    ensures var p := PurchaseSpec(ledger, rows, request, adjustment, orderId);
      p.response.success <==>
        request.productId in rows &&
        CounterBefore(ledger, rows, request.productId) >= request.quantity &&
        CounterBefore(ledger, rows, request.productId) + adjustment - request.quantity >= 0
    ensures var p := PurchaseSpec(ledger, rows, request, adjustment, orderId);
      p.response.success ==>
        var after := CounterBefore(ledger, rows, request.productId) + adjustment - request.quantity;
        && p.response == Success(orderId, request.productId, request.quantity, after)
        && Counter(p.ledger, request.productId) == Some(after)
        && after >= 0
        && p.rows == Decrement(rows, request.productId, request.quantity).rows
  {
  }

  /** A decrement that goes negative is undone: the counter is left at the
      value it had just before the decrement, the answer is out-of-stock with
      zero available, and the durable table is not synchronised. */
  lemma PurchaseRollsBack(ledger: Ledger, rows: Table, request: PurchaseRequest, adjustment: int, orderId: string)
    requires request.productId in rows
    requires CounterBefore(ledger, rows, request.productId) >= request.quantity
    requires CounterBefore(ledger, rows, request.productId) + adjustment - request.quantity < 0
    ensures var p := PurchaseSpec(ledger, rows, request, adjustment, orderId);
      && Counter(p.ledger, request.productId) == Some(CounterBefore(ledger, rows, request.productId) + adjustment)
      && p.response == OutOfStock(request.productId, request.quantity, 0)
      && p.rows == rows
  {
  }

  /** A durable decrement that the table refuses changes nothing else: the
      purchase still succeeds with the same ledger and the table stays as it
      was. */
  lemma RefusedSyncIsSwallowed(ledger: Ledger, rows: Table, request: PurchaseRequest, adjustment: int, orderId: string)
    requires PurchaseSpec(ledger, rows, request, adjustment, orderId).response.success
    requires Decrement(rows, request.productId, request.quantity).updated == 0
    ensures PurchaseSpec(ledger, rows, request, adjustment, orderId).rows == rows
  {
  }

  /** A purchase touches only its own product's counter and row. */
  lemma PurchaseIsolatesProducts(ledger: Ledger, rows: Table, request: PurchaseRequest, adjustment: int, orderId: string, other: int)
    requires other != request.productId
    ensures var p := PurchaseSpec(ledger, rows, request, adjustment, orderId);
      && Counter(p.ledger, other) == Counter(ledger, other)
      && (other in rows <==> other in p.rows)
      && (other in rows ==> p.rows[other] == rows[other])
  {
    if RedisKeys.ProductStockKey(other) == RedisKeys.ProductStockKey(request.productId) {
      RedisKeys.ProductStockKeyInjective(other, request.productId);
    }
  }

  /** Non-negative counters and stocks stay non-negative through a purchase
      as long as the other callers do not drive the counter below zero. */
  lemma PurchaseKeepsStockNonNegative(ledger: Ledger, rows: Table, request: PurchaseRequest, adjustment: int, orderId: string)
    requires CountersNonNegative(ledger) && StocksNonNegative(rows)
    requires request.productId in rows ==> CounterBefore(ledger, rows, request.productId) + adjustment >= 0
    ensures var p := PurchaseSpec(ledger, rows, request, adjustment, orderId);
      CountersNonNegative(p.ledger) && StocksNonNegative(p.rows)
  {
    if request.productId in rows {
      var current := CounterBefore(ledger, rows, request.productId);
      assert current >= 0;
      ReserveNeverNegative(current, request.quantity, adjustment);
      DecrementKeepsStocksNonNegative(rows, request.productId, request.quantity);
    }
  }

  /** Every answer echoes the request, and none is the "Invalid quantity"
      that InventoryServiceTest expects for a zero or negative quantity: the
      service has no quantity check. */
  lemma PurchaseHasNoQuantityCheck(ledger: Ledger, rows: Table, request: PurchaseRequest, adjustment: int, orderId: string)
    ensures var r := PurchaseSpec(ledger, rows, request, adjustment, orderId).response;
      r.productId == request.productId && r.quantity == request.quantity &&
      r.message != "Invalid quantity"
  {
    var r := PurchaseSpec(ledger, rows, request, adjustment, orderId).response;
    if r.message != "Product not found" && r.message != SuccessMessage {
      assert r.message == OutOfStockMessage(request.quantity, r.remainingStock.value);
      assert r.message[0] == 'O';
    }
  }

  // ----- Seeding and reading the ledger -----

  /** Seeding twice is seeding once; a missing product throws and leaves the
      ledger alone. */
  lemma SeedIdempotent(ledger: Ledger, rows: Table, productId: int)
    ensures var (outcome, once) := SeedSpec(ledger, rows, productId);
      SeedSpec(once, rows, productId) == (outcome, once)
    ensures productId !in rows ==> SeedSpec(ledger, rows, productId).1 == ledger
    ensures SeedSpec(ledger, rows, productId).0.Threw? <==> productId !in rows
    ensures productId in rows ==> Counter(SeedSpec(ledger, rows, productId).1, productId) == Some(rows[productId].stockQuantity)
  {
    var (outcome, once) := SeedSpec(ledger, rows, productId);
    if productId in rows {
      var key := RedisKeys.ProductStockKey(productId);
      assert once[key := rows[productId].stockQuantity] == once;
    }
  }

  /** Reading the stock reports the counter a purchase would consult, and
      whatever seeding it does leaves every later purchase unaffected. */
  lemma CurrentStockIsTransparent(ledger: Ledger, rows: Table, request: PurchaseRequest, adjustment: int, orderId: string)
    ensures var (stock, seeded) := CurrentStockSpec(ledger, rows, request.productId);
      && (stock.Some? <==> Counter(ledger, request.productId).Some? || request.productId in rows)
      && (request.productId in rows ==> stock == Some(CounterBefore(ledger, rows, request.productId)))
      && (Counter(ledger, request.productId).Some? ==> stock == Counter(ledger, request.productId) && seeded == ledger)
      && (request.productId in rows ==>
            PurchaseSpec(seeded, rows, request, adjustment, orderId) == PurchaseSpec(ledger, rows, request, adjustment, orderId))
  {
    if request.productId in rows && Counter(ledger, request.productId).None? {
      PurchaseSeedsFromDurableStock(ledger, rows, request, adjustment, orderId);
    }
  }

  // ----- Sequences of purchases -----

  /** The state after a run of sequential purchases of one product, with the
      units sold and the number of purchases granted. */
  datatype Tally = Tally(ledger: Ledger, rows: Table, sold: int, granted: nat)

  /** Purchases of `productId`, one after the other, without interference. */
  function RunPurchases(ledger: Ledger, rows: Table, productId: int, quantities: seq<int>): Tally
    decreases |quantities|
  {
    if quantities == [] then Tally(ledger, rows, 0, 0)
    else
      var p := PurchaseSpec(ledger, rows, PurchaseRequest(productId, quantities[0]), 0, "");
      var rest := RunPurchases(p.ledger, p.rows, productId, quantities[1..]);
      if p.response.success then Tally(rest.ledger, rest.rows, rest.sold + quantities[0], rest.granted + 1)
      else rest
  }

  /** No oversell: from a counter of `stock` units, the units sold never
      exceed `stock`, and the counter ends at `stock` minus the units sold,
      never below zero. */
  lemma {:induction false} NoOversell(ledger: Ledger, rows: Table, productId: int, quantities: seq<int>)
    requires productId in rows
    requires CounterBefore(ledger, rows, productId) >= 0
    ensures var t := RunPurchases(ledger, rows, productId, quantities);
      var stock := CounterBefore(ledger, rows, productId);
      && productId in t.rows
      && (quantities != [] ==> Counter(t.ledger, productId) == Some(stock - t.sold))
      && stock - t.sold >= 0
      && t.sold <= stock
    decreases |quantities|
  {
    if quantities != [] {
      var stock := CounterBefore(ledger, rows, productId);
      var request := PurchaseRequest(productId, quantities[0]);
      var p := PurchaseSpec(ledger, rows, request, 0, "");
      var (after, outcome) := Reserve(stock, quantities[0], 0);
      RollbackNeedsInterference(stock, quantities[0], 0);
      assert Counter(p.ledger, productId) == Some(after);
      assert CounterBefore(p.ledger, p.rows, productId) == after;
      NoOversell(p.ledger, p.rows, productId, quantities[1..]);
      if quantities[1..] == [] {
        assert RunPurchases(p.ledger, p.rows, productId, quantities[1..]).ledger == p.ledger;
      }
    }
  }

  function Min(a: int, b: int): int { if a <= b then a else b }
  function Max(a: int, b: int): int { if a >= b then a else b }

  /** The flash-sale scenario: with `stock` units and a run of single-unit
      purchases, exactly min(stock, purchases) are granted and the counter
      ends at max(0, stock - purchases). */
  lemma {:induction false} SingleUnitPurchases(ledger: Ledger, rows: Table, productId: int, quantities: seq<int>)
    requires productId in rows
    requires CounterBefore(ledger, rows, productId) >= 0
    requires forall i :: 0 <= i < |quantities| ==> quantities[i] == 1
    ensures var t := RunPurchases(ledger, rows, productId, quantities);
      var stock := CounterBefore(ledger, rows, productId);
      && t.granted == Min(stock, |quantities|)
      && t.sold == t.granted
      && (quantities != [] ==> Counter(t.ledger, productId) == Some(Max(0, stock - |quantities|)))
    decreases |quantities|
  {
    if quantities != [] {
      var stock := CounterBefore(ledger, rows, productId);
      var p := PurchaseSpec(ledger, rows, PurchaseRequest(productId, 1), 0, "");
      assert p.response.success <==> stock >= 1;
      assert CounterBefore(p.ledger, p.rows, productId) == if stock >= 1 then stock - 1 else stock;
      SingleUnitPurchases(p.ledger, p.rows, productId, quantities[1..]);
      NoOversell(p.ledger, p.rows, productId, quantities[1..]);
      if quantities[1..] == [] {
        assert RunPurchases(p.ledger, p.rows, productId, quantities[1..]).ledger == p.ledger;
      }
    }
  }
}
