/** `InventoryService`: the stock ledger (the Redis counters, one per product
    stock key) in front of the durable product table, and the reservation
    that prevents overselling. */
module Inventory {
  import opened Wrappers
  import opened Http
  import Decimal
  import RedisKeys
  import opened Dto
  import opened ProductStore

  /** The Redis keyspace as the service uses it: key to counter value. */
  type Ledger = map<string, int>

  /** The ledger entry of one product, if any. */
  function Counter(ledger: Ledger, productId: int): Option<int> {
    var key := RedisKeys.ProductStockKey(productId);
    if key in ledger then Some(ledger[key]) else None
  }

  /** What one reservation attempt did with the counter. */
  datatype Reservation =
    | Refused(available: int)   // the pre-check found too few units
    | RolledBack                // the decrement went negative and was undone
    | Reserved(remaining: int)  // the units are sold; the counter's new value

  /** One reservation attempt on a counter that reads `current`: the
      insufficient-stock pre-check, then the decrement by `quantity` (after
      `adjustment`, the net change other callers make to the counter between
      the read and the decrement), then the compensating increment if the
      result is negative. Gives the counter afterwards and the outcome. */
  function Reserve(current: int, quantity: int, adjustment: int): (int, Reservation) {
    if current < quantity then
      (current, Refused(current))
    else
      var decremented := current + adjustment - quantity;
      if decremented < 0 then (decremented + quantity, RolledBack)
      else (decremented, Reserved(decremented))
  }

  /** The response a reservation outcome is reported with. */
  function ResponseFor(productId: int, quantity: int, orderId: string, outcome: Reservation): PurchaseResponse {
    match outcome
    case Refused(available) => OutOfStock(productId, quantity, available)
    case RolledBack => OutOfStock(productId, quantity, 0)
    case Reserved(remaining) => Success(orderId, productId, quantity, remaining)
  }

  /** The counter a purchase consults: the ledger entry, or the durable stock
      it is lazily seeded from. */
  function CounterBefore(ledger: Ledger, rows: Table, productId: int): int
    requires productId in rows
  {
    var key := RedisKeys.ProductStockKey(productId);
    if key in ledger then ledger[key] else rows[productId].stockQuantity
  }

  /** The state and answer after one `processPurchase`. */
  datatype Purchase = Purchase(response: PurchaseResponse, ledger: Ledger, rows: Table)

  /** The specification of `processPurchase`: existence check, lazy seeding,
      reservation, and the durable decrement of a granted purchase. */
  function PurchaseSpec(ledger: Ledger, rows: Table, request: PurchaseRequest, adjustment: int, orderId: string): Purchase {
    var productId, quantity := request.productId, request.quantity;
    if productId !in rows then
      Purchase(Failure("Product not found", productId, quantity), ledger, rows)
    else
      var key := RedisKeys.ProductStockKey(productId);
      var (after, outcome) := Reserve(CounterBefore(ledger, rows, productId), quantity, adjustment);
      Purchase(
        ResponseFor(productId, quantity, orderId, outcome),
        ledger[key := after],
        if outcome.Reserved? then Decrement(rows, productId, quantity).rows else rows)
  }

  /** The specification of `initializeStock`: copy the durable stock into
      the ledger, or throw for a missing product. */
  function SeedSpec(ledger: Ledger, rows: Table, productId: int): (Call<()>, Ledger) {
    if productId in rows then
      (Returned(()), ledger[RedisKeys.ProductStockKey(productId) := rows[productId].stockQuantity])
    else
      (Threw(IllegalArgumentException("Product not found: " + Decimal.FromInt(productId))), ledger)
  }

  /** The specification of `getCurrentStock`: the ledger entry, or else the
      durable stock (seeding the entry), or else nothing. */
  function CurrentStockSpec(ledger: Ledger, rows: Table, productId: int): (Option<int>, Ledger) {
    var key := RedisKeys.ProductStockKey(productId);
    if key in ledger then (Some(ledger[key]), ledger)
    else if productId in rows then (Some(rows[productId].stockQuantity), SeedSpec(ledger, rows, productId).1)
    else (None, ledger)
  }

  class InventoryService {
    var ledger: Ledger
    const repo: ProductRepository

    constructor (repo: ProductRepository)
      ensures this.repo == repo && ledger == map[]
    {
      this.repo := repo;
      ledger := map[];
    }

    /** `initializeStock`. */
    method InitializeStock(productId: int) returns (outcome: Call<()>)
      modifies this
      ensures (outcome, ledger) == SeedSpec(old(ledger), repo.rows, productId)
    {
      var product := repo.FindById(productId);
      if product.None? {
        return Threw(IllegalArgumentException("Product not found: " + Decimal.FromInt(productId)));
      }
      ledger := ledger[RedisKeys.ProductStockKey(productId) := product.value.stockQuantity];
      outcome := Returned(());
    }

    /** `processPurchase`. `adjustment` is what other callers do to the
        counter between this call's read and its decrement; `orderId` is the
        freshly generated order id. */
    method ProcessPurchase(request: PurchaseRequest, adjustment: int, orderId: string) returns (response: PurchaseResponse)
      modifies this, repo
      ensures Purchase(response, ledger, repo.rows) == PurchaseSpec(old(ledger), old(repo.rows), request, adjustment, orderId)
      ensures repo.nextId == old(repo.nextId)
    {
      var productId, quantity := request.productId, request.quantity;
      if !repo.ExistsById(productId) {
        return Failure("Product not found", productId, quantity);
      }
      var key := RedisKeys.ProductStockKey(productId);
      ghost var before := CounterBefore(old(ledger), old(repo.rows), productId);
      if key !in ledger {
        var _ := InitializeStock(productId);
      }
      var current := ledger[key];
      assert current == before && ledger == old(ledger)[key := before];
      if current < quantity {
        return OutOfStock(productId, quantity, current);
      }
      ledger := ledger[key := ledger[key] + adjustment];
      ledger := ledger[key := ledger[key] - quantity];
      var remaining := ledger[key];
      assert remaining == before + adjustment - quantity && ledger == old(ledger)[key := remaining];
      if remaining < 0 {
        ledger := ledger[key := ledger[key] + quantity];
        return OutOfStock(productId, quantity, 0);
      }
      SyncStockToDatabase(productId, quantity);
      response := Success(orderId, productId, quantity, remaining);
    }

    /** `syncStockToDatabase`: the durable conditional decrement, whose
        refusal is only logged. */
    method SyncStockToDatabase(productId: int, quantitySold: int)
      modifies repo
      ensures repo.rows == Decrement(old(repo.rows), productId, quantitySold).rows
      ensures repo.nextId == old(repo.nextId)
    {
      var _ := repo.DecrementStock(productId, quantitySold);
    }

    /** `getCurrentStock`. */
    method GetCurrentStock(productId: int) returns (stock: Option<int>)
      modifies this
      ensures (stock, ledger) == CurrentStockSpec(old(ledger), repo.rows, productId)
    {
      var key := RedisKeys.ProductStockKey(productId);
      if key !in ledger {
        var product := repo.FindById(productId);
        if product.Some? {
          var _ := InitializeStock(productId);
          return Some(product.value.stockQuantity);
        }
        return None;
      }
      stock := Some(ledger[key]);
    }

    /** `resetStock`: overwrite the counter, whatever it held. */
    method ResetStock(productId: int, stock: int)
      modifies this
      ensures ledger == old(ledger)[RedisKeys.ProductStockKey(productId) := stock]
    {
      ledger := ledger[RedisKeys.ProductStockKey(productId) := stock];
    }
  }
}
