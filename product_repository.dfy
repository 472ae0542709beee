/** The durable product table behind `ProductRepository`: rows keyed by id,
    with the semantics of the repository's JPQL queries. Prices are left out. */
module ProductStore {
  import opened Wrappers

  datatype Product = Product(id: int, name: string, stockQuantity: int)

  type Table = map<int, Product>

  /** The rows after the conditional update, and the update count it reports. */
  datatype DecrementResult = DecrementResult(rows: Table, updated: int)

  /** `UPDATE Product p SET p.stockQuantity = p.stockQuantity - :quantity
      WHERE p.id = :productId AND p.stockQuantity >= :quantity`. */
  function Decrement(rows: Table, productId: int, quantity: int): (r: DecrementResult)
    ensures r.updated == 1 <==> productId in rows && rows[productId].stockQuantity >= quantity
    ensures r.updated in {0, 1}
    ensures r.updated == 0 ==> r.rows == rows
    ensures r.rows.Keys == rows.Keys
    ensures r.updated == 1 ==> r.rows[productId].stockQuantity == rows[productId].stockQuantity - quantity
    ensures forall id :: id in rows && id != productId ==> r.rows[id] == rows[id]
    ensures forall id :: id in rows ==> r.rows[id].id == rows[id].id && r.rows[id].name == rows[id].name
  {
    if productId in rows && rows[productId].stockQuantity >= quantity then
      var p := rows[productId];
      DecrementResult(rows[productId := p.(stockQuantity := p.stockQuantity - quantity)], 1)
    else
      DecrementResult(rows, 0)
  }

  /** Every row's stock is at least zero. */
  ghost predicate StocksNonNegative(rows: Table) {
    forall id :: id in rows ==> rows[id].stockQuantity >= 0
  }

  /** The guard of the update keeps the row it changes at zero or above,
      whatever the quantity, so a table without negative stock keeps none. */
  lemma DecrementKeepsStocksNonNegative(rows: Table, productId: int, quantity: int)
    requires StocksNonNegative(rows)
    ensures StocksNonNegative(Decrement(rows, productId, quantity).rows)
  {
  }

  /** The outcome of a derived query that expects at most one row. */
  datatype Lookup = NoMatch | Match(product: Product) | NotUnique

  class ProductRepository {
    var rows: Table
    /** The id the database will generate for the next inserted row. */
    var nextId: int

    /** Every row is stored under its own id, below the next generated id. */
    ghost predicate Valid()
      reads this
    {
      forall id :: id in rows ==> rows[id].id == id && id < nextId
    }

    constructor ()
      ensures Valid() && rows == map[] && nextId == 1
    {
      rows := map[];
      nextId := 1;
    }

    /** `existsById`: whether a lookup by id finds a row. */
    predicate ExistsById(productId: int): (r: bool)
      reads this
      ensures r <==> FindById(productId).Some?
      ensures r <==> GetStockQuantity(productId).Some?
    {
      productId in rows
    }

    function FindById(productId: int): (r: Option<Product>)
      reads this
      ensures r.Some? <==> productId in rows
      ensures r.Some? ==> r.value == rows[productId]
    {
      if productId in rows then Some(rows[productId]) else None
    }

    function Count(): (n: nat)
      reads this
      ensures n == 0 <==> rows == map[]
    {
      |rows|
    }

    /** `findByName`: no row, the one row, or an error for several rows.
        Ghost, because which row a set of matches yields is a choice. */
    ghost function FindByName(name: string): (r: Lookup)
      reads this
      ensures r == NoMatch <==> forall id :: id in rows ==> rows[id].name != name
      ensures r.Match? ==> r.product in rows.Values && r.product.name == name
      ensures r.Match? ==> forall id :: id in rows && rows[id].name == name ==> rows[id] == r.product
      ensures r == NotUnique ==>
        exists a, b :: a in rows && b in rows && a != b && rows[a].name == name && rows[b].name == name
    {
      var matches := set id | id in rows && rows[id].name == name;
      if |matches| == 0 then
        assert forall id :: id in rows ==> rows[id].name != name by {
          forall id | id in rows ensures rows[id].name != name {
            assert id !in matches;
          }
        }
        NoMatch
      else if |matches| == 1 then
        assert exists id :: id in matches by { var x := PickOne(matches); }
        var id :| id in matches;
        assert matches == {id} by { SingletonHasOneElement(matches, id); }
        assert forall other :: other in rows && rows[other].name == name ==> other == id by {
          forall other | other in rows && rows[other].name == name ensures other == id {
            assert other in matches;
          }
        }
        Match(rows[id])
      else
        assert exists a :: a in matches by { var x := PickOne(matches); }
        var a :| a in matches;
        assert exists b :: b in matches - {a} by { var x := PickOne(matches - {a}); }
        var b :| b in matches - {a};
        NotUnique
    }

    /** The SELECT CASE query: whether the row holds at least `quantity`
        units; `None` when the query finds no row. */
    function HasStockAvailable(productId: int, quantity: int): (r: Option<bool>)
      reads this
      ensures r.Some? <==> productId in rows
      ensures r == Some(true) <==> productId in rows && rows[productId].stockQuantity >= quantity
    {
      if productId in rows then Some(rows[productId].stockQuantity >= quantity) else None
    }

    function GetStockQuantity(productId: int): (r: Option<int>)
      reads this
      ensures r.Some? <==> productId in rows
      ensures r.Some? ==> r.value == rows[productId].stockQuantity
    {
      if productId in rows then Some(rows[productId].stockQuantity) else None
    }

    /** `save` of a new entity: the database assigns the next id. */
    method Save(name: string, stockQuantity: int) returns (saved: Product)
      requires Valid()
      modifies this
      ensures Valid()
      ensures saved == Product(old(nextId), name, stockQuantity)
      ensures old(nextId) !in old(rows)
      ensures rows == old(rows)[saved.id := saved] && nextId == old(nextId) + 1
    {
      saved := Product(nextId, name, stockQuantity);
      rows := rows[nextId := saved];
      nextId := nextId + 1;
    }

    /** The conditional decrement, applied in place. */
    method DecrementStock(productId: int, quantity: int) returns (updated: int)
      modifies this
      ensures DecrementResult(rows, updated) == Decrement(old(rows), productId, quantity)
      ensures nextId == old(nextId)
      ensures old(Valid()) ==> Valid()
    {
      if productId in rows && rows[productId].stockQuantity >= quantity {
        var p := rows[productId];
        rows := rows[productId := p.(stockQuantity := p.stockQuantity - quantity)];
        updated := 1;
      } else {
        updated := 0;
      }
    }
  }

  lemma PickOne<T>(s: set<T>) returns (x: T)
    requires |s| != 0
    ensures x in s
  {
    x :| x in s;
  }

  lemma SingletonHasOneElement<T>(s: set<T>, x: T)
    requires |s| == 1 && x in s
    ensures s == {x}
  {
    assert |s - {x}| == |s| - 1 == 0;
    assert s - {x} == {};
    assert forall y :: y in s ==> y == x by {
      forall y | y in s ensures y == x {
        assert y !in s - {x};
      }
    }
  }
}
