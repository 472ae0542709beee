/** `DataSeeder.initDatabase`: the start-up runner that fills an empty
    product table with the flash-sale catalogue, or else copies every
    existing product's durable stock into the ledger. */
module Seeder {
  import opened Wrappers
  import RedisKeys
  import opened ProductStore
  import opened Inventory

  datatype SeedItem = SeedItem(name: string, stock: int)

  /** The five products created on an empty table, in creation order. */
  const Catalogue: seq<SeedItem> := [
    SeedItem("iPhone 15 Pro - Flash Sale", 1000),
    SeedItem("Samsung Galaxy S24 - Flash Sale", 500),
    SeedItem("MacBook Pro M3 - Flash Sale", 100),
    SeedItem("PlayStation 5 - Flash Sale", 200),
    SeedItem("AirPods Pro - Flash Sale", 2000)
  ]

  /** The stock keys of a set of products. */
  function StockKeys(ids: set<int>): set<string> {
    set id | id in ids :: RedisKeys.ProductStockKey(id)
  }

  /** The ledger agrees with `before` on every key outside `keys`. */
  ghost predicate AgreesOutside(ledger: Ledger, before: Ledger, keys: set<string>) {
    forall key :: key !in keys ==>
      (key in ledger <==> key in before) && (key in ledger ==> ledger[key] == before[key])
  }

  /** One block of the empty-table branch: save a new product, then seed
      its ledger entry. */
  method SeedProduct(repo: ProductRepository, service: InventoryService, item: SeedItem) returns (id: int)
    requires service.repo == repo && repo.Valid()
    modifies repo, service
    ensures repo.Valid()
    ensures id == old(repo.nextId) && repo.nextId == id + 1 && id !in old(repo.rows)
    ensures repo.rows == old(repo.rows)[id := Product(id, item.name, item.stock)]
    ensures service.ledger == old(service.ledger)[RedisKeys.ProductStockKey(id) := item.stock]
    ensures Counter(service.ledger, id) == Some(item.stock)
    ensures forall other :: other != id ==> Counter(service.ledger, other) == Counter(old(service.ledger), other)
    ensures AgreesOutside(service.ledger, old(service.ledger), {RedisKeys.ProductStockKey(id)})
  {
    var saved := repo.Save(item.name, item.stock);
    var _ := service.InitializeStock(saved.id);
    id := saved.id;
    forall other | other != id
      ensures Counter(service.ledger, other) == Counter(old(service.ledger), other)
    {
      RedisKeys.ProductStockKeysDiffer(other, id);
    }
  }

  /** The non-empty branch: every existing product's counter is overwritten
      with its durable stock, in whatever order the table yields them. */
  method InitializeAll(repo: ProductRepository, service: InventoryService)
    requires service.repo == repo && repo.Valid()
    modifies service
    ensures forall id :: id in repo.rows ==> Counter(service.ledger, id) == Some(repo.rows[id].stockQuantity)
    ensures AgreesOutside(service.ledger, old(service.ledger), StockKeys(repo.rows.Keys))
  {
    var pending := repo.rows.Keys;
    ghost var done: set<int> := {};
    while pending != {}
      invariant pending + done == repo.rows.Keys && pending !! done
      invariant forall id :: id in done ==> Counter(service.ledger, id) == Some(repo.rows[id].stockQuantity)
      invariant AgreesOutside(service.ledger, old(service.ledger), StockKeys(done))
      decreases pending
    {
      assert exists id :: id in pending by { var x := PickOne(pending); }
      var id :| id in pending;
      // A failed initialisation would only be logged; the loop goes on.
      var _ := service.InitializeStock(id);
      forall other | other in done
        ensures RedisKeys.ProductStockKey(other) != RedisKeys.ProductStockKey(id)
      {
        RedisKeys.ProductStockKeysDiffer(other, id);
      }
      pending := pending - {id};
      done := done + {id};
    }
  }

  /** The first `k` catalogue products are the whole table, each under
      `first` plus its position, and each one's counter equals its stock. */
  ghost predicate SeededUpTo(rows: Table, ledger: Ledger, first: int, k: nat) {
    && k <= |Catalogue|
    && (forall id :: id in rows <==> first <= id < first + k)
    && (forall i :: 0 <= i < k ==>
          first + i in rows &&
          rows[first + i] == Product(first + i, Catalogue[i].name, Catalogue[i].stock) &&
          Counter(ledger, first + i) == Some(Catalogue[i].stock))
  }

  /** Seeding the next catalogue product extends the seeded prefix by one. */
  lemma SeedStep(rows: Table, ledger: Ledger, rows': Table, ledger': Ledger, first: int, k: nat)
    requires SeededUpTo(rows, ledger, first, k) && k < |Catalogue|
    requires rows' == rows[first + k := Product(first + k, Catalogue[k].name, Catalogue[k].stock)]
    requires Counter(ledger', first + k) == Some(Catalogue[k].stock)
    requires forall other :: other != first + k ==> Counter(ledger', other) == Counter(ledger, other)
    ensures SeededUpTo(rows', ledger', first, k + 1)
  {
  }

  /** Since `before`, the ledger changed only at the counters of `rows`. */
  ghost predicate ChangedOnlyAt(ledger: Ledger, before: Ledger, rows: Table) {
    && (forall other :: other !in rows ==> Counter(ledger, other) == Counter(before, other))
    && AgreesOutside(ledger, before, StockKeys(rows.Keys))
  }

  /** Seeding one more product extends the set of changed counters by its own. */
  lemma ChangedStep(ledger: Ledger, before: Ledger, rows: Table, ledger': Ledger, rows': Table, id: int, p: Product)
    requires ChangedOnlyAt(ledger, before, rows)
    requires rows' == rows[id := p]
    requires forall other :: other != id ==> Counter(ledger', other) == Counter(ledger, other)
    requires AgreesOutside(ledger', ledger, {RedisKeys.ProductStockKey(id)})
    ensures ChangedOnlyAt(ledger', before, rows')
  {
    assert RedisKeys.ProductStockKey(id) in StockKeys(rows'.Keys);
    forall key | key in StockKeys(rows.Keys) ensures key in StockKeys(rows'.Keys) {
      var k :| k in rows.Keys && RedisKeys.ProductStockKey(k) == key;
      assert k in rows'.Keys;
    }
  }

  /** The state after the first `k` blocks of the empty-table branch, which
      started from ledger `before` with next id `first`. */
  ghost predicate Stage(repo: ProductRepository, ledger: Ledger, first: int, before: Ledger, k: nat)
    reads repo
  {
    && repo.Valid()
    && repo.nextId == first + k
    && SeededUpTo(repo.rows, ledger, first, k)
    && ChangedOnlyAt(ledger, before, repo.rows)
  }

  /** The block for catalogue position `k`: the seeded prefix grows by
      that product, and the ledger still changed only at seeded counters. */
  method SeedNext(repo: ProductRepository, service: InventoryService, k: nat, ghost first: int, ghost before: Ledger)
    requires service.repo == repo && k < |Catalogue| && Stage(repo, service.ledger, first, before, k)
    modifies repo, service
    ensures Stage(repo, service.ledger, first, before, k + 1)
  {
    ghost var rows, ledger := repo.rows, service.ledger;
    var id := SeedProduct(repo, service, Catalogue[k]);
    SeedStep(rows, ledger, repo.rows, service.ledger, first, k);
    ChangedStep(ledger, before, rows, service.ledger, repo.rows, id, Product(id, Catalogue[k].name, Catalogue[k].stock));
  }

  /** The empty-table branch: the five catalogue products are saved one by
      one, in catalogue order, each followed by the seeding of its counter.
      The source writes the five blocks out; here they are one iteration
      over the catalogue. */
  method SeedCatalogue(repo: ProductRepository, service: InventoryService)
    requires service.repo == repo && repo.Valid() && repo.rows == map[]
    modifies repo, service
    ensures repo.Valid()
    ensures SeededUpTo(repo.rows, service.ledger, old(repo.nextId), 5)
    ensures repo.nextId == old(repo.nextId) + 5
    ensures ChangedOnlyAt(service.ledger, old(service.ledger), repo.rows)
  {
    ghost var first, before := repo.nextId, service.ledger;
    for k := 0 to |Catalogue|
      invariant service.repo == repo
      invariant Stage(repo, service.ledger, first, before, k)
    {
      SeedNext(repo, service, k, first, before);
    }
  }

  method InitDatabase(repo: ProductRepository, service: InventoryService)
    requires service.repo == repo && repo.Valid()
    modifies repo, service
    ensures repo.Valid()
    // A non-empty table: nothing is created, and every product's counter is
    // overwritten with its durable stock; no other key changes.
    ensures old(repo.Count()) > 0 ==>
      && repo.rows == old(repo.rows) && repo.nextId == old(repo.nextId)
      && (forall id :: id in repo.rows ==> Counter(service.ledger, id) == Some(repo.rows[id].stockQuantity))
      && AgreesOutside(service.ledger, old(service.ledger), StockKeys(repo.rows.Keys))
    // An empty table: the five catalogue products are created in order with
    // consecutive ids, each one's counter equals its stock, and no other
    // key changes.
    ensures old(repo.Count()) == 0 ==>
      && SeededUpTo(repo.rows, service.ledger, old(repo.nextId), 5)
      && repo.nextId == old(repo.nextId) + 5
      && ChangedOnlyAt(service.ledger, old(service.ledger), repo.rows)
  {
    if repo.Count() > 0 {
      InitializeAll(repo, service);
    } else {
      SeedCatalogue(repo, service);
    }
  }
}
