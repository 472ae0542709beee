/** The key builders of `RedisConfig.RedisKeys`: every Redis key the service
    uses is a fixed prefix followed by an identifier. */
module RedisKeys {
  import Decimal

  const ProductStockPrefix: string := "product:stock:"
  const ProductInfoPrefix: string := "product:info:"
  const OrderPrefix: string := "order:"
  const UserSessionPrefix: string := "session:user:"

  /** The key of a product's stock counter: the prefix, then the id in decimal. */
  function ProductStockKey(productId: int): (key: string)
    ensures |key| > |ProductStockPrefix|
    ensures key[..|ProductStockPrefix|] == ProductStockPrefix
    ensures key[|ProductStockPrefix|..] == Decimal.FromInt(productId)
  {
    ProductStockPrefix + Decimal.FromInt(productId)
  }

  /** The key of a product's cached description. */
  function ProductInfoKey(productId: int): (key: string)
    ensures |key| > |ProductInfoPrefix|
    ensures key[..|ProductInfoPrefix|] == ProductInfoPrefix
    ensures key[|ProductInfoPrefix|..] == Decimal.FromInt(productId)
  {
    ProductInfoPrefix + Decimal.FromInt(productId)
  }

  /** The key of an order record. */
  function OrderKey(orderId: string): (key: string)
    ensures |key| == |OrderPrefix| + |orderId|
    ensures key[..|OrderPrefix|] == OrderPrefix
    ensures key[|OrderPrefix|..] == orderId
  {
    OrderPrefix + orderId
  }

  /** Distinct products never share a stock counter. */
  lemma ProductStockKeyInjective(a: int, b: int)
    requires ProductStockKey(a) == ProductStockKey(b)
    ensures a == b
  {
    assert Decimal.FromInt(a) == ProductStockKey(a)[|ProductStockPrefix|..];
    Decimal.FromIntInjective(a, b);
  }

  /** The same fact, stated for two distinct ids. */
  lemma ProductStockKeysDiffer(a: int, b: int)
    requires a != b
    ensures ProductStockKey(a) != ProductStockKey(b)
  {
    if ProductStockKey(a) == ProductStockKey(b) {
      ProductStockKeyInjective(a, b);
    }
  }

  /** The stock key of a product is its id read back through the prefix. */
  lemma ProductStockKeyReadBack(productId: int)
    ensures var digits := ProductStockKey(productId)[|ProductStockPrefix|..];
      |digits| >= 1 &&
      (forall i :: 0 <= i < |digits| ==> Decimal.IsNumeral(digits[i])) &&
      (forall i :: 1 <= i < |digits| ==> Decimal.IsDigit(digits[i])) &&
      Decimal.ToInt(digits) == productId
  {
    Decimal.IntRoundTrip(productId);
  }

  lemma ProductInfoKeyInjective(a: int, b: int)
    requires ProductInfoKey(a) == ProductInfoKey(b)
    ensures a == b
  {
    assert Decimal.FromInt(a) == ProductInfoKey(a)[|ProductInfoPrefix|..];
    Decimal.FromIntInjective(a, b);
  }

  lemma OrderKeyInjective(a: string, b: string)
    requires OrderKey(a) == OrderKey(b)
    ensures a == b
  {
    assert a == OrderKey(a)[|OrderPrefix|..];
  }

  /** A stock counter never collides with a product description, whatever
      the two ids: the prefixes already differ at their ninth character. */
  lemma StockKeyIsNotInfoKey(a: int, b: int)
    ensures ProductStockKey(a) != ProductInfoKey(b)
  {
    assert ProductStockKey(a)[8] == 's';
    assert ProductInfoKey(b)[8] == 'i';
  }
}
