/** `Shop\Checkout\Cart`: a product collection that counts, across every
    cart, the items removed from carts, and that can total its prices.

    The class extends `ProductCollection`; here a cart holds its collection
    state in `items` and reaches the inherited operations through it, while
    `RemoveItem`, `RemoveAllItems` and `DecreaseQty` below are the ones a
    cart answers with. The static `$removedItemsCounter` is one
    `RemovedCounter` object that every cart refers to. */
module Checkout {
  import opened Seqs
  import opened Catalog
  import opened Shop

  /** `Cart::$removedItemsCounter`, shared by all carts; it starts at 0 and
      is only ever raised. */
  class RemovedCounter {
    var count: nat

    constructor ()
      ensures count == 0
    {
      count := 0;
    }

    /** `Cart::getRemovedProductsCount`. */
    function GetRemovedProductsCount(): nat
      reads this
    {
      count
    }
  }

  /** The sum of the prices of the products stored under `keys`, each key
      counted once and quantities ignored. */
  function SumPrices(keys: seq<string>, data: map<string, ItemData>): real
    requires forall k :: k in keys ==> k in data
    reads set k | k in data :: data[k].item
  {
    if keys == [] then 0.0
    else SumPrices(keys[..|keys| - 1], data) + data[keys[|keys| - 1]].item.price
  }

  /** Only the products under `keys` matter: two maps that store the same
      products there give the same sum. */
  lemma {:induction false} SumPricesSameItems(keys: seq<string>, data: map<string, ItemData>, data': map<string, ItemData>)
    requires forall k :: k in keys ==> k in data && k in data' && data[k].item == data'[k].item
    ensures SumPrices(keys, data) == SumPrices(keys, data')
  {
    if keys != [] {
      SumPricesSameItems(keys[..|keys| - 1], data, data');
    }
  }

  /** Changing a quantity does not change the sum. */
  lemma SumPricesIgnoresQty(keys: seq<string>, data: map<string, ItemData>, k: string, qty: int)
    requires forall j :: j in keys ==> j in data
    requires k in data
    ensures SumPrices(keys, data[k := ItemData(data[k].item, qty)]) == SumPrices(keys, data)
  {
    SumPricesSameItems(keys, data, data[k := ItemData(data[k].item, qty)]);
  }

  /** Storing a new key at the end adds its product's price once. */
  lemma SumPricesAppend(keys: seq<string>, data: map<string, ItemData>, k: string, e: ItemData)
    requires forall j :: j in keys ==> j in data
    requires k !in keys
    ensures SumPrices(keys + [k], data[k := e]) == SumPrices(keys, data) + e.item.price
  {
    assert (keys + [k])[..|keys|] == keys;
    SumPricesSameItems(keys, data, data[k := e]);
  }

  /** The sum over two key lists one after the other is the sum of the two sums. */
  lemma {:induction false} SumPricesConcat(a: seq<string>, b: seq<string>, data: map<string, ItemData>)
    requires forall k :: k in a + b ==> k in data
    ensures SumPrices(a + b, data) == SumPrices(a, data) + SumPrices(b, data)
  {
    if b != [] {
      var init := b[..|b| - 1];
      assert (a + b)[..|a + b| - 1] == a + init;
      SumPricesConcat(a, init, data);
    } else {
      assert a + b == a;
    }
  }

  /** Removing a key takes its product's price off the sum once. */
  lemma SumPricesRemove(keys: seq<string>, data: map<string, ItemData>, k: string)
    requires forall j :: j in keys ==> j in data
    requires NoDuplicates(keys) && k in keys
    ensures forall j :: j in RemoveFirst(keys, k) ==> j in data - {k}
    ensures SumPrices(RemoveFirst(keys, k), data - {k}) == SumPrices(keys, data) - data[k].item.price
  {
    var i := IndexOf(keys, k);
    var a, b := keys[..i], keys[i + 1..];
    var rest := data - {k};
    RemoveFirstSplit(keys, k);
    assert keys == (a + [k]) + b;
    assert forall j :: j in a ==> j in keys;
    assert forall j :: j in b ==> j in keys;
    calc {
      SumPrices(keys, data);
      { SumPricesConcat(a + [k], b, data); }
      SumPrices(a + [k], data) + SumPrices(b, data);
      { SumPricesSnoc(a, k, data); }
      SumPrices(a, data) + data[k].item.price + SumPrices(b, data);
      { SumPricesSameItems(a, data, rest); SumPricesSameItems(b, data, rest); }
      SumPrices(a, rest) + SumPrices(b, rest) + data[k].item.price;
      { SumPricesConcat(a, b, rest); }
      SumPrices(a + b, rest) + data[k].item.price;
    }
  }

  /** One more key adds its product's price. */
  lemma SumPricesSnoc(keys: seq<string>, k: string, data: map<string, ItemData>)
    requires forall j :: j in keys ==> j in data
    requires k in data
    ensures SumPrices(keys + [k], data) == SumPrices(keys, data) + data[k].item.price
  {
    assert (keys + [k])[..|keys|] == keys;
  }

  class Cart {
    /** The state inherited from `ProductCollection`. */
    const items: ProductCollection
    /** The class-wide removed-items counter. */
    const counter: RemovedCounter

    ghost predicate Consistent()
      reads this, items
    {
      items.Consistent()
    }

    constructor (id: string, counter: RemovedCounter)
      ensures Consistent() && fresh(items)
      ensures items.id == id && items.itemsData == map[] && items.itemIds == [] && items.position == 0
      ensures this.counter == counter
    {
      items := new ProductCollection(id);
      this.counter := counter;
    }

    /** `Cart::removeItem`: the collection's removal, and the shared counter
        goes up by exactly 1 on every call, even when the id was absent and
        nothing else changed. */
    method RemoveItem(id: string)
      requires Consistent()
      modifies items, counter
      ensures Consistent()
      ensures counter.count == old(counter.count) + 1
      ensures old(id !in items.itemsData) ==>
        items.itemsData == old(items.itemsData) && items.dataKeys == old(items.dataKeys) && items.itemIds == old(items.itemIds)
      ensures old(id in items.itemsData) ==>
        items.itemsData == old(items.itemsData) - {id} &&
        items.itemIds == RemoveFirst(old(items.itemIds), id) &&
        items.dataKeys == RemoveFirst(old(items.dataKeys), id)
      ensures !items.HasItem(id)
      ensures items.position == old(items.position)
    {
      items.RemoveItem(id);
      counter.count := counter.count + 1;
    }

    /** `Cart::removeAllItems`: the counter goes up by the number of distinct
        entries held before, then the collection is emptied. */
    method RemoveAllItems()
      requires Consistent()
      modifies items, counter
      ensures Consistent()
      ensures counter.count == old(counter.count) + old(items.Count())
      ensures items.itemsData == map[] && items.dataKeys == [] && items.itemIds == []
      ensures items.IsEmpty() && items.Count() == 0
      ensures items.position == old(items.position)
    {
      var currentItemsCount := items.Count();
      counter.count := counter.count + currentItemsCount;
      items.RemoveAllItems();
    }

    /** The inherited `decreaseQty`, whose call to `removeItem` reaches the
        cart's override: a quantity brought to exactly 0 removes the entry and
        raises the counter by 1; any other call leaves the counter alone. */
    method DecreaseQty(id: string, qty: int)
      requires Consistent()
      modifies items, counter
      ensures Consistent()
      ensures old(id !in items.itemsData) ==>
        items.itemsData == old(items.itemsData) && items.dataKeys == old(items.dataKeys) &&
        items.itemIds == old(items.itemIds) && counter.count == old(counter.count)
      ensures old(id in items.itemsData) && old(items.itemsData[id].qty) - qty != 0 ==>
        items.itemsData == old(items.itemsData)[id := ItemData(old(items.itemsData[id].item), old(items.itemsData[id].qty) - qty)] &&
        items.dataKeys == old(items.dataKeys) && items.itemIds == old(items.itemIds) &&
        counter.count == old(counter.count)
      ensures old(id in items.itemsData) && old(items.itemsData[id].qty) - qty == 0 ==>
        items.itemsData == old(items.itemsData) - {id} &&
        items.itemIds == RemoveFirst(old(items.itemIds), id) &&
        items.dataKeys == RemoveFirst(old(items.dataKeys), id) &&
        counter.count == old(counter.count) + 1
      ensures items.position == old(items.position)
    {
      var reachedZero := items.SubtractQty(id, qty);
      if reachedZero {
        RemoveItem(id);
      }
    }

    /** `Cart::getTotal`: the prices of the stored products added up in the
        order of `itemsData`, each entry once whatever its quantity. */
    method GetTotal() returns (total: real)
      requires Consistent()
      ensures total == SumPrices(items.dataKeys, items.itemsData)
      ensures items.IsEmpty() ==> total == 0.0
    {
      total := 0.0;
      var keys := items.dataKeys;
      var i := 0;
      while i < |keys|
        invariant 0 <= i <= |keys|
        invariant total == SumPrices(keys[..i], items.itemsData)
      {
        assert keys[..i + 1][..i] == keys[..i];
        total := total + items.itemsData[keys[i]].item.GetPrice();
        i := i + 1;
      }
      assert keys[..i] == keys;
      items.CountMatchesKeys();
    }

    /** `Cart::__invoke`: calling the cart on a product is `addItem`. */
    method Invoke(product: Product) returns (ok: bool)
      requires Consistent()
      modifies items
      ensures Consistent()
      ensures ok <==> product.id.Some?
      ensures !ok ==>
        items.itemsData == old(items.itemsData) && items.dataKeys == old(items.dataKeys) && items.itemIds == old(items.itemIds)
      ensures ok ==>
        var k := product.id.value;
        items.itemsData == old(items.itemsData)[k := ItemData(product, 1)] &&
        items.itemIds == old(items.itemIds) + [k] &&
        items.dataKeys == if k in old(items.itemsData) then old(items.dataKeys) else old(items.dataKeys) + [k]
      ensures items.position == old(items.position)
    {
      ok := items.AddItem(product);
    }
  }

  /** The removed-items lines of the demo script, with products that carry
      ids: a cart with two samples loses one by `removeItem` (the counter reads
      1) and the other by `removeAllItems` (2); a second cart with two ebooks
      is cleared (4). Both carts share the counter. */
  method RemovedCountScenario() returns (first: nat, second: nat, third: nat)
    ensures first == 1 && second == 2 && third == 4
  {
    var counter := new RemovedCounter();
    var ebook := new Product.Identified("ebook", "Something Wicked This Way Comes", 7.02, Ebook("Ray Bradbury", "pdf"));
    var audiobook := new Product.Identified("audiobook", "The Song of Achilles", 10.95, Audiobook("Madeline Miller", 690.0));
    var audiobookSample := new Product.Identified("audiobookSample", "The Song of Achilles Sample", 0.0, AudiobookSample(audiobook, 5.0));
    var ebookSample := new Product.Identified("ebookSample", "Something Wicked This Way Comes Sample", 0.0, EbookSample(ebook));
    first, second := SampleCartScenario(counter, audiobookSample, ebookSample);
    third := EbookCartScenario(counter);
  }

  /** The first cart of `RemovedCountScenario`. */
  method SampleCartScenario(counter: RemovedCounter, audiobookSample: Product, ebookSample: Product) returns (first: nat, second: nat)
    requires audiobookSample.id == Some("audiobookSample") && ebookSample.id == Some("ebookSample")
    modifies counter
    ensures first == old(counter.count) + 1 && second == old(counter.count) + 2
    ensures counter.count == second
  {
    var cart := CartOfTwo("cart", counter, audiobookSample, ebookSample);
    cart.RemoveItem("audiobookSample");
    first := counter.GetRemovedProductsCount();
    assert cart.items.itemsData == map["audiobookSample" := ItemData(audiobookSample, 1), "ebookSample" := ItemData(ebookSample, 1)] - {"audiobookSample"};
    assert cart.items.itemsData.Keys == {"ebookSample"};
    assert |cart.items.itemsData| == 1;
    cart.RemoveAllItems();
    second := counter.GetRemovedProductsCount();
  }

  /** The second cart of `RemovedCountScenario`. */
  method EbookCartScenario(counter: RemovedCounter) returns (third: nat)
    modifies counter
    ensures third == old(counter.count) + 2 && counter.count == third
  {
    var differentEbook := new Product.Identified("differentEbook", "Norse Mythology", 11.89, Ebook("Neil Gaiman", "epub"));
    var differentEbook1 := new Product.Identified("differentEbook1", "Space Opera", 13.59, Ebook("Catherynne Valente", "mobi"));
    var differentCart := CartOfTwo("differentCart", counter, differentEbook, differentEbook1);
    differentCart.RemoveAllItems();
    third := counter.GetRemovedProductsCount();
  }

  /** A new cart on the shared counter, holding two products with distinct ids. */
  method CartOfTwo(id: string, counter: RemovedCounter, p: Product, q: Product) returns (cart: Cart)
    requires p.id.Some? && q.id.Some? && p.id != q.id
    ensures cart.Consistent() && fresh(cart.items) && cart.counter == counter
    ensures cart.items.itemsData == map[p.id.value := ItemData(p, 1), q.id.value := ItemData(q, 1)]
    ensures cart.items.Count() == 2
  {
    cart := new Cart(id, counter);
    var ok := cart.items.AddItem(p);
    ok := cart.items.AddItem(q);
    assert cart.items.itemsData.Keys == {p.id.value, q.id.value};
  }

  /** The demo script as written: its products come from constructors that
      never set an id, so the first `addItem` on the cart raises a
      `TypeError` and the cart stays empty. */
  method DemoScriptFirstAdd() returns (ok: bool, count: nat)
    ensures !ok && count == 0
  {
    var audiobook := new Product.Book("The Song of Achilles", 10.95, Audiobook("Madeline Miller", 690.0));
    var audiobookSample := new Product.AudiobookSampleOf("The Song of Achilles Sample", 0.0, audiobook, 5.0);
    var counter := new RemovedCounter();
    var cart := new Cart("cart", counter);
    ok := cart.items.AddItem(audiobookSample);
    count := cart.items.Count();
  }
}
