/** `Shop\ProductCollection`: a keyed, ordered collection of products with
    quantities, and the `Iterator` over it.

    The source keeps two PHP arrays. `itemsData` maps an id to an
    `{item, qty}` record; a PHP array keeps its keys in insertion order, so
    it is modelled as the map `itemsData` together with `dataKeys`, the order
    of its keys. `itemIds` is a separate list of ids that the iterator walks;
    `addItem` appends to it every time, so an id added twice is listed twice
    while `itemsData` holds it once. */
module Shop {
  import opened Seqs
  import opened Catalog

  /** One entry of `itemsData`: `array('item' => $product, 'qty' => $qty)`. */
  datatype ItemData = ItemData(item: Product, qty: int)

  /** The entries of `itemsData` in the order of `keys`. */
  function Entries(keys: seq<string>, data: map<string, ItemData>): (r: seq<(string, ItemData)>)
    requires forall k :: k in keys ==> k in data
    ensures |r| == |keys|
    ensures forall i :: 0 <= i < |r| ==> r[i] == (keys[i], data[keys[i]])
  {
    if keys == [] then []
    else [(keys[0], data[keys[0]])] + Entries(keys[1..], data)
  }

  /** The collection's invariant: `keys` lists each key of `data` once and
      nothing else; every key is also in `ids` (which may hold more, see
      `ProductCollection.RemoveItem`); each entry is stored under its
      product's id. */
  ghost predicate ConsistentState(data: map<string, ItemData>, keys: seq<string>, ids: seq<string>) {
    NoDuplicates(keys) &&
    (forall k :: k in data <==> k in keys) &&
    (forall k :: k in data ==> k in ids) &&
    (forall k :: k in data ==> data[k].item.id == Some(k))
  }

  /** Listed in key order, a consistent collection's entries are all of
      them, each once. */
  lemma EntriesOfConsistent(data: map<string, ItemData>, keys: seq<string>, ids: seq<string>)
    requires ConsistentState(data, keys, ids)
    ensures |Entries(keys, data)| == |data|
    ensures forall i :: 0 <= i < |keys| ==> Entries(keys, data)[i].0 in data
    ensures forall k :: k in data ==> (k, data[k]) in Entries(keys, data)
    ensures forall i, j :: 0 <= i < j < |keys| ==> Entries(keys, data)[i].0 != Entries(keys, data)[j].0
  {
    KeysCount(data, keys, ids);
    EntriesCover(data, keys);
  }

  /** There are as many entries as keys in the key order. */
  lemma KeysCount(data: map<string, ItemData>, keys: seq<string>, ids: seq<string>)
    requires ConsistentState(data, keys, ids)
    ensures |data| == |keys|
  {
    DistinctCardinality(keys);
    assert data.Keys == set k | k in keys;
  }

  lemma EntriesCover(data: map<string, ItemData>, keys: seq<string>)
    requires forall k :: k in data <==> k in keys
    ensures forall k :: k in data ==> (k, data[k]) in Entries(keys, data)
  {
    forall k | k in data ensures (k, data[k]) in Entries(keys, data) {
      var i := IndexOf(keys, k);
      assert Entries(keys, data)[i] == (k, data[k]);
    }
  }

  /** Dropping a stored id from the entries, from the key order and (its
      first copy) from the iteration list keeps the invariant. */
  lemma RemovePreservesConsistency(data: map<string, ItemData>, keys: seq<string>, ids: seq<string>, id: string)
    requires ConsistentState(data, keys, ids) && id in data
    ensures ConsistentState(data - {id}, RemoveFirst(keys, id), RemoveFirst(ids, id))
  {
    var keys' := RemoveFirst(keys, id);
    var ids' := RemoveFirst(ids, id);
    RemoveFirstDistinct(keys, id);
    RemoveFirstCounts(keys, id);
    forall k | k in data && k != id ensures k in ids' && k in keys' {
      RemoveFirstKeepsOthers(ids, id, k);
      RemoveFirstKeepsOthers(keys, id, k);
    }
    forall k | k in keys' ensures k in data && k != id {
      assert k in multiset(keys');
    }
    KeysCount(data, keys, ids);
    KeysCount(data - {id}, keys', ids');
  }

  /** The PHP values `getItem` can hand back: a product object, the
      `{item, qty}` array of an entry, or null. */
  datatype PhpValue = ProductObject(product: Product) | ItemArray(entry: ItemData) | NullValue

  /** The check PHP applies to the value returned by a method declared
      `: ProductInterface`: a product object passes, anything else (an
      array, null) raises a `TypeError`. */
  function ReturnAsProduct(v: PhpValue): (r: Result<Product>)
    ensures r.Ok? <==> v.ProductObject?
    ensures r.Ok? ==> r.value == v.product
  {
    match v
    case ProductObject(p) => Ok(p)
    case _ => TypeError
  }

  /** Removing a key forgets what was last stored under it. */
  lemma MapRemoveOverwritten(m: map<string, ItemData>, k: string, v: ItemData)
    ensures m[k := v] - {k} == m - {k}
  {
  }

  class ProductCollection {
    /** The collection's own id, produced by the id generator. */
    const id: string
    var itemsData: map<string, ItemData>
    /** The insertion order of the keys of `itemsData`. */
    var dataKeys: seq<string>
    var itemIds: seq<string>
    var position: nat

    /** What every operation keeps; see `ConsistentState`. */
    ghost predicate Consistent()
      reads this
    {
      ConsistentState(itemsData, dataKeys, itemIds)
    }

    constructor (id: string)
      ensures Consistent()
      ensures this.id == id
      ensures itemsData == map[] && dataKeys == [] && itemIds == [] && position == 0
    {
      this.id := id;
      itemsData := map[];
      dataKeys := [];
      itemIds := [];
      position := 0;
    }

    function GetId(): string {
      id
    }

    /** `addItem`: stores the product under its id with quantity 1, replacing
        any entry already there (its place in `dataKeys` is kept), and appends
        the id to `itemIds` even when it is already listed. A product without
        an id makes `getId()` raise a `TypeError` before anything changes;
        `ok` is false then. */
    method AddItem(product: Product) returns (ok: bool)
      requires Consistent()
      modifies this
      ensures Consistent()
      ensures ok <==> product.id.Some?
      ensures !ok ==> itemsData == old(itemsData) && dataKeys == old(dataKeys) && itemIds == old(itemIds)
      ensures ok ==>
        var k := product.id.value;
        itemsData == old(itemsData)[k := ItemData(product, 1)] &&
        itemIds == old(itemIds) + [k] &&
        dataKeys == if k in old(itemsData) then old(dataKeys) else old(dataKeys) + [k]
      ensures ok ==> HasItem(product.id.value) && GetItemQty(product.id.value) == 1
      ensures ok ==> Count() == old(Count()) + if product.id.value in old(itemsData) then 0 else 1
      ensures position == old(position)
    {
      var r := product.GetId();
      if r.TypeError? {
        return false;
      }
      var k := r.value;
      if k !in itemsData {
        dataKeys := dataKeys + [k];
      }
      itemsData := itemsData[k := ItemData(product, 1)];
      itemIds := itemIds + [k];
      ok := true;
    }

    /** What the body of `getItem` computes before the return-type check:
        the `{item, qty}` array of a present id, null for an absent one. */
    function GetItemValue(id: string): (v: PhpValue)
      reads this
      ensures v.ItemArray? <==> HasItem(id)
      ensures v.ItemArray? ==> v.entry == itemsData[id]
      ensures !v.ProductObject?
    {
      if id in itemsData then ItemArray(itemsData[id]) else NullValue
    }

    /** `getItem` as written: neither the array nor null is a
        `ProductInterface`, so every call raises a `TypeError`. */
    function GetItem(id: string): (r: Result<Product>)
      reads this
      ensures r == TypeError
    {
      ReturnAsProduct(GetItemValue(id))
    }

    /** `getItem` as its documentation describes it: the stored product for
        a present id, nothing for an absent one. */
    function FindItem(id: string): (r: Option<Product>)
      requires Consistent()
      reads this
      ensures r.Some? <==> HasItem(id)
      ensures r.Some? ==> r.value == itemsData[id].item && r.value.id == Some(id)
    {
      if id in itemsData then Some(itemsData[id].item) else None
    }

    /** `removeItem`: an absent id changes nothing. For a present id the entry
        goes, and the first copy of the id (only that one) is taken out of
        `itemIds`, the rest keeping their order with no gap. The check for a
        missing id in `itemIds` cannot fire: every key is listed there. */
    method RemoveItem(id: string)
      requires Consistent()
      modifies this
      ensures Consistent()
      ensures old(id !in itemsData) ==>
        itemsData == old(itemsData) && dataKeys == old(dataKeys) && itemIds == old(itemIds)
      ensures old(id in itemsData) ==>
        itemsData == old(itemsData) - {id} &&
        itemIds == RemoveFirst(old(itemIds), id) &&
        dataKeys == RemoveFirst(old(dataKeys), id)
      ensures !HasItem(id)
      ensures position == old(position)
    {
      if !HasItem(id) {
        return;
      }
      RemovePreservesConsistency(itemsData, dataKeys, itemIds, id);
      itemsData, itemIds, dataKeys := itemsData - {id}, RemoveFirst(itemIds, id), RemoveFirst(dataKeys, id);
    }

    /** `hasItem`: whether an entry is stored under the id. */
    predicate HasItem(id: string)
      reads this
    {
      id in itemsData
    }

    /** A stored id is exactly one in the key order, and the iterator lists it. */
    lemma HasItemListed(id: string)
      requires Consistent()
      ensures HasItem(id) <==> id in dataKeys
      ensures HasItem(id) ==> id in itemIds
    {
    }

    /** `getItemQty`: 0 for an absent id, the stored quantity otherwise. */
    function GetItemQty(id: string): (qty: int)
      reads this
      ensures id !in itemsData ==> qty == 0
      ensures id in itemsData ==> qty == itemsData[id].qty
    {
      if id in itemsData then itemsData[id].qty else 0
    }

    /** `increaseQty`: a no-op for an absent id; otherwise only that entry's
        quantity changes, by exactly `qty`. */
    method IncreaseQty(id: string, qty: int)
      requires Consistent()
      modifies this
      ensures Consistent()
      ensures old(id !in itemsData) ==> itemsData == old(itemsData)
      ensures old(id in itemsData) ==>
        itemsData == old(itemsData)[id := ItemData(old(itemsData[id].item), old(itemsData[id].qty) + qty)]
      ensures dataKeys == old(dataKeys) && itemIds == old(itemIds) && position == old(position)
    {
      if !HasItem(id) {
        return;
      }
      itemsData := itemsData[id := itemsData[id].(qty := itemsData[id].qty + qty)];
    }

    /** The first half of `decreaseQty`: for a present id, lower its quantity
        by `qty` and report whether it is now exactly 0. */
    method SubtractQty(id: string, qty: int) returns (reachedZero: bool)
      requires Consistent()
      modifies this
      ensures Consistent()
      ensures old(id !in itemsData) ==> itemsData == old(itemsData) && !reachedZero
      ensures old(id in itemsData) ==>
        itemsData == old(itemsData)[id := ItemData(old(itemsData[id].item), old(itemsData[id].qty) - qty)] &&
        reachedZero == (old(itemsData[id].qty) - qty == 0)
      ensures dataKeys == old(dataKeys) && itemIds == old(itemIds) && position == old(position)
    {
      if !HasItem(id) {
        return false;
      }
      itemsData := itemsData[id := itemsData[id].(qty := itemsData[id].qty - qty)];
      reachedZero := itemsData[id].qty == 0;
    }

    /** `decreaseQty`: a no-op for an absent id; otherwise the quantity drops
        by `qty`, and the entry is removed through `removeItem` only when it
        reaches exactly 0. A quantity that falls below 0 stays, negative. */
    method DecreaseQty(id: string, qty: int)
      requires Consistent()
      modifies this
      ensures Consistent()
      ensures old(id !in itemsData) ==>
        itemsData == old(itemsData) && dataKeys == old(dataKeys) && itemIds == old(itemIds)
      ensures old(id in itemsData) && old(itemsData[id].qty) - qty != 0 ==>
        itemsData == old(itemsData)[id := ItemData(old(itemsData[id].item), old(itemsData[id].qty) - qty)] &&
        dataKeys == old(dataKeys) && itemIds == old(itemIds)
      ensures old(id in itemsData) && old(itemsData[id].qty) - qty == 0 ==>
        itemsData == old(itemsData) - {id} &&
        itemIds == RemoveFirst(old(itemIds), id) &&
        dataKeys == RemoveFirst(old(dataKeys), id)
      ensures position == old(position)
    {
      ghost var data0 := itemsData;
      var reachedZero := SubtractQty(id, qty);
      if reachedZero {
        ghost var data1 := itemsData;
        assert id in data1;
        RemoveItem(id);
        assert itemsData == data1 - {id};
        MapRemoveOverwritten(data0, id, data1[id]);
      }
    }

    /** `getAllItems`: every entry, in the order the keys were first stored,
        each once. */
    function GetAllItems(): (r: seq<(string, ItemData)>)
      requires Consistent()
      reads this
      ensures |r| == Count()
      ensures forall i :: 0 <= i < |r| ==> r[i].0 in itemsData && r[i].1 == itemsData[r[i].0]
      ensures forall k :: k in itemsData ==> (k, itemsData[k]) in r
      ensures forall i, j :: 0 <= i < j < |r| ==> r[i].0 != r[j].0
      ensures |r| == |dataKeys| && forall i :: 0 <= i < |r| ==> r[i].0 == dataKeys[i]
    {
      EntriesOfConsistent(itemsData, dataKeys, itemIds);
      Entries(dataKeys, itemsData)
    }

    /** `removeAllItems`: both arrays become empty. */
    method RemoveAllItems()
      requires Consistent()
      modifies this
      ensures Consistent()
      ensures itemsData == map[] && dataKeys == [] && itemIds == []
      ensures IsEmpty() && Count() == 0
      ensures position == old(position)
    {
      itemsData := map[];
      itemIds := [];
      dataKeys := [];
    }

    predicate IsEmpty()
      reads this
    {
      |itemsData| == 0
    }

    /** `count`: the number of distinct entries, however often their ids were
        added. */
    function Count(): nat
      reads this
    {
      |itemsData|
    }

    /** The number of entries is the length of the key order. */
    lemma CountMatchesKeys()
      requires Consistent()
      ensures Count() == |dataKeys|
    {
      KeysCount(itemsData, dataKeys, itemIds);
    }

    /** `current`: the entry stored under the id at the current position.
        Past the end, `$this->itemIds[$this->position]` is null, and null
        used as an array key reads the key `""`. When no entry is stored
        under the key looked up (a stale copy of a removed id, or `""`), the
        lookup yields null and the declared return type `array` raises a
        `TypeError`. */
    function Current(): (r: Result<ItemData>)
      reads this
      ensures ValidPosition() ==> (r.Ok? <==> itemIds[position] in itemsData)
      ensures ValidPosition() && r.Ok? ==> r.value == itemsData[itemIds[position]]
      ensures !ValidPosition() ==> (r.Ok? <==> "" in itemsData)
      ensures !ValidPosition() && r.Ok? ==> r.value == itemsData[""]
    {
      var key := if position < |itemIds| then itemIds[position] else "";
      if key in itemsData then Ok(itemsData[key]) else TypeError
    }

    function Key(): int
      reads this
    {
      position
    }

    method Next()
      modifies this`position
      ensures position == old(position) + 1
    {
      position := position + 1;
    }

    method Rewind()
      modifies this`position
      ensures position == 0
    {
      position := 0;
    }

    /** `valid` of PHP's `Iterator`: whether `itemIds` has an element at the
        current position. */
    predicate ValidPosition()
      reads this
    {
      position < |itemIds|
    }
  }

  /** Re-adding a product lists its id twice while the entry count stays 1;
      removing it then leaves the second copy in `itemIds`. The iterator
      still reports a valid position there, but `current` finds no entry
      and raises a `TypeError`. */
  method StaleCopyScenario() returns (idsAfterReAdd: nat, countAfterReAdd: nat, isEmpty: bool, valid: bool, current: Result<ItemData>)
    ensures idsAfterReAdd == 2 && countAfterReAdd == 1
    ensures isEmpty && valid && current == TypeError
  {
    var product := new Product.Identified("p", "Witches Abroad", 10.99, PhysicalBook("Terry Pratchett", "paperback", Some(320)));
    var collection := AddedTwice(product);
    idsAfterReAdd := |collection.itemIds|;
    countAfterReAdd := collection.Count();
    collection.RemoveItem("p");
    assert IndexOf(["p", "p"], "p") == 0;
    assert collection.itemIds == ["p"];
    assert collection.itemsData == map[];
    isEmpty := collection.IsEmpty();
    collection.Rewind();
    valid := collection.ValidPosition();
    current := collection.Current();
  }

  /** A new collection into which `product` was added twice. */
  method AddedTwice(product: Product) returns (collection: ProductCollection)
    requires product.id == Some("p")
    ensures fresh(collection) && collection.Consistent()
    ensures collection.itemIds == ["p", "p"] && collection.itemsData == map["p" := ItemData(product, 1)]
    ensures collection.Count() == 1
  {
    var entry := ItemData(product, 1);
    collection := new ProductCollection("collection");
    var ok := collection.AddItem(product);
    assert collection.itemIds == ["p"];
    assert collection.itemsData == map["p" := entry];
    ok := collection.AddItem(product);
    assert collection.itemIds == ["p"] + ["p"];
    assert collection.itemsData == map["p" := entry]["p" := entry];
    assert map["p" := entry]["p" := entry] == map["p" := entry];
  }
}
