# Shop collections, product samples and regex pattern builders, in Dafny

This project models the core of a small PHP training repository, which has three parts.

- **Products.** A product has an id, a name and a price; books add an author, and an ebook, audiobook or physical book adds its own fields. A *sample* product keeps a shared reference to its full version. Its magic `__call` turns `getFullVersion<Attribute>()` into `get<Attribute>()` on that full version.
- **Product collections.** A collection keeps two PHP arrays. `itemsData` maps an id to `{item, qty}`. `itemIds` lists the ids for iteration. The collection offers add, get, remove, quantity changes, count and the `Iterator` methods.
- **Carts.** A cart is a collection. It also keeps a class-wide static counter of removed items and can total the prices it holds.
- **Regex pattern builders.** The regular-expression exercises build PCRE pattern strings from user words. Only the building of those strings is modelled.

The modules follow that structure:

- `Seqs` (seqs.dfy) holds list removal as `array_search`, `unset` and `array_values` do it.
- `Text` (text.dfy) holds the string built-ins used: `substr`, `str_replace`, the ASCII case folding of method names, `implode`, and the decimal text of an integer.
- `Catalog` (catalog.dfy) holds the products and `__call`.
- `Shop` (collection.dfy) holds `ProductCollection`.
- `Checkout` (cart.dfy) holds `Cart` and the demo script's removal counts.
- `Patterns` (patterns.dfy) holds the pattern strings.

Objects whose fields the PHP code updates are Dafny classes. A PHP array keeps its keys in insertion order, so `itemsData` is a `map` together with `dataKeys`, the order of its keys. `Cart extends ProductCollection` becomes a cart that holds its collection state in a `ProductCollection` object, `items`. The static `$removedItemsCounter` becomes one `RemovedCounter` object that all carts share. A value that PHP rejects against a declared return type raises a `TypeError`; the model represents that as the `TypeError` case of `Result`. A wrong argument to a declared parameter type is excluded by a `requires` instead (see "## Left out").

Where the code and the behaviour described for it differ, the model follows the code:

- With products that carry ids, the demo script's removed-items counter reads 1, then 2, then 4: `removeAllItems` adds the number of entries held before it clears them. As written, the script never prints these lines (see "## Findings").
- Adding an id that is already present appends it to `itemIds` a second time. It keeps its place in `itemsData`.
- `decreaseQty` removes an entry only when its quantity becomes exactly 0. A quantity that goes below 0 stays in the collection.

## Model

| member | source | states |
|---|---|---|
| Seqs.IndexOf | oop/app/Shop/ProductCollection.php:102 | `array_search` on a list that holds the id: a position holding the id, with no earlier copy |
| Seqs.RemoveAt | oop/app/Shop/ProductCollection.php:108-111 | `unset` then `array_values`: one element shorter, earlier elements in place, later ones moved down by one, no gap |
| Seqs.RemoveFirst | oop/app/Shop/ProductCollection.php:102-111 | `array_search`, `unset` and `array_values` together: the list loses exactly one element (which one is stated by the lemmas below) |
| Seqs.RemoveFirstCounts | oop/app/Shop/ProductCollection.php:102-111 | removing the found id takes exactly one copy of it out of the list (multiset difference) |
| Seqs.RemoveFirstKeepsOthers | oop/app/Shop/ProductCollection.php:102-111 | every other id is still listed after the removal |
| Seqs.RemoveFirstDistinct | oop/app/Shop/ProductCollection.php:102-111 | in a list without repetitions, no copy of the id is left and there are still no repetitions |
| Seqs.RemoveFirstSplit | oop/app/Shop/ProductCollection.php:102-111 | for a list without repetitions (such as the key order, not `itemIds`), the list is the part before the first copy, the id and the part after; the removal joins the two parts, and neither holds the id |
| Seqs.DistinctCardinality | oop/app/Shop/ProductCollection.php:257-260 | a list without repetitions is as long as the set of its elements |
| Text.Substr | oop/app/Shop/Catalog/Product/Sample/Sample.php:49 | `substr($s, 0, $n)` gives `min(n, strlen)` characters, and they are a prefix of `s` |
| Text.SubstrPrefixTest | oop/app/Shop/Catalog/Product/Sample/Sample.php:49 | comparing the first 14 characters with `getFullVersion` holds exactly when the name starts with it, in both directions |
| Text.Replace | oop/app/Shop/Catalog/Product/Sample/Sample.php:56 | `str_replace` with one search string: a replacement no longer than the search string never lengthens the name (which `DeleteShortens` and `ForwardedName` build on), and replacing the search string by itself leaves any name unchanged |
| Text.ReplaceAtFront | oop/app/Shop/Catalog/Product/Sample/Sample.php:56 | `str_replace` replaces an occurrence at the front and continues after it |
| Text.ReplacePassesPrefix | oop/app/Shop/Catalog/Product/Sample/Sample.php:56 | `str_replace` copies a prefix that cannot start the search string unchanged |
| Text.ReplaceSkipsLead | oop/app/Shop/Catalog/Product/Sample/Sample.php:56 | after such a prefix, the next occurrence is replaced and the scan continues after it |
| Text.ReplaceWithoutOccurrence | oop/app/Shop/Catalog/Product/Sample/Sample.php:56 | a name without `FullVersion` comes back from `str_replace` unchanged |
| Text.DeleteShortens | oop/app/Shop/Catalog/Product/Sample/Sample.php:56 | deleting occurrences never makes a name longer; the same length means nothing was deleted |
| Text.Lower | oop/app/Shop/Catalog/Product/Sample/Sample.php:59 | method-name folding keeps the length and lowers each ASCII letter, one character at a time |
| Text.LowerConcat | oop/app/Shop/Catalog/Product/Sample/Sample.php:59 | folding `get` + suffix is folding each part |
| Text.Implode | regex/regex.php:363 | `implode` on a list: the pieces in order with the glue between neighbours, the empty string for no pieces (definition; its properties are the lemmas below) |
| Text.ImplodeLength | regex/regex.php:363 | `implode` copies pieces verbatim: length is the sum of piece lengths plus one glue per gap |
| Text.ImplodeFront | regex/regex.php:363 | the glued string is the first piece, the glue, then the rest glued |
| Text.SplitImplode | regex/regex.php:363 | splitting the words glued with the pipe character at that character gives the words back in order, when no word contains it |
| Text.NatText | regex/regex.php:393 | an integer's decimal text is non-empty, all digits, and has no leading zero |
| Text.IntText | regex/regex.php:393 | the interpolated text of an integer is non-empty and starts with a minus sign exactly when the integer is negative |
| Text.NatTextRoundTrip | regex/regex.php:393 | reading the digits back gives the non-negative number |
| Text.IntTextRoundTrip | regex/regex.php:393 | the interpolated text of any integer, with a minus sign for a negative one, reads back as that integer |
| Catalog.ForwardedName | oop/app/Shop/Catalog/Product/Sample/Sample.php:56 | the rewrite only deletes: the forwarded name is never longer, and a name it does not shorten comes back unchanged |
| Catalog.FindGetter | oop/app/Shop/Catalog/Product/Sample/Sample.php:59 | `method_exists` ignores case: it finds a getter the product has whose folded name equals the folded name, or it finds nothing when no such getter exists |
| Catalog.Product.constructor | oop/app/Shop/Catalog/Product.php:19-23 | stores name and price, any price included; it never calls `ShopObject::__construct`, so the id stays null |
| Catalog.Product.Book | oop/app/Shop/Catalog/Product/Book/Book.php:14-18 | a book stores name, price and its own fields, and likewise has no id |
| Catalog.Product.EbookSampleOf | oop/app/Shop/Catalog/Product/Sample/Book/Ebook.php:23-26 | an ebook sample keeps a full `Ebook` as its full version |
| Catalog.Product.AudiobookSampleOf | oop/app/Shop/Catalog/Product/Sample/Book/Audiobook.php:30-34 | an audiobook sample keeps a full `Audiobook` and its own play length |
| Catalog.Product.Identified | oop/app/Shop/ShopObject.php:30-33 | construction as `ShopObject` intends: the generated id is stored |
| Catalog.Product.Clone | oop/app/Shop/ShopObject.php:47-50 | a clone copies name, price and kind, and carries the freshly generated id |
| Catalog.Product.GetId | oop/app/Shop/ShopObject.php:35-38 | returns the id when set; for a null id the `string` return type raises a `TypeError` |
| Catalog.Product.GetName | oop/app/Shop/Catalog/Product.php:30-33 | the stored name (no contract of its own; `SetName` reads it back) |
| Catalog.Product.SetName | oop/app/Shop/Catalog/Product.php:25-28 | the getter afterwards returns the new name; the price is unchanged |
| Catalog.Product.GetPrice | oop/app/Shop/Catalog/Product.php:40-43 | the stored price (no contract of its own; `SetPrice` reads it back) |
| Catalog.Product.SetPrice | oop/app/Shop/Catalog/Product.php:35-38 | the getter afterwards returns the new price, unvalidated; the name is unchanged |
| Catalog.Product.GetFullVersion | oop/app/Shop/Catalog/Product/Sample/Sample.php:32-35 | returns the stored full version; for a well-built sample it is an `Ebook` or an `Audiobook` respectively |
| Catalog.Product.SummaryLine | oop/app/Shop/Catalog/Product/Book/Ebook.php:23-26 | `getSummaryLine` of the three books: empty for a physical book, the ebook template, the audiobook line kept symbolic (definition; see `EbookSummaryLine`) |
| Catalog.EbookSummaryLine | oop/app/Shop/Catalog/Product/Book/Ebook.php:23-26 | the ebook summary line starts with the name, ` by ` and the author, and ends with the format and ` format` |
| Catalog.Product.Invoke | oop/app/Shop/Catalog/Product/Sample/Sample.php:63 | calling a getter on the full version: only `getId` can fail, exactly when the id is unset; `getName` and `getPrice` return the fields |
| Catalog.Product.Call | oop/app/Shop/Catalog/Product/Sample/Sample.php:44-53 | a name that does not start with `getFullVersion` gives null; for prefixed names, `CallFindsGetter` and `CallWithoutGetterIsNull` give both directions |
| Catalog.ForwardedAfterPrefix | oop/app/Shop/Catalog/Product/Sample/Sample.php:56 | deleting `FullVersion` from `getFullVersion` + rest gives `get` + the rest with `FullVersion` deleted |
| Catalog.ForwardedNameStartsWithGet | oop/app/Shop/Catalog/Product/Sample/Sample.php:48-56 | every forwarded name starts with `get`, so only getters can be reached |
| Catalog.CallForwardsGetter | oop/app/Shop/Catalog/Product/Sample/Sample.php:44-64 | `getFullVersion<Attribute>` on a sample returns what the full version's getter returns, for every getter the full version has |
| Catalog.GetterNamesFoldApart | oop/app/Shop/Catalog/Product/Sample/Sample.php:59 | no two getter names are equal after case folding, so the method found is unique |
| Catalog.CallFoldsCase | oop/app/Shop/Catalog/Product/Sample/Sample.php:49-63 | after the exact-case prefix, an attribute spelled in any mix of cases reaches the same getter |
| Catalog.CallFindsGetter | oop/app/Shop/Catalog/Product/Sample/Sample.php:55-63 | a prefixed name whose rewritten form folds to a getter of the full version calls that getter, also when the attribute itself contains `FullVersion` (`getFullVersionPriFullVersionce` becomes `getPrice`) |
| Catalog.CallWithoutGetterIsNull | oop/app/Shop/Catalog/Product/Sample/Sample.php:59-61 | a prefixed name whose rewritten form matches none of the full version's getters in any case (`getFullVersionTest` becomes `getTest`) gives null |
| Catalog.ForwardedDropsRepeat | oop/app/Shop/Catalog/Product/Sample/Sample.php:56 | every `FullVersion` is deleted, a repeated one too |
| Catalog.BarePrefixIsNull | oop/app/Shop/Catalog/Product/Sample/Sample.php:56-61 | the `__call` body given the bare name `getFullVersion` forwards it as `get`, which names no getter, and returns null; this is reached only by an explicit `__call('getFullVersion', [])`, since `getFullVersion()` in any case is the real method at Sample.php:32-35 and returns the full version |
| Catalog.NoGetterNamedGet | oop/app/Shop/Catalog/Product/Sample/Sample.php:59-61 | `get` alone matches no getter of any product |
| Shop.Entries | oop/app/Shop/ProductCollection.php:175-178 | entry `i` is the key `i` of the key order paired with its record |
| Shop.EntriesOfConsistent | oop/app/Shop/ProductCollection.php:175-178 | in a consistent collection the entries are all of them, each key once, as many as stored ids |
| Shop.KeysCount | oop/app/Shop/ProductCollection.php:257-260 | the number of entries equals the length of the key order |
| Shop.RemovePreservesConsistency | oop/app/Shop/ProductCollection.php:92-112 | unsetting an entry and its first id keeps the collection invariant: distinct ordered keys, every key listed for iteration, each entry under its product's id |
| Shop.ReturnAsProduct | oop/app/Shop/ProductCollection.php:82 | the `: ProductInterface` return check passes exactly a product object, and returns it unchanged |
| Shop.ProductCollection.constructor | oop/app/Shop/ProductCollection.php:46-49 | a new collection is empty, keeps the generated id, and satisfies the invariant |
| Shop.ProductCollection.GetId | oop/app/Shop/ProductCollection.php:54-57 | the collection's id, fixed at construction (no contract of its own) |
| Shop.ProductCollection.AddItem | oop/app/Shop/ProductCollection.php:64-74 | stores the product at quantity 1, replacing any entry with that id while it keeps its place; always appends the id to `itemIds`; the count rises only for a new id; an id-less product raises a `TypeError` and changes nothing |
| Shop.ProductCollection.GetItemValue | oop/app/Shop/ProductCollection.php:84 | the lookup computes the `{item, qty}` array exactly for a present id, null otherwise, and never a product object |
| Shop.ProductCollection.GetItem | oop/app/Shop/ProductCollection.php:82-85 | as written, the looked-up array or null fails the `ProductInterface` return check, so every call raises a `TypeError` |
| Shop.ProductCollection.FindItem | oop/app/Shop/ProductCollection.php:82-85 | as documented: the stored product (whose id is the key) when the id is present, nothing otherwise |
| Shop.ProductCollection.RemoveItem | oop/app/Shop/ProductCollection.php:92-112 | an absent id changes nothing; a present one loses its entry, its key and the first copy in `itemIds`; afterwards the id is not held; the invariant is kept |
| Shop.ProductCollection.HasItem | oop/app/Shop/ProductCollection.php:120-123 | whether an entry is stored under the id (definition; see `HasItemListed`) |
| Shop.ProductCollection.HasItemListed | oop/app/Shop/ProductCollection.php:120-123 | in a consistent collection, an id is held exactly when it is in the key order, and a held id is listed for iteration |
| Shop.ProductCollection.GetItemQty | oop/app/Shop/ProductCollection.php:131-134 | 0 for an absent id, the stored quantity otherwise |
| Shop.ProductCollection.IncreaseQty | oop/app/Shop/ProductCollection.php:142-149 | a no-op for an absent id; otherwise only that quantity changes, by exactly `qty` |
| Shop.ProductCollection.SubtractQty | oop/app/Shop/ProductCollection.php:157-165 | lowers a present id's quantity by `qty` and reports whether it is now exactly 0 |
| Shop.ProductCollection.DecreaseQty | oop/app/Shop/ProductCollection.php:157-168 | a no-op for an absent id; a non-zero result only updates the quantity; an exact 0 removes the entry as `removeItem` does |
| Shop.ProductCollection.GetAllItems | oop/app/Shop/ProductCollection.php:175-178 | every stored entry exactly once, as many as `count()`, entry `i` under key `i` of the insertion order |
| Shop.ProductCollection.RemoveAllItems | oop/app/Shop/ProductCollection.php:185-189 | both arrays become empty and the count becomes 0 |
| Shop.ProductCollection.IsEmpty | oop/app/Shop/ProductCollection.php:196-199 | no entry is stored; stale ids may still be listed for iteration (no contract of its own; `StaleCopyScenario` states it) |
| Shop.ProductCollection.Count | oop/app/Shop/ProductCollection.php:257-260 | the number of stored entries (definition; see `CountMatchesKeys`) |
| Shop.ProductCollection.CountMatchesKeys | oop/app/Shop/ProductCollection.php:257-260 | `count()` equals the number of keys in insertion order |
| Shop.ProductCollection.Current | oop/app/Shop/ProductCollection.php:206-210 | at a valid position, the entry under the id there exactly when that id is still stored; past the end, the entry under the key `""` (PHP's null key) exactly when one is stored; otherwise a `TypeError` |
| Shop.ProductCollection.Key | oop/app/Shop/ProductCollection.php:217-220 | the position (no contract of its own) |
| Shop.ProductCollection.Next | oop/app/Shop/ProductCollection.php:227-230 | the position goes up by one |
| Shop.ProductCollection.Rewind | oop/app/Shop/ProductCollection.php:237-240 | the position returns to 0 |
| Shop.ProductCollection.ValidPosition | oop/app/Shop/ProductCollection.php:247-250 | `valid()`: `itemIds` has an element at the position (no contract of its own; `Current` is stated against it) |
| Shop.AddedTwice | oop/app/Shop/ProductCollection.php:64-74 | adding one product twice lists its id twice but stores one entry |
| Shop.StaleCopyScenario | oop/app/Shop/ProductCollection.php:206-250 | after adding twice and removing once, the collection is empty, yet `valid()` is true at position 0 and `current()` raises a `TypeError` |
| Checkout.RemovedCounter.constructor | oop/app/Shop/Checkout/Cart.php:15 | the counter starts at 0 |
| Checkout.RemovedCounter.GetRemovedProductsCount | oop/app/Shop/Checkout/Cart.php:32-35 | the shared counter's value (no contract of its own; the scenarios read it) |
| Checkout.SumPricesSameItems | oop/app/Shop/Checkout/Cart.php:41-45 | the total depends only on the products stored under the keys |
| Checkout.SumPricesIgnoresQty | oop/app/Shop/Checkout/Cart.php:41-45 | changing a quantity does not change the total |
| Checkout.SumPricesAppend | oop/app/Shop/Checkout/Cart.php:41-45 | storing a new key adds its product's price once |
| Checkout.SumPricesConcat | oop/app/Shop/Checkout/Cart.php:41-45 | the total over two key lists is the sum of their totals |
| Checkout.SumPricesSnoc | oop/app/Shop/Checkout/Cart.php:41-45 | one more key adds its product's price |
| Checkout.SumPricesRemove | oop/app/Shop/Checkout/Cart.php:41-45 | removing a key takes its product's price off the total once |
| Checkout.Cart.constructor | oop/app/Shop/ProductCollection.php:46-49 | a new cart is empty, has its id, and uses the shared counter |
| Checkout.Cart.RemoveItem | oop/app/Shop/Checkout/Cart.php:17-22 | the collection's removal, and the shared counter rises by exactly 1 even for an absent id |
| Checkout.Cart.RemoveAllItems | oop/app/Shop/Checkout/Cart.php:24-30 | the counter rises by the number of entries held before; the cart becomes empty |
| Checkout.Cart.DecreaseQty | oop/app/Shop/ProductCollection.php:157-168 | through the cart's `removeItem`, the counter rises by 1 exactly when the quantity reaches exactly 0 |
| Checkout.Cart.GetTotal | oop/app/Shop/Checkout/Cart.php:37-48 | the loop's total is the sum of the stored products' prices, each entry once whatever its quantity; 0 for an empty cart |
| Checkout.Cart.Invoke | oop/app/Shop/Checkout/Cart.php:66-69 | calling the cart on a product is `addItem` |
| Checkout.CartOfTwo | oop/index.php:38-40 | a new cart with two products of distinct ids holds two entries |
| Checkout.SampleCartScenario | oop/index.php:38-49 | removing one sample and then clearing the cart raises the counter to +1, then +2 |
| Checkout.EbookCartScenario | oop/index.php:51-57 | clearing a second cart of two ebooks raises the shared counter by 2 |
| Checkout.RemovedCountScenario | oop/index.php:38-57 | with products that carry ids, the script's removed-items lines read 1, 2, 4 |
| Checkout.DemoScriptFirstAdd | oop/index.php:22-39 | as written, the cart's first `addItem` (index.php:39) raises a `TypeError` and the cart stays empty; the script may already stop at the wishlist's `addItem` on line 31, whose class is not part of this model |
| Patterns.MatchesItselfPattern | regex/regex.php:35 | the pattern is the string between two slashes |
| Patterns.MatchesItselfInquisitivelyPattern | regex/regex.php:52 | the string, then an escaped `?`, between slashes |
| Patterns.MatchesPluralOptionallyPattern | regex/regex.php:177 | the string, then an optional `s`, between slashes |
| Patterns.ExtractLinesPattern | regex/regex.php:363-365 | the pattern starts with `/^.*\b(` and ends with `)\b.*$/m` |
| Patterns.ExtractLinesAlternatives | regex/regex.php:363-365 | the lines pattern opens with its fixed prefix and closes with its fixed suffix, and its alternatives split back into exactly the words |
| Patterns.Gap | regex/regex.php:393 | the text after every word but the last starts with `\W+(?:\w+\W+){0,` and ends with `}?`; the bound between is `distance` (see `GapNamesDistance`) |
| Patterns.CloseWordsPattern | regex/regex.php:389-400 | no words give `/\b(?:)\b/`, and one word goes between head and tail with no gap |
| Patterns.ImplodeAsWithGaps | regex/regex.php:391-398 | each word but the last followed by the gap, then the last word, is the words glued with the gap |
| Patterns.AppendWords | regex/regex.php:391-398 | the `foreach` appends each word with the gap after it except the last, yielding head + the words glued with the gap |
| Patterns.CloseWordsPatternOf | regex/regex.php:388-400 | the composed pattern is the fixed head, the gap-glued words and the fixed tail |
| Patterns.CloseWordsExample | regex/regex.php:386 | for `foo`, `bar` and distance 5 the pattern is `/\b(?:foo\W+(?:\w+\W+){0,5}?bar)\b/` |
| Patterns.CloseWordsShape | regex/regex.php:389-400 | the pattern starts with the head and ends with the tail; its length is the fixed parts plus the words plus one gap per pair of neighbours |
| Patterns.ImplodePlacesWord | regex/regex.php:391-398 | the glued words begin with the first `i` words, each with its gap, and then word `i` |
| Patterns.CloseWordsPlacesWord | regex/regex.php:391-398 | every word appears verbatim and in input order, at the offset after the head and the earlier words with their gaps |
| Patterns.GapNamesDistance | regex/regex.php:393 | the repetition bound in the gap reads back as `distance` |

## Left out

- Regular-expression matching (`preg_match`, `preg_match_all`) is not modelled, only the pattern strings handed to it. User words are spliced in unescaped, exactly as the code does.
- The other regex exercises are not modelled: every exercise other than regex/regex.php:35, 52, 177, 363-365 and 389-400 uses a fixed literal pattern.
- Output buffering (output_buffering/index.php, output_buffering/renderer.php) is not part of this model.
- `Wishlist` is not part of this model.
- Id generation (`uniqid`, a clock) becomes a `freshId` or `id` parameter.
- Floats become `real`, so float rounding and float-to-string conversion are not modelled. As a result, the summary line of an audiobook, which interpolates its play length, is kept as an uninterpreted `AudioSummary` value.
- PHP's loose `==` and the conversion of integer-like string keys to integer keys are not modelled; ids are plain strings.
- `setAuthor`, `setPlayLength`, `__toString`/`serialize` and `jsonSerialize`/`json_encode` are not modelled; they are plain field writes or serialisation.
- Dynamic properties (`$ebookCopy->words = 1000`) are not modelled.
- `Catalog.Product.EbookSampleOf`, `Catalog.Product.AudiobookSampleOf`: a full version of the wrong class is excluded by `requires`, not modelled as the `TypeError` PHP raises against the constructor's declared parameter type (oop/app/Shop/Catalog/Product/Sample/Book/Ebook.php:23, oop/app/Shop/Catalog/Product/Sample/Book/Audiobook.php:30). For the same reason, the `__call` lemmas require `Kind.Allowed()`, the property these constructors establish: the `Getter` list is complete only for a full `Ebook` or `Audiobook`.
- PHP strings are byte strings; the model's strings are sequences of characters. Every literal involved is ASCII, so `substr`, `strlen`, `str_replace` and the method-name folding act the same on both.
- `Catalog.Product.Call`: the `$arguments` array is ignored, since every getter takes no arguments. In PHP, `__call` runs only for names that are not real methods; the model gives the `__call` body for any name.
- `Shop.ProductCollection.RemoveItem`: the `$index === false` early return is not a separate branch. The collection invariant guarantees that every stored id is listed in `itemIds`, so it cannot fire.
- `Shop.ProductCollection.Current`: past the end, PHP's undefined-index notice is not modelled; the missing element reads as null, and the null key is modelled as the key `""`.
- `Shop.ProductCollection.RemoveItem`: the count after a removal is not restated; it follows from `itemsData == old(itemsData) - {id}` and `Count() == |itemsData|`.
- `Checkout.Cart`: the inheritance from `ProductCollection` is modelled by composition. The inherited methods other than `removeItem`, `removeAllItems` and `decreaseQty` are reached through `items`.
- `Patterns.AppendWords`: `foreach ($words as $i => $word)` is modelled for a list whose keys are 0, 1, 2, …; arrays with other keys are not modelled.
- `Patterns.Gap`: `$distance` is taken to be an integer; any other interpolated value is not modelled.
- `Shop.ProductCollection.IncreaseQty`, `Shop.ProductCollection.DecreaseQty`: `$qty` is untyped in PHP (ProductCollection.php:142, 157) but is modelled as an integer, so float quantities and the float comparison with 0 are not modelled.
- `Shop.ProductCollection.Next`, `Checkout.Cart.RemoveItem`, `Checkout.Cart.RemoveAllItems`: integers are unbounded, so PHP's switch from int to float when `position++` or the counter's `++`/`+=` passes `PHP_INT_MAX` is not modelled.

## Findings

| source | as written | input that shows it | evidently intended | confidence | as-written member | corrected member |
|---|---|---|---|---|---|---|
| oop/app/Shop/Catalog/Product.php:19-23 | `Product::__construct` does not call `ShopObject::__construct`, so no constructed product has an id (only a clone gets one, through `ShopObject::__clone`) and `getId()` raises a `TypeError` against its `string` return type | `new AudiobookSample(...)` followed by `$cart->addItem($audiobookSample)` (oop/index.php:23-39) | every product is constructed with a generated id, and the script's removed-items lines read 1, 2, 4 | high, not executed | Checkout.DemoScriptFirstAdd | Checkout.RemovedCountScenario |
| oop/app/Shop/ProductCollection.php:82-85 | `getItem` returns the `{item, qty}` array, or null, where the return type is `ProductInterface`, so every call raises a `TypeError` | `getItem` with any id, present or absent | the stored product for a present id and "not found" for an absent one | high, not executed | Shop.ProductCollection.GetItem | Shop.ProductCollection.FindItem |
