/** The product catalog: `Shop\Catalog\Product` with its book and sample
    variants folded into one `Kind`, and the `__call` forwarding by which a
    sample answers `getFullVersion<Attribute>` from its full version. */
module Catalog {
  import opened Text

  datatype Option<T> = None | Some(value: T)

  /** A PHP call either returns a value or raises a `TypeError`, the error
      PHP raises when a value does not match a declared type. */
  datatype Result<T> = Ok(value: T) | TypeError

  /** The concrete class of a product and the fields only that class has.
      A sample keeps a shared (not owned) reference to its full version. */
  datatype Kind =
    | Plain
    | PhysicalBook(author: string, format: string, pagesCount: Option<int>)
    | Ebook(author: string, format: string)
    | Audiobook(author: string, playLength: real)
    | EbookSample(fullVersion: Product)
    | AudiobookSample(fullVersion: Product, playLength: real)
  {
    predicate IsBook() {
      PhysicalBook? || Ebook? || Audiobook?
    }

    predicate IsSample() {
      EbookSample? || AudiobookSample?
    }

    /** The declared parameter types of the sample constructors: an ebook
        sample wraps a full `Ebook`, an audiobook sample a full `Audiobook`. */
    predicate Allowed() {
      (EbookSample? ==> fullVersion.kind.Ebook?) &&
      (AudiobookSample? ==> fullVersion.kind.Audiobook?)
    }
  }

  /** The getters a product may have. A name that `__call` forwards always
      starts with `get` (see `ForwardedNameStartsWithGet`), and these are all
      the methods of a full `Ebook` or `Audiobook` whose names do. */
  datatype Getter = IdGetter | NameGetter | PriceGetter | AuthorGetter | SummaryLineGetter | PlayLengthGetter

  const AllGetters: seq<Getter> := [IdGetter, NameGetter, PriceGetter, AuthorGetter, SummaryLineGetter, PlayLengthGetter]

  /** The method name without its `get`. */
  function GetterSuffix(g: Getter): string {
    match g
    case IdGetter => "Id"
    case NameGetter => "Name"
    case PriceGetter => "Price"
    case AuthorGetter => "Author"
    case SummaryLineGetter => "SummaryLine"
    case PlayLengthGetter => "PlayLength"
  }

  function MethodName(g: Getter): string {
    "get" + GetterSuffix(g)
  }

  /** Whether a product of this kind has the getter: every product has the
      `ProductInterface` getters, books add `getAuthor` and `getSummaryLine`,
      audio products add `getPlayLength`. */
  predicate Has(k: Kind, g: Getter) {
    match g
    case IdGetter | NameGetter | PriceGetter => true
    case AuthorGetter | SummaryLineGetter => k.IsBook()
    case PlayLengthGetter => k.Audiobook? || k.AudiobookSample?
  }

  /** What a getter returns, as far as it is modelled. */
  datatype Value =
    | Null
    | Str(s: string)
    | Num(x: real)
      /** The summary line of an audiobook; its text interpolates the play
          length, a float, whose rendering is not modelled. */
    | AudioSummary(name: string, author: string, playLength: real)

  const FullVersionPrefix: string := "getFullVersion"

  /** The name `__call` forwards: every `FullVersion` deleted. The rewrite
      only deletes, so the name never grows, and a name it does not shorten
      comes back as it was. */
  function ForwardedName(methodName: string): (r: string)
    ensures |r| <= |methodName|
    ensures |r| == |methodName| ==> r == methodName
  {
    DeleteShortens(methodName, "FullVersion");
    Replace(methodName, "FullVersion", "")
  }

  /** `method_exists`, which compares method names without regard to case:
      the first of `gs` that the kind has and whose name folds to the same
      lower-case text as `name`. */
  function FindGetter(name: string, k: Kind, gs: seq<Getter>): (r: Option<Getter>)
    ensures r.Some? ==> r.value in gs && Has(k, r.value) && Lower(MethodName(r.value)) == Lower(name)
    ensures r.None? ==> forall g :: g in gs && Has(k, g) ==> Lower(MethodName(g)) != Lower(name)
  {
    if gs == [] then None
    else if Has(k, gs[0]) && Lower(MethodName(gs[0])) == Lower(name) then Some(gs[0])
    else FindGetter(name, k, gs[1..])
  }

  class Product {
    /** `ShopObject::$id`: null until something assigns it. */
    const id: Option<string>
    var name: string
    var price: real
    const kind: Kind

    /** `Product::__construct` as written: it stores name and price and does
        not call `ShopObject::__construct`, so no id is generated. Any price
        is accepted, negative ones included. */
    constructor (name: string, price: real)
      ensures this.name == name && this.price == price
      ensures kind == Plain && id == None
    {
      this.id := None;
      this.name := name;
      this.price := price;
      this.kind := Plain;
    }

    /** The constructors of `PhysicalBook`, `Ebook` and `Audiobook`: they pass
        name and price to `Product::__construct` and store their own fields. */
    constructor Book(name: string, price: real, kind: Kind)
      requires kind.IsBook()
      ensures this.name == name && this.price == price
      ensures this.kind == kind && id == None
    {
      this.id := None;
      this.name := name;
      this.price := price;
      this.kind := kind;
    }

    /** The ebook sample: `Sample::__construct` stores name and price as
        `Product` does and keeps the full version, which the declared
        parameter type requires to be a full `Ebook`. */
    constructor EbookSampleOf(name: string, price: real, fullVersion: Product)
      requires fullVersion.kind.Ebook?
      ensures this.name == name && this.price == price
      ensures kind == EbookSample(fullVersion) && id == None
      ensures kind.Allowed()
    {
      this.id := None;
      this.name := name;
      this.price := price;
      this.kind := EbookSample(fullVersion);
    }

    /** The audiobook sample: as the ebook sample, with a full `Audiobook`
        and its own play length. */
    constructor AudiobookSampleOf(name: string, price: real, fullVersion: Product, playLength: real)
      requires fullVersion.kind.Audiobook?
      ensures this.name == name && this.price == price
      ensures kind == AudiobookSample(fullVersion, playLength) && id == None
      ensures kind.Allowed()
    {
      this.id := None;
      this.name := name;
      this.price := price;
      this.kind := AudiobookSample(fullVersion, playLength);
    }

    /** Construction as `ShopObject` intends it: the id produced by the
        (clock-based) id generator is passed in and stored. */
    constructor Identified(freshId: string, name: string, price: real, kind: Kind)
      requires kind.Allowed()
      ensures this.name == name && this.price == price
      ensures this.kind == kind && id == Some(freshId)
    {
      this.id := Some(freshId);
      this.name := name;
      this.price := price;
      this.kind := kind;
    }

    /** `clone` followed by `ShopObject::__clone`: a shallow copy of every
        field, with the newly generated id in place of the original's. */
    constructor Clone(original: Product, freshId: string)
      ensures name == original.name && price == original.price && kind == original.kind
      ensures id == Some(freshId)
    {
      this.id := Some(freshId);
      this.name := original.name;
      this.price := original.price;
      this.kind := original.kind;
    }

    /** `ShopObject::getId`: the declared return type `string` turns an unset
        id into a `TypeError`. */
    function GetId(): (r: Result<string>)
      ensures r.Ok? <==> id.Some?
      ensures r.Ok? ==> id == Some(r.value)
    {
      if id.Some? then Ok(id.value) else TypeError
    }

    function GetName(): string
      reads this
    {
      name
    }

    method SetName(name: string)
      modifies this`name
      ensures GetName() == name
      ensures price == old(price)
    {
      this.name := name;
    }

    function GetPrice(): real
      reads this
    {
      price
    }

    /** No validation: any value, a negative one too, is stored. */
    method SetPrice(price: real)
      modifies this`price
      ensures GetPrice() == price
      ensures name == old(name)
    {
      this.price := price;
    }

    /** `Sample::getFullVersion` (and its overrides in the two samples): the
        stored reference, of the narrowed type for a well-built sample. */
    function GetFullVersion(): (full: Product)
      requires kind.IsSample()
      ensures full == kind.fullVersion
      ensures kind.Allowed() && kind.EbookSample? ==> full.kind.Ebook?
      ensures kind.Allowed() && kind.AudiobookSample? ==> full.kind.Audiobook?
    {
      kind.fullVersion
    }

    /** The summary line of a book: empty for a physical book, a template
        over name, author and format for an ebook. */
    function SummaryLine(): (r: Value)
      requires kind.IsBook()
      reads this
    {
      match kind
      case PhysicalBook(_, _, _) => Str("")
      case Ebook(author, format) =>
        Str(name + " by " + author + ": uniquely portable magic on all your devices, in an " + format + " format")
      case Audiobook(author, playLength) => AudioSummary(name, author, playLength)
    }

    /** Calling one of this product's getters. Only `getId` can fail, and
        only on a product without an id; name and price read the fields. */
    function Invoke(g: Getter): (r: Result<Value>)
      requires Has(kind, g)
      reads this
      ensures r.TypeError? <==> g == IdGetter && GetId().TypeError?
      ensures g == IdGetter && r.Ok? ==> r.value.Str? && GetId() == Ok(r.value.s)
      ensures g == NameGetter ==> r == Ok(Str(GetName()))
      ensures g == PriceGetter ==> r == Ok(Num(GetPrice()))
    {
      match g
      case IdGetter => if id.Some? then Ok(Str(id.value)) else TypeError
      case NameGetter => Ok(Str(name))
      case PriceGetter => Ok(Num(price))
      case AuthorGetter => Ok(Str(kind.author))
      case SummaryLineGetter => Ok(SummaryLine())
      case PlayLengthGetter => Ok(Num(kind.playLength))
    }

    /** `Sample::__call`: a name whose first fourteen characters are not
        exactly `getFullVersion` gives null; otherwise every `FullVersion` is
        deleted from the name and, if the full version has a method of that
        name, its result is returned, else null. Nothing is modified. */
    function Call(methodName: string): (r: Result<Value>)
      requires kind.IsSample()
      reads kind.fullVersion
      ensures !StartsWith(methodName, FullVersionPrefix) ==> r == Ok(Null)
    {
      SubstrPrefixTest(methodName, FullVersionPrefix);
      if Substr(methodName, |FullVersionPrefix|) != FullVersionPrefix then Ok(Null)
      else
        var full := kind.fullVersion;
        match FindGetter(ForwardedName(methodName), full.kind, AllGetters)
        case None => Ok(Null)
        case Some(g) => full.Invoke(g)
    }
  }

  /** Deleting `FullVersion` from `getFullVersion` + rest keeps the `get`. */
  lemma ForwardedAfterPrefix(rest: string)
    ensures ForwardedName(FullVersionPrefix + rest) == "get" + ForwardedName(rest)
  {
    ReplaceSkipsLead("get", "FullVersion", rest, "");
    assert FullVersionPrefix + rest == "get" + ("FullVersion" + rest);
    assert "" + ForwardedName(rest) == ForwardedName(rest);
  }

  /** Whatever follows the prefix, the forwarded name starts with `get`, so
      only the full version's getters can be reached. */
  lemma ForwardedNameStartsWithGet(methodName: string)
    requires StartsWith(methodName, FullVersionPrefix)
    ensures StartsWith(ForwardedName(methodName), "get")
  {
    var rest := methodName[|FullVersionPrefix|..];
    assert methodName == FullVersionPrefix + rest;
    ForwardedAfterPrefix(rest);
  }

  /** `getFullVersion<Attribute>` on a sample returns what the getter returns
      on the full version, for every getter the full version has. */
  lemma CallForwardsGetter(sample: Product, g: Getter)
    requires sample.kind.IsSample() && sample.kind.Allowed()
    requires Has(sample.kind.fullVersion.kind, g)
    ensures sample.Call(FullVersionPrefix + GetterSuffix(g)) == sample.kind.fullVersion.Invoke(g)
  {
    var full := sample.kind.fullVersion;
    var suffix := GetterSuffix(g);
    ForwardedAfterPrefix(suffix);
    assert !Contains(suffix, "FullVersion") by {
      if g == SummaryLineGetter {
        forall i: nat ensures !OccursAt(suffix, "FullVersion", i) {
          if i == 0 { assert suffix[0] != 'F'; }
        }
      }
    }
    ReplaceWithoutOccurrence(suffix, "FullVersion", "");
    assert ForwardedName(FullVersionPrefix + suffix) == MethodName(g);
    var name := MethodName(g);
    var found := FindGetter(name, full.kind, AllGetters);
    assert g in AllGetters;
    assert found.Some?;
    assert found.value == g by {
      GetterNamesFoldApart(found.value, g);
    }
    StartsWithPrefix(suffix);
  }

  lemma StartsWithPrefix(rest: string)
    ensures StartsWith(FullVersionPrefix + rest, FullVersionPrefix)
  {
    assert (FullVersionPrefix + rest)[..|FullVersionPrefix|] == FullVersionPrefix;
  }

  /** No two getters share a name, not even up to case. */
  lemma GetterNamesFoldApart(g: Getter, h: Getter)
    requires Lower(MethodName(g)) == Lower(MethodName(h))
    ensures g == h
  {
    var a := Lower(MethodName(g));
    var b := Lower(MethodName(h));
    assert |a| == |MethodName(g)| && |b| == |MethodName(h)|;
    assert a[3] == b[3] && a[4] == b[4];
  }

  /** `method_exists` and the call that follows ignore case, while the
      prefix test and the `FullVersion` deletion do not: after the exact
      prefix, a getter name in any mix of cases reaches that getter. */
  lemma CallFoldsCase(sample: Product, g: Getter, suffix: string)
    requires sample.kind.IsSample() && sample.kind.Allowed()
    requires Has(sample.kind.fullVersion.kind, g)
    requires Lower(suffix) == Lower(GetterSuffix(g))
    requires !Contains(suffix, "FullVersion")
    ensures sample.Call(FullVersionPrefix + suffix) == sample.kind.fullVersion.Invoke(g)
  {
    var full := sample.kind.fullVersion;
    ForwardedAfterPrefix(suffix);
    ReplaceWithoutOccurrence(suffix, "FullVersion", "");
    var name := "get" + suffix;
    assert ForwardedName(FullVersionPrefix + suffix) == name;
    LowerConcat("get", suffix);
    LowerConcat("get", GetterSuffix(g));
    var found := FindGetter(name, full.kind, AllGetters);
    assert g in AllGetters;
    assert found.Some?;
    GetterNamesFoldApart(found.value, g);
    StartsWithPrefix(suffix);
  }

  /** The rewrite deletes every `FullVersion`, a repeated one included:
      `getFullVersionFullVersionPrice` is forwarded as `getPrice` too. */
  lemma ForwardedDropsRepeat(rest: string)
    ensures ForwardedName("FullVersion" + rest) == ForwardedName(rest)
  {
    var s := "FullVersion" + rest;
    assert s[..11] == "FullVersion";
    assert s[11..] == rest;
  }

  /** The bare prefix is forwarded as `get`, which names no getter, so a
      sample answers it with null. */
  lemma BarePrefixIsNull(sample: Product)
    requires sample.kind.IsSample() && sample.kind.Allowed()
    ensures ForwardedName(FullVersionPrefix) == "get"
    ensures sample.Call(FullVersionPrefix) == Ok(Null)
  {
    ForwardedAfterPrefix("");
    assert FullVersionPrefix + "" == FullVersionPrefix;
    assert ForwardedName("") == "";
    NoGetterNamedGet(sample.kind.fullVersion.kind);
    StartsWithPrefix("");
  }

  /** A prefixed name whose rewritten form matches none of the full
      version's getters, whatever the case (`getFullVersionTest` becomes
      `getTest`), gives null. */
  lemma CallWithoutGetterIsNull(sample: Product, methodName: string)
    requires sample.kind.IsSample() && sample.kind.Allowed() && StartsWith(methodName, FullVersionPrefix)
    requires forall g :: Has(sample.kind.fullVersion.kind, g) ==> Lower(MethodName(g)) != Lower(ForwardedName(methodName))
    ensures sample.Call(methodName) == Ok(Null)
  {
    SubstrPrefixTest(methodName, FullVersionPrefix);
  }

  /** The other direction, for every prefixed name: when the rewritten name
      folds to a getter the full version has, that getter is called. This
      covers names whose attribute itself contains `FullVersion`
      (`getFullVersionPriFullVersionce` becomes `getPrice`). */
  lemma CallFindsGetter(sample: Product, methodName: string, g: Getter)
    requires sample.kind.IsSample() && sample.kind.Allowed() && StartsWith(methodName, FullVersionPrefix)
    requires Has(sample.kind.fullVersion.kind, g) && Lower(MethodName(g)) == Lower(ForwardedName(methodName))
    ensures sample.Call(methodName) == sample.kind.fullVersion.Invoke(g)
  {
    SubstrPrefixTest(methodName, FullVersionPrefix);
    var found := FindGetter(ForwardedName(methodName), sample.kind.fullVersion.kind, AllGetters);
    assert g in AllGetters;
    GetterNamesFoldApart(found.value, g);
  }

  /** The ebook summary line names the book and its author first and its
      format last. */
  lemma EbookSummaryLine(book: Product)
    requires book.kind.Ebook?
    ensures book.SummaryLine().Str?
    ensures var line := book.SummaryLine().s;
      var head := book.name + " by " + book.kind.author;
      var tail := book.kind.format + " format";
      StartsWith(line, head) && |tail| <= |line| && line[|line| - |tail|..] == tail
  {
    var head := book.name + " by " + book.kind.author;
    var middle := ": uniquely portable magic on all your devices, in an ";
    var tail := book.kind.format + " format";
    var line := book.SummaryLine().s;
    assert line == head + middle + tail;
    assert line[..|head|] == head;
    assert line[|line| - |tail|..] == tail;
  }

  /** Every getter name is longer than `get`, so `get` alone finds none. */
  lemma NoGetterNamedGet(k: Kind)
    ensures FindGetter("get", k, AllGetters) == None
  {
    forall g | g in AllGetters ensures Lower(MethodName(g)) != Lower("get") {
      assert |Lower(MethodName(g))| == |MethodName(g)| > 3;
    }
  }
}
