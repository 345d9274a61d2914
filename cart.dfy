/**
 * The cart manager of js/cart-manager.js: catalog lookup, the snapshot a new
 * line takes, and the manager object whose methods read the stored cart,
 * change it and write it back.
 */
module Cart {
  import opened Catalog
  import opened Sequences
  import opened Text
  import opened Dimensions
  import opened CartLines

  /** The persistent store under the cart key. */
  datatype Store =
    | Missing                          // nothing stored yet
    | Unreadable                       // stored text that does not parse
    | Saved(items: seq<CartLine>)

  /** The cart the store holds: the empty cart when nothing readable is stored. */
  function StoredItems(store: Store): (r: seq<CartLine>)
    ensures !store.Saved? ==> r == []
    ensures store.Saved? ==> r == store.items
  {
    if store.Saved? then store.items else []
  }

  // ---------------------------------------------------------------------
  // Catalog lookup

  /** The catalog entry has the given productId and variantId. */
  predicate Identifies(r: Record, productId: string, variantId: string)
  {
    HasText(r, "productId", productId) && HasText(r, "variantId", variantId)
  }

  /** No entry of the (possibly missing) collection has both ids. */
  predicate NoMatchIn(entries: Option<seq<Record>>, productId: string, variantId: string)
  {
    entries.Some? ==> forall i :: 0 <= i < |entries.value| ==> !Identifies(entries.value[i], productId, variantId)
  }

  /** `x` is the entry at the first position of `entries` that has both ids. */
  predicate FirstMatchIn(entries: Option<seq<Record>>, x: Record, productId: string, variantId: string)
  {
    && entries.Some?
    && exists i :: 0 <= i < |entries.value| && entries.value[i] == x &&
         forall j :: 0 <= j < i ==> !Identifies(entries.value[j], productId, variantId)
  }

  /**
   * `getProductData`: the first product with both ids, else the first
   * accessory with both ids, else None (also when no catalog is loaded).
   */
  function GetProductData(cms: Option<Catalog>, productId: string, variantId: string): (r: Option<Record>)
    ensures r.Some? ==> Identifies(r.value, productId, variantId)
    ensures r.Some? ==>
              && cms.Some?
              && (|| FirstMatchIn(cms.value.products, r.value, productId, variantId)
                  || (NoMatchIn(cms.value.products, productId, variantId) &&
                      FirstMatchIn(cms.value.accessories, r.value, productId, variantId)))
    ensures r.None? <==>
              || cms.None?
              || (NoMatchIn(cms.value.products, productId, variantId) &&
                  NoMatchIn(cms.value.accessories, productId, variantId))
  {
    match cms
    case None => None
    case Some(catalog) =>
      var matches := (r: Record) => Identifies(r, productId, variantId);
      var fromProducts := if catalog.products.Some? then FindFirst(catalog.products.value, matches) else None;
      if fromProducts.Some? then Some(catalog.products.value[fromProducts.value])
      else
        var fromAccessories := if catalog.accessories.Some? then FindFirst(catalog.accessories.value, matches) else None;
        if fromAccessories.Some? then Some(catalog.accessories.value[fromAccessories.value])
        else None
  }

  // ---------------------------------------------------------------------
  // The snapshot of a new line

  /** A character `/[^\d.]/` does not match. */
  predicate IsPriceChar(c: char)
  {
    IsDigit(c) || c == '.'
  }

  /** `s.replace(/[^\d.]/g, '')`: the digits and dots of `s`, in order. */
  function DigitsAndDots(s: string): (r: string)
    ensures |r| <= |s|
    ensures forall c :: c in r <==> c in s && IsPriceChar(c)
  {
    FilterMembers(s, IsPriceChar);
    Filter(s, IsPriceChar)
  }

  /** The replacement works piecewise: a text's digits and dots are those of its parts, in order. */
  lemma DigitsAndDotsAppend(a: string, b: string)
    ensures DigitsAndDots(a + b) == DigitsAndDots(a) + DigitsAndDots(b)
  {
    FilterAppend(a, b, IsPriceChar);
  }

  /** A price text made only of digits and dots, such as "220.00", is kept as it is. */
  lemma PlainPriceKept(s: string)
    requires forall i :: 0 <= i < |s| ==> IsPriceChar(s[i])
    ensures DigitsAndDots(s) == s
  {
    FilterKeepsAll(s, IsPriceChar);
  }

  /** `product.dimensions || product.size || product.alt_text || ''` */
  function ChosenDimensions(product: Record): (r: Json)
    ensures Truthy(Get(product, "dimensions")) ==> r == Get(product, "dimensions").value
    ensures !Truthy(Get(product, "dimensions")) && Truthy(Get(product, "size")) ==> r == Get(product, "size").value
    ensures !Truthy(Get(product, "dimensions")) && !Truthy(Get(product, "size")) ==>
              r == (if Truthy(Get(product, "alt_text")) then Get(product, "alt_text").value else JStr(""))
  {
    Or(Or(Or(Get(product, "dimensions"), Get(product, "size")), Get(product, "alt_text")), Some(JStr(""))).value
  }

  /**
   * The short dimensions text of a new line. It throws exactly when the
   * chosen value is not text (a number, `true`, an array or an object, which
   * have no `replace`); it is empty exactly when no field is set or the chosen
   * text has nothing outside its parenthesised groups.
   */
  function DimensionsSnapshot(product: Record): (r: Eval<string>)
    ensures r.Throws? <==> Truthy(Some(ChosenDimensions(product))) && !ChosenDimensions(product).JStr?
    ensures r.Value? ==> r.v == ShortDimensions(DisplayDimensions(ChosenDimensions(product).s))
    ensures r.Value? ==> (r.v == "" <==> DisplayDimensions(ChosenDimensions(product).s) == "")
  {
    match ChosenDimensions(product)
    case JStr(text) => Value(ShortDimensions(DisplayDimensions(text)))
    case _ => Throws("dimensions.replace is not a function")
  }

  /**
   * `product.priceValue || parseFloat(product.price.replace(/[^\d.]/g, '')) || 0`.
   * The price text is read only when there is no non-zero `priceValue`, and
   * reading it throws unless it is text.
   */
  function PriceSnapshot(product: Record, parsePrice: string -> int): (r: Eval<int>)
    ensures NumberOr(product, "priceValue", 0) != 0 ==> r == Value(NumberOr(product, "priceValue", 0))
    ensures r.Throws? <==> NumberOr(product, "priceValue", 0) == 0 && !(Get(product, "price").Some? && Get(product, "price").value.JStr?)
    ensures NumberOr(product, "priceValue", 0) == 0 && Get(product, "price").Some? && Get(product, "price").value.JStr? ==>
              r == Value(parsePrice(DigitsAndDots(Get(product, "price").value.s)))
  {
    var priceValue := NumberOr(product, "priceValue", 0);
    if priceValue != 0 then Value(priceValue)
    else match Get(product, "price")
      case Some(JStr(text)) => Value(parsePrice(DigitsAndDots(text)))
      case _ => Throws("product.price.replace is not a function")
  }

  /** `product.images[0]`: the first element of an array (or character of a text, or property "0" of an object). */
  function FirstElement(images: Option<Json>): (r: Option<Json>)
    ensures images.Some? && images.value.JArr? ==>
              r == (if images.value.items == [] then None else Some(images.value.items[0]))
    ensures images.Some? && images.value.JStr? ==>
              r == (if images.value.s == [] then None else Some(JStr([images.value.s[0]])))
    ensures images.Some? && images.value.JObj? ==> r == Get(images.value.fields, "0")
    ensures images.None? || images.value.JNull? || images.value.JBool? || images.value.JNum? ==> r.None?
  {
    match images
    case Some(JArr(items)) => if items == [] then None else Some(items[0])
    case Some(JStr(text)) => if text == [] then None else Some(JStr([text[0]]))
    case Some(JObj(fields)) => Get(fields, "0")
    case _ => None
  }

  /**
   * `product.mainImage || (product.images && product.images[0] && product.images[0].url) || ''`:
   * the main image when it is set, else the first image's URL when set, else ''.
   */
  function ImageSnapshot(product: Record): (r: Json)
    ensures Truthy(Get(product, "mainImage")) ==> r == Get(product, "mainImage").value
    ensures r == JStr("") || Truthy(Some(r))
    ensures !Truthy(Get(product, "mainImage")) ==>
              var first := FirstElement(Get(product, "images"));
              if Truthy(Get(product, "images")) && Truthy(first) && Truthy(Prop(first.value, "url"))
              then r == Prop(first.value, "url").value
              else r == JStr("")
  {
    var mainImage := Get(product, "mainImage");
    if Truthy(mainImage) then mainImage.value
    else
      var images := Get(product, "images");
      var first := FirstElement(images);
      if Truthy(images) && Truthy(first) && Truthy(Prop(first.value, "url"))
      then Prop(first.value, "url").value
      else JStr("")
  }

  /** `${product.priceValue || 0}`: the text of a truthy `priceValue`, `0` otherwise. */
  function PriceValueText(product: Record): (r: string)
    ensures !Truthy(Get(product, "priceValue")) ==> r == "0"
    ensures Truthy(Get(product, "priceValue")) ==> r == TemplateText(Get(product, "priceValue").value)
    ensures Get(product, "priceValue").None? || Get(product, "priceValue").value.JNum? ==>
              r == IntText(NumberOr(product, "priceValue", 0))
  {
    TemplateText(Or(Get(product, "priceValue"), Some(JNum(0))).value)
  }

  /** The text fields of a new line: `slug || id`, `price || €${priceValue || 0}.00`, `currency || 'EUR'`. */
  function LineTexts(product: Record): (r: (Option<Json>, Json, Json))
    ensures r.0 == (if Truthy(Get(product, "slug")) then Get(product, "slug") else Get(product, "id"))
    ensures r.1 == (if Truthy(Get(product, "price")) then Get(product, "price").value
                    else JStr("\U{20AC}" + PriceValueText(product) + ".00"))
    ensures r.2 == (if Truthy(Get(product, "currency")) then Get(product, "currency").value else JStr("EUR"))
  {
    var fallbackDisplay := JStr("\U{20AC}" + PriceValueText(product) + ".00");
    (Or(Get(product, "slug"), Get(product, "id")),
     Or(Get(product, "price"), Some(fallbackDisplay)).value,
     Or(Get(product, "currency"), Some(JStr("EUR"))).value)
  }

  /**
   * The line `addToCart` pushes for a new identity. The dimensions snapshot
   * is taken first, so its TypeError wins over the price's.
   */
  function NewLine(product: Record, parsePrice: string -> int, productId: string, variantId: string, quantity: int)
    : (r: Eval<CartLine>)
    ensures r.Throws? <==> DimensionsSnapshot(product).Throws? || PriceSnapshot(product, parsePrice).Throws?
    ensures r.Value? ==>
              && IsLine(r.v, productId, variantId)
              && r.v.quantity == quantity
              && r.v.price == PriceSnapshot(product, parsePrice).v
              && r.v.dimensions == DimensionsSnapshot(product).v
              && r.v.image == ImageSnapshot(product)
              && r.v.name == Get(product, "name")
              && (r.v.productSlug, r.v.priceDisplay, r.v.currency) == LineTexts(product)
  {
    match DimensionsSnapshot(product)
    case Throws(reason) => Throws(reason)
    case Value(dimensions) =>
      match PriceSnapshot(product, parsePrice)
      case Throws(reason) => Throws(reason)
      case Value(price) =>
        var texts := LineTexts(product);
        Value(CartLine(
          productId := productId,
          variantId := variantId,
          productSlug := texts.0,
          name := Get(product, "name"),
          price := price,
          priceDisplay := texts.1,
          currency := texts.2,
          image := ImageSnapshot(product),
          dimensions := dimensions,
          quantity := quantity))
  }

  // ---------------------------------------------------------------------
  // addToCart as a value

  /** What `addToCart` does: save new lines (returns true), return false, or throw. */
  datatype AddOutcome = Added(items: seq<CartLine>) | NotFound | Threw(reason: string)

  /** The outcome of `addToCart(productId, variantId, quantity)` on the cart `items`. */
  function AddResult(cms: Option<Catalog>, parsePrice: string -> int, items: seq<CartLine>,
                     productId: string, variantId: string, quantity: int): (r: AddOutcome)
    ensures r.NotFound? <==> GetProductData(cms, productId, variantId).None?
    ensures r.Threw? ==> FindLine(items, productId, variantId).None?
    ensures GetProductData(cms, productId, variantId).Some? && FindLine(items, productId, variantId).None? ==>
              var line := NewLine(GetProductData(cms, productId, variantId).value, parsePrice, productId, variantId, quantity);
              && (r.Threw? <==> line.Throws?)
              && (r.Added? ==> r.items == items + [line.v])
  {
    match GetProductData(cms, productId, variantId)
    case None => NotFound
    case Some(product) =>
      match FindLine(items, productId, variantId)
      case Some(k) => Added(AddToLine(items, k, quantity))
      case None =>
        match NewLine(product, parsePrice, productId, variantId, quantity)
        case Throws(reason) => Threw(reason)
        case Value(line) => Added(items + [line])
  }

  /**
   * Adding an identity that already has a line adds the quantity to that line
   * only: same length, same order, every other line unchanged, and the count
   * grows by the quantity.
   */
  lemma AddMergesExisting(cms: Option<Catalog>, parsePrice: string -> int, items: seq<CartLine>,
                          productId: string, variantId: string, quantity: int)
    requires GetProductData(cms, productId, variantId).Some?
    requires FindLine(items, productId, variantId).Some?
    ensures var k := FindLine(items, productId, variantId).value;
            var r := AddResult(cms, parsePrice, items, productId, variantId, quantity);
            && r.Added?
            && |r.items| == |items|
            && r.items[k] == items[k].(quantity := items[k].quantity + quantity)
            && (forall j :: 0 <= j < |items| && j != k ==> r.items[j] == items[j])
            && CartCount(r.items) == CartCount(items) + quantity
            && CartTotal(r.items) == CartTotal(items) + items[k].price * quantity
  {
    var k := FindLine(items, productId, variantId).value;
    assert AddResult(cms, parsePrice, items, productId, variantId, quantity) == Added(AddToLine(items, k, quantity));
    AddToLineTotals(items, k, quantity);
  }

  /**
   * Adding an identity without a line throws exactly when its snapshot
   * does; otherwise it succeeds and appends the snapshot line, carrying the
   * identity and the quantity, at the end; the count grows by the quantity
   * and the total by the line's amount.
   */
  lemma AddAppendsNew(cms: Option<Catalog>, parsePrice: string -> int, items: seq<CartLine>,
                      productId: string, variantId: string, quantity: int)
    requires GetProductData(cms, productId, variantId).Some?
    requires FindLine(items, productId, variantId).None?
    ensures var r := AddResult(cms, parsePrice, items, productId, variantId, quantity);
            var line := NewLine(GetProductData(cms, productId, variantId).value, parsePrice, productId, variantId, quantity);
            (line.Throws? ==> r.Threw?) &&
            (line.Value? ==>
              && r.Added?
              && r.items == items + [line.v]
              && |r.items| == |items| + 1
              && r.items[..|items|] == items
              && IsLine(r.items[|items|], productId, variantId)
              && r.items[|items|].quantity == quantity
              && CartCount(r.items) == CartCount(items) + quantity
              && CartTotal(r.items) == CartTotal(items) + r.items[|items|].price * quantity)
  {
    var r := AddResult(cms, parsePrice, items, productId, variantId, quantity);
    if r.Added? {
      var line := r.items[|items|];
      assert r.items == items + [line];
      SumConcat(items, [line], LineQuantity);
      SumConcat(items, [line], LineAmount);
      assert Sum([line], LineAmount) == LineAmount(line);
    }
  }

  /**
   * With a quantity of at least 1, a successful add keeps one line per
   * identity and every quantity positive.
   */
  lemma AddPreservesValid(cms: Option<Catalog>, parsePrice: string -> int, items: seq<CartLine>,
                          productId: string, variantId: string, quantity: int)
    requires ValidCart(items) && quantity >= 1
    ensures var r := AddResult(cms, parsePrice, items, productId, variantId, quantity);
            r.Added? ==> ValidCart(r.items)
  {
    match GetProductData(cms, productId, variantId)
    case None =>
    case Some(product) =>
      match FindLine(items, productId, variantId)
      case Some(k) =>
      case None =>
        var line := NewLine(product, parsePrice, productId, variantId, quantity);
        if line.Value? {
          AppendKeepsValid(items, line.v);
        }
  }

  /** Appending a line with a new identity and a positive quantity keeps the cart invariant. */
  lemma AppendKeepsValid(items: seq<CartLine>, line: CartLine)
    requires ValidCart(items) && line.quantity >= 1
    requires FindLine(items, line.productId, line.variantId).None?
    ensures ValidCart(items + [line])
  {
    AppendKeepsOneLine(items, line);
    var r := items + [line];
    forall i | 0 <= i < |r| ensures r[i].quantity >= 1 {
      if i < |items| {
        assert r[i] == items[i];
      }
    }
  }

  /** A successful add keeps one line per identity, whatever the quantities. */
  lemma AddKeepsOneLine(cms: Option<Catalog>, parsePrice: string -> int, items: seq<CartLine>,
                        productId: string, variantId: string, quantity: int)
    requires OneLinePerIdentity(items)
    ensures var r := AddResult(cms, parsePrice, items, productId, variantId, quantity);
            r.Added? ==> OneLinePerIdentity(r.items)
  {
    match GetProductData(cms, productId, variantId)
    case None =>
    case Some(product) =>
      match FindLine(items, productId, variantId)
      case Some(k) =>
        AddToLineOneLine(items, k, quantity);
      case None =>
        var line := NewLine(product, parsePrice, productId, variantId, quantity);
        if line.Value? {
          AppendKeepsOneLine(items, line.v);
        }
  }

  /**
   * Two adds of the same identity leave one line for it, at the position of
   * the first add, whose quantity has grown by both amounts; a cart with one
   * line per identity keeps it.
   */
  lemma AddTwiceMerges(cms: Option<Catalog>, parsePrice: string -> int, items: seq<CartLine>,
                       productId: string, variantId: string, q1: int, q2: int)
    requires AddResult(cms, parsePrice, items, productId, variantId, q1).Added?
    ensures var r1 := AddResult(cms, parsePrice, items, productId, variantId, q1).items;
            var r2 := AddResult(cms, parsePrice, r1, productId, variantId, q2);
            var found := FindLine(items, productId, variantId);
            var k := if found.Some? then found.value else |items|;
            var before := if found.Some? then items[found.value].quantity else 0;
            && r2.Added?
            && |r2.items| == |r1| == (if found.Some? then |items| else |items| + 1)
            && FindLine(r2.items, productId, variantId) == Some(k)
            && r2.items[k].quantity == before + q1 + q2
            && CartCount(r2.items) == CartCount(items) + q1 + q2
            && (OneLinePerIdentity(items) ==>
                  && OneLinePerIdentity(r2.items)
                  && forall j :: 0 <= j < |r2.items| ==> (IsLine(r2.items[j], productId, variantId) <==> j == k))
  {
    var r1 := AddResult(cms, parsePrice, items, productId, variantId, q1).items;
    var found := FindLine(items, productId, variantId);
    var k := if found.Some? then found.value else |items|;
    var before := if found.Some? then items[found.value].quantity else 0;
    FirstAddLine(cms, parsePrice, items, productId, variantId, q1);
    assert AddResult(cms, parsePrice, r1, productId, variantId, q2) == Added(AddToLine(r1, k, q2));
    AddToFirstLine(r1, productId, variantId, k, q2);
    AddToLineTotals(r1, k, q2);
    if OneLinePerIdentity(items) {
      AddKeepsOneLine(cms, parsePrice, items, productId, variantId, q1);
      AddToLineOneLine(r1, k, q2);
    }
  }

  /** After a successful first add, the identity's first line is the merged line or the appended one. */
  lemma FirstAddLine(cms: Option<Catalog>, parsePrice: string -> int, items: seq<CartLine>,
                     productId: string, variantId: string, quantity: int)
    requires AddResult(cms, parsePrice, items, productId, variantId, quantity).Added?
    ensures var r := AddResult(cms, parsePrice, items, productId, variantId, quantity).items;
            var found := FindLine(items, productId, variantId);
            var k := if found.Some? then found.value else |items|;
            && |r| == (if found.Some? then |items| else |items| + 1)
            && FindLine(r, productId, variantId) == Some(k)
            && r[k].quantity == (if found.Some? then items[found.value].quantity else 0) + quantity
            && CartCount(r) == CartCount(items) + quantity
  {
    var r := AddResult(cms, parsePrice, items, productId, variantId, quantity).items;
    var found := FindLine(items, productId, variantId);
    if found.Some? {
      AddMergesExisting(cms, parsePrice, items, productId, variantId, quantity);
      AddToFirstLine(items, productId, variantId, found.value, quantity);
    } else {
      AddAppendsNew(cms, parsePrice, items, productId, variantId, quantity);
      AppendedLineFirst(items, r[|items|], productId, variantId);
      assert r == items + [r[|items|]];
    }
  }

  // ---------------------------------------------------------------------
  // The manager object

  /**
   * `CartManager` over its store. The catalog it was initialised with and the
   * number parser used for price texts are fixed; `stored` stands for the
   * persistent store.
   */
  class CartManager {
    const catalog: Option<Catalog>
    const parsePrice: string -> int
    var stored: Store

    /** `init(data)` on a page whose store holds `stored`. */
    constructor (catalog: Option<Catalog>, parsePrice: string -> int, stored: Store)
      ensures this.catalog == catalog && this.parsePrice == parsePrice && this.stored == stored
    {
      this.catalog := catalog;
      this.parsePrice := parsePrice;
      this.stored := stored;
    }

    /** `getCart` */
    function GetCart(): (r: seq<CartLine>)
      reads this
      ensures stored.Saved? ==> r == stored.items
      ensures !stored.Saved? ==> r == []
    {
      StoredItems(stored)
    }

    /** `saveCart`: overwrites the store. */
    method SaveCart(items: seq<CartLine>)
      modifies this
      ensures stored == Saved(items)
    {
      stored := Saved(items);
    }

    /** `addToCart`: the store changes only when the add succeeds. */
    method AddToCart(productId: string, variantId: string, quantity: int := 1) returns (outcome: AddOutcome)
      modifies this
      ensures outcome == AddResult(catalog, parsePrice, old(GetCart()), productId, variantId, quantity)
      ensures outcome.Added? ==> stored == Saved(outcome.items)
      ensures !outcome.Added? ==> stored == old(stored)
    {
      var product := GetProductData(catalog, productId, variantId);
      if product.None? {
        return NotFound;
      }
      var items := GetCart();
      var existing := FindLine(items, productId, variantId);
      if existing.Some? {
        var k := existing.value;
        items := items[k := items[k].(quantity := items[k].quantity + quantity)];
      } else {
        var line := NewLine(product.value, parsePrice, productId, variantId, quantity);
        if line.Throws? {
          return Threw(line.reason);
        }
        items := items + [line.v];
      }
      SaveCart(items);
      outcome := Added(items);
    }

    /** `removeFromCart`: always saves, even when no line had the identity. */
    method RemoveFromCart(productId: string, variantId: string)
      modifies this
      ensures stored == Saved(RemoveLines(old(GetCart()), productId, variantId))
    {
      var items := GetCart();
      items := RemoveLines(items, productId, variantId);
      SaveCart(items);
    }

    /** `updateQuantity`: nothing is saved when the identity has no line. */
    method UpdateQuantity(productId: string, variantId: string, quantity: int)
      modifies this
      ensures match UpdatedLines(old(GetCart()), productId, variantId, quantity)
              case None => stored == old(stored)
              case Some(items) => stored == Saved(items)
    {
      var items := GetCart();
      var found := FindLine(items, productId, variantId);
      if found.Some? {
        if quantity < 1 {
          RemoveFromCart(productId, variantId);
        } else {
          var k := found.value;
          items := items[k := items[k].(quantity := quantity)];
          SaveCart(items);
        }
      }
    }

    /** The delegated click handler, for a control carrying `action` and the line's ids. */
    method HandleClick(action: ClickAction, productId: string, variantId: string)
      modifies this
      ensures match ClickedLines(old(GetCart()), action, productId, variantId)
              case None => stored == old(stored)
              case Some(items) => stored == Saved(items)
    {
      match action
      case Decrease =>
        var items := GetCart();
        var found := FindLine(items, productId, variantId);
        if found.Some? && items[found.value].quantity > 1 {
          UpdateQuantity(productId, variantId, items[found.value].quantity - 1);
        } else if found.Some? {
          RemoveFromCart(productId, variantId);
        }
      case Increase =>
        var items := GetCart();
        var found := FindLine(items, productId, variantId);
        if found.Some? {
          UpdateQuantity(productId, variantId, items[found.value].quantity + 1);
        }
      case Delete =>
        RemoveFromCart(productId, variantId);
      case Unrecognised =>
    }

    /** The change handler of a quantity input, given the parsed value of the input. */
    method HandleChange(productId: string, variantId: string, quantity: int)
      modifies this
      ensures match UpdatedLines(old(GetCart()), productId, variantId, quantity)
              case None => stored == old(stored)
              case Some(items) => stored == Saved(items)
    {
      UpdateQuantity(productId, variantId, quantity);
    }
  }
}
