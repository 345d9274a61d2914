/**
 * The small text rules of js/populate-cms.js: the price line of the product
 * page, the description and display name of an accessory, and the marketing
 * texts of the home page.
 */
module PageText {
  import opened Catalog
  import opened Sequences
  import opened Text

  const Euro: string := "\U{20AC}"
  const DefaultPriceText: string := "\U{20AC}220.00 EUR"
  const DefaultHeroText: string := "More than just an acoustic panel, a symphony of stone and design."

  /** `product.currency || 'EUR'` for a currency given as text. */
  function CurrencyText(currency: Option<Json>): (r: string)
    ensures r != ""
    ensures currency.Some? && currency.value.JStr? && currency.value.s != "" ==> r == currency.value.s
    ensures !(currency.Some? && currency.value.JStr? && currency.value.s != "") ==> r == "EUR"
  {
    match currency
    case Some(JStr(c)) => if c != "" then c else "EUR"
    case _ => "EUR"
  }

  lemma OccursInPrefix(s: string, t: string, part: string, i: nat)
    requires OccursAt(s, part, i)
    ensures OccursAt(s + t, part, i)
  {
    assert (s + t)[i..i + |part|] == s[i..i + |part|];
  }

  /**
   * The price line: the price text, prefixed with '€' unless it already has
   * one, then a space and the currency; '€220.00 EUR' without a price. A
   * price that is set but not text has no `includes` and throws.
   */
  function PriceText(product: Record): (r: Eval<string>)
    ensures !Truthy(Get(product, "price")) ==> r == Value(DefaultPriceText)
    ensures r.Throws? <==> Truthy(Get(product, "price")) && !Get(product, "price").value.JStr?
    ensures r.Value? ==> Contains(r.v, Euro)
    ensures r.Value? && Truthy(Get(product, "price")) ==>
              var price := Get(product, "price").value.s;
              var tail := " " + CurrencyText(Get(product, "currency"));
              r.v == (if Contains(price, Euro) then price else Euro + price) + tail
  {
    var price := Get(product, "price");
    if !Truthy(price) then
      assert OccursAt(DefaultPriceText, Euro, 0);
      Value(DefaultPriceText)
    else match price.value
      case JStr(text) =>
        var shown := if Contains(text, Euro) then text else Euro + text;
        var tail := " " + CurrencyText(Get(product, "currency"));
        assert Contains(shown, Euro) by {
          if Contains(text, Euro) {
          } else {
            assert OccursAt(Euro + text, Euro, 0);
          }
        }
        var i: nat :| i <= |shown| && OccursAt(shown, Euro, i);
        OccursInPrefix(shown, tail, Euro, i);
        Value(shown + tail)
      case _ => Throws("product.price.includes is not a function")
  }

  /** A price text already showing '€' is kept as it is, followed by the currency. */
  lemma EuroPriceKept(product: Record, price: string)
    requires Get(product, "price") == Some(JStr(price)) && Contains(price, Euro)
    ensures PriceText(product) == Value(price + " " + CurrencyText(Get(product, "currency")))
    ensures PriceText(product).v[..|price|] == price
  {
    var i: nat :| i <= |price| && OccursAt(price, Euro, i);
    assert Truthy(Get(product, "price"));
    assert PriceText(product).Value?;
    var currency := CurrencyText(Get(product, "currency"));
    assert price + (" " + currency) == price + " " + currency;
  }

  // ---------------------------------------------------------------------
  // Accessory texts of the accessories page

  const DescriptionMap: map<string, string> := map[
    "schrauben-weiss" := "50 pcs.",
    "wandschrauben-schwarz" := "50 pcs.",
    "wandkleber" := "470g cartridge / 1 panel",
    "kartuschenpresse" := "1 pc.",
    "lattenschrauben" := "50 pcs.",
    "nano-versiegelung" := "250ml",
    "acoustic-felt" := "60% Upcycled Pet Polyester"
  ]

  const NameMap: map<string, string> := map[
    "Schrauben wei\U{DF}" := "Screws white",
    "Schrauben schwarz" := "Screws black",
    "Wandkleber" := "Wall glue",
    "Kartuschenpresse" := "Cartridge press",
    "Lattenschrauben" := "Slatted screws",
    "Nano-Versiegelung" := "Nano-sealing",
    "Acoustic Felt" := "Acoustic Felt"
  ]

  /**
   * `accessory.description || ''`, replaced by the entry of the description
   * map for the accessory's id when it is empty.
   */
  function AccessoryDescription(accessory: Record): (r: string)
    ensures Get(accessory, "description") == Some(JStr(r)) || r == "" ||
            (Get(accessory, "id").Some? && Get(accessory, "id").value.JStr? &&
             Get(accessory, "id").value.s in DescriptionMap && r == DescriptionMap[Get(accessory, "id").value.s])
    ensures (match Get(accessory, "description") case Some(JStr(d)) => d != "" case _ => false) ==>
              Get(accessory, "description") == Some(JStr(r))
  {
    var own := match Get(accessory, "description") case Some(JStr(d)) => d case _ => "";
    if own == "" then
      match Get(accessory, "id")
      case Some(JStr(id)) => if id in DescriptionMap then DescriptionMap[id] else own
      case _ => own
    else own
  }

  /** Every accessory id the description map knows gets a non-empty description. */
  lemma MappedIdsDescribed(accessory: Record)
    requires Get(accessory, "id").Some? && Get(accessory, "id").value.JStr?
    requires Get(accessory, "id").value.s in DescriptionMap
    ensures AccessoryDescription(accessory) != ""
  {
  }

  /** `nameMap[accessory.name] || accessory.name` */
  function DisplayName(accessory: Record): (r: Option<Json>)
    ensures match Get(accessory, "name")
            case Some(JStr(n)) => r == Some(JStr(if n in NameMap then NameMap[n] else n))
            case _ => r == Get(accessory, "name")
  {
    match Get(accessory, "name")
    case Some(JStr(n)) => if n in NameMap then Some(JStr(NameMap[n])) else Get(accessory, "name")
    case _ => Get(accessory, "name")
  }

  // ---------------------------------------------------------------------
  // Marketing texts of the home page

  /** `products[i]` is the entry `products.find(p => p.id === id)` returns. */
  predicate FirstWithId(products: seq<Record>, id: string, i: int)
  {
    0 <= i < |products| && HasText(products[i], "id", id) &&
    forall j :: 0 <= j < i ==> !HasText(products[j], "id", id)
  }

  /**
   * The hero heading: the `special_field_text` of the product with id
   * 'brush' when it is set, otherwise the default English slogan; None when
   * the catalog has no product list and the heading is left as it is.
   */
  function HeroText(catalog: Catalog): (r: Option<Json>)
    ensures r.Some? <==> catalog.products.Some?
    ensures r.Some? ==> Truthy(r)
    ensures forall i :: catalog.products.Some? && FirstWithId(catalog.products.value, "brush", i) ==>
              var text := Get(catalog.products.value[i], "special_field_text");
              r == if Truthy(text) then text else Some(JStr(DefaultHeroText))
    ensures catalog.products.Some? &&
            (forall i :: 0 <= i < |catalog.products.value| ==> !HasText(catalog.products.value[i], "id", "brush")) ==>
              r == Some(JStr(DefaultHeroText))
  {
    match catalog.products
    case None => None
    case Some(products) =>
      match Find(products, (p: Record) => HasText(p, "id", "brush"))
      case Some(brush) =>
        if Truthy(Get(brush, "special_field_text")) then Get(brush, "special_field_text")
        else Some(JStr(DefaultHeroText))
      case None => Some(JStr(DefaultHeroText))
  }

  /**
   * The health and shout-out slogans: the `special_field_slogan` of the
   * product with id 'yami' when it is set; None leaves them as they are.
   */
  function YamiSlogan(catalog: Catalog): (r: Option<Json>)
    ensures r.Some? ==> Truthy(r) && catalog.products.Some?
    ensures forall i :: catalog.products.Some? && FirstWithId(catalog.products.value, "yami", i) ==>
              var slogan := Get(catalog.products.value[i], "special_field_slogan");
              r == if Truthy(slogan) then slogan else None
    ensures catalog.products.Some? &&
            (forall i :: 0 <= i < |catalog.products.value| ==> !HasText(catalog.products.value[i], "id", "yami")) ==>
              r.None?
  {
    match catalog.products
    case None => None
    case Some(products) =>
      match Find(products, (p: Record) => HasText(p, "id", "yami"))
      case Some(yami) =>
        if Truthy(Get(yami, "special_field_slogan")) then Get(yami, "special_field_slogan") else None
      case None => None
  }
}
