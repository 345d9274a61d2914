/**
 * What each collection slot of the pages shows, and in what order
 * (js/populate-cms.js): the product selectors, the home-page slider, the
 * accessories of the product page and of the accessories page, the image
 * gallery, and which of several duplicate wrappers is filled.
 */
module Collections {
  import opened Catalog
  import opened Sequences
  import opened Text

  const PanelCategory: string := "AKUROCK Akustikpaneele"
  const AccessoryCategory: string := "AKUROCK Zubeh\U{F6}r"
  const SampleMarker: string := "-sample"

  /** The ids of the accessories the product page offers. */
  const MainAccessoryIds: seq<string> := ["schrauben-weiss", "wandschrauben-schwarz", "wandkleber"]

  /** `p.sorting || 999` */
  function SortingKey(p: Record): int
  {
    NumberOr(p, "sorting", 999)
  }

  /** `.sort((a, b) => (a.sorting || 999) - (b.sorting || 999))` */
  function SortBySorting(entries: seq<Record>): (r: seq<Record>)
    ensures multiset(r) == multiset(entries)
    ensures SortedBy(r, SortingKey)
  {
    SortByCorrect(entries, SortingKey);
    SortBy(entries, SortingKey)
  }

  /** A stable sort of the entries of `s` satisfying `p`, keeping exactly those entries. */
  lemma SortedSelection(s: seq<Record>, p: Record -> bool)
    ensures var r := SortBySorting(Filter(s, p));
            && StablySorted(r, Filter(s, p), SortingKey)
            && multiset(r) == multiset(Filter(s, p))
            && forall x :: x in r <==> x in s && p(x)
  {
    var f := Filter(s, p);
    SortByCorrect(f, SortingKey);
    FilterMembers(s, p);
    forall x ensures x in SortBySorting(f) <==> x in s && p(x) {
      SortByMember(f, SortingKey, x);
    }
  }

  // ---------------------------------------------------------------------
  // Product selectors

  predicate InPanelCategory(p: Record)
  {
    HasText(p, "category", PanelCategory)
  }

  /** `p.id.includes('-sample')`: defined for text and for arrays; anything else throws. */
  function IdMentionsSample(p: Record): (r: Eval<bool>)
    ensures r.Throws? <==> !(Get(p, "id").Some? && (Get(p, "id").value.JStr? || Get(p, "id").value.JArr?))
  {
    match Get(p, "id")
    case Some(JStr(id)) => Value(Contains(id, SampleMarker))
    case Some(JArr(items)) => Value(JStr(SampleMarker) in items)
    case _ => Throws("p.id.includes is not a function")
  }

  /** The selector filter for one entry; the id is only read for a panel. */
  function SelectorTest(p: Record): Eval<bool>
  {
    if !InPanelCategory(p) then Value(false)
    else match IdMentionsSample(p)
      case Value(b) => Value(!b)
      case Throws(reason) => Throws(reason)
  }

  /** A panel whose id is a text without "-sample" (or an array without that element). */
  predicate IsSelectorEntry(p: Record)
  {
    SelectorTest(p) == Value(true)
  }

  /** `s.filter(test)` where the test itself may throw: the first throw ends the filter. */
  function FilterOrThrow(s: seq<Record>, test: Record -> Eval<bool>): (r: Eval<seq<Record>>)
    ensures r.Throws? <==> exists i :: 0 <= i < |s| && test(s[i]).Throws?
    ensures r.Value? ==> |r.v| <= |s| && forall i :: 0 <= i < |r.v| ==> test(r.v[i]) == Value(true)
  {
    if s == [] then Value([])
    else match test(s[0])
      case Throws(reason) => Throws(reason)
      case Value(keep) =>
        match FilterOrThrow(s[1..], test)
        case Throws(reason) =>
          assert exists i :: 1 <= i < |s| && test(s[i]).Throws? by {
            var i :| 0 <= i < |s[1..]| && test(s[1..][i]).Throws?;
            assert s[1..][i] == s[i + 1];
          }
          Throws(reason)
        case Value(rest) =>
          assert forall i :: 1 <= i < |s| ==> !test(s[i]).Throws? by {
            forall i | 1 <= i < |s| ensures !test(s[i]).Throws? {
              assert s[i] == s[1..][i - 1];
            }
          }
          Value((if keep then [s[0]] else []) + rest)
  }

  /** When no entry throws, the selector filter keeps the selector entries. */
  lemma {:induction false} SelectorFilter(s: seq<Record>)
    requires FilterOrThrow(s, SelectorTest).Value?
    ensures FilterOrThrow(s, SelectorTest).v == Filter(s, IsSelectorEntry)
  {
    if s != [] {
      SelectorFilter(s[1..]);
    }
  }

  /**
   * The variant selector and the product selector slider: the panels whose
   * id does not mention "-sample", by `sorting || 999`; throws when a panel's
   * id is missing or has no `includes`.
   */
  function SelectorProducts(products: seq<Record>): (r: Eval<seq<Record>>)
    ensures r.Throws? <==> exists i :: 0 <= i < |products| && SelectorTest(products[i]).Throws?
  {
    match FilterOrThrow(products, SelectorTest)
    case Throws(reason) => Throws(reason)
    case Value(selected) => Value(SortBySorting(selected))
  }

  /**
   * The selectors list exactly the panels without "-sample", each as often as
   * in the catalog, stably sorted by `sorting || 999`.
   */
  lemma SelectorProductsSpec(products: seq<Record>)
    ensures var r := SelectorProducts(products);
            r.Value? ==>
              && StablySorted(r.v, Filter(products, IsSelectorEntry), SortingKey)
              && multiset(r.v) == multiset(Filter(products, IsSelectorEntry))
              && (forall x :: x in r.v <==> (x in products && InPanelCategory(x) &&
                    ((Get(x, "id").Some? && Get(x, "id").value.JStr? && !Contains(Get(x, "id").value.s, SampleMarker)) ||
                     (Get(x, "id").Some? && Get(x, "id").value.JArr? && JStr(SampleMarker) !in Get(x, "id").value.items))))
  {
    var f := FilterOrThrow(products, SelectorTest);
    if f.Value? {
      SelectorFilter(products);
      SortedSelection(products, IsSelectorEntry);
    }
  }

  // ---------------------------------------------------------------------
  // Home-page slider

  /** `products.filter(panel).sort(by sorting).slice(0, 4)` */
  function HomeSlider(products: seq<Record>): (r: seq<Record>)
    ensures |r| <= 4
    ensures forall x :: x in r ==> x in products && InPanelCategory(x)
  {
    SortedSelection(products, InPanelCategory);
    Take(SortBySorting(Filter(products, InPanelCategory)), 4)
  }

  /**
   * The slider shows min(4, #panels) panels, in `sorting || 999` order, and
   * none of the panels left out sorts before a panel shown.
   */
  lemma HomeSliderTopFour(products: seq<Record>)
    ensures var panels := Filter(products, InPanelCategory);
            var r := HomeSlider(products);
            && |r| == (if |panels| < 4 then |panels| else 4)
            && r == SortBySorting(panels)[..|r|]
            && SortedBy(r, SortingKey)
            && (forall x :: x in r ==> x in products && InPanelCategory(x))
            && (forall i, j :: 0 <= i < |r| <= j < |panels| ==> SortingKey(r[i]) <= SortingKey(SortBySorting(panels)[j]))
            && (|panels| <= 4 ==> multiset(r) == multiset(panels))
  {
    var panels := Filter(products, InPanelCategory);
    var sorted := SortBySorting(panels);
    SortedSelection(products, InPanelCategory);
    var r := HomeSlider(products);
    assert r == sorted[..|r|];
    forall x | x in r ensures x in products && InPanelCategory(x) {
      assert x in sorted;
    }
  }

  // ---------------------------------------------------------------------
  // Accessories

  /** `a.id === 'schrauben-weiss' || a.id === 'wandschrauben-schwarz' || a.id === 'wandkleber'` */
  predicate IsMainAccessory(a: Record)
  {
    HasText(a, "id", MainAccessoryIds[0]) || HasText(a, "id", MainAccessoryIds[1]) || HasText(a, "id", MainAccessoryIds[2])
  }

  /** The accessories of the product page: the allow-listed ids, by `sorting || 999`. */
  function MainAccessories(accessories: seq<Record>): (r: seq<Record>)
    ensures multiset(r) == multiset(Filter(accessories, IsMainAccessory))
    ensures SortedBy(r, SortingKey)
  {
    SortBySorting(Filter(accessories, IsMainAccessory))
  }

  predicate InAccessoryCategory(a: Record)
  {
    HasText(a, "category", AccessoryCategory)
  }

  /** The accessories page: every entry of the accessory category, by `sorting || 999`. */
  function AccessoriesPage(accessories: seq<Record>): (r: seq<Record>)
    ensures multiset(r) == multiset(Filter(accessories, InAccessoryCategory))
    ensures SortedBy(r, SortingKey)
  {
    SortBySorting(Filter(accessories, InAccessoryCategory))
  }

  /** The product page lists exactly the allow-listed accessories, stably sorted. */
  lemma MainAccessoriesSpec(accessories: seq<Record>)
    ensures var r := MainAccessories(accessories);
            && StablySorted(r, Filter(accessories, IsMainAccessory), SortingKey)
            && multiset(r) == multiset(Filter(accessories, IsMainAccessory))
            && forall x :: x in r <==> x in accessories && Get(x, "id").Some? && Get(x, "id").value.JStr? &&
                                        Get(x, "id").value.s in MainAccessoryIds
  {
    SortedSelection(accessories, IsMainAccessory);
  }

  /** The accessories page lists exactly the accessory-category entries, stably sorted. */
  lemma AccessoriesPageSpec(accessories: seq<Record>)
    ensures var r := AccessoriesPage(accessories);
            && StablySorted(r, Filter(accessories, InAccessoryCategory), SortingKey)
            && multiset(r) == multiset(Filter(accessories, InAccessoryCategory))
            && forall x :: x in r <==> x in accessories && HasText(x, "category", AccessoryCategory)
  {
    SortedSelection(accessories, InAccessoryCategory);
  }

  // ---------------------------------------------------------------------
  // Slots: which list each page slot receives, None when it is left as it is

  /** The selectors of the product page are filled only when the catalog has products. */
  function SelectorSlot(catalog: Catalog): (r: Option<Eval<seq<Record>>>)
    ensures r.Some? <==> catalog.products.Some? && catalog.products.value != []
  {
    if catalog.products.Some? && catalog.products.value != [] then Some(SelectorProducts(catalog.products.value))
    else None
  }

  /** The home slider is filled whenever the catalog has a product list. */
  function HomeSliderSlot(catalog: Catalog): (r: Option<seq<Record>>)
    ensures r.Some? <==> catalog.products.Some?
    ensures r.Some? ==> |r.value| <= 4
  {
    if catalog.products.Some? then Some(HomeSlider(catalog.products.value)) else None
  }

  /** The accessories of the product page are filled only when there are accessories. */
  function ProductAccessoriesSlot(catalog: Catalog): (r: Option<seq<Record>>)
    ensures r.Some? <==> catalog.accessories.Some? && catalog.accessories.value != []
  {
    if catalog.accessories.Some? && catalog.accessories.value != [] then Some(MainAccessories(catalog.accessories.value))
    else None
  }

  /** The accessories page is filled only when there are accessories. */
  function AccessoriesPageSlot(catalog: Catalog): (r: Option<seq<Record>>)
    ensures r.Some? <==> catalog.accessories.Some? && catalog.accessories.value != []
  {
    if catalog.accessories.Some? && catalog.accessories.value != [] then Some(AccessoriesPage(catalog.accessories.value))
    else None
  }

  // ---------------------------------------------------------------------
  // Image gallery

  /** `img.sort_order || 0` */
  function SortOrder(image: Json): int
  {
    match Prop(image, "sort_order")
    case Some(JNum(n)) => n
    case _ => 0
  }

  /** `img.url` */
  function Url(image: Json): Option<Json>
  {
    Prop(image, "url")
  }

  /** `images.some(img => img.url === mainImage)` */
  predicate SomeUrlIs(images: seq<Json>, mainImage: Option<Json>)
  {
    exists i :: 0 <= i < |images| && StrictEq(Url(images[i]), mainImage)
  }

  /** The URLs of the images that have one, in order. */
  function Urls(images: seq<Json>): (r: seq<Json>)
    ensures |r| <= |images|
    ensures forall i :: 0 <= i < |r| ==> Truthy(Some(r[i]))
    ensures |images| == 1 ==> r == (if Truthy(Url(images[0])) then [Url(images[0]).value] else [])
  {
    if images == [] then []
    else (if Truthy(Url(images[0])) then [Url(images[0]).value] else []) + Urls(images[1..])
  }

  /**
   * The slide sources of the product gallery, in order; None when the
   * product has no non-empty image array and the gallery is left as it is.
   */
  function Gallery(product: Record): (r: Option<seq<Json>>)
    ensures r.Some? <==> Get(product, "images").Some? && Get(product, "images").value.JArr? &&
                         Get(product, "images").value.items != []
    ensures r.Some? ==> forall i :: 0 <= i < |r.value| ==> Truthy(Some(r.value[i]))
    ensures r.Some? ==> |r.value| <= |Get(product, "images").value.items| + 1
  {
    match Get(product, "images")
    case Some(JArr(items)) =>
      if items == [] then None
      else
        var sorted := SortBy(items, SortOrder);
        var mainImage := Get(product, "mainImage");
        var lead := if Truthy(mainImage) && !SomeUrlIs(sorted, mainImage) then [mainImage.value] else [];
        Some(lead + Urls(sorted))
    case _ => None
  }

  lemma {:induction false} UrlsMember(images: seq<Json>, i: nat)
    requires i < |images| && Truthy(Url(images[i]))
    ensures Url(images[i]).value in Urls(images)
  {
    if i > 0 {
      UrlsMember(images[1..], i - 1);
      assert images[1..][i - 1] == images[i];
    }
  }

  lemma {:induction false} UrlsFromImages(images: seq<Json>, x: Json)
    requires x in Urls(images)
    ensures exists i :: 0 <= i < |images| && Url(images[i]) == Some(x)
  {
    if images != [] {
      if !Truthy(Url(images[0])) || x != Url(images[0]).value {
        UrlsFromImages(images[1..], x);
        var i :| 0 <= i < |images[1..]| && Url(images[1..][i]) == Some(x);
        assert images[1..][i] == images[i + 1];
      }
    }
  }

  /** The slides of consecutive runs of images follow one another: `forEach` keeps the order. */
  lemma {:induction false} UrlsAppend(a: seq<Json>, b: seq<Json>)
    ensures Urls(a + b) == Urls(a) + Urls(b)
  {
    if a == [] {
      assert a + b == b;
    } else {
      var head := if Truthy(Url(a[0])) then [Url(a[0]).value] else [];
      assert (a + b)[0] == a[0] && (a + b)[1..] == a[1..] + b;
      UrlsAppend(a[1..], b);
      assert head + (Urls(a[1..]) + Urls(b)) == (head + Urls(a[1..])) + Urls(b);
    }
  }

  /** Sorting does not change whether some image has the main image's URL. */
  lemma SomeUrlIsSorted(images: seq<Json>, mainImage: Option<Json>)
    ensures SomeUrlIs(SortBy(images, SortOrder), mainImage) <==> SomeUrlIs(images, mainImage)
  {
    var sorted := SortBy(images, SortOrder);
    if SomeUrlIs(sorted, mainImage) {
      var i :| 0 <= i < |sorted| && StrictEq(Url(sorted[i]), mainImage);
      SortByMember(images, SortOrder, sorted[i]);
      var j :| 0 <= j < |images| && images[j] == sorted[i];
    }
    if SomeUrlIs(images, mainImage) {
      var i :| 0 <= i < |images| && StrictEq(Url(images[i]), mainImage);
      SortByMember(images, SortOrder, images[i]);
      var j :| 0 <= j < |sorted| && sorted[j] == images[i];
    }
  }

  /**
   * The gallery's slides in full: the main image first exactly when it is set
   * and no image has its URL, then the URL of every image that has one, in
   * any stable order of the images by `sort_order || 0`.
   */
  lemma GalleryOrder(product: Record, t: seq<Json>)
    requires Gallery(product).Some?
    requires StablySorted(t, Get(product, "images").value.items, SortOrder)
    ensures var mainImage := Get(product, "mainImage");
            var lead := if Truthy(mainImage) && !SomeUrlIs(Get(product, "images").value.items, mainImage)
                        then [mainImage.value] else [];
            Gallery(product).value == lead + Urls(t)
  {
    var items := Get(product, "images").value.items;
    SortByUnique(t, items, SortOrder);
    SomeUrlIsSorted(items, Get(product, "mainImage"));
  }

  /** A main image that is set always appears in the gallery, first when it is not among the images. */
  lemma GalleryShowsMainImage(product: Record)
    requires Gallery(product).Some? && Truthy(Get(product, "mainImage"))
    ensures Get(product, "mainImage").value in Gallery(product).value
    ensures !SomeUrlIs(Get(product, "images").value.items, Get(product, "mainImage")) ==>
              Gallery(product).value[0] == Get(product, "mainImage").value
  {
    var items := Get(product, "images").value.items;
    var sorted := SortBy(items, SortOrder);
    var mainImage := Get(product, "mainImage");
    if SomeUrlIs(sorted, mainImage) {
      var i :| 0 <= i < |sorted| && StrictEq(Url(sorted[i]), mainImage);
      UrlsMember(sorted, i);
      SortByMember(items, SortOrder, sorted[i]);
      assert SomeUrlIs(items, mainImage) by {
        var j :| 0 <= j < |items| && items[j] == sorted[i];
      }
    }
  }

  /** Every gallery slide other than the prepended main image is the URL of one of the product's images. */
  lemma GallerySlidesFromImages(product: Record, x: Json)
    requires Gallery(product).Some? && x in Gallery(product).value
    requires Get(product, "mainImage") != Some(x)
    ensures exists img :: img in Get(product, "images").value.items && Url(img) == Some(x)
  {
    var items := Get(product, "images").value.items;
    var sorted := SortBy(items, SortOrder);
    var mainImage := Get(product, "mainImage");
    var lead := if Truthy(mainImage) && !SomeUrlIs(sorted, mainImage) then [mainImage.value] else [];
    assert Gallery(product).value == lead + Urls(sorted);
    assert x in Urls(sorted);
    UrlsFromImages(sorted, x);
    var i :| 0 <= i < |sorted| && Url(sorted[i]) == Some(x);
    SortByMember(items, SortOrder, sorted[i]);
  }

  // ---------------------------------------------------------------------
  // Duplicate wrappers

  /** `n > 1 ? wrappers[n - 1] : wrappers[0]`: the index filled, None when there is no wrapper. */
  function PopulatedWrapper(n: nat): (r: Option<nat>)
    ensures r.None? <==> n == 0
    ensures r.Some? ==> r.value < n && r.value == n - 1
  {
    if n > 1 then Some(n - 1) else if n == 1 then Some(0) else None
  }

  /** `n > 1 && wrappers[0]`: the hard-coded first wrapper is hidden when there are several. */
  function HiddenWrapper(n: nat): (r: Option<nat>)
    ensures r.Some? <==> n > 1
    ensures r.Some? ==> r.value == 0
  {
    if n > 1 then Some(0) else None
  }

  /** `n > 1 ? wrappers[1] : wrappers[0]` in the home slider. */
  function SliderWrapper(n: nat): (r: Option<nat>)
    ensures r.None? <==> n == 0
    ensures r.Some? ==> r.value < n
    ensures n > 1 ==> r == Some(1)
    ensures n == 1 ==> r == Some(0)
  {
    if n > 1 then Some(1) else if n == 1 then Some(0) else None
  }

  /** The wrapper that is filled is never the one that is hidden; with one wrapper, it is filled and shown. */
  lemma FilledWrapperVisible(n: nat)
    ensures PopulatedWrapper(n).Some? && HiddenWrapper(n).Some? ==> PopulatedWrapper(n) != HiddenWrapper(n)
    ensures SliderWrapper(n).Some? && HiddenWrapper(n).Some? ==> SliderWrapper(n) != HiddenWrapper(n)
    ensures n == 1 ==> PopulatedWrapper(n) == SliderWrapper(n) == Some(0) && HiddenWrapper(n).None?
  {
  }
}
