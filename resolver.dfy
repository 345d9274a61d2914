/**
 * Which catalog entry a product page shows (js/populate-cms.js,
 * getCurrentProduct): the lookup token comes from the `product` query
 * value, then from the path, then defaults to "brush"; products are searched
 * before samples, a sample is laid over its parent product, and an unknown
 * token falls back to the first product.
 */
module ProductResolver {
  import opened Catalog
  import opened Sequences
  import opened Text

  const ProductPrefix: string := "/product/"

  /** A match of /\/product\/([^\/]+)/ starts at position `i` of `path`. */
  predicate OpensSegment(path: string, i: nat)
  {
    i + |ProductPrefix| < |path| && OccursAt(path, ProductPrefix, i) && path[i + |ProductPrefix|] != '/'
  }

  /** The first position at or after `start` where a match starts. */
  function FirstOpening(path: string, start: nat): (r: Option<nat>)
    ensures r.Some? ==> start <= r.value && OpensSegment(path, r.value)
    ensures r.Some? ==> forall j :: start <= j < r.value ==> !OpensSegment(path, j)
    ensures r.None? ==> forall j :: start <= j ==> !OpensSegment(path, j)
    decreases |path| - start
  {
    if start >= |path| then None
    else if OpensSegment(path, start) then Some(start)
    else FirstOpening(path, start + 1)
  }

  /** Where the run of non-'/' characters starting at `j` ends. */
  function SegmentEnd(path: string, j: nat): (e: nat)
    requires j <= |path|
    ensures j <= e <= |path|
    ensures forall k :: j <= k < e ==> path[k] != '/'
    ensures e < |path| ==> path[e] == '/'
    decreases |path| - j
  {
    if j < |path| && path[j] != '/' then SegmentEnd(path, j + 1) else j
  }

  /** `token` follows the match starting at `i` and runs up to the next '/' or the end of `path`. */
  predicate TokenAt(path: string, i: nat, token: string)
  {
    && OpensSegment(path, i)
    && OccursAt(path, token, i + |ProductPrefix|)
    && (i + |ProductPrefix| + |token| == |path| || path[i + |ProductPrefix| + |token|] == '/')
  }

  /**
   * `match[1]` of `path.match(/\/product\/([^\/]+)/)`: the non-empty run of
   * non-'/' characters right after the leftmost "/product/" that is followed
   * by one; None when there is no match.
   */
  function PathToken(path: string): (r: Option<string>)
    ensures r.Some? <==> exists i: nat :: OpensSegment(path, i)
    ensures r.Some? ==> r.value != "" && forall k :: 0 <= k < |r.value| ==> r.value[k] != '/'
    ensures r.Some? ==>
              exists i: nat :: TokenAt(path, i, r.value) && forall j :: 0 <= j < i ==> !OpensSegment(path, j)
  {
    match FirstOpening(path, 0)
    case None => None
    case Some(i) =>
      var start := i + |ProductPrefix|;
      var token := path[start..SegmentEnd(path, start)];
      assert OccursAt(path, token, start);
      assert TokenAt(path, i, token);
      Some(token)
  }

  /** `productParam || (match ? match[1] : null) || 'brush'` */
  function LookupToken(query: Option<string>, path: string): (r: string)
    ensures r != ""
    ensures query.Some? && query.value != "" ==> r == query.value
    ensures (query.None? || query.value == "") ==>
              r == (if PathToken(path).Some? then PathToken(path).value else "brush")
  {
    if query.Some? && query.value != "" then query.value
    else match PathToken(path)
      case Some(token) => token
      case None => "brush"
  }

  /** `p.slug === slug || p.handle === slug || p.id === slug` */
  predicate MatchesToken(p: Record, token: string)
  {
    HasText(p, "slug", token) || HasText(p, "handle", token) || HasText(p, "id", token)
  }

  /** `p.id === sample.parent_product_id` */
  predicate IsParentOf(p: Record, sample: Record)
  {
    StrictEq(Get(p, "id"), Get(sample, "parent_product_id"))
  }

  /** A matched sample, laid over its parent product when it names one that exists. */
  function WithParent(products: seq<Record>, sample: Record): Record
  {
    if Truthy(Get(sample, "parent_product_id")) then
      match Find(products, (p: Record) => IsParentOf(p, sample))
      case Some(parent) => parent + sample
      case None => sample
    else sample
  }

  /**
   * `getCurrentProduct()` for the catalog, the decoded `product` query value
   * (None when absent) and the location's path; None stands for `null`.
   */
  function CurrentProduct(cms: Option<Catalog>, query: Option<string>, path: string): (r: Option<Record>)
    ensures r.None? <==> cms.None? || cms.value.products.None? || cms.value.products.value == []
  {
    if cms.None? || cms.value.products.None? || cms.value.products.value == [] then None
    else
      var products := cms.value.products.value;
      var token := LookupToken(query, path);
      var matches := (p: Record) => MatchesToken(p, token);
      match Find(products, matches)
      case Some(product) => Some(product)
      case None =>
        var sample := if cms.value.samples.Some? then Find(cms.value.samples.value, matches) else None;
        match sample
        case Some(s) => Some(WithParent(products, s))
        case None => Some(products[0])
  }

  // ---------------------------------------------------------------------
  // Lemmas

  /** The first product matching the token wins; samples are not consulted. */
  lemma ProductWins(catalog: Catalog, query: Option<string>, path: string, k: nat)
    requires catalog.products.Some? && k < |catalog.products.value|
    requires MatchesToken(catalog.products.value[k], LookupToken(query, path))
    requires forall j :: 0 <= j < k ==> !MatchesToken(catalog.products.value[j], LookupToken(query, path))
    ensures CurrentProduct(Some(catalog), query, path) == Some(catalog.products.value[k])
  {
    var token := LookupToken(query, path);
    FindIsFirst(catalog.products.value, (p: Record) => MatchesToken(p, token), k);
  }

  /**
   * A sample is used only when no product matches; a sample naming an existing
   * parent becomes the parent's fields overridden by the sample's: every
   * field of the sample is kept, every other field comes from the parent.
   */
  lemma SampleOverParent(catalog: Catalog, query: Option<string>, path: string, k: nat, m: nat)
    requires catalog.products.Some? && catalog.samples.Some?
    requires forall j :: 0 <= j < |catalog.products.value| ==>
               !MatchesToken(catalog.products.value[j], LookupToken(query, path))
    requires k < |catalog.samples.value|
    requires MatchesToken(catalog.samples.value[k], LookupToken(query, path))
    requires forall j :: 0 <= j < k ==> !MatchesToken(catalog.samples.value[j], LookupToken(query, path))
    requires Truthy(Get(catalog.samples.value[k], "parent_product_id"))
    requires m < |catalog.products.value| && IsParentOf(catalog.products.value[m], catalog.samples.value[k])
    requires forall j :: 0 <= j < m ==> !IsParentOf(catalog.products.value[j], catalog.samples.value[k])
    ensures var sample, parent := catalog.samples.value[k], catalog.products.value[m];
            var r := CurrentProduct(Some(catalog), query, path);
            && r == Some(parent + sample)
            && r.value.Keys == parent.Keys + sample.Keys
            && (forall key :: key in sample ==> r.value[key] == sample[key])
            && (forall key :: key in parent && key !in sample ==> r.value[key] == parent[key])
  {
    var token := LookupToken(query, path);
    var sample := catalog.samples.value[k];
    FindIsFirst(catalog.samples.value, (p: Record) => MatchesToken(p, token), k);
    FindIsFirst(catalog.products.value, (p: Record) => IsParentOf(p, sample), m);
    assert FindFirst(catalog.products.value, (p: Record) => MatchesToken(p, token)).None?;
  }

  /** A matched sample without a parent id, or whose parent is missing, is shown as it is. */
  lemma SampleAsIs(catalog: Catalog, query: Option<string>, path: string, k: nat)
    requires catalog.products.Some? && catalog.products.value != [] && catalog.samples.Some?
    requires forall j :: 0 <= j < |catalog.products.value| ==>
               !MatchesToken(catalog.products.value[j], LookupToken(query, path))
    requires k < |catalog.samples.value|
    requires MatchesToken(catalog.samples.value[k], LookupToken(query, path))
    requires forall j :: 0 <= j < k ==> !MatchesToken(catalog.samples.value[j], LookupToken(query, path))
    requires !Truthy(Get(catalog.samples.value[k], "parent_product_id")) ||
             forall j :: 0 <= j < |catalog.products.value| ==> !IsParentOf(catalog.products.value[j], catalog.samples.value[k])
    ensures CurrentProduct(Some(catalog), query, path) == Some(catalog.samples.value[k])
  {
    var token := LookupToken(query, path);
    FindIsFirst(catalog.samples.value, (p: Record) => MatchesToken(p, token), k);
  }

  /** With products but no match anywhere, the first product is shown. */
  lemma FallsBackToFirst(catalog: Catalog, query: Option<string>, path: string)
    requires catalog.products.Some? && catalog.products.value != []
    requires forall j :: 0 <= j < |catalog.products.value| ==>
               !MatchesToken(catalog.products.value[j], LookupToken(query, path))
    requires catalog.samples.Some? ==>
               forall j :: 0 <= j < |catalog.samples.value| ==>
                 !MatchesToken(catalog.samples.value[j], LookupToken(query, path))
    ensures CurrentProduct(Some(catalog), query, path) == Some(catalog.products.value[0])
  {
  }

  /**
   * Whatever the token, the page shows a product, a sample, or a sample laid
   * over a product of the catalog.
   */
  lemma ResultComesFromCatalog(catalog: Catalog, query: Option<string>, path: string)
    requires catalog.products.Some? && catalog.products.value != []
    ensures var r := CurrentProduct(Some(catalog), query, path).value;
            || r in catalog.products.value
            || (catalog.samples.Some? && r in catalog.samples.value)
            || (catalog.samples.Some? &&
                exists p, s :: p in catalog.products.value && s in catalog.samples.value && r == p + s)
  {
    var products := catalog.products.value;
    var token := LookupToken(query, path);
    var matches := (p: Record) => MatchesToken(p, token);
    if Find(products, matches).None? && catalog.samples.Some? {
      var sample := Find(catalog.samples.value, matches);
      if sample.Some? {
        var s := sample.value;
        assert s in catalog.samples.value;
        if Truthy(Get(s, "parent_product_id")) {
          var parent := Find(products, (p: Record) => IsParentOf(p, s));
          if parent.Some? {
            assert parent.value in products;
          }
        }
      }
    }
  }
}
