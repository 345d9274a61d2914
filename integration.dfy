/**
 * The add-to-cart submission of js/populate-cms.js (initCartIntegration):
 * the form's ids and quantity input are checked, then the cart manager adds
 * the line and the cart is opened when the add succeeded.
 */
module Integration {
  import opened Catalog
  import opened CartLines
  import opened Cart

  /** The result of `parseInt(text, 10)`. */
  datatype ParsedInt = NaN | Int(n: int)

  /** What a submission does: nothing, or an add of `quantity` of one identity. */
  datatype Submission = Rejected | Add(productId: string, variantId: string, quantity: int)

  /** An attribute value that is present and not empty. */
  predicate Present(attribute: Option<string>)
  {
    attribute.Some? && attribute.value != ""
  }

  /**
   * The form's `data-wf-product-id` and `data-wf-variant-id` (None when the
   * attribute is missing) and the parsed quantity input (None when there is
   * no input). A missing or empty id rejects the submission; the quantity is
   * the parsed value, or 1 when there is no input or it parses to NaN or 0.
   */
  function ValidateSubmission(productId: Option<string>, variantId: Option<string>, quantityInput: Option<ParsedInt>)
    : (r: Submission)
    ensures r.Rejected? <==> !Present(productId) || !Present(variantId)
    ensures r.Add? ==> r.productId == productId.value && r.variantId == variantId.value
    ensures r.Add? ==> r.quantity != 0
    ensures r.Add? ==> (r.quantity == 1 <==> (quantityInput.None? || quantityInput.value.NaN? ||
                                              quantityInput.value.n == 0 || quantityInput.value.n == 1))
    ensures r.Add? && quantityInput.Some? && quantityInput.value.Int? && quantityInput.value.n != 0 ==>
              r.quantity == quantityInput.value.n
  {
    if !Present(productId) || !Present(variantId) then Rejected
    else
      var quantity := match quantityInput
        case Some(Int(n)) => if n != 0 then n else 1
        case _ => 1;
      Add(productId.value, variantId.value, quantity)
  }

  /**
   * The submit handler. `cart` is the global cart manager, null when it is
   * not available; the result says whether the cart is opened afterwards.
   */
  method Submit(cart: CartManager?, productId: Option<string>, variantId: Option<string>,
                quantityInput: Option<ParsedInt>) returns (opensCart: bool)
    modifies cart
    ensures match ValidateSubmission(productId, variantId, quantityInput)
            case Rejected => cart != null ==> cart.stored == old(cart.stored)
            case Add(p, v, q) =>
              cart != null ==>
                var outcome := AddResult(cart.catalog, cart.parsePrice, StoredItems(old(cart.stored)), p, v, q);
                && (outcome.Added? ==> cart.stored == Saved(outcome.items))
                && (!outcome.Added? ==> cart.stored == old(cart.stored))
    ensures opensCart ==> cart != null && ValidateSubmission(productId, variantId, quantityInput).Add?
    ensures opensCart <==>
              && cart != null
              && ValidateSubmission(productId, variantId, quantityInput).Add?
              && var s := ValidateSubmission(productId, variantId, quantityInput);
                 AddResult(cart.catalog, cart.parsePrice, StoredItems(old(cart.stored)), s.productId, s.variantId, s.quantity).Added?
  {
    opensCart := false;
    var submission := ValidateSubmission(productId, variantId, quantityInput);
    if submission.Rejected? || cart == null {
      return;
    }
    var outcome := cart.AddToCart(submission.productId, submission.variantId, submission.quantity);
    opensCart := outcome.Added?;
  }

  /** A negative quantity typed into the input is passed on to the cart unchanged. */
  lemma NegativeQuantityPassed(productId: string, variantId: string, n: int)
    requires productId != "" && variantId != "" && n < 0
    ensures ValidateSubmission(Some(productId), Some(variantId), Some(Int(n))) == Add(productId, variantId, n)
  {
  }
}
