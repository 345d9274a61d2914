/**
 * The cart as a value: its lines, the edits the cart manager makes to them
 * (js/cart-manager.js) and the aggregates it reports.
 */
module CartLines {
  import opened Catalog
  import opened Sequences

  /**
   * A stored cart line: its identity, the snapshot of catalog fields taken
   * when it was added, and its quantity. A snapshot field whose source value
   * was `undefined` is None (JSON.stringify drops it).
   */
  datatype CartLine = CartLine(
    productId: string,
    variantId: string,
    productSlug: Option<Json>,
    name: Option<Json>,
    price: int,
    priceDisplay: Json,
    currency: Json,
    image: Json,
    dimensions: string,
    quantity: int)

  /** `item.productId === productId && item.variantId === variantId` */
  predicate IsLine(line: CartLine, productId: string, variantId: string)
  {
    line.productId == productId && line.variantId == variantId
  }

  /** `items.findIndex(...)` / `items.find(...)` by identity. */
  function FindLine(items: seq<CartLine>, productId: string, variantId: string): (r: Option<nat>)
    ensures r.Some? ==> r.value < |items| && IsLine(items[r.value], productId, variantId)
    ensures r.Some? ==> forall j :: 0 <= j < r.value ==> !IsLine(items[j], productId, variantId)
    ensures r.None? <==> forall j :: 0 <= j < |items| ==> !IsLine(items[j], productId, variantId)
  {
    FindFirst(items, (line: CartLine) => IsLine(line, productId, variantId))
  }

  /** At most one line per (productId, variantId). */
  ghost predicate OneLinePerIdentity(items: seq<CartLine>)
  {
    forall i, j :: 0 <= i < j < |items| ==> !IsLine(items[j], items[i].productId, items[i].variantId)
  }

  ghost predicate QuantitiesPositive(items: seq<CartLine>)
  {
    forall i :: 0 <= i < |items| ==> items[i].quantity >= 1
  }

  /** The invariant the cart is meant to keep. */
  ghost predicate ValidCart(items: seq<CartLine>)
  {
    OneLinePerIdentity(items) && QuantitiesPositive(items)
  }

  // ---------------------------------------------------------------------
  // Edits

  /** `cart.items[k].quantity += quantity` */
  function AddToLine(items: seq<CartLine>, k: nat, quantity: int): (r: seq<CartLine>)
    requires k < |items|
    ensures |r| == |items|
    ensures r[k] == items[k].(quantity := items[k].quantity + quantity)
    ensures forall j :: 0 <= j < |items| && j != k ==> r[j] == items[j]
  {
    items[k := items[k].(quantity := items[k].quantity + quantity)]
  }

  /** `item.quantity = quantity` */
  function SetLineQuantity(items: seq<CartLine>, k: nat, quantity: int): (r: seq<CartLine>)
    requires k < |items|
    ensures |r| == |items|
    ensures r[k] == items[k].(quantity := quantity)
    ensures forall j :: 0 <= j < |items| && j != k ==> r[j] == items[j]
  {
    items[k := items[k].(quantity := quantity)]
  }

  /** `cart.items.filter(item => !(same identity))` */
  function RemoveLines(items: seq<CartLine>, productId: string, variantId: string): (r: seq<CartLine>)
    ensures |r| <= |items|
    ensures forall line :: line in r <==> line in items && !IsLine(line, productId, variantId)
  {
    FilterMembers(items, (line: CartLine) => !IsLine(line, productId, variantId));
    Filter(items, (line: CartLine) => !IsLine(line, productId, variantId))
  }

  /**
   * The lines saved by `updateQuantity(productId, variantId, quantity)`;
   * None when the identity has no line and nothing is saved.
   */
  function UpdatedLines(items: seq<CartLine>, productId: string, variantId: string, quantity: int)
    : (r: Option<seq<CartLine>>)
    ensures r.None? <==> FindLine(items, productId, variantId).None?
    ensures r.Some? && quantity < 1 ==> r.value == RemoveLines(items, productId, variantId)
    ensures r.Some? && quantity >= 1 ==>
              var k := FindLine(items, productId, variantId).value;
              && |r.value| == |items|
              && r.value[k] == items[k].(quantity := quantity)
              && forall j :: 0 <= j < |items| && j != k ==> r.value[j] == items[j]
  {
    match FindLine(items, productId, variantId)
    case None => None
    case Some(k) =>
      Some(if quantity < 1 then RemoveLines(items, productId, variantId)
           else SetLineQuantity(items, k, quantity))
  }

  /** The `data-action` values the delegated click handler reacts to. */
  datatype ClickAction = Decrease | Increase | Delete | Unrecognised

  /**
   * The lines saved by a click on a quantity control of the line
   * (productId, variantId); None when nothing is saved.
   */
  function ClickedLines(items: seq<CartLine>, action: ClickAction, productId: string, variantId: string)
    : (r: Option<seq<CartLine>>)
    ensures r.None? <==> action == Unrecognised || (action != Delete && FindLine(items, productId, variantId).None?)
  {
    match action
    case Decrease =>
      (match FindLine(items, productId, variantId)
       case None => None
       case Some(k) =>
         if items[k].quantity > 1 then UpdatedLines(items, productId, variantId, items[k].quantity - 1)
         else Some(RemoveLines(items, productId, variantId)))
    case Increase =>
      (match FindLine(items, productId, variantId)
       case None => None
       case Some(k) => UpdatedLines(items, productId, variantId, items[k].quantity + 1))
    case Delete => Some(RemoveLines(items, productId, variantId))
    case Unrecognised => None
  }

  // ---------------------------------------------------------------------
  // Aggregates

  function LineQuantity(line: CartLine): int { line.quantity }

  function LineAmount(line: CartLine): int { line.price * line.quantity }

  /** `items.reduce((acc, item) => acc + f(item), acc)` */
  function Reduce(items: seq<CartLine>, f: CartLine -> int, acc: int): int
  {
    if items == [] then acc else Reduce(items[1..], f, acc + f(items[0]))
  }

  /** The sum of `f` over the lines. */
  function Sum(items: seq<CartLine>, f: CartLine -> int): int
  {
    if items == [] then 0 else f(items[0]) + Sum(items[1..], f)
  }

  lemma {:induction false} ReduceIsSum(items: seq<CartLine>, f: CartLine -> int, acc: int)
    ensures Reduce(items, f, acc) == acc + Sum(items, f)
  {
    if items != [] {
      ReduceIsSum(items[1..], f, acc + f(items[0]));
    }
  }

  /** `getCartCount`: the sum of the line quantities, 0 for an empty cart. */
  function CartCount(items: seq<CartLine>): (r: int)
    ensures r == Sum(items, LineQuantity)
    ensures items == [] ==> r == 0
  {
    ReduceIsSum(items, LineQuantity, 0);
    Reduce(items, LineQuantity, 0)
  }

  /** `getCartTotal`: the sum of price × quantity over the lines, 0 for an empty cart. */
  function CartTotal(items: seq<CartLine>): (r: int)
    ensures r == Sum(items, LineAmount)
    ensures items == [] ==> r == 0
  {
    ReduceIsSum(items, LineAmount, 0);
    Reduce(items, LineAmount, 0)
  }

  // ---------------------------------------------------------------------
  // Lemmas: sums

  lemma {:induction false} SumConcat(a: seq<CartLine>, b: seq<CartLine>, f: CartLine -> int)
    ensures Sum(a + b, f) == Sum(a, f) + Sum(b, f)
  {
    if a == [] {
      assert a + b == b;
    } else {
      SumConcat(a[1..], b, f);
      assert (a + b)[1..] == a[1..] + b;
    }
  }

  lemma SumSplitAt(items: seq<CartLine>, k: nat, f: CartLine -> int)
    requires k < |items|
    ensures Sum(items, f) == Sum(items[..k], f) + f(items[k]) + Sum(items[k + 1..], f)
  {
    var rest := items[k..];
    assert items == items[..k] + rest;
    SumConcat(items[..k], rest, f);
    assert rest[1..] == items[k + 1..];
  }

  /** Replacing one line changes a sum by the difference on that line only. */
  lemma SumReplace(items: seq<CartLine>, k: nat, line: CartLine, f: CartLine -> int)
    requires k < |items|
    ensures Sum(items[k := line], f) == Sum(items, f) - f(items[k]) + f(line)
  {
    var r := items[k := line];
    SumSplitAt(items, k, f);
    SumSplitAt(r, k, f);
    assert r[..k] == items[..k] && r[k + 1..] == items[k + 1..];
  }

  /** Adding to one line's quantity moves the count by the amount and the total by that line's price times it. */
  lemma AddToLineTotals(items: seq<CartLine>, k: nat, quantity: int)
    requires k < |items|
    ensures CartCount(AddToLine(items, k, quantity)) == CartCount(items) + quantity
    ensures CartTotal(AddToLine(items, k, quantity)) == CartTotal(items) + items[k].price * quantity
  {
    var merged := items[k].(quantity := items[k].quantity + quantity);
    assert AddToLine(items, k, quantity) == items[k := merged];
    SumReplace(items, k, merged, LineQuantity);
    SumReplace(items, k, merged, LineAmount);
    assert LineAmount(merged) == LineAmount(items[k]) + items[k].price * quantity by {
      assert items[k].price * (items[k].quantity + quantity) == items[k].price * items[k].quantity + items[k].price * quantity;
    }
  }

  // ---------------------------------------------------------------------
  // Lemmas: removal

  /** Removing an absent identity leaves the lines as they are. */
  lemma RemoveAbsent(items: seq<CartLine>, productId: string, variantId: string)
    requires FindLine(items, productId, variantId).None?
    ensures RemoveLines(items, productId, variantId) == items
  {
    FilterKeepsAll(items, (line: CartLine) => !IsLine(line, productId, variantId));
  }

  /** In a cart with one line per identity, removal drops exactly that line and keeps the others in order. */
  lemma RemoveSingleLine(items: seq<CartLine>, productId: string, variantId: string, k: nat)
    requires OneLinePerIdentity(items)
    requires FindLine(items, productId, variantId) == Some(k)
    ensures RemoveLines(items, productId, variantId) == items[..k] + items[k + 1..]
  {
    FilterDropsOne(items, (line: CartLine) => !IsLine(line, productId, variantId), k);
  }

  /** Removing one position keeps both halves of the invariant. */
  lemma RemovePositionValid(items: seq<CartLine>, k: nat)
    requires k < |items| && ValidCart(items)
    ensures ValidCart(items[..k] + items[k + 1..])
  {
    var r := items[..k] + items[k + 1..];
    RemovePositionOneLine(items, k);
    forall i | 0 <= i < |r| ensures r[i].quantity >= 1 {
      assert r[i] == items[if i < k then i else i + 1];
    }
  }

  /** Removal keeps the cart invariant, and lowers the count and total by exactly the removed line's share. */
  lemma RemoveEffect(items: seq<CartLine>, productId: string, variantId: string)
    requires ValidCart(items)
    ensures ValidCart(RemoveLines(items, productId, variantId))
    ensures FindLine(items, productId, variantId).None? ==>
              CartCount(RemoveLines(items, productId, variantId)) == CartCount(items)
    ensures FindLine(items, productId, variantId).Some? ==>
              var line := items[FindLine(items, productId, variantId).value];
              && CartCount(RemoveLines(items, productId, variantId)) == CartCount(items) - line.quantity
              && CartTotal(RemoveLines(items, productId, variantId)) == CartTotal(items) - line.price * line.quantity
  {
    match FindLine(items, productId, variantId)
    case None =>
      RemoveAbsent(items, productId, variantId);
    case Some(k) =>
      RemoveSingleLine(items, productId, variantId, k);
      RemovePositionValid(items, k);
      SumSplitAt(items, k, LineQuantity);
      SumSplitAt(items, k, LineAmount);
      SumConcat(items[..k], items[k + 1..], LineQuantity);
      SumConcat(items[..k], items[k + 1..], LineAmount);
  }

  /** Overwriting one line's quantity with a positive one keeps the cart invariant. */
  lemma SetQuantityValid(items: seq<CartLine>, k: nat, quantity: int)
    requires k < |items| && ValidCart(items) && quantity >= 1
    ensures ValidCart(SetLineQuantity(items, k, quantity))
  {
  }

  /**
   * `updateQuantity` on a present line keeps the cart invariant whatever the
   * quantity, and moves the count and total by the change on that line only.
   */
  lemma UpdateEffect(items: seq<CartLine>, productId: string, variantId: string, quantity: int)
    requires ValidCart(items)
    requires FindLine(items, productId, variantId).Some?
    ensures UpdatedLines(items, productId, variantId, quantity).Some?
    ensures ValidCart(UpdatedLines(items, productId, variantId, quantity).value)
    ensures var line := items[FindLine(items, productId, variantId).value];
            var kept := if quantity < 1 then 0 else quantity;
            var r := UpdatedLines(items, productId, variantId, quantity).value;
            && CartCount(r) == CartCount(items) - line.quantity + kept
            && CartTotal(r) == CartTotal(items) - line.price * line.quantity + line.price * kept
  {
    var k := FindLine(items, productId, variantId).value;
    if quantity < 1 {
      RemoveEffect(items, productId, variantId);
    } else {
      SetQuantityValid(items, k, quantity);
      SumReplace(items, k, items[k].(quantity := quantity), LineQuantity);
      SumReplace(items, k, items[k].(quantity := quantity), LineAmount);
    }
  }

  /**
   * What each quantity control does to the line (productId, variantId):
   * decrease lowers a quantity above 1 by one and otherwise removes the line,
   * increase raises it by one, delete removes it, and decrease or increase on
   * an absent line (or an unrecognised action) saves nothing.
   */
  lemma ClickOutcome(items: seq<CartLine>, action: ClickAction, productId: string, variantId: string)
    ensures FindLine(items, productId, variantId).None? && action != Delete ==>
              ClickedLines(items, action, productId, variantId).None?
    ensures action == Unrecognised ==> ClickedLines(items, action, productId, variantId).None?
    ensures action == Delete ==>
              ClickedLines(items, action, productId, variantId) == Some(RemoveLines(items, productId, variantId))
    ensures FindLine(items, productId, variantId).Some? ==>
              var k := FindLine(items, productId, variantId).value;
              && (action == Decrease && items[k].quantity > 1 ==>
                    ClickedLines(items, action, productId, variantId) == Some(SetLineQuantity(items, k, items[k].quantity - 1)))
              && (action == Decrease && items[k].quantity <= 1 ==>
                    ClickedLines(items, action, productId, variantId) == Some(RemoveLines(items, productId, variantId)))
              && (action == Increase && items[k].quantity >= 0 ==>
                    ClickedLines(items, action, productId, variantId) == Some(SetLineQuantity(items, k, items[k].quantity + 1)))
              && (action == Increase && items[k].quantity < 0 ==>
                    ClickedLines(items, action, productId, variantId) == Some(RemoveLines(items, productId, variantId)))
  {
  }

  /**
   * On a valid cart every quantity control keeps the cart invariant; decrease
   * lowers the count by one, increase raises it by one, and delete lowers it
   * by the line's quantity.
   */
  lemma ClickEffect(items: seq<CartLine>, action: ClickAction, productId: string, variantId: string)
    requires ValidCart(items)
    ensures ClickedLines(items, action, productId, variantId).Some? ==>
              ValidCart(ClickedLines(items, action, productId, variantId).value)
    ensures FindLine(items, productId, variantId).Some? && action != Unrecognised ==>
              var line := items[FindLine(items, productId, variantId).value];
              var r := ClickedLines(items, action, productId, variantId);
              && r.Some?
              && CartCount(r.value) == CartCount(items) + (match action
                                                           case Decrease => -1
                                                           case Increase => 1
                                                           case _ => -line.quantity)
  {
    match FindLine(items, productId, variantId)
    case None =>
      if action == Delete {
        RemoveEffect(items, productId, variantId);
      }
    case Some(k) =>
      match action
      case Decrease =>
        if items[k].quantity > 1 {
          UpdateEffect(items, productId, variantId, items[k].quantity - 1);
        } else {
          RemoveEffect(items, productId, variantId);
        }
      case Increase =>
        UpdateEffect(items, productId, variantId, items[k].quantity + 1);
      case Delete =>
        RemoveEffect(items, productId, variantId);
      case Unrecognised =>
  }

  // ---------------------------------------------------------------------
  // Lemmas: one line per identity, whatever the quantities

  /** A cart whose lines keep their identities, position by position, keeps one line per identity. */
  lemma SameIdentitiesOneLine(items: seq<CartLine>, r: seq<CartLine>)
    requires OneLinePerIdentity(items) && |r| == |items|
    requires forall j :: 0 <= j < |items| ==>
               r[j].productId == items[j].productId && r[j].variantId == items[j].variantId
    ensures OneLinePerIdentity(r)
  {
    forall i, j | 0 <= i < j < |r| ensures !IsLine(r[j], r[i].productId, r[i].variantId) {
      assert !IsLine(items[j], items[i].productId, items[i].variantId);
    }
  }

  /** Adding to a line's quantity keeps one line per identity, whatever the amount. */
  lemma AddToLineOneLine(items: seq<CartLine>, k: nat, quantity: int)
    requires k < |items| && OneLinePerIdentity(items)
    ensures OneLinePerIdentity(AddToLine(items, k, quantity))
  {
    SameIdentitiesOneLine(items, AddToLine(items, k, quantity));
  }

  /** Setting a line's quantity keeps one line per identity, whatever the quantity. */
  lemma SetQuantityOneLine(items: seq<CartLine>, k: nat, quantity: int)
    requires k < |items| && OneLinePerIdentity(items)
    ensures OneLinePerIdentity(SetLineQuantity(items, k, quantity))
  {
    SameIdentitiesOneLine(items, SetLineQuantity(items, k, quantity));
  }

  /** Dropping one position keeps one line per identity. */
  lemma RemovePositionOneLine(items: seq<CartLine>, k: nat)
    requires k < |items| && OneLinePerIdentity(items)
    ensures OneLinePerIdentity(items[..k] + items[k + 1..])
  {
    var r := items[..k] + items[k + 1..];
    forall i | 0 <= i < |r| ensures r[i] == items[if i < k then i else i + 1] {
    }
  }

  /** `removeFromCart` keeps one line per identity, whatever the quantities. */
  lemma RemoveKeepsOneLine(items: seq<CartLine>, productId: string, variantId: string)
    requires OneLinePerIdentity(items)
    ensures OneLinePerIdentity(RemoveLines(items, productId, variantId))
  {
    match FindLine(items, productId, variantId)
    case None =>
      RemoveAbsent(items, productId, variantId);
    case Some(k) =>
      RemoveSingleLine(items, productId, variantId, k);
      RemovePositionOneLine(items, k);
  }

  /** `updateQuantity` keeps one line per identity, whatever the quantities. */
  lemma UpdateKeepsOneLine(items: seq<CartLine>, productId: string, variantId: string, quantity: int)
    requires OneLinePerIdentity(items)
    ensures UpdatedLines(items, productId, variantId, quantity).Some? ==>
              OneLinePerIdentity(UpdatedLines(items, productId, variantId, quantity).value)
  {
    match FindLine(items, productId, variantId)
    case None =>
    case Some(k) =>
      if quantity < 1 {
        RemoveKeepsOneLine(items, productId, variantId);
      } else {
        SetQuantityOneLine(items, k, quantity);
      }
  }

  /** Every quantity control keeps one line per identity, whatever the quantities. */
  lemma ClickKeepsOneLine(items: seq<CartLine>, action: ClickAction, productId: string, variantId: string)
    requires OneLinePerIdentity(items)
    ensures ClickedLines(items, action, productId, variantId).Some? ==>
              OneLinePerIdentity(ClickedLines(items, action, productId, variantId).value)
  {
    RemoveKeepsOneLine(items, productId, variantId);
    match FindLine(items, productId, variantId)
    case None =>
    case Some(k) =>
      UpdateKeepsOneLine(items, productId, variantId, items[k].quantity - 1);
      UpdateKeepsOneLine(items, productId, variantId, items[k].quantity + 1);
  }

  /**
   * Adding to the first line of an identity leaves it the first line of that
   * identity, with the amount added; in a cart with one line per identity it
   * stays the only one.
   */
  lemma AddToFirstLine(items: seq<CartLine>, productId: string, variantId: string, k: nat, quantity: int)
    requires FindLine(items, productId, variantId) == Some(k)
    ensures FindLine(AddToLine(items, k, quantity), productId, variantId) == Some(k)
    ensures AddToLine(items, k, quantity)[k].quantity == items[k].quantity + quantity
    ensures OneLinePerIdentity(items) ==>
              forall j :: 0 <= j < |items| ==> (IsLine(AddToLine(items, k, quantity)[j], productId, variantId) <==> j == k)
  {
    var r := AddToLine(items, k, quantity);
    assert forall j :: 0 <= j < |items| ==> (IsLine(r[j], productId, variantId) <==> IsLine(items[j], productId, variantId));
    if OneLinePerIdentity(items) {
      forall j | 0 <= j < |items| && j != k ensures !IsLine(items[j], productId, variantId) {
        if j > k {
          assert !IsLine(items[j], items[k].productId, items[k].variantId);
        }
      }
    }
  }

  /** A line appended for an absent identity is that identity's first line. */
  lemma AppendedLineFirst(items: seq<CartLine>, line: CartLine, productId: string, variantId: string)
    requires FindLine(items, productId, variantId).None? && IsLine(line, productId, variantId)
    ensures FindLine(items + [line], productId, variantId) == Some(|items|)
  {
    var r := items + [line];
    assert IsLine(r[|items|], productId, variantId);
    forall j | 0 <= j < |items| ensures !IsLine(r[j], productId, variantId) {
      assert r[j] == items[j];
    }
  }

  /** Appending a line with a new identity keeps one line per identity, whatever its quantity. */
  lemma AppendKeepsOneLine(items: seq<CartLine>, line: CartLine)
    requires OneLinePerIdentity(items)
    requires FindLine(items, line.productId, line.variantId).None?
    ensures OneLinePerIdentity(items + [line])
  {
    var r := items + [line];
    forall i, j | 0 <= i < j < |r|
      ensures !IsLine(r[j], r[i].productId, r[i].variantId)
    {
      if j == |items| {
        assert !IsLine(items[i], line.productId, line.variantId);
      } else {
        assert r[i] == items[i] && r[j] == items[j];
      }
    }
  }
}
