/**
 * The order-review screen: the cart handed over from order entry, the
 * pricing (subtotal, bulk-order scheme discount, total), the payment-terms
 * and notes fields, and the submission that packages an order record.
 */
module OrderReview {
  import opened Wrappers
  import opened Cart
  import OrderEntry

  // ----- pricing -----

  /** Subtotals strictly above this earn the scheme discount. */
  const DiscountThreshold := 500

  /**
   * The scheme discount: 5% of the subtotal rounded down, but only for a
   * subtotal above the threshold.
   */
  function SchemeDiscount(subtotal: int): (d: int)
    ensures subtotal <= DiscountThreshold ==> d == 0
    ensures subtotal > DiscountThreshold ==> 20 * d <= subtotal < 20 * d + 20
    ensures subtotal >= 0 ==> 0 <= d <= subtotal
  {
    if subtotal > DiscountThreshold then (subtotal * 5) / 100 else 0
  }

  /** What the order costs: the cart's subtotal less its scheme discount. */
  function TotalAmount(cart: seq<CartLine>): (total: int)
    ensures Subtotal(cart) >= 0 ==> 0 <= total <= Subtotal(cart)
    ensures Subtotal(cart) <= DiscountThreshold ==> total == Subtotal(cart)
    ensures Subtotal(cart) > DiscountThreshold ==> total < Subtotal(cart)
  {
    var subtotal := Subtotal(cart);
    subtotal - SchemeDiscount(subtotal)
  }

  /** The discount at and just past the threshold, and at two round subtotals. */
  lemma SchemeDiscountExamples()
    ensures SchemeDiscount(500) == 0
    ensures SchemeDiscount(501) == 25
    ensures SchemeDiscount(600) == 30
    ensures SchemeDiscount(1000) == 50
  {
  }

  /**
   * The discount switches on at the threshold, so a larger subtotal can cost
   * less: 500 pays 500, 501 pays 476.
   */
  lemma DiscountCliff(cheaper: seq<CartLine>, dearer: seq<CartLine>)
    requires Subtotal(cheaper) == 500 && Subtotal(dearer) == 501
    ensures TotalAmount(cheaper) == 500 && TotalAmount(dearer) == 476
    ensures TotalAmount(dearer) < TotalAmount(cheaper)
  {
  }

  /**
   * The scheme card and the discount row are shown exactly when the
   * subtotal is above the threshold.
   */
  lemma SchemeShownIffAboveThreshold(subtotal: int)
    ensures SchemeDiscount(subtotal) > 0 <==> subtotal > DiscountThreshold
  {
  }

  // ----- the order record -----

  /** The payment terms the screen's drop-down offers. */
  const PaymentTermsOptions: seq<string> := ["immediate", "credit-7", "credit-15", "credit-30"]

  datatype OrderRecord = OrderRecord(
    items: seq<CartLine>,
    subtotal: int,
    discount: int,
    total: int,
    paymentTerms: string,
    notes: string,
    orderId: string)

  /** The record handed to the confirmation screen, priced from its own items. */
  function MakeOrder(items: seq<CartLine>, paymentTerms: string, notes: string, orderId: string): (order: OrderRecord)
    ensures order.items == items && order.paymentTerms == paymentTerms
    ensures order.notes == notes && order.orderId == orderId
    ensures order.subtotal == Subtotal(items)
    ensures order.discount == SchemeDiscount(order.subtotal)
    ensures order.total == TotalAmount(items)
  {
    var subtotal := Subtotal(items);
    OrderRecord(items, subtotal, SchemeDiscount(subtotal), TotalAmount(items), paymentTerms, notes, orderId)
  }

  /**
   * The record's figures agree with each other: total is subtotal less
   * discount, the discount never exceeds the subtotal, and with non-negative
   * prices nothing is negative.
   */
  lemma {:induction false} OrderFiguresConsistent(items: seq<CartLine>, paymentTerms: string, notes: string, orderId: string)
    requires Valid(items)
    requires forall i :: 0 <= i < |items| ==> items[i].price >= 0
    ensures var order := MakeOrder(items, paymentTerms, notes, orderId);
      && order.total == order.subtotal - order.discount
      && 0 <= order.discount <= order.subtotal
      && 0 <= order.total <= order.subtotal
      && (|items| > 0 ==> TotalItems(order.items) >= 1)
  {
    SubtotalNonNegative(items);
    TotalItemsAtLeastLines(items);
  }

  // ----- the screen -----

  /**
   * Where submission stands. `Submitting` holds what the delayed submission
   * captured when the button was pressed; `Submitted` holds the record it
   * produced.
   */
  datatype Phase =
    | Building
    | Submitting(items: seq<CartLine>, paymentTerms: string, notes: string)
    | Submitted(order: OrderRecord)

  class OrderReviewScreen {
    var cart: seq<CartLine>
    var paymentTerms: string
    var orderNotes: string
    var phase: Phase

    ghost predicate Valid()
      reads this
    {
      Cart.Valid(cart)
    }

    /** The screen opens on the cart handed over, or on an empty cart when there is none. */
    constructor (handoff: Option<seq<CartLine>>)
      requires handoff.Some? ==> Cart.Valid(handoff.value)
      ensures cart == handoff.GetOr([])
      ensures paymentTerms == "" && orderNotes == "" && phase == Building
      ensures Valid()
    {
      cart := handoff.GetOr([]);
      paymentTerms := "";
      orderNotes := "";
      phase := Building;
    }

    /** The spinner flag of the submit button. */
    predicate IsSubmitting()
      reads this
    {
      phase.Submitting?
    }

    /** The − and + buttons of a line: the same rule as on the order-entry screen. */
    method UpdateQuantity(id: string, change: int)
      requires Valid()
      modifies this
      ensures cart == Cart.UpdateQuantity(old(cart), id, change)
      ensures paymentTerms == old(paymentTerms) && orderNotes == old(orderNotes) && phase == old(phase)
      ensures Valid()
    {
      UpdateQuantityValid(cart, id, change);
      cart := Cart.UpdateQuantity(cart, id, change);
    }

    /** The trash button of a line. */
    method RemoveItem(id: string)
      requires Valid()
      modifies this
      ensures cart == Cart.RemoveItem(old(cart), id)
      ensures id !in Ids(cart)
      ensures paymentTerms == old(paymentTerms) && orderNotes == old(orderNotes) && phase == old(phase)
      ensures Valid()
    {
      RemoveItemValid(cart, id);
      RemoveItemGone(cart, id);
      cart := Cart.RemoveItem(cart, id);
    }

    /** Choosing an entry of the payment-terms drop-down. */
    method SelectPaymentTerms(terms: string)
      requires terms in PaymentTermsOptions
      modifies this
      ensures paymentTerms == terms && paymentTerms != ""
      ensures cart == old(cart) && orderNotes == old(orderNotes) && phase == old(phase)
    {
      paymentTerms := terms;
    }

    /** Typing in the notes box. */
    method SetOrderNotes(notes: string)
      modifies this
      ensures orderNotes == notes
      ensures cart == old(cart) && paymentTerms == old(paymentTerms) && phase == old(phase)
    {
      orderNotes := notes;
    }

    /** Whether the screen shows "No items in cart" instead of the order. */
    predicate ShowsEmptyView()
      reads this
    {
      |cart| == 0
    }

    /**
     * Whether the submit button can be pressed: it is rendered only with the
     * order view, and disabled while a submission is in flight (once the
     * submission has finished the screen is gone).
     */
    predicate SubmitEnabled()
      reads this
    {
      !ShowsEmptyView() && phase.Building?
    }

    /**
     * The submit button. Without payment terms nothing changes (only an error
     * toast); otherwise the submission starts, capturing the cart, the terms
     * and the notes as they are now. The handler itself does not look at
     * whether the cart is empty.
     */
    method HandleSubmitOrder() returns (accepted: bool)
      requires phase.Building?
      modifies this
      ensures accepted <==> paymentTerms != ""
      ensures cart == old(cart) && paymentTerms == old(paymentTerms) && orderNotes == old(orderNotes)
      ensures !accepted ==> phase == Building && !IsSubmitting()
      ensures accepted ==> phase == Submitting(cart, paymentTerms, orderNotes) && IsSubmitting()
    {
      if paymentTerms == "" {
        accepted := false;
        return;
      }
      phase := Submitting(cart, paymentTerms, orderNotes);
      accepted := true;
    }

    /**
     * The delayed part of the submission: the spinner stops and the order
     * record is built from what was captured when the button was pressed,
     * whatever the cart holds by now. `orderId` stands for the id made from
     * the clock.
     */
    method FinishSubmission(orderId: string) returns (order: OrderRecord)
      requires phase.Submitting?
      modifies this
      ensures order == MakeOrder(old(phase).items, old(phase).paymentTerms, old(phase).notes, orderId)
      ensures phase == Submitted(order) && !IsSubmitting()
      ensures cart == old(cart) && paymentTerms == old(paymentTerms) && orderNotes == old(orderNotes)
    {
      order := MakeOrder(phase.items, phase.paymentTerms, phase.notes, orderId);
      phase := Submitted(order);
    }
  }

  /**
   * Pressing the (enabled) submit button and letting the submission finish:
   * a record is produced exactly when terms were chosen, made of the cart,
   * terms and notes on screen at the press. Since the button is only there
   * for a non-empty cart, the record always holds at least one item.
   */
  method SubmitScenario(screen: OrderReviewScreen, orderId: string) returns (order: Option<OrderRecord>)
    requires screen.Valid() && screen.SubmitEnabled()
    modifies screen
    ensures order.Some? <==> old(screen.paymentTerms) != ""
    ensures order.Some? ==> order.value == MakeOrder(old(screen.cart), old(screen.paymentTerms), old(screen.orderNotes), orderId)
    ensures order.Some? ==> order.value.paymentTerms != "" && screen.phase == Submitted(order.value)
    ensures order.Some? ==> |order.value.items| > 0 && TotalItems(order.value.items) >= 1
    ensures order.None? ==> screen.phase == Building && screen.cart == old(screen.cart)
  {
    TotalItemsAtLeastLines(screen.cart);
    var accepted := screen.HandleSubmitOrder();
    if accepted {
      var record := screen.FinishSubmission(orderId);
      order := Some(record);
    } else {
      order := None;
    }
  }

  /**
   * The "Review Order" button of the order-entry screen followed by this
   * screen opening on the cart handed over: offered only for a non-empty
   * cart, and the review screen then shows that cart, never the empty view,
   * with the submit button enabled.
   */
  method OpenReview(entry: OrderEntry.OrderEntryScreen) returns (review: OrderReviewScreen?)
    requires entry.Valid()
    ensures review == null <==> |entry.cart| == 0
    ensures review != null ==> fresh(review) && review.cart == entry.cart && review.Valid()
    ensures review != null ==> !review.ShowsEmptyView() && review.SubmitEnabled()
    ensures review != null ==> review.paymentTerms == "" && review.phase == Building
  {
    var handoff := entry.ReviewOrder();
    if handoff.Some? {
      review := new OrderReviewScreen(handoff);
    } else {
      review := null;
    }
  }

  /** Two packs of tea powder at 150: subtotal 300, below the threshold, so no discount. */
  lemma SmallOrderExample()
    ensures var cart := [CartLine("1", "Tea Powder Premium", "500g", 150, 2)];
      Subtotal(cart) == 300 && SchemeDiscount(Subtotal(cart)) == 0 && TotalAmount(cart) == 300 && TotalItems(cart) == 2
  {
  }

  /** Tea powder × 2 and basmati rice make 750: 5% is 37.5, so the discount is 37 and the total 713. */
  lemma DiscountedOrderExample()
    ensures var cart := [CartLine("1", "Tea Powder Premium", "500g", 150, 2), CartLine("5", "Rice Basmati", "5kg", 450, 1)];
      Subtotal(cart) == 750 && SchemeDiscount(Subtotal(cart)) == 37 && TotalAmount(cart) == 713 && TotalItems(cart) == 3
  {
  }
}
