/**
 * The checkout page: the empty-cart redirect, the contact form, and the
 * submission that turns the cart into an order request, clears the cart
 * on success and keeps it on failure.
 */
module Checkout {
  import opened Wrappers
  import opened Js
  import CartContext
  import OrderController

  datatype Form = Form(name: string, email: string, address: string, phone: string)

  const EmptyForm := Form("", "", "", "")

  /** The four inputs of the form. */
  datatype Field = Name | Email | Address | Phone

  function FieldValue(form: Form, field: Field): string
  {
    match field
    case Name => form.name
    case Email => form.email
    case Address => form.address
    case Phone => form.phone
  }

  /** `update(field, value)`: `{ ...p, [field]: value }` */
  function WithField(form: Form, field: Field, value: string): (r: Form)
    ensures FieldValue(r, field) == value
    ensures forall other :: other != field ==> FieldValue(r, other) == FieldValue(form, other)
  {
    match field
    case Name => form.(name := value)
    case Email => form.(email := value)
    case Address => form.(address := value)
    case Phone => form.(phone := value)
  }

  /** The submit guard: some field is the empty string. */
  predicate HasEmptyField(form: Form)
  {
    form.name == "" || form.email == "" || form.address == "" || form.phone == ""
  }

  datatype OrderItem = OrderItem(name: string, price: int, color: string, size: string, quantity: int)

  /** The argument of `apiClient.createOrder`. */
  datatype OrderRequest = OrderRequest(
    customerName: string, customerEmail: string, customerAddress: string, customerPhone: string,
    items: seq<OrderItem>, total: int)

  function ToOrderItem(l: CartContext.Line): OrderItem
  {
    OrderItem(l.product.name, l.product.price, l.color, l.size, l.quantity)
  }

  /** `orderItems`: the cart lines, one to one and in order. */
  function OrderItems(lines: seq<CartContext.Line>): (r: seq<OrderItem>)
    ensures |r| == |lines|
    ensures forall i :: 0 <= i < |lines| ==>
      && r[i].name == lines[i].product.name && r[i].price == lines[i].product.price
      && r[i].color == lines[i].color && r[i].size == lines[i].size
      && r[i].quantity == lines[i].quantity
  {
    seq(|lines|, i requires 0 <= i < |lines| => ToOrderItem(lines[i]))
  }

  /** The request built from the form and the cart lines; its total is the raw cart total. */
  function BuildRequest(form: Form, lines: seq<CartContext.Line>): (r: OrderRequest)
    ensures r.total == CartContext.TotalPrice(lines)
    ensures r.items == OrderItems(lines)
    ensures r.customerName == form.name && r.customerEmail == form.email
    ensures r.customerAddress == form.address && r.customerPhone == form.phone
  {
    OrderRequest(form.name, form.email, form.address, form.phone, OrderItems(lines), CartContext.TotalPrice(lines))
  }

  /** An item line as the JSON object the server receives. */
  function ItemValue(item: OrderItem): Value
  {
    Obj([("name", Str(item.name)), ("price", Num(item.price)), ("color", Str(item.color)),
         ("size", Str(item.size)), ("quantity", Num(item.quantity))])
  }

  /** The request as the server's `req.body`. */
  function RequestBody(req: OrderRequest): (b: OrderController.OrderBody)
    ensures b.items.Arr? && |b.items.elems| == |req.items|
  {
    OrderController.OrderBody(
      Str(req.customerName), Str(req.customerEmail), Str(req.customerPhone), Str(req.customerAddress),
      Arr(seq(|req.items|, i requires 0 <= i < |req.items| => ItemValue(req.items[i]))), Num(req.total))
  }

  /** A request sent from a filled form passes the server's required-field check exactly when the cart total is not 0 (an empty item array still passes). */
  lemma SubmissionPassesServerCheck(form: Form, lines: seq<CartContext.Line>)
    requires !HasEmptyField(form)
    ensures OrderController.HasRequiredFields(RequestBody(BuildRequest(form, lines)))
            <==> CartContext.TotalPrice(lines) != 0
  {
  }

  datatype Notice = Error(text: string) | Success(text: string)

  const FillAllFields := "Veuillez remplir tous les champs."
  const Confirmed := "Commande confirmée ! Paiement à la livraison. \U{1F389}"
  const OrderFailed := "Erreur lors de la commande. Réessayez."
  const CartPath := "/panier"
  const HomePath := "/"

  /**
   * The page's state: the form, the `submitting` flag, the last toast
   * shown and the last navigation requested; the cart is the shared ledger.
   */
  class CheckoutPage {
    const cart: CartContext.CartLedger
    var form: Form
    var submitting: bool
    var notice: Option<Notice>
    var location: Option<string>

    constructor (cart: CartContext.CartLedger)
      ensures this.cart == cart
      ensures form == EmptyForm && !submitting && notice.None? && location.None?
    {
      this.cart := cart;
      form := EmptyForm;
      submitting := false;
      notice := None;
      location := None;
    }

    /** Rendering: an empty cart navigates to the cart page and renders nothing. */
    method Render() returns (shown: bool)
      modifies this`location
      ensures shown <==> cart.items != []
      ensures !shown ==> location == Some(CartPath)
      ensures shown ==> location == old(location)
    {
      if |cart.items| == 0 {
        location := Some(CartPath);
        return false;
      }
      return true;
    }

    /** `update(field, value)` */
    method Update(field: Field, value: string)
      modifies this`form
      ensures form == WithField(old(form), field, value)
    {
      form := WithField(form, field, value);
    }

    /**
     * `handleSubmit`, with `accepted` standing for whether the
     * `createOrder` call resolved or threw. Returns the request sent, if any.
     */
    method HandleSubmit(accepted: bool) returns (sent: Option<OrderRequest>)
      modifies this, cart
      ensures form == old(form) && cart.discount == old(cart.discount)
      ensures HasEmptyField(old(form)) ==>
        && sent.None? && notice == Some(Error(FillAllFields))
        && submitting == old(submitting) && location == old(location)
        && cart.items == old(cart.items) && cart.slot == old(cart.slot)
      ensures !HasEmptyField(old(form)) ==>
        && sent == Some(BuildRequest(old(form), old(cart.items)))
        && !submitting
      ensures !HasEmptyField(old(form)) && accepted ==>
        && cart.items == [] && cart.slot.None?
        && notice == Some(Success(Confirmed)) && location == Some(HomePath)
      ensures !HasEmptyField(old(form)) && !accepted ==>
        && cart.items == old(cart.items) && cart.slot == old(cart.slot)
        && notice == Some(Error(OrderFailed)) && location == old(location)
    {
      if HasEmptyField(form) {
        notice := Some(Error(FillAllFields));
        return None;
      }
      submitting := true;
      var request := BuildRequest(form, cart.items);
      sent := Some(request);
      if accepted {
        notice := Some(Success(Confirmed));
        cart.ClearCart();
        location := Some(HomePath);
      } else {
        notice := Some(Error(OrderFailed));
      }
      submitting := false;
    }
  }
}
