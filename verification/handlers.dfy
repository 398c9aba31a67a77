/** The request handlers that touch the shopping list, as functions from
    the session's `shopping_list` entry and the request's form data to the
    new entry and the flash message queued for the next page. */
module Handlers {
  import opened Wrappers
  import opened Text
  import opened Inventory
  import opened Forms
  import opened ShoppingList
  import Ints

  /** The session's `shopping_list` entry: `None` until a handler first
      creates it. */
  type Session = Option<Cart>

  predicate SessionValid(s: Session) {
    s.None? || Valid(s.value)
  }

  /** `get_shopping_list`: the stored list, or a fresh empty one that the
      handler then stores (the session's `setdefault`). */
  function GetShoppingList(s: Session): (cart: Cart)
    ensures s.Some? ==> cart == s.value
    ensures s.None? ==> cart == map[]
    ensures SessionValid(s) ==> Valid(cart)
  {
    s.GetOr(map[])
  }

  /** What a handler leaves behind: the new session entry and the flash
      message it queued, if any. */
  datatype Response = Response(session: Session, flash: Option<string>)

  const NotFoundMessage: string := "Product not found."
  const UpdatedMessage: string := "Shopping list updated."
  const ClearedMessage: string := "Shopping list cleared."

  /** The flash of a successful add names the quantity, which reads back
      as the number added, and then the sku. */
  function AddedMessage(qty: int, sku: string): (msg: string)
    ensures |msg| >= 6 + |Ints.FormatInt(qty)|
    ensures Ints.ParseInt(msg[6..6 + |Ints.FormatInt(qty)|]) == Some(qty)
    ensures OccursAt(msg, sku, 6 + |Ints.FormatInt(qty)| + 3)
  {
    var n := Ints.FormatInt(qty);
    var msg := "Added " + n + " x " + sku + " to your shopping list.";
    assert msg[6..6 + |n|] == n;
    assert msg[6 + |n| + 3..6 + |n| + 3 + |sku|] == sku;
    Ints.ParseFormat(qty);
    msg
  }

  /** The flash of a removal names the sku right after "Removed ". */
  function RemovedMessage(sku: string): (msg: string)
    ensures StartsWith(msg, "Removed ")
    ensures OccursAt(msg, sku, 8)
  {
    var msg := "Removed " + sku + " from your shopping list.";
    assert msg[..8] == "Removed ";
    assert msg[8..8 + |sku|] == sku;
    msg
  }

  /** The sku a form names: its "sku" field, stripped, "" when missing. */
  function FormSku(form: Form): (sku: string)
    ensures IsStripped(sku)
    ensures !HasKey(form, "sku") ==> sku == ""
    ensures HasKey(form, "sku") ==> exists i :: FirstAt(form, "sku", i) && sku == Strip(form[i].1)
  {
    Strip(Get(form, "sku", ""))
  }

  /** The raw quantity of an add: the "qty" field, stripped, "1" when missing. */
  function FormQtyText(form: Form): (text: string)
    ensures IsStripped(text)
    ensures !HasKey(form, "qty") ==> text == "1"
    ensures HasKey(form, "qty") ==> exists i :: FirstAt(form, "qty", i) && text == Strip(form[i].1)
  {
    var v := Get(form, "qty", "1");
    assert !HasKey(form, "qty") ==> Strip(v) == "1" by {
      assert IsStripped("1");
      StripStripped("1");
    }
    Strip(v)
  }

  /** `add_to_list`. An unknown sku leaves the session exactly as it was;
      otherwise the clamped quantity is added onto the sku's entry. */
  function AddToList(s: Session, table: seq<Product>, form: Form): (r: Response)
    ensures !HasSku(table, FormSku(form)) ==> r == Response(s, Some(NotFoundMessage))
    ensures HasSku(table, FormSku(form)) ==> r.session.Some?
    ensures HasSku(table, FormSku(form)) ==>
              r.session.value.Keys == GetShoppingList(s).Keys + {FormSku(form)}
    ensures HasSku(table, FormSku(form)) ==>
              r.session.value[FormSku(form)]
                == (if FormSku(form) in GetShoppingList(s) then GetShoppingList(s)[FormSku(form)] else 0)
                   + ClampQty(FormQtyText(form))
    ensures HasSku(table, FormSku(form)) ==>
              forall k :: k in GetShoppingList(s) && k != FormSku(form) ==>
                r.session.value[k] == GetShoppingList(s)[k]
    ensures HasSku(table, FormSku(form)) ==>
              r.flash == Some(AddedMessage(ClampQty(FormQtyText(form)), FormSku(form)))
    ensures SessionValid(s) ==> SessionValid(r.session)
  {
    var sku := FormSku(form);
    var qty := ClampQty(FormQtyText(form));
    match Add(GetShoppingList(s), table, sku, qty)
    case ProductNotFound => Response(s, Some(NotFoundMessage))
    case Added(cart) => Response(Some(cart), Some(AddedMessage(qty, sku)))
  }

  /** `update_shopping_list`: the list becomes exactly the skus whose
      "qty-<sku>" field holds a positive integer, whatever it was before. */
  function UpdateShoppingList(s: Session, form: Form): (r: Response)
    ensures r.session.Some? && Valid(r.session.value)
    ensures forall sku :: sku in r.session.value <==> FormQty(form, sku) > 0
    ensures forall sku :: sku in r.session.value ==> r.session.value[sku] == FormQty(form, sku)
    ensures r.flash == Some(UpdatedMessage)
  {
    var items := Items(form);
    assert forall sku :: FormQty(items, sku) == FormQty(form, sku);
    Response(Some(BulkUpdate(items)), Some(UpdatedMessage))
  }

  /** `remove_from_list`: deletes the named sku when it is listed, and says
      so; otherwise changes nothing and queues no message. */
  function RemoveFromList(s: Session, form: Form): (r: Response)
    ensures r.session.Some?
    ensures r.session.value.Keys == GetShoppingList(s).Keys - {FormSku(form)}
    ensures forall k :: k in r.session.value ==> r.session.value[k] == GetShoppingList(s)[k]
    ensures r.flash.Some? <==> FormSku(form) in GetShoppingList(s)
    ensures r.flash.Some? ==> r.flash.value == RemovedMessage(FormSku(form))
    ensures SessionValid(s) ==> SessionValid(r.session)
  {
    var sku := FormSku(form);
    var cart := GetShoppingList(s);
    if sku in cart then
      var rest := Remove(cart, sku);
      Response(Some(rest), Some(RemovedMessage(sku)))
    else
      assert cart.Keys - {sku} == cart.Keys;
      Response(Some(cart), None)
  }

  /** `clear_list`: the list is empty afterwards, whatever it held. */
  function ClearList(s: Session): (r: Response)
    ensures r.session.Some? && |r.session.value| == 0
    ensures r.flash == Some(ClearedMessage)
  {
    Response(Some(map[]), Some(ClearedMessage))
  }

  /** What the list page leaves behind: the session entry it `setdefault`s
      and the view it renders. */
  datatype Page = Page(session: Session, view: View)

  /** `shopping_list`: the page for the stored list, listed in the
      dictionary's iteration order `order`. */
  function ShoppingListPage(s: Session, table: seq<Product>, order: seq<string>): (r: Page)
    requires IsOrdering(order, GetShoppingList(s))
    ensures r.session == Some(GetShoppingList(s))
    ensures |r.view.items| == |order| == |GetShoppingList(s)|
    ensures forall i :: 0 <= i < |r.view.items| ==>
              r.view.items[i] == ViewItem(table, order[i], GetShoppingList(s)[order[i]])
    ensures r.view.totalItems == MapSum(GetShoppingList(s))
    ensures SessionValid(s) ==> (r.view.totalItems == 0 <==> |r.view.items| == 0)
  {
    var cart := GetShoppingList(s);
    Page(Some(cart), ViewList(cart, table, order))
  }

  /** A request that reads or changes the shopping list. Each add carries
      the inventory table loaded while serving it. */
  datatype Request =
    | AddRequest(table: seq<Product>, form: Form)
    | UpdateRequest(form: Form)
    | RemoveRequest(form: Form)
    | ClearRequest
    | ViewRequest

  /** The session entry after serving `req`. */
  function Step(s: Session, req: Request): (s': Session)
    ensures SessionValid(s) ==> SessionValid(s')
  {
    match req
    case AddRequest(table, form) => AddToList(s, table, form).session
    case UpdateRequest(form) => UpdateShoppingList(s, form).session
    case RemoveRequest(form) => RemoveFromList(s, form).session
    case ClearRequest => ClearList(s).session
    case ViewRequest => Some(GetShoppingList(s))
  }

  /** The session entry after serving `reqs` in order, from a fresh session. */
  function Run(reqs: seq<Request>): Session {
    if |reqs| == 0 then None else Step(Run(reqs[..|reqs| - 1]), reqs[|reqs| - 1])
  }

  /** Every reachable shopping list holds only positive quantities. */
  lemma {:induction false} ReachableValid(reqs: seq<Request>)
    ensures SessionValid(Run(reqs))
  {
    if |reqs| > 0 {
      ReachableValid(reqs[..|reqs| - 1]);
    }
  }

  /** An update naming a single sku leaves exactly that sku listed, whatever
      the list held before: the list is replaced, not merged. */
  lemma UpdateReplaces(s: Session, sku: string, n: int)
    requires n >= 1
    ensures UpdateShoppingList(s, [(QtyKey(sku), Ints.FormatInt(n))]).session == Some(map[sku := n])
  {
    var form := [(QtyKey(sku), Ints.FormatInt(n))];
    var r := UpdateShoppingList(s, form).session.value;
    Ints.FormatIntStripped(n);
    StripStripped(Ints.FormatInt(n));
    Ints.ParseFormat(n);
    forall k
      ensures FormQty(form, k) == if k == sku then n else 0
    {
      QtyKeyOf(QtyKey(sku), k);
      QtyKeyOf(QtyKey(sku), sku);
    }
    assert r == map[sku := n];
  }
}
