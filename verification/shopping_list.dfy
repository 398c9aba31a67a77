/** The per-session shopping list: a map from sku to requested quantity,
    and the pure logic of the handlers that change and display it. */
module ShoppingList {
  import opened Wrappers
  import opened Text
  import opened Inventory
  import opened Forms
  import Ints

  type Cart = map<string, int>

  /** The invariant every reachable shopping list keeps: each stored
      quantity is a positive count. */
  predicate Valid(cart: Cart) {
    forall sku :: sku in cart ==> cart[sku] >= 1
  }

  // ---------------------------------------------------------------- Add

  /** The requested quantity of an add: `int(raw)`, or 1 when that fails or
      is below 1. */
  function ClampQty(raw: string): (q: int)
    ensures q >= 1
    ensures Ints.ParseInt(raw).Some? && Ints.ParseInt(raw).value >= 1 ==> q == Ints.ParseInt(raw).value
    ensures Ints.ParseInt(raw).None? || Ints.ParseInt(raw).value < 1 ==> q == 1
  {
    match Ints.ParseInt(raw)
    case None => 1
    case Some(n) => if n < 1 then 1 else n
  }

  datatype AddResult = Added(cart: Cart) | ProductNotFound

  /** Adds `qty` units of `sku`, provided some inventory row carries that
      sku; the quantity accumulates onto what is already listed. */
  function Add(cart: Cart, table: seq<Product>, sku: string, qty: int): (r: AddResult)
    ensures r.ProductNotFound? <==> !HasSku(table, sku)
    ensures r.Added? ==> r.cart.Keys == cart.Keys + {sku}
    ensures r.Added? ==> r.cart[sku] == (if sku in cart then cart[sku] else 0) + qty
    ensures r.Added? ==> forall k :: k in cart && k != sku ==> r.cart[k] == cart[k]
    ensures r.Added? && Valid(cart) && qty >= 1 ==> Valid(r.cart)
  {
    if !HasSku(table, sku) then ProductNotFound
    else
      var prior := if sku in cart then cart[sku] else 0;
      Added(cart[sku := prior + qty])
  }

  /** A positive quantity written in decimal is taken as it is. */
  lemma ClampFormatted(n: int)
    requires n >= 1
    ensures ClampQty(Ints.FormatInt(n)) == n
  {
    Ints.ParseFormat(n);
  }

  /** Two adds of a stocked sku to an empty list leave exactly that sku,
      with both quantities summed. */
  lemma AddAccumulates(table: seq<Product>, sku: string, a: int, b: int)
    requires HasSku(table, sku)
    ensures Add(Add(map[], table, sku, a).cart, table, sku, b) == Added(map[sku := a + b])
  {
    assert map[sku := a][sku := a + b] == map[sku := a + b];
  }

  // ---------------------------------------------------------------- Bulk update

  const QtyPrefix: string := "qty-"

  /** The form field that carries the quantity of `sku`. */
  function QtyKey(sku: string): string {
    QtyPrefix + sku
  }

  /** A field name starting with "qty-" is the quantity field of the sku
      after the prefix, and of no other sku. */
  lemma QtyKeyOf(key: string, sku: string)
    ensures key == QtyKey(sku) <==> StartsWith(key, QtyPrefix) && key[|QtyPrefix|..] == sku
  {
    if key == QtyKey(sku) {
      assert key[..|QtyPrefix|] == QtyPrefix;
      assert key[|QtyPrefix|..] == sku;
    }
    if StartsWith(key, QtyPrefix) && key[|QtyPrefix|..] == sku {
      assert key == key[..|QtyPrefix|] + key[|QtyPrefix|..];
    }
  }

  /** The quantity the form gives for `sku`: `int(value)` of its field, 0 when
      the field is missing or its value does not parse. */
  function FormQty(form: Form, sku: string): (n: int)
    ensures !HasKey(form, QtyKey(sku)) ==> n == 0
  {
    match Lookup(form, QtyKey(sku))
    case None => 0
    case Some(v) => Ints.ParseInt(v).GetOr(0)
  }

  /** The quantity is read from the first "qty-<sku>" field; a value that
      `int()` rejects counts as 0. */
  lemma FormQtyFirstField(form: Form, sku: string)
    requires HasKey(form, QtyKey(sku))
    ensures exists i :: FirstAt(form, QtyKey(sku), i)
                        && FormQty(form, sku) == Ints.ParseInt(form[i].1).GetOr(0)
  {
    var v := Lookup(form, QtyKey(sku)).value;
    var i :| FirstAt(form, QtyKey(sku), i) && form[i].1 == v;
    assert FormQty(form, sku) == Ints.ParseInt(form[i].1).GetOr(0);
  }

  /** Rebuilds the list from the form's fields alone: every sku whose
      quantity field holds a positive integer, with that quantity. Fields not
      named "qty-..." are ignored and the previous list plays no part. */
  function BulkUpdate(items: Form): (r: Cart)
    requires DistinctKeys(items)
    ensures Valid(r)
    ensures forall sku :: sku in r <==> FormQty(items, sku) > 0
    ensures forall sku :: sku in r ==> r[sku] == FormQty(items, sku)
  {
    if |items| == 0 then map[]
    else
      var rest := BulkUpdate(items[1..]);
      BulkUpdateStep(items);
      var key := items[0].0;
      var q := Ints.ParseInt(items[0].1).GetOr(0);
      if StartsWith(key, QtyPrefix) && q > 0 then rest[key[|QtyPrefix|..] := q] else rest
  }

  /** How the first field of `items` affects each sku's form quantity. */
  lemma BulkUpdateStep(items: Form)
    requires DistinctKeys(items) && |items| > 0
    ensures DistinctKeys(items[1..])
    ensures forall sku :: items[0].0 != QtyKey(sku) ==> FormQty(items, sku) == FormQty(items[1..], sku)
    ensures forall sku :: items[0].0 == QtyKey(sku) ==>
              FormQty(items, sku) == Ints.ParseInt(items[0].1).GetOr(0)
              && FormQty(items[1..], sku) == 0
    ensures StartsWith(items[0].0, QtyPrefix) ==> items[0].0 == QtyKey(items[0].0[|QtyPrefix|..])
    ensures !StartsWith(items[0].0, QtyPrefix) ==> forall sku :: items[0].0 != QtyKey(sku)
  {
    forall sku | items[0].0 == QtyKey(sku)
      ensures Lookup(items[1..], QtyKey(sku)) == None
    {
      assert !HasKey(items[1..], QtyKey(sku));
    }
    forall sku ensures items[0].0 == QtyKey(sku) ==> StartsWith(items[0].0, QtyPrefix) {
      QtyKeyOf(items[0].0, sku);
    }
    if StartsWith(items[0].0, QtyPrefix) {
      QtyKeyOf(items[0].0, items[0].0[|QtyPrefix|..]);
    }
  }

  // ---------------------------------------------------------------- Remove and clear

  /** Deletes `sku` when present; otherwise the list is unchanged. */
  function Remove(cart: Cart, sku: string): (r: Cart)
    ensures r.Keys == cart.Keys - {sku}
    ensures forall k :: k in r ==> r[k] == cart[k]
    ensures sku !in cart ==> r == cart
    ensures Valid(cart) ==> Valid(r)
  {
    if sku in cart then cart - {sku} else cart
  }

  /** Removing twice is the same as removing once. */
  lemma RemoveIdempotent(cart: Cart, sku: string)
    ensures Remove(Remove(cart, sku), sku) == Remove(cart, sku)
  {
  }

  // ---------------------------------------------------------------- View

  const NotInInventory: string := "(not in inventory)"

  /** One line of the shopping-list page. */
  datatype Item = Item(sku: string, name: string, qty: int, aisle: string)

  /** Joins one list entry with the first inventory row of its sku, or with
      a placeholder when the sku is no longer in the inventory. */
  function ViewItem(table: seq<Product>, sku: string, qty: int): (item: Item)
    ensures item.sku == sku && item.qty == qty
    ensures FindSku(table, sku).None? ==> item.name == NotInInventory && item.aisle == ""
    ensures FindSku(table, sku).Some? ==>
              item.name == table[FindSku(table, sku).value].name
              && item.aisle == table[FindSku(table, sku).value].aisle
  {
    match FindSku(table, sku)
    case None => Item(sku, NotInInventory, qty, "")
    case Some(i) => Item(sku, table[i].name, qty, table[i].aisle)
  }

  /** `order` lists each key of `cart` exactly once: the dictionary's
      iteration order. */
  ghost predicate IsOrdering(order: seq<string>, cart: Cart) {
    && (forall i, j :: 0 <= i < j < |order| ==> order[i] != order[j])
    && (forall k :: k in cart <==> k in order)
  }

  /** The quantities of `cart` summed in the order `order`. */
  function SumQty(cart: Cart, order: seq<string>): int
    requires forall k :: k in order ==> k in cart
  {
    if |order| == 0 then 0 else cart[order[0]] + SumQty(cart, order[1..])
  }

  /** The sum of `m`'s values over the keys in `keys`, in no particular
      order. */
  ghost function KeySum(m: map<string, int>, keys: set<string>): int
    requires keys <= m.Keys
    decreases keys
  {
    if keys == {} then 0
    else
      var k :| k in keys;
      m[k] + KeySum(m, keys - {k})
  }

  /** `sum(cart.values())`. */
  ghost function MapSum(m: map<string, int>): int {
    KeySum(m, m.Keys)
  }

  /** The sum over a key set may start from any of its keys. */
  lemma KeySumRemove(m: map<string, int>, keys: set<string>, k: string)
    requires keys <= m.Keys && k in keys
    ensures KeySum(m, keys) == m[k] + KeySum(m, keys - {k})
    decreases keys
  {
    var j :| j in keys && KeySum(m, keys) == m[j] + KeySum(m, keys - {j});
    if j != k {
      KeySumRemove(m, keys - {j}, k);
      KeySumRemove(m, keys - {k}, j);
      assert keys - {j} - {k} == keys - {k} - {j};
    }
  }

  /** The sum over a map may start from any of its keys. */
  lemma MapSumRemove(m: map<string, int>, k: string)
    requires k in m
    ensures MapSum(m) == m[k] + MapSum(m - {k})
  {
    KeySumRemove(m, m.Keys, k);
    KeySumFrame(m, m - {k}, m.Keys - {k});
    assert (m - {k}).Keys == m.Keys - {k};
  }

  /** The sum only reads the entries of the keys it visits. */
  lemma KeySumFrame(a: map<string, int>, b: map<string, int>, keys: set<string>)
    requires keys <= a.Keys && keys <= b.Keys
    requires forall k :: k in keys ==> a[k] == b[k]
    ensures KeySum(a, keys) == KeySum(b, keys)
    decreases keys
  {
    if keys != {} {
      var k :| k in keys && KeySum(a, keys) == a[k] + KeySum(a, keys - {k});
      KeySumRemove(b, keys, k);
      KeySumFrame(a, b, keys - {k});
    }
  }

  /** Summing the quantities in any iteration order gives the map's sum. */
  lemma {:induction false} SumQtyIsMapSum(cart: Cart, order: seq<string>)
    requires IsOrdering(order, cart)
    ensures SumQty(cart, order) == MapSum(cart)
    decreases |order|
  {
    if |order| == 0 {
      assert cart.Keys == {};
    } else {
      var k := order[0];
      var rest := cart - {k};
      MapSumRemove(cart, k);
      assert forall i :: 0 <= i < |order[1..]| ==> order[1..][i] != k by {
        forall i | 0 <= i < |order[1..]| ensures order[1..][i] != k {
          assert order[1..][i] == order[i + 1];
        }
      }
      assert IsOrdering(order[1..], rest) by {
        forall x ensures x in rest <==> x in order[1..] {
          assert x in order <==> x == order[0] || x in order[1..];
        }
      }
      SumQtyFrame(cart, rest, order[1..]);
      SumQtyIsMapSum(rest, order[1..]);
    }
  }

  /** The sum only reads the entries it visits. */
  lemma {:induction false} SumQtyFrame(a: Cart, b: Cart, order: seq<string>)
    requires forall k :: k in order ==> k in a && k in b && a[k] == b[k]
    ensures SumQty(a, order) == SumQty(b, order)
  {
    if |order| > 0 {
      SumQtyFrame(a, b, order[1..]);
    }
  }

  /** Each entry of a valid list contributes at least one unit. */
  lemma {:induction false} SumQtyAtLeastCount(cart: Cart, order: seq<string>)
    requires Valid(cart)
    requires forall k :: k in order ==> k in cart
    ensures SumQty(cart, order) >= |order|
  {
    if |order| > 0 {
      SumQtyAtLeastCount(cart, order[1..]);
    }
  }

  /** A sequence without repetitions has as many elements as its set. */
  lemma {:induction false} DistinctCard(order: seq<string>)
    requires forall i, j :: 0 <= i < j < |order| ==> order[i] != order[j]
    ensures |set k | k in order| == |order|
  {
    if |order| > 0 {
      DistinctCard(order[1..]);
      var tail := set k | k in order[1..];
      assert order[0] !in tail by {
        forall i | 0 <= i < |order[1..]| ensures order[1..][i] != order[0] {
          assert order[1..][i] == order[i + 1];
        }
      }
      assert (set k | k in order) == {order[0]} + tail;
    }
  }

  /** The contents of the shopping-list page. */
  datatype View = View(items: seq<Item>, totalItems: int)

  /** The shopping-list page: one line per entry in iteration order, and the
      total number of units, which does not depend on that order. */
  function ViewList(cart: Cart, table: seq<Product>, order: seq<string>): (v: View)
    requires IsOrdering(order, cart)
    ensures |v.items| == |order| == |cart|
    ensures forall i :: 0 <= i < |v.items| ==>
              v.items[i].sku == order[i] && v.items[i].qty == cart[order[i]]
    ensures forall i :: 0 <= i < |v.items| ==> v.items[i] == ViewItem(table, order[i], cart[order[i]])
    ensures v.totalItems == MapSum(cart)
    ensures Valid(cart) ==> v.totalItems >= |cart|
    ensures Valid(cart) ==> (v.totalItems == 0 <==> |cart| == 0)
  {
    DistinctCard(order);
    assert cart.Keys == set k | k in order;
    SumQtyIsMapSum(cart, order);
    assert Valid(cart) ==> SumQty(cart, order) >= |order| by {
      if Valid(cart) {
        SumQtyAtLeastCount(cart, order);
      }
    }
    var items := seq(|order|, i requires 0 <= i < |order| => ViewItem(table, order[i], cart[order[i]]));
    View(items, SumQty(cart, order))
  }
}
