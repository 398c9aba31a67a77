/** The search and brand filter of the product listing page. */
module Search {
  import opened Text
  import opened Inventory

  /** How the listing page reads a query parameter: `.strip().lower()`. */
  function NormalizeQuery(raw: string): (q: string)
    ensures q == Lower(Strip(raw))
    ensures IsStripped(q)
    ensures |q| <= |raw|
    ensures Lower(q) == q
  {
    LowerIdempotent(Strip(raw));
    LowerStripped(Strip(raw));
    Lower(Strip(raw))
  }

  /** A normalised query is its own normal form. */
  lemma NormalizeQueryIdempotent(raw: string)
    ensures NormalizeQuery(NormalizeQuery(raw)) == NormalizeQuery(raw)
  {
    var q := NormalizeQuery(raw);
    StripStripped(q);
  }

  /** A row survives both filters. An empty query disables its filter;
      otherwise the lowered name or sku must contain the text query, and the
      lowered brand must contain the brand query. */
  function Keep(p: Product, q: string, brandQ: string): (keep: bool)
    ensures keep <==>
              && (q == "" || Occurs(Lower(p.name), q) || Occurs(Lower(p.sku), q))
              && (brandQ == "" || Occurs(Lower(p.brand), brandQ))
  {
    && (q == "" || Contains(Lower(p.name), q) || Contains(Lower(p.sku), q))
    && (brandQ == "" || Contains(Lower(p.brand), brandQ))
  }

  /** `a` can be obtained from `b` by deleting elements: the order of the
      kept elements is preserved. */
  predicate IsSubsequence<T(==)>(a: seq<T>, b: seq<T>)
    decreases |b|
  {
    || |a| == 0
    || (|b| > 0 && ((a[0] == b[0] && IsSubsequence(a[1..], b[1..])) || IsSubsequence(a, b[1..])))
  }

  /** The boolean-mask selection of the listing page: exactly the rows that
      pass `Keep`, each as often as it occurs, in table order. */
  function FilterRows(table: seq<Product>, q: string, brandQ: string): (r: seq<Product>)
    ensures IsSubsequence(r, table)
    ensures forall i :: 0 <= i < |r| ==> Keep(r[i], q, brandQ)
    ensures forall p :: multiset(r)[p] == if Keep(p, q, brandQ) then multiset(table)[p] else 0
  {
    if |table| == 0 then []
    else
      var rest := FilterRows(table[1..], q, brandQ);
      assert table == [table[0]] + table[1..];
      if Keep(table[0], q, brandQ) then
        assert ([table[0]] + rest)[1..] == rest;
        [table[0]] + rest
      else
        rest
  }

  /** With both queries empty the listing shows the whole table. */
  lemma {:induction false} EmptyQueriesKeepAll(table: seq<Product>)
    ensures FilterRows(table, "", "") == table
  {
    if |table| > 0 {
      EmptyQueriesKeepAll(table[1..]);
      assert table == [table[0]] + table[1..];
    }
  }

  /** The `if q:` guards are only a shortcut: the empty string occurs in
      every string, so the filters reduce to plain substring tests. */
  lemma KeepIsSubstringTest(p: Product, q: string, brandQ: string)
    ensures Keep(p, q, brandQ) <==>
              (Contains(Lower(p.name), q) || Contains(Lower(p.sku), q))
              && Contains(Lower(p.brand), brandQ)
  {
    ContainsEmpty(Lower(p.name));
    ContainsEmpty(Lower(p.brand));
  }

  /** A whitespace-only query is treated as no query. */
  lemma BlankQueryIsEmpty(raw: string)
    requires AllSpace(raw)
    ensures NormalizeQuery(raw) == ""
  {
  }

  /** One row of the listing page: the product and its availability text. */
  datatype Listing = Listing(product: Product, availability: string)

  /** The `products` page: filter, then label each surviving row. */
  function ListProducts(table: seq<Product>, rawQ: string, rawBrand: string): (r: seq<Listing>)
    ensures |r| == |FilterRows(table, NormalizeQuery(rawQ), NormalizeQuery(rawBrand))|
    ensures forall i :: 0 <= i < |r| ==>
              r[i].product == FilterRows(table, NormalizeQuery(rawQ), NormalizeQuery(rawBrand))[i]
    ensures forall i :: 0 <= i < |r| ==>
              (r[i].availability == InStock <==> r[i].product.stockQty > 0)
    ensures forall i :: 0 <= i < |r| ==>
              (r[i].availability == OutOfStock <==> r[i].product.stockQty <= 0)
  {
    var rows := FilterRows(table, NormalizeQuery(rawQ), NormalizeQuery(rawBrand));
    seq(|rows|, i requires 0 <= i < |rows| => Listing(rows[i], Availability(rows[i])))
  }

  /** Two rows for the worked example below. */
  const Milk: Product := Product("A1", "Milk", "", "", "", "", "", 1)
  const Bread: Product := Product("B2", "Bread", "", "", "", "", "", 1)

  lemma MilkMatchesMilk()
    ensures Keep(Milk, "milk", "")
  {
    assert Lower("Milk") == "milk";
    assert OccursAt("milk", "milk", 0);
  }

  lemma BreadMissesMilk()
    ensures !Keep(Bread, "milk", "")
  {
    assert Lower("Bread") == "bread";
    assert Lower("B2") == "b2";
    assert !Contains("bread", "milk");
    assert !Contains("b2", "milk");
  }

  lemma MilkMissesZ()
    ensures !Keep(Milk, "z", "")
  {
    assert Lower("Milk") == "milk";
    assert Lower("A1") == "a1";
    assert !Contains("milk", "z");
    assert !Contains("a1", "z");
  }

  lemma BreadMissesZ()
    ensures !Keep(Bread, "z", "")
  {
    assert Lower("Bread") == "bread";
    assert Lower("B2") == "b2";
    assert !Contains("bread", "z");
    assert !Contains("b2", "z");
  }

  /** The filter over a two-row table, spelled out. */
  lemma FilterPair(a: Product, b: Product, q: string, brandQ: string)
    ensures FilterRows([a, b], q, brandQ) ==
              (if Keep(a, q, brandQ) then [a] else []) + (if Keep(b, q, brandQ) then [b] else [])
  {
    assert [a, b][1..] == [b];
    assert [b][1..] == [];
  }

  /** The worked example: searching "milk" finds the milk and nothing else;
      searching "z" finds nothing. */
  lemma SearchExample()
    ensures FilterRows([Milk, Bread], "milk", "") == [Milk]
    ensures FilterRows([Milk, Bread], "z", "") == []
  {
    FilterPair(Milk, Bread, "milk", "");
    FilterPair(Milk, Bread, "z", "");
    MilkMatchesMilk();
    BreadMissesMilk();
    MilkMissesZ();
    BreadMissesZ();
  }
}
