/** The inventory table: one `Product` per spreadsheet row, after the
    per-row clean-up `load_products` performs, plus the availability label
    and the lookup of a row by sku. */
module Inventory {
  import opened Wrappers
  import opened Text
  import Ints

  /** One normalised inventory row. `price` is not modelled. */
  datatype Product = Product(
    sku: string,
    name: string,
    brand: string,
    size: string,
    color: string,
    ingredientTags: string,
    aisle: string,
    stockQty: int)

  /** A text cell as the spreadsheet reader delivers it, already turned into
      its string form; `Null` is an empty (NaN) cell. */
  datatype Cell = Str(text: string) | Null

  /** The seven text columns the loader guarantees: sku, name, brand, size,
      color, ingredient_tags and aisle. */
  datatype Column = Sku | Name | Brand | Size | Color | IngredientTags | Aisle

  /** The text field of `p` stored under column `c`. */
  function Field(p: Product, c: Column): string {
    match c
    case Sku => p.sku
    case Name => p.name
    case Brand => p.brand
    case Size => p.size
    case Color => p.color
    case IngredientTags => p.ingredientTags
    case Aisle => p.aisle
  }

  /** One spreadsheet row: the cell of each text column, `None` when the
      sheet has no such column, and the `stock_qty` cell after numeric
      coercion, `None` when the column is missing or the cell is blank or
      not a number. */
  datatype RawRow = RawRow(
    sku: Option<Cell>,
    name: Option<Cell>,
    brand: Option<Cell>,
    size: Option<Cell>,
    color: Option<Cell>,
    ingredientTags: Option<Cell>,
    aisle: Option<Cell>,
    stock: Option<int>)

  /** The cell of column `c` in `row`. */
  function CellOf(row: RawRow, c: Column): Option<Cell> {
    match c
    case Sku => row.sku
    case Name => row.name
    case Brand => row.brand
    case Size => row.size
    case Color => row.color
    case IngredientTags => row.ingredientTags
    case Aisle => row.aisle
  }

  /** Every text field is free of surrounding whitespace. */
  predicate IsNormalized(p: Product) {
    && IsStripped(p.sku) && IsStripped(p.name) && IsStripped(p.brand) && IsStripped(p.size)
    && IsStripped(p.color) && IsStripped(p.ingredientTags) && IsStripped(p.aisle)
  }

  /** The cleaned value of column `c`: `str.strip()` of the cell's text.
      A column absent from the sheet reads as "". A null cell reads as
      "nan", because the loader stringifies cells before filling missing
      values, so the fill never sees a null. */
  function CleanText(row: RawRow, c: Column): (r: string)
    ensures IsStripped(r)
    ensures CellOf(row, c) == None ==> r == ""
    ensures CellOf(row, c) == Some(Null) ==> r == "nan"
    ensures CellOf(row, c).Some? && CellOf(row, c).value.Str? ==>
              r == Strip(CellOf(row, c).value.text)
  {
    match CellOf(row, c)
    case None => ""
    case Some(Str(s)) => Strip(s)
    case Some(Null) => assert IsStripped("nan"); "nan"
  }

  /** The clean-up `load_products` applies to one row: each text field is
      its column's cleaned text, and a missing stock value becomes 0. */
  function NormalizeRow(row: RawRow): (p: Product)
    ensures forall c: Column :: Field(p, c) == CleanText(row, c)
    ensures IsNormalized(p)
    ensures p.stockQty == row.stock.GetOr(0)
  {
    Product(
      CleanText(row, Sku),
      CleanText(row, Name),
      CleanText(row, Brand),
      CleanText(row, Size),
      CleanText(row, Color),
      CleanText(row, IngredientTags),
      CleanText(row, Aisle),
      row.stock.GetOr(0))
  }

  /** `load_products` after the sheet has been read: every row normalised. */
  function LoadProducts(rows: seq<RawRow>): (table: seq<Product>)
    ensures |table| == |rows|
    ensures forall i :: 0 <= i < |rows| ==> table[i] == NormalizeRow(rows[i])
    ensures forall i :: 0 <= i < |table| ==> IsNormalized(table[i])
  {
    if |rows| == 0 then [] else [NormalizeRow(rows[0])] + LoadProducts(rows[1..])
  }

  /** A spreadsheet row that holds exactly the values of `p`. */
  function ToRawRow(p: Product): RawRow {
    RawRow(
      Some(Str(p.sku)), Some(Str(p.name)), Some(Str(p.brand)), Some(Str(p.size)),
      Some(Str(p.color)), Some(Str(p.ingredientTags)), Some(Str(p.aisle)),
      Some(p.stockQty))
  }

  /** Loading a normalised product back from the sheet gives it back unchanged:
      normalisation is idempotent. */
  lemma NormalizeRoundTrip(p: Product)
    requires IsNormalized(p)
    ensures NormalizeRow(ToRawRow(p)) == p
  {
    var row := ToRawRow(p);
    assert CleanText(row, Sku) == p.sku by { CleanStrippedCell(p, Sku); }
    assert CleanText(row, Name) == p.name by { CleanStrippedCell(p, Name); }
    assert CleanText(row, Brand) == p.brand by { CleanStrippedCell(p, Brand); }
    assert CleanText(row, Size) == p.size by { CleanStrippedCell(p, Size); }
    assert CleanText(row, Color) == p.color by { CleanStrippedCell(p, Color); }
    assert CleanText(row, IngredientTags) == p.ingredientTags by { CleanStrippedCell(p, IngredientTags); }
    assert CleanText(row, Aisle) == p.aisle by { CleanStrippedCell(p, Aisle); }
  }

  /** A cell holding an already stripped text is read back unchanged. */
  lemma CleanStrippedCell(p: Product, c: Column)
    requires IsStripped(Field(p, c))
    ensures CleanText(ToRawRow(p), c) == Field(p, c)
  {
    assert CellOf(ToRawRow(p), c) == Some(Str(Field(p, c)));
    StripStripped(Field(p, c));
  }

  /** A sheet with none of the optional columns loads as rows whose seven
      text fields are all empty and whose stock is 0. */
  lemma MissingColumnsAreBlank(row: RawRow)
    requires forall c: Column :: CellOf(row, c) == None
    requires row.stock == None
    ensures NormalizeRow(row) == Product("", "", "", "", "", "", "", 0)
  {
    StripStripped("");
  }

  const InStock: string := "In stock"
  const OutOfStock: string := "Out of stock"

  /** `stock_label`: `qty` is the result of `int(qty)`, `None` when it raised. */
  function StockLabel(qty: Option<int>): (tag: string)
    ensures tag == InStock || tag == OutOfStock
    ensures tag == InStock <==> qty.Some? && qty.value > 0
  {
    if qty.Some? && qty.value > 0 then InStock else OutOfStock
  }

  /** The availability column of the listing page. */
  function Availability(p: Product): (tag: string)
    ensures tag == InStock <==> p.stockQty > 0
    ensures tag == OutOfStock <==> p.stockQty <= 0
  {
    StockLabel(Some(p.stockQty))
  }

  /** `stock_label` applied to a textual value. */
  function StockLabelOfText(s: string): (tag: string)
    ensures tag == InStock || tag == OutOfStock
    ensures tag == InStock <==> Ints.ParseInt(s).Some? && Ints.ParseInt(s).value > 0
    ensures Ints.ParseInt(s).None? ==> tag == OutOfStock
    ensures !Ints.IsIntLiteral(Strip(s)) ==> tag == OutOfStock
  {
    StockLabel(Ints.ParseInt(s))
  }

  lemma StockLabelExamples()
    ensures StockLabel(Some(0)) == OutOfStock
    ensures StockLabel(Some(-5)) == OutOfStock
    ensures StockLabel(Some(3)) == InStock
    ensures StockLabelOfText("abc") == OutOfStock
  {
    assert !Ints.IsDigit("abc"[0]);
    StripStripped("abc");
  }

  /** The first row whose sku is `sku`, searching from index `from`. */
  function FindSkuFrom(table: seq<Product>, sku: string, from: nat): (r: Option<nat>)
    requires from <= |table|
    ensures r.Some? ==> from <= r.value < |table| && table[r.value].sku == sku
                        && forall j :: from <= j < r.value ==> table[j].sku != sku
    ensures r.None? ==> forall j :: from <= j < |table| ==> table[j].sku != sku
    decreases |table| - from
  {
    if from == |table| then None
    else if table[from].sku == sku then Some(from)
    else FindSkuFrom(table, sku, from + 1)
  }

  /** `df[df["sku"] == sku]`: the index of the first matching row, if any. */
  function FindSku(table: seq<Product>, sku: string): (r: Option<nat>)
    ensures r.Some? ==> r.value < |table| && table[r.value].sku == sku
                        && forall j :: 0 <= j < r.value ==> table[j].sku != sku
    ensures r.None? <==> forall j :: 0 <= j < |table| ==> table[j].sku != sku
  {
    FindSkuFrom(table, sku, 0)
  }

  /** Some row of the table carries `sku`. */
  predicate HasSku(table: seq<Product>, sku: string) {
    FindSku(table, sku).Some?
  }
}
