# Grocerz shopping-list and inventory core, in Dafny

Grocerz is a small Flask store application. It loads a product inventory from
a spreadsheet on every request, lists and searches it, and keeps a
per-session shopping list. This project models the pure logic buried in its
request handlers (`app.py`):

- **Inventory rows** (`inventory.dfy`): the per-row clean-up of
  `load_products`. Each of the seven text columns reads as `""` when the
  sheet lacks it, and every value is whitespace-stripped. A missing or
  non-numeric `stock_qty` reads as 0. The module also covers `stock_label`
  and the lookup of the first row with a given sku.
- **Search** (`search.dfy`): the name/sku query and brand filter of the
  `/products` page. It is an order-preserving filter over the table.
- **Shopping list** (`shopping_list.dfy`): the `sku -> qty` map and its
  operations: add (clamped, accumulating, rejecting unknown skus), bulk
  update (replace from `qty-<sku>` fields), remove, and the page view with
  its placeholder rows and its total.
- **Handlers** (`handlers.dfy`): the same operations as request handlers
  over the session entry, with the flash message each queues. `Run` serves
  any sequence of requests from a fresh session. `ReachableValid` proves
  that every reachable list holds only positive quantities.
- Supporting modules: Python string semantics (`text.dfy`: `strip`,
  `lower`, `in`, `startswith`), `int()` and decimal rendering (`ints.dfy`),
  form data as a multi-dict (`forms.dfy`), and `Option` (`wrappers.dfy`).

Inputs the handlers get from outside are parameters:
- the inventory table a request loads;
- the submitted form;
- the session's `shopping_list` entry, which is `None` before first use;
- the dictionary iteration order of the list on the view page.

A null text cell loads as `"nan"`: `astype(str)` runs before
`fillna("")`, so the fill never sees a null (`Inventory.CleanText`).

## Model

| member | source | states |
|---|---|---|
| Text.Strip | app.py:31 | `str.strip()`: the result has no whitespace at either end and is never longer than the input |
| Text.StripIsTrim | app.py:31 | the stripped text is a slice of the input with nothing but whitespace before and after it |
| Text.StripIdempotent | app.py:31 | stripping twice is the same as stripping once |
| Text.StripPadded | app.py:31 | `strip()` removes exactly the whitespace padding around a non-empty text without surrounding whitespace |
| Text.Contains | app.py:99-105 | `sub in s` holds iff `sub` occurs at some index of `s` |
| Text.Lower | app.py:92-93 | `str.lower()` keeps the length and lowers each character on its own |
| Ints.ParseInt | app.py:174-177 | `int(s)` succeeds iff the stripped text is an optional sign followed by decimal digits and `s` holds none of U+001C..U+001F, which `strip()` removes but `int()` does not skip |
| Ints.ParseIntSpec | app.py:174-177 | `int(s)` succeeds iff `s` is a literal padded only with the whitespace `int()` skips, and then it yields that literal's value |
| Ints.SeparatorNotSkipped | app.py:174-177 | "\x1c5" strips to "5" but `int()` rejects it |
| Ints.FormatInt | app.py:137 | `f"{n}"`: digits without a leading zero, after a minus sign when `n` is negative; ParseFormat pins the value |
| Ints.ParseFormat | app.py:137 | parsing the decimal rendering of any integer gives that integer back |
| Ints.ParseDigits | app.py:123 | a plain digit string is read as its base-ten value |
| Ints.ParseLeadingZero | app.py:123 | a leading zero changes nothing: `int("0" + d) == int(d)` |
| Ints.ParsePlus | app.py:123 | a plus sign changes nothing: `int("+" + d) == int(d)` |
| Ints.ParseMinus | app.py:123 | a minus sign negates: `int("-" + d) == -int(d)` |
| Ints.ParsePadded | app.py:175 | a literal reads the same with or without padding made of the whitespace `int()` skips (`str.isspace()` minus U+001C..U+001F) |
| Inventory.CleanText | app.py:26-31 | a column missing from the sheet reads as "", a null cell as "nan", a text cell as its stripped text, and the result never has surrounding whitespace |
| Inventory.NormalizeRow | app.py:25-42 | each text field of a loaded row is its column's cleaned text, all fields are stripped, and a missing stock value becomes 0 |
| Inventory.LoadProducts | app.py:18-44 | one normalised product per sheet row, in sheet order |
| Inventory.NormalizeRoundTrip | app.py:28-42 | loading an already-normalised product back from a sheet row returns it unchanged |
| Inventory.MissingColumnsAreBlank | app.py:28-42 | a sheet lacking every optional column loads rows whose seven text fields are "" and whose stock is 0 |
| Inventory.StockLabel | app.py:47-54 | the label is one of the two texts, and "In stock" exactly when the value parsed and is positive |
| Inventory.StockLabelOfText | app.py:47-54 | the label of a text is one of the two texts: "In stock" iff `int()` accepts it and the value is positive, and "Out of stock" for every text `int()` rejects |
| Inventory.Availability | app.py:108 | a listed product is "In stock" iff its stock is positive, else "Out of stock" |
| Inventory.FindSku | app.py:149-154 | the index found is the first row with that sku; no index means no row has it |
| Search.NormalizeQuery | app.py:92-93 | a query is the lowered stripped parameter: it has no surrounding whitespace, is no longer than the input, and lowering it again changes nothing |
| Search.NormalizeQueryIdempotent | app.py:92-93 | normalising a normalised query gives it back |
| Search.Keep | app.py:98-105 | a row is kept iff the text query is empty or occurs in the lowered name or sku, and the brand query is empty or occurs in the lowered brand |
| Search.FilterRows | app.py:97-105 | the result is a subsequence of the table, every kept row passes both filters, and each passing row appears as often as in the table |
| Search.EmptyQueriesKeepAll | app.py:98-105 | with no text query and no brand query the whole table is listed, in order |
| Search.KeepIsSubstringTest | app.py:98-105 | the empty-query guards are equivalent to plain substring tests |
| Search.BlankQueryIsEmpty | app.py:92-93 | a whitespace-only query is no query |
| Search.ListProducts | app.py:89-111 | the listing shows the filtered rows in order, each "In stock" iff its stock is positive and "Out of stock" iff it is not |
| Search.SearchExample | app.py:97-101 | searching "milk" over Milk/A1 and Bread/B2 finds only A1; searching "z" finds nothing |
| Forms.Lookup | app.py:120-121 | a key is found iff some field has it, and the value found is that of the first field named so |
| Forms.Get | app.py:120-121 | `form.get(key, default)` returns the value of the first field named `key`, or the default when there is none |
| Forms.Items | app.py:171 | `form.items()` has each key once and the same first value per key as the form |
| ShoppingList.ClampQty | app.py:121-127 | the add quantity is at least 1: the parsed value when it is at least 1, otherwise 1 |
| ShoppingList.ClampFormatted | app.py:121-127 | a positive quantity written in decimal is taken as written |
| ShoppingList.Add | app.py:129-135 | an unknown sku is rejected; otherwise the sku's count rises by the quantity, no other entry changes, and a positive quantity keeps the list valid |
| ShoppingList.AddAccumulates | app.py:135 | two adds of a stocked sku to an empty list leave exactly that sku, with the sum of both quantities |
| ShoppingList.QtyKeyOf | app.py:172-173 | a field name is the "qty-" field of a sku iff it starts with "qty-" and that sku follows the prefix |
| ShoppingList.FormQty | app.py:172-177 | a sku with no "qty-" field counts as quantity 0 |
| ShoppingList.FormQtyFirstField | app.py:171-177 | the quantity is `int()` of the first "qty-<sku>" field's value, or 0 when `int()` rejects it |
| ShoppingList.BulkUpdate | app.py:170-179 | the new list holds exactly the skus whose quantity field parses to a positive integer, with that integer, and is valid |
| ShoppingList.Remove | app.py:190-191 | the sku's entry is deleted, all other entries are kept unchanged, and an absent sku changes nothing |
| ShoppingList.RemoveIdempotent | app.py:190-191 | removing the same sku twice equals removing it once |
| ShoppingList.ViewItem | app.py:149-160 | a page line takes name and aisle from the first row with its sku, or "(not in inventory)" and "" when there is none |
| ShoppingList.SumQtyIsMapSum | app.py:161 | summing the quantities in any iteration order gives the order-independent sum of the list |
| ShoppingList.SumQtyAtLeastCount | app.py:161 | in a valid list every entry adds at least one unit to the total |
| ShoppingList.ViewList | app.py:144-161 | one line per entry in iteration order, and a total equal to the sum of all quantities; for a valid list it is zero iff the list is empty |
| Handlers.GetShoppingList | app.py:57-60 | the stored list, or the empty list on first use |
| Handlers.FormSku | app.py:120 | the sku of a request is the first "sku" field's value stripped, or "" without one |
| Handlers.FormQtyText | app.py:121 | the add quantity's text is the first "qty" field's value stripped, or "1" without one |
| Handlers.AddedMessage | app.py:137 | the add flash carries the rendered quantity, which reads back as the number added, followed by the sku |
| Handlers.RemovedMessage | app.py:193 | the removal flash starts "Removed " and names the sku right after it |
| Handlers.AddToList | app.py:118-138 | an unknown sku leaves the session exactly as it was and queues "Product not found."; otherwise the stripped sku's count rises by the clamped quantity and nothing else changes |
| Handlers.UpdateShoppingList | app.py:165-183 | the list becomes exactly the skus whose "qty-" field holds a positive integer, whatever it held before |
| Handlers.UpdateReplaces | app.py:168-181 | an update naming one sku leaves only that sku listed, from any previous list |
| Handlers.RemoveFromList | app.py:186-194 | only the named sku is deleted, and a message is queued iff it was listed |
| Handlers.ClearList | app.py:197-201 | the list is empty afterwards, from any state |
| Handlers.ShoppingListPage | app.py:142-162 | the page lists every entry with its inventory name or the placeholder, and its total is the sum of the quantities |
| Handlers.Step | app.py:118-201 | every handler keeps each stored quantity positive |
| Handlers.ReachableValid | app.py:57-60 | starting from a fresh session, every list that any request sequence reaches holds only positive quantities |

## Left out

- Reading the spreadsheet (`pd.read_excel`) and the error it raises when the file is missing or unreadable: file I/O. The model starts from the rows already read.
- How a spreadsheet cell becomes a string, such as a numeric cell in a text column turning into "123.0". Cells enter the model already stringified.
- The `price` column and its float coercion: floating point.
- How the `stock_qty` cell is coerced to a number, and `astype(int)` truncating fractional stock: floating point. The stock cell enters the model already coerced, with `None` for missing or non-numeric.
- Text.Contains: `str.contains` treats the query as a regular expression. The model uses plain substring search, so queries with regex metacharacters diverge.
- Text.Lower: Python's `str.lower` covers all of Unicode. The model lowers only ASCII letters.
- Ints.ParseInt: Python's `int()` also accepts `_` digit separators and non-ASCII decimal digits. The model accepts only ASCII digits.
- Ints.ParseInt: since Python 3.11, `int()` rejects literals of more than 4300 digits by default. The limit depends on the interpreter version and its configuration. The model reads literals of any length, so an add of a longer quantity is not clamped to 1 and an update does not drop the sku.
- Flask routing, templates, redirects and session serialisation: framework plumbing. Flash messages appear as an optional output string.
- QR image generation and the `/qr` and `/show-qr` routes: a wrapper over a third-party library.
- The admin upload handler: file I/O.
- The static aisle list of the map page and the index page: constant data.
- Requests racing within one session: concurrency. `Run` serves requests one at a time.
- The order in which the session's list iterates: the view page takes it as a parameter.
