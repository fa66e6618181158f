# Shopify order reshaping, modelled in Dafny

This project models the record-reshaping core of a small Azure Function. The function pulls customers and orders from a Shopify store's REST API and writes them into Google Sheets. The model covers three pieces of `function_app.py`.

- **`flatten_data`** turns a nested JSON record into a single-level dict.
  - Each leaf sits under its path: dict keys and list indices joined with `_`.
  - A `shop_name` entry is added last.
  - The source's closure over `out` becomes the class `Flatten.Flattener`. Its field `out` is a Dafny `map`, and its recursive method `Flatten` is proved against a write-sequence specification (`Writes`/`Apply`). That specification is proved equal to an independent reference, the leaves of the record in traversal order (`Leaves`).
- **`process_order_data`** turns each order into sheet rows.
  - Each row is the flattened order plus seven detail fields.
  - There is one row per order line item, or one stand-in row when there are none.
  - Then, per fulfillment, one row per fulfillment line item, or one stand-in row.
  - The nested loops become the methods `Orders.ProcessOrderData`, `AppendEachItem`, `AppendEachFulfillment` and their helpers. Each is proved against the functional specification `ExpandOrders`/`ExpandOrder`.
  - Python exceptions raised on malformed records are threaded as `Result` values: `.get`/`.items()` on a non-dict gives AttributeError, and iterating a non-iterable gives TypeError.
  - `ExpandOrder` is in turn proved equal to an independent reference listing of the rows, `ExpectedRows`.
- **Next-page extraction** reads the `Link` response header of the customers fetch (lines 117-123) and the orders fetch (lines 149-156). Each copy is modelled as a pure function from an optional header to an optional next URL, over modelled Python `split`, `strip` and `in`.

`json.dfy` (module `PyJson`) holds the decoded-JSON datatype and the Python semantics the code relies on:
- truthiness;
- `dict.get`;
- what `for` iterates over;
- `str` of a list index.

The other modules are `Flatten` (`flatten.dfy`), `Orders` (`orders.dfy`) and `Links` (`links.dfy`).

Two behaviours of the code are worth stating up front:
- A flattened-path collision is possible (`function_app.py:22` and `:29`): a key `a_b` and a nested `a` → `b` both write `a_b`, and the later write wins (`Flatten.CollidingKeysLastWins`).
- The customers copy follows the first link whenever any link is `next` (`function_app.py:119`, `Links.CustomersTakesFirstLink`). On a header that lists a `previous` link first, that is the previous page (`Links.CustomersFollowsPrevious`).

## Model

| member | source | states |
|---|---|---|
| PyJson.GetFirst | function_app.py:43 | `d.get(key, default)` is the value of the first pair carrying the key, and is the default exactly when no pair carries it |
| PyJson.Elements | function_app.py:57 | `for a in v` iterates exactly when v is a list, dict or string: a list yields its items, a dict its keys in order, a string its one-character strings in order, and nothing is iterated exactly when v is falsy; anything else raises TypeError |
| PyJson.NatToStringDigits | function_app.py:26 | `str(i)` of an index is a non-empty run of decimal digits with no leading zero |
| PyJson.NatToStringRoundTrip | function_app.py:26 | parsing `str(i)` gives i back |
| PyJson.NatToStringInjective | function_app.py:26 | distinct list indices give distinct path segments |
| Flatten.DropLast | function_app.py:29 | `name[:-1]` removes exactly the last character, and leaves the empty name empty |
| Flatten.Flattener.constructor | function_app.py:17 | the flattener starts with an empty `out` |
| Flatten.Flattener.Flatten | function_app.py:19-29 | the recursive walk leaves `out` equal to its old contents with the walk's writes applied in traversal order: a dict pair under `name + key + '_'`, a list item under `name + str(i) + '_'`, a scalar stored at `name[:-1]` |
| Flatten.FlattenData | function_app.py:16-33 | the result is the walk's writes applied to an empty dict, followed by the `shop_name` write |
| Flatten.FlattenRecord | function_app.py:32 | `shop_name` is always present and holds the given shop name |
| Flatten.ApplyConcat | function_app.py:21-27 | applying two runs of writes one after the other is applying their concatenation |
| Flatten.ApplyKeys | function_app.py:29 | the keys after a run of writes are the old keys plus the written keys |
| Flatten.ApplyLastWins | function_app.py:29 | a key holds the value of its last write |
| Flatten.ApplyKeeps | function_app.py:29 | a key that no write touches keeps its old value |
| Flatten.ApplyValueOrigin | function_app.py:29 | every value after a run of writes is either the old value or the value of some write to that key |
| Flatten.KeyedObject | function_app.py:20-22 | the writes of a dict are its pairs' leaves, in pair order, each keyed by the dict's name plus the pair's key and `_` |
| Flatten.KeyedArray | function_app.py:23-27 | the writes of a list are its items' leaves, in item order, each keyed by the list's name plus `str(i)` and `_` |
| Flatten.WritesFollowLeaves | function_app.py:19-29 | the walk writes exactly the record's leaves (scalar values with their key/index paths), in traversal order, each under its rendered path |
| Flatten.WritesFromRoot | function_app.py:31 | from the root, write j is leaf j under its path joined with `_`, with no trailing separator |
| Flatten.LeavesAreScalars | function_app.py:20-29 | no leaf value is a dict or a list |
| Flatten.FlattenKeys | function_app.py:16-33 | the flattened keys are exactly the leaf keys plus `shop_name`; empty dicts and lists contribute none |
| Flatten.FlattenLeafValue | function_app.py:29-32 | a leaf's value is kept under its key unless a later leaf has the same key or the key is `shop_name` |
| Flatten.FlattenValuesAreScalars | function_app.py:16-33 | no flattened value is a dict or a list |
| Flatten.FlatRecordLeaves | function_app.py:20-22 | the leaves of a dict of scalars are its pairs, each under its own key |
| Flatten.FlatRecordKeys | function_app.py:20-22 | the leaf keys of a dict of scalars are its keys |
| Flatten.FlatRecordValue | function_app.py:20-32 | flattening a dict of scalars with distinct keys keeps each pair's value, `shop_name` excepted |
| Flatten.FlattenFlatRecord | function_app.py:16-33 | flattening a dict of scalars with distinct keys gives its keys plus `shop_name`, with every other pair's value kept |
| Flatten.CollidingKeysLastWins | function_app.py:29 | `{"a_b": 1, "a": {"b": 2}}` flattens to `a_b = 2`: of two leaves with one key, the later one wins |
| Flatten.EmptyContainersContributeNothing | function_app.py:20-27 | empty lists and dicts add no key; an empty record flattens to just `shop_name` |
| Orders.CollectErrSticks | function_app.py:37 | once an exception is raised, the rest of the loop does not run and the exception propagates |
| Orders.CollectAllOk | function_app.py:37 | a loop whose every step succeeds appends the steps' rows in order |
| Orders.CollectRaises | function_app.py:37 | the first failing step's exception is the loop's result |
| Orders.CollectRaisesSome | function_app.py:37 | any failing step makes the loop fail |
| Orders.WithoutSubLists | function_app.py:39 | the base pairs are exactly the order's pairs whose key is neither `line_items` nor `fulfillments`; a single pair is kept exactly when its key is neither, and an order without those keys is kept whole |
| Orders.WithoutSubListsConcat | function_app.py:39 | the comprehension filters a concatenation piece by piece, so the kept pairs keep their order and multiplicity |
| Orders.RowsFor | function_app.py:57-67 | a non-empty item list gives one row per item |
| Orders.RowsForIndex | function_app.py:57-67 | row i is built from item i |
| Orders.ItemLoopRows | function_app.py:57-67 | the item loop over dict items appends one row per item, in order |
| Orders.ItemLoopCorrect | function_app.py:57-67 | the item loop succeeds exactly when every item is a dict, and then gives the item group's rows |
| Orders.ItemListRowsCorrect | function_app.py:43-67 | an item list gives rows exactly when it is falsy or a list of dicts, and then the group's rows: the stand-in row when it is falsy, otherwise one row per item |
| Orders.FulfillmentRowsCorrect | function_app.py:72-99 | a fulfillment gives rows exactly when it is a dict whose items are falsy or a list of dicts, and they are its group |
| Orders.FulfillmentStepOk | function_app.py:72-99 | one pass of the fulfillment loop appends that fulfillment's group |
| Orders.FulfillmentLoopRows | function_app.py:71-99 | when every fulfillment is well formed, the loop appends all their groups in order |
| Orders.FulfillmentLoopCorrect | function_app.py:70-99 | the fulfillment loop succeeds exactly when every fulfillment is well formed, and then gives the groups in order |
| Orders.ExpandOrderCorrect | function_app.py:37-99 | an order gives rows exactly when it is expandable (a dict with well-formed items and an iterable list of well-formed fulfillments), and then they are its own group followed by each fulfillment's group |
| Orders.DetailRow | function_app.py:46-99 | a row holds the base keys plus the seven detail keys: the detail fields override, `item_type` and the fulfillment fields come from the context, the item fields are as given, and every other base value is kept |
| Orders.GroupLength | function_app.py:44-67 | a group has `max(N, 1)` rows |
| Orders.GroupRows | function_app.py:44-99 | an empty item list gives one row with null item fields; otherwise row i carries `.get` of item i's id, title, quantity and price |
| Orders.FulfillmentGroupsLength | function_app.py:71-99 | the fulfillments contribute the sum of `max(len(items), 1)` rows |
| Orders.FulfillmentGroupsIndex | function_app.py:71-99 | fulfillment k's rows follow the rows of the fulfillments before it |
| Orders.RowCount | function_app.py:35-101 | an accepted order emits `max(N, 1) + sum(max(len(f.items), 1))` rows |
| Orders.OrderRowAt | function_app.py:43-67 | in the rows of an order, the first `max(N, 1)` are the order's own group, in item order |
| Orders.FulfillmentRowAt | function_app.py:70-99 | row j of fulfillment k sits after the order's group and the earlier fulfillments' rows |
| Orders.GroupShaped | function_app.py:46-99 | every row of a group has the group context's kind and fulfillment fields |
| Orders.FulfillmentGroupsShaped | function_app.py:71-99 | every fulfillment row belongs to one of the fulfillments |
| Orders.RowShape | function_app.py:37-99 | the first `max(N, 1)` rows are order rows (null fulfillment fields); every later row is a fulfillment row carrying some fulfillment's id and status |
| Orders.RowKinds | function_app.py:48-92 | every row has the base keys plus the seven detail keys, and its `item_type` is `order` exactly for the first `max(N, 1)` rows |
| Orders.NonDictOrderRaises | function_app.py:39 | an order that is not a dict raises AttributeError |
| Orders.NullFulfillmentsRaise | function_app.py:70-71 | a `fulfillments` value of null raises TypeError |
| Orders.NonIterableItemsRaise | function_app.py:57 | truthy line items that are a number or a boolean raise TypeError |
| Orders.StringOrDictItemsRaise | function_app.py:57-61 | truthy line items that are a string or a dict raise AttributeError on `item.get` |
| Orders.ExpandOrdersCorrect | function_app.py:35-101 | the orders give rows exactly when every order is expandable, and then each order's rows in order; otherwise the first failing order's exception |
| Orders.BareOrderOneRow | function_app.py:44-55 | an order without items or fulfillments gives the one stand-in order row |
| Orders.TwoItemsOneFulfillmentFiveRows | function_app.py:35-101 | an order with two items and one fulfillment of three items gives five rows |
| Orders.SampleRowsInOrder | function_app.py:35-101 | on that order, rows 0 and 1 are `order` rows with item ids 10 and 11, and rows 2 to 4 are `fulfillment` rows with fulfillment id 20 |
| Orders.CollectFailsAt | function_app.py:37 | a step that raises after successful earlier steps ends the loop with its exception |
| Orders.AppendItemRows | function_app.py:43-67 | appends the rows of one item list (the stand-in row when it is falsy), or stops with the exception the list raises |
| Orders.AppendEachItem | function_app.py:57-67 | the item loop appends each item's row in order, or stops with an exception |
| Orders.AppendOrderRows | function_app.py:37-99 | one pass of the order loop appends the order's rows, or stops with an exception |
| Orders.AppendOrderBody | function_app.py:43-99 | appends the order's item rows, then its fulfillment rows |
| Orders.AppendEachFulfillment | function_app.py:71-99 | the fulfillment loop appends each fulfillment's rows in order |
| Orders.AppendFulfillmentRows | function_app.py:72-99 | appends one fulfillment's rows |
| Orders.ProcessOrderData | function_app.py:35-101 | the result is exactly `ExpandOrders` of the orders |
| Links.IndexOf | function_app.py:119 | the position of the first occurrence of the character |
| Links.Split | function_app.py:119 | `s.split(c)` has at least one piece |
| Links.SplitPieces | function_app.py:119 | no piece of `s.split(c)` contains `c` |
| Links.JoinSplit | function_app.py:119 | joining the pieces of `s.split(c)` with `c` gives `s` back |
| Links.SplitJoin | function_app.py:119 | splitting a `c`-join of `c`-free pieces gives the pieces back |
| Links.FirstPiece | function_app.py:119 | `link.split(';')[0]` is everything before the first `;` |
| Links.ContainsPiece | function_app.py:118-119 | an occurrence of a comma-free string in the header lies inside one fragment |
| Links.PieceContained | function_app.py:118-119 | an occurrence in a fragment is an occurrence in the header |
| Links.ContainsFragment | function_app.py:150-151 | the header mentions `rel="next"` exactly when one of its fragments does |
| Links.StripBounds | function_app.py:119 | `strip(cs)` keeps the middle run: everything cut off is in `cs`, and the kept run neither starts nor ends with a character of `cs` |
| Links.ComprehensionFirst | function_app.py:119-121 | the comprehension is empty exactly when no fragment passes the filter, and otherwise starts with the first passing fragment, cleaned |
| Links.CustomersNextUrlSpec | function_app.py:117-123 | the customers fetch has a next page exactly when the header mentions `rel="next"`, and it is always the first fragment cleaned |
| Links.OrdersNextUrlSpec | function_app.py:149-156 | the orders fetch has a next page exactly when the header mentions `rel="next"`, and it is the first fragment that mentions it, cleaned |
| Links.PerFragmentSpec | function_app.py:150-156 | whatever the cleaning, a per-fragment filter yields the first fragment mentioning `rel="next"`, and yields exactly when the header mentions it |
| Links.SplitHeader | function_app.py:151 | a header as the storefront writes it splits at `,` into its links, each after the first preceded by a space |
| Links.EntryMentionsNext | function_app.py:151 | a link `<url>; rel="r"` mentions `rel="next"` exactly when r is `next` |
| Links.FragmentMentionsNext | function_app.py:151 | fragment k of such a header mentions `rel="next"` exactly when link k's relation is `next` |
| Links.CleanFirstFragment | function_app.py:151 | cleaning the header's first link gives its URL |
| Links.CleanLaterFragment | function_app.py:151 | cleaning a later link gives its URL with a space and `<` in front |
| Links.CustomersTakesFirstLink | function_app.py:117-123 | on such a header, the customers fetch follows the first link whenever any link is `next`, and stops otherwise |
| Links.PerFragmentOnHeader | function_app.py:149-153 | on such a header, a per-fragment filter picks the fragment of the first `next` link |
| Links.PerFragmentStops | function_app.py:149-156 | on such a header without a `next` link, a per-fragment filter gives no next page |
| Links.OrdersTakesNextLink | function_app.py:149-153 | on such a header, the orders fetch takes the first `next` link: its URL when it is the first link, otherwise the URL with a space and `<` in front |
| Links.OrdersStopsWithoutNext | function_app.py:149-156 | on such a header without a `next` link, the orders fetch stops |
| Links.CustomersFollowsPrevious | function_app.py:119-121 | on `<p>; rel="previous", <n>; rel="next"` the customers fetch goes to `p` |
| Links.OrdersKeepsBracket | function_app.py:151-153 | on `<p>; rel="previous", <n>; rel="next"` the orders fetch goes to ` <n` |
| Links.CleanTrimmedFragment | function_app.py:151 | trimming whitespace before stripping the brackets gives any link's URL |
| Links.IntendedTakesNextLink | function_app.py:149-153 | with a per-fragment filter and the whitespace trimmed, such a header yields exactly the first `next` link's URL |
| Links.IntendedStopsWithoutNext | function_app.py:149-156 | with a per-fragment filter and the whitespace trimmed, such a header without a `next` link gives no next page |
| Links.IntendedFollowsNext | function_app.py:149-153 | with those corrections, `<p>; rel="previous", <n>; rel="next"` leads to `n` |

## Left out

- HTTP and pagination (the two fetch functions, lines 104-165): the request loops, status codes and `raise_for_status` are network I/O. Only the step from a `Link` header to the next URL is modelled; the header is a parameter.
- The Google Sheets upload, the pandas `DataFrame` construction, `add_prefix` and `pd.merge`, `load_credentials` (file I/O), the store orchestration and the HTTP trigger: all I/O or calls into libraries outside the core; logging is left out too.
- Numbers: JSON numbers are `real`, so Python's int/float distinction is not modelled. It matters only for truthiness (`0` and `0.0` are both falsy, as modelled).
- Duplicate keys: a dict is a sequence of pairs and `.get` reads the first pair with the key. `json.loads` never produces duplicate keys. Records with duplicates are not what the API decodes to, and the model does not claim Python's behaviour on them.
- Key order of the output rows: rows and flattened records are Dafny maps. The insertion order that pandas would turn into column order is not modelled.
- Orders.OrderRowAt: stated on `ExpectedRows`, the reference listing, rather than on `ExpandOrder`. `ExpandOrderCorrect` equates the two for every accepted order.
- Orders.FulfillmentRowAt: stated on `ExpectedRows`, the reference listing, rather than on `ExpandOrder`. `ExpandOrderCorrect` equates the two for every accepted order.
- Links.CleanTrimmedFragment: models `str.strip()` with the six ASCII whitespace characters only, not Python's Unicode whitespace.
- Links.CustomersNextUrl and Links.OrdersNextUrl: no URL validation or rewriting by the HTTP library is modelled; the result is the string the code would pass on.

## Findings

| source | as written | input that shows it | evidently intended | confidence | as-written member | corrected member |
|---|---|---|---|---|---|---|
| function_app.py:119 | the comprehension's filter tests `'rel="next"' in link_header`, the whole header | the header `<p>; rel="previous", <n>; rel="next"` of any page after the first gives `p`, the previous page | test each fragment: `if 'rel="next"' in link` | not executed; high | Links.CustomersFollowsPrevious | Links.IntendedFollowsNext |
| function_app.py:151 | `link.split(';')[0].strip('<>')` keeps the space after the comma, so the `<` in front of the URL is not stripped | the same header gives ` <n` instead of `n` | strip whitespace before the brackets: `.strip().strip('<>')` | not executed; medium | Links.OrdersKeepsBracket | Links.IntendedFollowsNext |
