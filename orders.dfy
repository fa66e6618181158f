/**
 The order expander (`process_order_data` in function_app.py): every order
 becomes a group of denormalised rows, one per line item (or one stand-in row
 when there are none), followed by one group per fulfillment, one row per
 fulfillment line item (or one stand-in row). Every row starts from the
 flattened order without its `line_items` and `fulfillments`.

 `ExpandOrder`/`ExpandOrders` state what the Python loops compute, exception
 included; `ProcessOrderData` is those loops, proved equal to them.
 `ExpectedRows` is an independent description of the rows by comprehension,
 and the lemmas derive the row-count law, the contents and the kinds of the
 rows from it.
 */
module Orders {
  import opened PyJson
  import opened Flatten

  /** One emitted row. */
  type Row = map<string, Json>

  /** Runs a step over a list in order, concatenating what each step emits;
      the first step that raises ends the run with its exception. This is how
      a Python `for` loop that appends to a list behaves. */
  function Collect<A, B>(f: A -> Result<seq<B>>, xs: seq<A>): Result<seq<B>>
    decreases |xs|
  {
    if xs == [] then Ok([])
    else
      var n := |xs| - 1;
      match Collect(f, xs[..n])
      case Err(e) => Err(e)
      case Ok(done) =>
        match f(xs[n])
        case Err(e) => Err(e)
        case Ok(more) => Ok(done + more)
  }

  /** The loop body that appends the rows of one more element. */
  lemma CollectStep<A, B>(f: A -> Result<seq<B>>, xs: seq<A>, k: nat)
    requires k < |xs| && Collect(f, xs[..k]).Ok?
    ensures Collect(f, xs[..k + 1]) ==
      if f(xs[k]).Err? then Err(f(xs[k]).error) else Ok(Collect(f, xs[..k]).value + f(xs[k]).value)
  {
    assert xs[..k + 1][..k] == xs[..k];
  }

  /** Once a step has raised, the run has raised with that exception. */
  lemma {:induction false} CollectErrSticks<A, B>(f: A -> Result<seq<B>>, xs: seq<A>, k: nat)
    requires k <= |xs| && Collect(f, xs[..k]).Err?
    ensures Collect(f, xs) == Collect(f, xs[..k])
    decreases |xs|
  {
    if k < |xs| {
      var n := |xs| - 1;
      assert xs[..n][..k] == xs[..k];
      CollectErrSticks(f, xs[..n], k);
    } else {
      assert xs[..k] == xs;
    }
  }

  /** When every step succeeds, the run emits the steps' rows one after
      another. */
  lemma {:induction false} CollectAllOk<A, B>(f: A -> Result<seq<B>>, xs: seq<A>, parts: seq<seq<B>>)
    requires |parts| == |xs|
    requires forall i :: 0 <= i < |xs| ==> f(xs[i]) == Ok(parts[i])
    ensures Collect(f, xs) == Ok(Concat(parts))
    decreases |xs|
  {
    if xs != [] {
      var n := |xs| - 1;
      CollectAllOk(f, xs[..n], parts[..n]);
    }
  }

  /** When a step raises, the run raises, with the exception of the first
      step that does. */
  lemma CollectRaises<A, B>(f: A -> Result<seq<B>>, xs: seq<A>, k: nat)
    requires k < |xs| && f(xs[k]).Err?
    requires forall i :: 0 <= i < k ==> f(xs[i]).Ok?
    ensures Collect(f, xs) == Err(f(xs[k]).error)
  {
    var parts := seq(k, i requires 0 <= i < k => f(xs[i]).value);
    CollectAllOk(f, xs[..k], parts);
    CollectStep(f, xs, k);
    CollectErrSticks(f, xs, k + 1);
  }

  /** The run raises as soon as any step raises. */
  lemma {:induction false} CollectRaisesSome<A, B>(f: A -> Result<seq<B>>, xs: seq<A>, k: nat)
    requires k < |xs| && f(xs[k]).Err?
    ensures Collect(f, xs).Err?
    decreases |xs|
  {
    var n := |xs| - 1;
    if k < n {
      assert xs[..n][k] == xs[k];
      CollectRaisesSome(f, xs[..n], k);
    }
  }

  /** Which loop of the source emits a row: the order's own line items, or
      one fulfillment's line items (with that fulfillment's `id` and
      `status`). */
  datatype Context = OrderContext | FulfillmentContext(id: Json, status: Json)

  /** The `item_type` a context writes. */
  function Kind(ctx: Context): string {
    if ctx.OrderContext? then "order" else "fulfillment"
  }

  /** The `fulfillment_id` a context writes (None for the order's own items). */
  function ContextId(ctx: Context): Json {
    if ctx.OrderContext? then JNull else ctx.id
  }

  /** The `fulfillment_status` a context writes. */
  function ContextStatus(ctx: Context): Json {
    if ctx.OrderContext? then JNull else ctx.status
  }

  /** The seven fields every row adds to the flattened order. */
  const DetailKeys: set<string> :=
    {"item_type", "item_id", "item_title", "item_quantity", "item_price",
     "fulfillment_id", "fulfillment_status"}

  /** `{**order_data, 'item_type': ..., 'item_id': ..., ...}`: a copy of
      `order_data` with the seven detail columns written in turn. */
  function DetailRowOf(base: Row, ctx: Context, id: Json, title: Json, quantity: Json, price: Json): Row {
    base["item_type" := JStr(Kind(ctx))]["item_id" := id]["item_title" := title]
        ["item_quantity" := quantity]["item_price" := price]
        ["fulfillment_id" := ContextId(ctx)]["fulfillment_status" := ContextStatus(ctx)]
  }

  /** The one row that stands for an empty item list: None in every item
      column. */
  function NullRow(base: Row, ctx: Context): Row {
    DetailRowOf(base, ctx, JNull, JNull, JNull, JNull)
  }

  /** `{**order_data, ...}` for one line item; `.get` on an item that is not
      a dict raises AttributeError. */
  function ItemRow(base: Row, ctx: Context, item: Json): Result<seq<Row>> {
    if item.JObj? then Ok([RowFor(base, ctx, item)]) else Err(AttributeError)
  }

  /** The row for a line item that is a dict. */
  function RowFor(base: Row, ctx: Context, item: Json): Row {
    var fields := FieldsOf(item);
    DetailRowOf(base, ctx, Get(fields, "id", JNull), Get(fields, "title", JNull),
                Get(fields, "quantity", JNull), Get(fields, "price", JNull))
  }

  function ItemStep(base: Row, ctx: Context): Json -> Result<seq<Row>> {
    item => ItemRow(base, ctx, item)
  }

  /** `if not items: <one stand-in row> else: for item in items: <row>`, the
      block the source writes out twice (lines 44-67 and 76-99). */
  function ItemListRows(base: Row, ctx: Context, items: Json): Result<seq<Row>> {
    if Falsy(items) then Ok([NullRow(base, ctx)])
    else
      match Elements(items)
      case Err(e) => Err(e)
      case Ok(es) => Collect(ItemStep(base, ctx), es)
  }

  /** `x.get('line_items', [])`. */
  function LineItems(fields: seq<(string, Json)>): Json {
    Get(fields, "line_items", JArr([]))
  }

  /** `order.get('fulfillments', [])`. */
  function FulfillmentsValue(fields: seq<(string, Json)>): Json {
    Get(fields, "fulfillments", JArr([]))
  }

  /** The rows one fulfillment contributes; its `.get` calls raise
      AttributeError when it is not a dict. */
  function FulfillmentRows(base: Row, fulfillment: Json): Result<seq<Row>> {
    if !fulfillment.JObj? then Err(AttributeError)
    else
      var f := fulfillment.fields;
      ItemListRows(base, FulfillmentContext(Get(f, "id", JNull), Get(f, "status", JNull)), LineItems(f))
  }

  function FulfillmentStep(base: Row): Json -> Result<seq<Row>> {
    f => FulfillmentRows(base, f)
  }

  /** `{k: v for k, v in order.items() if k not in ['line_items', 'fulfillments']}`. */
  function WithoutSubLists(fields: seq<(string, Json)>): (r: seq<(string, Json)>)
    ensures forall p :: p in r <==> p in fields && p.0 != "line_items" && p.0 != "fulfillments"
    ensures |r| <= |fields|
    ensures |fields| == 1 ==>
      r == (if fields[0].0 == "line_items" || fields[0].0 == "fulfillments" then [] else fields)
    ensures (forall i :: 0 <= i < |fields| ==> fields[i].0 != "line_items" && fields[i].0 != "fulfillments") ==>
      r == fields
  {
    if fields == [] then []
    else
      (if fields[0].0 == "line_items" || fields[0].0 == "fulfillments" then [] else [fields[0]])
      + WithoutSubLists(fields[1..])
  }

  /** The comprehension keeps the pairs in their order: it filters a
      concatenation piece by piece (with the one-pair case above, this fixes
      the result pair by pair). */
  lemma {:induction false} WithoutSubListsConcat(a: seq<(string, Json)>, b: seq<(string, Json)>)
    ensures WithoutSubLists(a + b) == WithoutSubLists(a) + WithoutSubLists(b)
    decreases |a|
  {
    if a == [] {
      assert a + b == b;
    } else {
      assert (a + b)[0] == a[0] && (a + b)[1..] == a[1..] + b;
      WithoutSubListsConcat(a[1..], b);
    }
  }

  /** `order_data`: the flattened order, without its two sub-lists, with the
      shop name. */
  function BaseRow(fields: seq<(string, Json)>, shopName: string): Row {
    FlattenRecord(JObj(WithoutSubLists(fields)), shopName)
  }

  /** The rows of one order, or the exception the loop body raises on it:
      `order.items()` needs a dict; iterating a truthy `line_items` that is
      not a list, or `fulfillments` that is not iterable, raises; so does
      `.get` on an item or a fulfillment that is not a dict. */
  function ExpandOrder(order: Json, shopName: string): Result<seq<Row>> {
    if !order.JObj? then Err(AttributeError)
    else OrderRows(BaseRow(order.fields, shopName), order.fields)
  }

  /** The loop body once `order_data` is known: the order's own item block,
      then the fulfillment loop. */
  function OrderRows(base: Row, fields: seq<(string, Json)>): Result<seq<Row>> {
    match ItemListRows(base, OrderContext, LineItems(fields))
    case Err(e) => Err(e)
    case Ok(orderRows) =>
      match Elements(FulfillmentsValue(fields))
      case Err(e) => Err(e)
      case Ok(fs) =>
        match Collect(FulfillmentStep(base), fs)
        case Err(e) => Err(e)
        case Ok(fulfillmentRows) => Ok(orderRows + fulfillmentRows)
  }

  function OrderStep(shopName: string): Json -> Result<seq<Row>> {
    order => ExpandOrder(order, shopName)
  }

  /** `process_order_data(orders, shop_name)`: the rows of all orders in
      order, or the first exception raised. */
  function ExpandOrders(orders: seq<Json>, shopName: string): Result<seq<Row>> {
    Collect(OrderStep(shopName), orders)
  }

  // ---------------------------------------------------------------------
  // An independent description of the rows.

  /** The pairs of a value that the model treats as a dict. */
  function FieldsOf(j: Json): seq<(string, Json)> {
    if j.JObj? then j.fields else []
  }

  /** The list an item list stands for once it has been accepted: a list, or
      nothing at all for a falsy value (missing key, None, {}, ...). */
  function ListOf(j: Json): seq<Json> {
    if j.JArr? then j.items else []
  }

  /** The rows emitted for one item list: a stand-in row when it is empty,
      otherwise one row per item, in list order. */
  function Group(base: Row, ctx: Context, items: seq<Json>): seq<Row> {
    if items == [] then [NullRow(base, ctx)] else RowsFor(base, ctx, items)
  }

  /** The context of a fulfillment's rows. */
  function ContextOf(fulfillment: Json): Context {
    FulfillmentContext(Get(FieldsOf(fulfillment), "id", JNull), Get(FieldsOf(fulfillment), "status", JNull))
  }

  /** What iterating `fulfillments` yields once it has been accepted. */
  function FulfillmentsOf(fields: seq<(string, Json)>): seq<Json> {
    Elements(FulfillmentsValue(fields)).GetOr([])
  }

  /** An item list the source accepts: falsy, or a list of dicts. */
  predicate ItemListOk(j: Json) {
    Falsy(j) || (j.JArr? && forall k :: 0 <= k < |j.items| ==> j.items[k].JObj?)
  }

  /** A fulfillment the loop body gets through: a dict whose item list the
      block accepts. */
  predicate FulfillmentOk(f: Json) {
    f.JObj? && ItemListOk(LineItems(f.fields))
  }

  /** An order the loop body gets through without an exception. */
  predicate Expandable(order: Json) {
    && order.JObj?
    && ItemListOk(LineItems(order.fields))
    && Elements(FulfillmentsValue(order.fields)).Ok?
    && var fs := FulfillmentsOf(order.fields);
       forall k :: 0 <= k < |fs| ==> FulfillmentOk(fs[k])
  }

  /** The group of one fulfillment. */
  function FulfillmentGroup(base: Row, f: Json): seq<Row> {
    Group(base, ContextOf(f), ListOf(LineItems(FieldsOf(f))))
  }

  /** The group of each fulfillment, in list order. */
  function Groups(base: Row, fs: seq<Json>): seq<seq<Row>> {
    seq(|fs|, k requires 0 <= k < |fs| => FulfillmentGroup(base, fs[k]))
  }

  /** The groups of the fulfillments, one after another, in list order. */
  function FulfillmentGroups(base: Row, fs: seq<Json>): seq<Row> {
    Concat(Groups(base, fs))
  }

  /** The rows of an expandable order: the order's group, then each
      fulfillment's group, in list order. */
  function ExpectedRows(order: Json, shopName: string): seq<Row> {
    var fields := FieldsOf(order);
    var base := BaseRow(fields, shopName);
    Group(base, OrderContext, ListOf(LineItems(fields))) + FulfillmentGroups(base, FulfillmentsOf(fields))
  }

  /** The rows of a list of line items, one per item, in list order. */
  function RowsFor(base: Row, ctx: Context, items: seq<Json>): (r: seq<Row>)
    ensures |r| == |items|
    decreases |items|
  {
    if items == [] then []
    else RowsFor(base, ctx, items[..|items| - 1]) + [RowFor(base, ctx, items[|items| - 1])]
  }

  /** The i-th row of a list's rows is the row of its i-th item. */
  lemma {:induction false} RowsForIndex(base: Row, ctx: Context, items: seq<Json>, i: nat)
    requires i < |items|
    ensures RowsFor(base, ctx, items)[i] == RowFor(base, ctx, items[i])
    decreases |items|
  {
    var n := |items| - 1;
    if i < n {
      RowsForIndex(base, ctx, items[..n], i);
      assert items[..n][i] == items[i];
    }
  }

  /** The `for item in items` loop over a list of dicts emits one row per
      item. */
  lemma {:induction false} ItemLoopRows(base: Row, ctx: Context, es: seq<Json>)
    requires forall i :: 0 <= i < |es| ==> es[i].JObj?
    ensures Collect(ItemStep(base, ctx), es) == Ok(RowsFor(base, ctx, es))
    decreases |es|
  {
    if es != [] {
      var n := |es| - 1;
      assert forall i :: 0 <= i < n ==> es[..n][i] == es[i];
      ItemLoopRows(base, ctx, es[..n]);
      assert ItemStep(base, ctx)(es[n]) == Ok([RowFor(base, ctx, es[n])]);
    }
  }

  /** The `for item in items` loop over a non-empty list: it raises exactly
      when some item is not a dict, and otherwise emits one row per item. */
  lemma ItemLoopCorrect(base: Row, ctx: Context, es: seq<Json>)
    requires es != []
    ensures Collect(ItemStep(base, ctx), es).Ok? <==> forall i :: 0 <= i < |es| ==> es[i].JObj?
    ensures Collect(ItemStep(base, ctx), es).Ok? ==> Collect(ItemStep(base, ctx), es).value == Group(base, ctx, es)
  {
    if forall i :: 0 <= i < |es| ==> es[i].JObj? {
      ItemLoopRows(base, ctx, es);
    } else {
      var k :| 0 <= k < |es| && !es[k].JObj?;
      assert ItemStep(base, ctx)(es[k]).Err?;
      CollectRaisesSome(ItemStep(base, ctx), es, k);
    }
  }

  /** The item-list block: it raises exactly when the list is neither falsy
      nor a list of dicts, and otherwise emits the list's group. */
  lemma ItemListRowsCorrect(base: Row, ctx: Context, items: Json)
    ensures ItemListRows(base, ctx, items).Ok? <==> ItemListOk(items)
    ensures ItemListRows(base, ctx, items).Ok? ==>
      ItemListRows(base, ctx, items).value == Group(base, ctx, ListOf(items))
  {
    if !Falsy(items) && Elements(items).Ok? {
      var es := Elements(items).value;
      ItemLoopCorrect(base, ctx, es);
      if !items.JArr? {
        assert es[0] in es;
      }
    }
  }

  /** The rows one fulfillment contributes, when it is accepted. */
  lemma FulfillmentRowsCorrect(base: Row, f: Json)
    ensures FulfillmentRows(base, f).Ok? <==> FulfillmentOk(f)
    ensures FulfillmentRows(base, f).Ok? ==> FulfillmentRows(base, f).value == FulfillmentGroup(base, f)
  {
    if f.JObj? {
      ItemListRowsCorrect(base, ContextOf(f), LineItems(f.fields));
    }
  }

  lemma FulfillmentStepOk(base: Row, f: Json)
    requires FulfillmentOk(f)
    ensures FulfillmentStep(base)(f) == Ok(FulfillmentGroup(base, f))
  {
    FulfillmentRowsCorrect(base, f);
  }

  /** The fulfillment loop over accepted fulfillments emits their groups. */
  lemma FulfillmentLoopRows(base: Row, fs: seq<Json>)
    requires forall k :: 0 <= k < |fs| ==> FulfillmentOk(fs[k])
    ensures Collect(FulfillmentStep(base), fs) == Ok(FulfillmentGroups(base, fs))
  {
    var parts := Groups(base, fs);
    forall k | 0 <= k < |fs| ensures FulfillmentStep(base)(fs[k]) == Ok(parts[k]) {
      FulfillmentStepOk(base, fs[k]);
    }
    CollectAllOk(FulfillmentStep(base), fs, parts);
  }

  /** The fulfillment loop: it raises exactly when some fulfillment is not
      accepted, and otherwise emits the fulfillments' groups in list order. */
  lemma FulfillmentLoopCorrect(base: Row, fs: seq<Json>)
    ensures Collect(FulfillmentStep(base), fs).Ok? <==> forall k :: 0 <= k < |fs| ==> FulfillmentOk(fs[k])
    ensures Collect(FulfillmentStep(base), fs).Ok? ==>
      Collect(FulfillmentStep(base), fs).value == FulfillmentGroups(base, fs)
  {
    if forall k :: 0 <= k < |fs| ==> FulfillmentOk(fs[k]) {
      FulfillmentLoopRows(base, fs);
    } else {
      var k :| 0 <= k < |fs| && !FulfillmentOk(fs[k]);
      FulfillmentRowsCorrect(base, fs[k]);
      CollectRaisesSome(FulfillmentStep(base), fs, k);
    }
  }

  /** One order: the loop body raises exactly on orders that are not
      expandable, and otherwise emits `ExpectedRows`. */
  lemma ExpandOrderCorrect(order: Json, shopName: string)
    ensures ExpandOrder(order, shopName).Ok? <==> Expandable(order)
    ensures ExpandOrder(order, shopName).Ok? ==>
      ExpandOrder(order, shopName).value == ExpectedRows(order, shopName)
  {
    if order.JObj? {
      var base := BaseRow(order.fields, shopName);
      ItemListRowsCorrect(base, OrderContext, LineItems(order.fields));
      if Elements(FulfillmentsValue(order.fields)).Ok? {
        FulfillmentLoopCorrect(base, FulfillmentsOf(order.fields));
      }
    }
  }

  // ---------------------------------------------------------------------
  // What the rows hold, how many there are, and in which order they come.

  /** `max(n, 1)`: an item list contributes at least one row. */
  function Max1(n: nat): nat {
    if n == 0 then 1 else n
  }

  /** A row of a context over `order_data`: it has the columns of
      `order_data` and the seven detail columns and no other; `item_type`
      and the fulfillment columns are the context's, overriding an
      `order_data` column of the same name; every other column keeps its
      `order_data` value. */
  predicate Shaped(r: Row, base: Row, ctx: Context) {
    && r.Keys == base.Keys + DetailKeys
    && r["item_type"] == JStr(Kind(ctx))
    && r["fulfillment_id"] == ContextId(ctx)
    && r["fulfillment_status"] == ContextStatus(ctx)
    && forall k :: k in base && k !in DetailKeys ==> r[k] == base[k]
  }

  /** A row of a context that also carries the given item details. */
  predicate RowHolds(r: Row, base: Row, ctx: Context, id: Json, title: Json, quantity: Json, price: Json) {
    && Shaped(r, base, ctx)
    && r["item_id"] == id
    && r["item_title"] == title
    && r["item_quantity"] == quantity
    && r["item_price"] == price
  }

  /** The dict literal builds a row that holds its details. */
  lemma DetailRow(base: Row, ctx: Context, id: Json, title: Json, quantity: Json, price: Json)
    ensures RowHolds(DetailRowOf(base, ctx, id, title, quantity, price), base, ctx, id, title, quantity, price)
  {
  }

  /** An item list's group has `max(len(items), 1)` rows. */
  lemma GroupLength(base: Row, ctx: Context, items: seq<Json>)
    ensures |Group(base, ctx, items)| == Max1(|items|)
  {
  }

  /** Row i of an item list's group carries the
      context's kind and fulfillment fields and, when the list is not empty,
      `.get` of the i-th item's id, title, quantity and price; the stand-in
      row of an empty list carries None for those. */
  lemma GroupRows(base: Row, ctx: Context, items: seq<Json>, i: nat)
    requires i < Max1(|items|)
    ensures |Group(base, ctx, items)| == Max1(|items|)
    ensures items == [] ==> RowHolds(Group(base, ctx, items)[i], base, ctx, JNull, JNull, JNull, JNull)
    ensures items != [] ==>
      var item := FieldsOf(items[i]);
      RowHolds(Group(base, ctx, items)[i], base, ctx, Get(item, "id", JNull), Get(item, "title", JNull),
               Get(item, "quantity", JNull), Get(item, "price", JNull))
  {
    if items == [] {
      DetailRow(base, ctx, JNull, JNull, JNull, JNull);
    } else {
      RowsForIndex(base, ctx, items, i);
      var item := FieldsOf(items[i]);
      DetailRow(base, ctx, Get(item, "id", JNull), Get(item, "title", JNull),
                Get(item, "quantity", JNull), Get(item, "price", JNull));
    }
  }

  /** The number of rows the fulfillments contribute:
      the sum of `max(len(f.line_items), 1)`. */
  function FulfillmentRowCount(fs: seq<Json>): nat
    decreases |fs|
  {
    if fs == [] then 0
    else FulfillmentRowCount(fs[..|fs| - 1]) + Max1(|ListOf(LineItems(FieldsOf(fs[|fs| - 1])))|)
  }

  /** The groups of a prefix of the fulfillments are a prefix of the groups. */
  lemma GroupsPrefix(base: Row, fs: seq<Json>, k: nat)
    requires k <= |fs|
    ensures Groups(base, fs)[..k] == Groups(base, fs[..k])
  {
    assert forall i :: 0 <= i < k ==> fs[..k][i] == fs[i];
  }

  /** The fulfillments contribute the sum of their groups' sizes. */
  lemma {:induction false} FulfillmentGroupsLength(base: Row, fs: seq<Json>)
    ensures |FulfillmentGroups(base, fs)| == FulfillmentRowCount(fs)
    decreases |fs|
  {
    if fs != [] {
      var n := |fs| - 1;
      GroupsPrefix(base, fs, n);
      FulfillmentGroupsLength(base, fs[..n]);
      GroupLength(base, ContextOf(fs[n]), ListOf(LineItems(FieldsOf(fs[n]))));
    }
  }

  /** Element j of part k sits in the concatenation right after the parts
      before k. */
  lemma {:induction false} ConcatIndex<T>(ss: seq<seq<T>>, k: nat, j: nat)
    requires k < |ss| && j < |ss[k]|
    ensures |Concat(ss[..k])| + j < |Concat(ss)|
    ensures Concat(ss)[|Concat(ss[..k])| + j] == ss[k][j]
    decreases |ss|
  {
    var n := |ss| - 1;
    if k < n {
      assert ss[..n][..k] == ss[..k] && ss[..n][k] == ss[k];
      ConcatIndex(ss[..n], k, j);
    }
  }

  /** Fulfillment k's rows come right after the rows of the fulfillments
      before it: the groups keep the order of the list. */
  lemma FulfillmentGroupsIndex(base: Row, fs: seq<Json>, k: nat, j: nat)
    requires k < |fs| && j < |FulfillmentGroup(base, fs[k])|
    ensures FulfillmentRowCount(fs[..k]) + j < |FulfillmentGroups(base, fs)|
    ensures FulfillmentGroups(base, fs)[FulfillmentRowCount(fs[..k]) + j] == FulfillmentGroup(base, fs[k])[j]
  {
    GroupsPrefixLength(base, fs, k);
    ConcatIndex(Groups(base, fs), k, j);
  }

  /** The groups before fulfillment k hold the rows of the fulfillments
      before it. */
  lemma GroupsPrefixLength(base: Row, fs: seq<Json>, k: nat)
    requires k <= |fs|
    ensures |Concat(Groups(base, fs)[..k])| == FulfillmentRowCount(fs[..k])
  {
    GroupsPrefix(base, fs, k);
    FulfillmentGroupsLength(base, fs[..k]);
  }

  /** An accepted order emits `max(N, 1) + sum(max(len(f.line_items), 1))`
      rows, N being the number of its own line items. */
  lemma RowCount(order: Json, shopName: string)
    requires ExpandOrder(order, shopName).Ok?
    ensures |ExpandOrder(order, shopName).value| ==
      Max1(|ListOf(LineItems(order.fields))|) + FulfillmentRowCount(FulfillmentsOf(order.fields))
  {
    ExpandOrderCorrect(order, shopName);
    var base := BaseRow(order.fields, shopName);
    GroupLength(base, OrderContext, ListOf(LineItems(order.fields)));
    FulfillmentGroupsLength(base, FulfillmentsOf(order.fields));
  }

  /** In the rows of an order (`ExpectedRows`, what an accepted order
      emits), the first `max(N, 1)` are the order's own group, in line-item
      order. */
  lemma OrderRowAt(order: Json, shopName: string, i: nat)
    requires i < Max1(|ListOf(LineItems(FieldsOf(order)))|)
    ensures i < |ExpectedRows(order, shopName)|
    ensures ExpectedRows(order, shopName)[i] ==
      Group(BaseRow(FieldsOf(order), shopName), OrderContext, ListOf(LineItems(FieldsOf(order))))[i]
  {
    GroupLength(BaseRow(FieldsOf(order), shopName), OrderContext, ListOf(LineItems(FieldsOf(order))));
  }

  /** In the rows of an order (`ExpectedRows`, what an accepted order
      emits), row j of fulfillment k comes after the order's group and after
      the rows of the fulfillments before k. */
  lemma FulfillmentRowAt(order: Json, shopName: string, k: nat, j: nat)
    requires k < |FulfillmentsOf(FieldsOf(order))|
    requires j < Max1(|ListOf(LineItems(FieldsOf(FulfillmentsOf(FieldsOf(order))[k])))|)
    ensures
      var fs := FulfillmentsOf(FieldsOf(order));
      var at := Max1(|ListOf(LineItems(FieldsOf(order)))|) + FulfillmentRowCount(fs[..k]) + j;
      && at < |ExpectedRows(order, shopName)|
      && ExpectedRows(order, shopName)[at] == FulfillmentGroup(BaseRow(FieldsOf(order), shopName), fs[k])[j]
  {
    var base := BaseRow(FieldsOf(order), shopName);
    var fs := FulfillmentsOf(FieldsOf(order));
    var own := Group(base, OrderContext, ListOf(LineItems(FieldsOf(order))));
    var rest := FulfillmentGroups(base, fs);
    GroupLength(base, OrderContext, ListOf(LineItems(FieldsOf(order))));
    GroupLength(base, ContextOf(fs[k]), ListOf(LineItems(FieldsOf(fs[k]))));
    FulfillmentGroupsIndex(base, fs, k, j);
    var x := FulfillmentRowCount(fs[..k]) + j;
    assert (own + rest)[|own| + x] == rest[x];
  }

  /** Where element x of a concatenation comes from: element j of part k. */
  lemma {:induction false} ConcatLocate<T>(ss: seq<seq<T>>, x: nat) returns (k: nat, j: nat)
    requires x < |Concat(ss)|
    ensures k < |ss| && j < |ss[k]| && Concat(ss)[x] == ss[k][j]
    decreases |ss|
  {
    var n := |ss| - 1;
    if x < |Concat(ss[..n])| {
      k, j := ConcatLocate(ss[..n], x);
      assert ss[..n][k] == ss[k];
    } else {
      k, j := n, x - |Concat(ss[..n])|;
    }
  }

  /** Every row of a group is a row of the group's context. */
  lemma GroupShaped(base: Row, ctx: Context, items: seq<Json>, i: nat)
    requires i < |Group(base, ctx, items)|
    ensures Shaped(Group(base, ctx, items)[i], base, ctx)
  {
    GroupLength(base, ctx, items);
    GroupRows(base, ctx, items, i);
  }

  /** Every row of the fulfillments' groups is a row of one of the
      fulfillments. */
  lemma FulfillmentGroupsShaped(base: Row, fs: seq<Json>, x: nat) returns (k: nat)
    requires x < |FulfillmentGroups(base, fs)|
    ensures k < |fs| && Shaped(FulfillmentGroups(base, fs)[x], base, ContextOf(fs[k]))
  {
    var j;
    k, j := ConcatLocate(Groups(base, fs), x);
    assert Groups(base, fs)[k] == FulfillmentGroup(base, fs[k]);
    GroupShaped(base, ContextOf(fs[k]), ListOf(LineItems(FieldsOf(fs[k]))), j);
  }

  /** Every row of an accepted order is a row over `order_data`: the first
      `max(N, 1)` of the order itself, every later one of one of its
      fulfillments. */
  lemma RowShape(order: Json, shopName: string, i: nat)
    requires ExpandOrder(order, shopName).Ok?
    requires i < |ExpandOrder(order, shopName).value|
    ensures i < Max1(|ListOf(LineItems(order.fields))|) ==>
      Shaped(ExpandOrder(order, shopName).value[i], BaseRow(order.fields, shopName), OrderContext)
    ensures i >= Max1(|ListOf(LineItems(order.fields))|) ==>
      exists k :: 0 <= k < |FulfillmentsOf(order.fields)| &&
        Shaped(ExpandOrder(order, shopName).value[i], BaseRow(order.fields, shopName),
               ContextOf(FulfillmentsOf(order.fields)[k]))
  {
    ExpandOrderCorrect(order, shopName);
    var base := BaseRow(order.fields, shopName);
    var items := ListOf(LineItems(order.fields));
    var own := Group(base, OrderContext, items);
    var rest := FulfillmentGroups(base, FulfillmentsOf(order.fields));
    assert ExpandOrder(order, shopName).value == own + rest;
    GroupLength(base, OrderContext, items);
    if i < |own| {
      GroupShaped(base, OrderContext, items, i);
    } else {
      var k := FulfillmentGroupsShaped(base, FulfillmentsOf(order.fields), i - |own|);
    }
  }

  /** All rows of an accepted order have the same columns, and a row is of
      kind "order" exactly when it is among the first `max(N, 1)`. */
  lemma RowKinds(order: Json, shopName: string, i: nat)
    requires ExpandOrder(order, shopName).Ok?
    requires i < |ExpandOrder(order, shopName).value|
    ensures ExpandOrder(order, shopName).value[i].Keys == BaseRow(order.fields, shopName).Keys + DetailKeys
    ensures ExpandOrder(order, shopName).value[i]["item_type"] == JStr("order") <==>
      i < Max1(|ListOf(LineItems(order.fields))|)
  {
    RowShape(order, shopName, i);
  }

  // ---------------------------------------------------------------------
  // The exceptions.

  /** An order that is not a dict fails at `order.items()`. */
  lemma NonDictOrderRaises(order: Json, shopName: string)
    requires !order.JObj?
    ensures ExpandOrder(order, shopName) == Err(AttributeError)
  {
  }

  /** An explicit `"fulfillments": null` (the first such key, as `.get` sees
      it) is not iterable: the order raises TypeError once its own item list
      is accepted, and AttributeError when a line item is not a dict. */
  lemma NullFulfillmentsRaise(order: Json, shopName: string)
    requires order.JObj? && FulfillmentsValue(order.fields) == JNull
    requires ItemListOk(LineItems(order.fields))
    ensures ExpandOrder(order, shopName) == Err(TypeError)
  {
    ItemListRowsCorrect(BaseRow(order.fields, shopName), OrderContext, LineItems(order.fields));
  }

  /** A truthy `line_items` that is a number or `True` is not iterable. */
  lemma NonIterableItemsRaise(order: Json, shopName: string)
    requires order.JObj?
    requires LineItems(order.fields).JNum? || LineItems(order.fields).JBool?
    requires !Falsy(LineItems(order.fields))
    ensures ExpandOrder(order, shopName) == Err(TypeError)
  {
  }

  /** A truthy `line_items` that is a string or a dict iterates as strings,
      and `.get` on a string raises. */
  lemma StringOrDictItemsRaise(order: Json, shopName: string)
    requires order.JObj?
    requires LineItems(order.fields).JStr? || LineItems(order.fields).JObj?
    requires !Falsy(LineItems(order.fields))
    ensures ExpandOrder(order, shopName) == Err(AttributeError)
  {
    var base := BaseRow(order.fields, shopName);
    var es := Elements(LineItems(order.fields)).value;
    assert es[0] in es;
    CollectRaises(ItemStep(base, OrderContext), es, 0);
  }

  // ---------------------------------------------------------------------
  // All orders.

  /** `process_order_data` raises exactly when some order is not
      expandable, and then with the exception of the first such order;
      otherwise it emits each order's rows, in list order. */
  lemma ExpandOrdersCorrect(orders: seq<Json>, shopName: string)
    ensures ExpandOrders(orders, shopName).Ok? <==> forall i :: 0 <= i < |orders| ==> Expandable(orders[i])
    ensures ExpandOrders(orders, shopName).Ok? ==>
      ExpandOrders(orders, shopName).value ==
        Concat(seq(|orders|, i requires 0 <= i < |orders| => ExpectedRows(orders[i], shopName)))
    ensures forall k ::
      (0 <= k < |orders| && !Expandable(orders[k]) && forall i :: 0 <= i < k ==> Expandable(orders[i])) ==>
        ExpandOrders(orders, shopName) == ExpandOrder(orders[k], shopName)
  {
    var step := OrderStep(shopName);
    forall i | 0 <= i < |orders|
      ensures step(orders[i]).Ok? <==> Expandable(orders[i])
      ensures step(orders[i]).Ok? ==> step(orders[i]).value == ExpectedRows(orders[i], shopName)
    {
      ExpandOrderCorrect(orders[i], shopName);
    }
    if forall i :: 0 <= i < |orders| ==> Expandable(orders[i]) {
      var parts := seq(|orders|, i requires 0 <= i < |orders| => ExpectedRows(orders[i], shopName));
      CollectAllOk(step, orders, parts);
    } else {
      var k :| 0 <= k < |orders| && !Expandable(orders[k]);
      CollectRaisesSome(step, orders, k);
    }
    forall k | 0 <= k < |orders| && !Expandable(orders[k]) && (forall i :: 0 <= i < k ==> Expandable(orders[i]))
      ensures ExpandOrders(orders, shopName) == ExpandOrder(orders[k], shopName)
    {
      CollectRaises(step, orders, k);
    }
  }

  // ---------------------------------------------------------------------
  // Two orders written out.

  /** An order with neither line items nor fulfillments yields exactly one
      row, the order's stand-in row with None in every item column. */
  lemma BareOrderOneRow(order: Json, shopName: string)
    requires order.JObj? && Falsy(LineItems(order.fields))
    requires Elements(FulfillmentsValue(order.fields)) == Ok([])
    ensures ExpandOrder(order, shopName) == Ok([NullRow(BaseRow(order.fields, shopName), OrderContext)])
  {
    var base := BaseRow(order.fields, shopName);
    assert FulfillmentsOf(order.fields) == [];
    assert Groups(base, []) == [];
    assert ExpectedRows(order, shopName) == [NullRow(base, OrderContext)];
    ExpandOrderCorrect(order, shopName);
  }

  /** An order with two line items (ids 10 and 11) and one fulfillment
      (id 20) with three line items. */
  function SampleOrder(id: Json): Json {
    JObj([
      ("line_items", JArr([JObj([("id", JNum(10.0))]), JObj([("id", JNum(11.0))])])),
      ("fulfillments", JArr([SampleFulfillment])),
      ("id", id)])
  }

  const SampleFulfillment: Json :=
    JObj([("line_items", JArr([JObj([]), JObj([]), JObj([])])), ("id", JNum(20.0))])

  /** What the source's `.get` calls see in the sample order. */
  lemma SampleOrderParts(id: Json)
    ensures LineItems(SampleOrder(id).fields) == JArr([JObj([("id", JNum(10.0))]), JObj([("id", JNum(11.0))])])
    ensures FulfillmentsOf(SampleOrder(id).fields) == [SampleFulfillment]
    ensures LineItems(SampleFulfillment.fields) == JArr([JObj([]), JObj([]), JObj([])])
    ensures ContextOf(SampleFulfillment).id == JNum(20.0)
    ensures Expandable(SampleOrder(id))
  {
    var order := SampleOrder(id);
    assert order.fields[1..] == [("fulfillments", JArr([SampleFulfillment])), ("id", id)];
    assert Get(order.fields[1..], "fulfillments", JArr([])) == JArr([SampleFulfillment]);
    assert FulfillmentsValue(order.fields) == JArr([SampleFulfillment]);
    assert SampleFulfillment.fields[1..] == [("id", JNum(20.0))];
  }

  /** The sample order gives 2 + 3 rows (whatever the order's id). */
  lemma TwoItemsOneFulfillmentFiveRows(id: Json, shopName: string)
    ensures ExpandOrder(SampleOrder(id), shopName).Ok? && |ExpandOrder(SampleOrder(id), shopName).value| == 5
  {
    var order := SampleOrder(id);
    SampleOrderParts(id);
    var fs := FulfillmentsOf(order.fields);
    assert fs[..0] == [];
    assert FulfillmentRowCount(fs) == 3;
    ExpandOrderCorrect(order, shopName);
    RowCount(order, shopName);
  }

  /** Row r has the column `key`, holding v. */
  predicate Holds(r: Row, key: string, v: Json) {
    key in r && r[key] == v
  }

  /** The sample order's rows come in order: first the order's two rows with
      their item ids, then the fulfillment's three rows carrying its id. */
  lemma SampleRowsInOrder(id: Json, shopName: string)
    ensures
      var r := ExpandOrder(SampleOrder(id), shopName);
      && r.Ok? && |r.value| == 5
      && Holds(r.value[0], "item_type", JStr("order")) && Holds(r.value[0], "item_id", JNum(10.0))
      && Holds(r.value[1], "item_type", JStr("order")) && Holds(r.value[1], "item_id", JNum(11.0))
      && forall i :: 2 <= i < 5 ==>
           Holds(r.value[i], "item_type", JStr("fulfillment")) && Holds(r.value[i], "fulfillment_id", JNum(20.0))
  {
    TwoItemsOneFulfillmentFiveRows(id, shopName);
    ExpandOrderCorrect(SampleOrder(id), shopName);
    SampleOwnRow(id, shopName, 0, JNum(10.0));
    SampleOwnRow(id, shopName, 1, JNum(11.0));
    forall i | 2 <= i < 5
      ensures Holds(ExpectedRows(SampleOrder(id), shopName)[i], "item_type", JStr("fulfillment"))
      ensures Holds(ExpectedRows(SampleOrder(id), shopName)[i], "fulfillment_id", JNum(20.0))
    {
      SampleFulfillmentRow(id, shopName, i - 2);
    }
  }

  /** Row i of the sample order's own item list carries item i's id. */
  lemma SampleOwnRow(id: Json, shopName: string, i: nat, itemId: Json)
    requires i < 2 && itemId == [JNum(10.0), JNum(11.0)][i]
    ensures i < |ExpectedRows(SampleOrder(id), shopName)|
    ensures Holds(ExpectedRows(SampleOrder(id), shopName)[i], "item_type", JStr("order"))
    ensures Holds(ExpectedRows(SampleOrder(id), shopName)[i], "item_id", itemId)
  {
    var order := SampleOrder(id);
    SampleOrderParts(id);
    var items := [JObj([("id", JNum(10.0))]), JObj([("id", JNum(11.0))])];
    assert ListOf(LineItems(FieldsOf(order))) == items;
    assert Get(FieldsOf(items[i]), "id", JNull) == itemId;
    OrderRowAt(order, shopName, i);
    GroupRows(BaseRow(FieldsOf(order), shopName), OrderContext, items, i);
  }

  /** Row j of the sample fulfillment sits at 2 + j and carries its id. */
  lemma SampleFulfillmentRow(id: Json, shopName: string, j: nat)
    requires j < 3
    ensures 2 + j < |ExpectedRows(SampleOrder(id), shopName)|
    ensures Holds(ExpectedRows(SampleOrder(id), shopName)[2 + j], "item_type", JStr("fulfillment"))
    ensures Holds(ExpectedRows(SampleOrder(id), shopName)[2 + j], "fulfillment_id", JNum(20.0))
  {
    var order := SampleOrder(id);
    SampleOrderParts(id);
    var fs := FulfillmentsOf(FieldsOf(order));
    assert fs[..0] == [];
    var items := [JObj([]), JObj([]), JObj([])];
    assert ListOf(LineItems(FieldsOf(fs[0]))) == items;
    assert Max1(|ListOf(LineItems(FieldsOf(order)))|) == 2;
    FulfillmentRowAt(order, shopName, 0, j);
    GroupShaped(BaseRow(FieldsOf(order), shopName), ContextOf(SampleFulfillment), items, j);
  }

  // ---------------------------------------------------------------------
  // The loops themselves.

  /** Appending the rows a block emits to the rows so far, or passing its
      exception on. */
  function Extend(done: seq<Row>, block: Result<seq<Row>>): Result<seq<Row>> {
    if block.Ok? then Ok(done + block.value) else Err(block.error)
  }

  /** Once the run over a prefix succeeded, a raising step ends the whole run
      with its exception. */
  lemma CollectFailsAt<A, B>(f: A -> Result<seq<B>>, xs: seq<A>, k: nat)
    requires k < |xs| && Collect(f, xs[..k]).Ok? && f(xs[k]).Err?
    ensures Collect(f, xs) == Err(f(xs[k]).error)
  {
    CollectStep(f, xs, k);
    CollectErrSticks(f, xs, k + 1);
  }

  /** The block `if not items: append(<stand-in row>) else: for item in
      items: append(<row>)`, appending to `processed`. */
  method AppendItemRows(processed: seq<Row>, base: Row, ctx: Context, items: Json)
    returns (r: Result<seq<Row>>)
    ensures r == Extend(processed, ItemListRows(base, ctx, items))
  {
    if Falsy(items) {
      return Ok(processed + [DetailRowOf(base, ctx, JNull, JNull, JNull, JNull)]);
    }
    var elements := Elements(items);
    if elements.Err? {
      return Err(elements.error);
    }
    r := AppendEachItem(processed, base, ctx, elements.value);
  }

  /** `for item in items: processed_orders.append({**order_data, ...})`. */
  method AppendEachItem(processed: seq<Row>, base: Row, ctx: Context, es: seq<Json>)
    returns (r: Result<seq<Row>>)
    ensures r == Extend(processed, Collect(ItemStep(base, ctx), es))
  {
    var out := processed;
    ghost var rows: seq<Row> := [];
    var i := 0;
    while i < |es|
      invariant i <= |es|
      invariant Collect(ItemStep(base, ctx), es[..i]) == Ok(rows)
      invariant out == processed + rows
    {
      var item := es[i];
      if !item.JObj? {
        CollectFailsAt(ItemStep(base, ctx), es, i);
        return Err(AttributeError);
      }
      var row := DetailRowOf(base, ctx, Get(item.fields, "id", JNull), Get(item.fields, "title", JNull),
                             Get(item.fields, "quantity", JNull), Get(item.fields, "price", JNull));
      CollectStep(ItemStep(base, ctx), es, i);
      out := out + [row];
      rows := rows + [row];
      i := i + 1;
    }
    assert es[..i] == es;
    return Ok(out);
  }

  /** One pass of the outer loop: the rows of one order appended to
      `processed`, or the exception raised on it. */
  method AppendOrderRows(processed: seq<Row>, order: Json, shopName: string)
    returns (r: Result<seq<Row>>)
    ensures r == Extend(processed, ExpandOrder(order, shopName))
  {
    if !order.JObj? {
      return Err(AttributeError);
    }
    var orderData := FlattenData(JObj(WithoutSubLists(order.fields)), shopName);
    r := AppendOrderBody(processed, orderData, order.fields);
  }

  /** The rest of the loop body, once `order_data` is known. */
  method AppendOrderBody(processed: seq<Row>, orderData: Row, fields: seq<(string, Json)>)
    returns (r: Result<seq<Row>>)
    ensures r == Extend(processed, OrderRows(orderData, fields))
  {
    var lineItems := Get(fields, "line_items", JArr([]));
    var afterItems := AppendItemRows(processed, orderData, OrderContext, lineItems);
    if afterItems.Err? {
      return afterItems;
    }
    var fulfillments := Elements(Get(fields, "fulfillments", JArr([])));
    if fulfillments.Err? {
      return Err(fulfillments.error);
    }
    r := AppendEachFulfillment(afterItems.value, orderData, fulfillments.value);
    ghost var orderRows := ItemListRows(orderData, OrderContext, lineItems).value;
    assert afterItems.value == processed + orderRows;
    if r.Ok? {
      ghost var fulfillmentRows := Collect(FulfillmentStep(orderData), fulfillments.value).value;
      assert r.value == processed + (orderRows + fulfillmentRows);
    }
  }

  /** `for fulfillment in fulfillments: ...`. */
  method AppendEachFulfillment(processed: seq<Row>, orderData: Row, fs: seq<Json>)
    returns (r: Result<seq<Row>>)
    ensures r == Extend(processed, Collect(FulfillmentStep(orderData), fs))
  {
    var out := processed;
    ghost var rows: seq<Row> := [];
    var k := 0;
    while k < |fs|
      invariant k <= |fs|
      invariant Collect(FulfillmentStep(orderData), fs[..k]) == Ok(rows)
      invariant out == processed + rows
    {
      var next := AppendFulfillmentRows(out, orderData, fs[k]);
      if next.Err? {
        CollectFailsAt(FulfillmentStep(orderData), fs, k);
        return next;
      }
      CollectStep(FulfillmentStep(orderData), fs, k);
      rows := rows + FulfillmentStep(orderData)(fs[k]).value;
      out := next.value;
      k := k + 1;
    }
    assert fs[..k] == fs;
    return Ok(out);
  }

  /** The body of the fulfillment loop: the fulfillment's `id`, `status`
      and `line_items`, then the item block with that context. */
  method AppendFulfillmentRows(processed: seq<Row>, orderData: Row, fulfillment: Json)
    returns (r: Result<seq<Row>>)
    ensures r == Extend(processed, FulfillmentStep(orderData)(fulfillment))
  {
    if !fulfillment.JObj? {
      return Err(AttributeError);
    }
    var fulfillmentId := Get(fulfillment.fields, "id", JNull);
    var fulfillmentStatus := Get(fulfillment.fields, "status", JNull);
    var fulfillmentItems := Get(fulfillment.fields, "line_items", JArr([]));
    r := AppendItemRows(processed, orderData, FulfillmentContext(fulfillmentId, fulfillmentStatus), fulfillmentItems);
  }

  /** `process_order_data(orders, shop_name)`: the outer loop over the
      orders, appending each order's rows, stopping at the first exception. */
  method ProcessOrderData(orders: seq<Json>, shopName: string) returns (r: Result<seq<Row>>)
    ensures r == ExpandOrders(orders, shopName)
  {
    var processed: seq<Row> := [];
    var n := 0;
    while n < |orders|
      invariant n <= |orders|
      invariant Collect(OrderStep(shopName), orders[..n]) == Ok(processed)
    {
      var next := AppendOrderRows(processed, orders[n], shopName);
      assert OrderStep(shopName)(orders[n]) == ExpandOrder(orders[n], shopName);
      if next.Err? {
        CollectFailsAt(OrderStep(shopName), orders, n);
        return next;
      }
      CollectStep(OrderStep(shopName), orders, n);
      processed := next.value;
      n := n + 1;
    }
    assert orders[..n] == orders;
    return Ok(processed);
  }
}
