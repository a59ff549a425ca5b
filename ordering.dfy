/** The stock bookkeeping of order placement: what the cart lines do to the
    vinyls table, and how much of each record the cart takes. */
module Ordering {
  import opened Models

  /** One entry of the cart's `items` list, taken as given: nothing is
      re-priced from the catalog and nothing bounds the quantity. */
  datatype CartLine = CartLine(vinylId: int, quantity: int, price: Money)

  /** The order items placement writes for `lines`, numbered from `firstId`:
      each carries the new order's id and copies the line's vinyl id, quantity
      and price unchanged, whether or not that vinyl exists. */
  function LineItems(orderId: nat, firstId: nat, lines: seq<CartLine>): (r: seq<OrderItem>)
    ensures |r| == |lines|
    decreases |lines|
  {
    if |lines| == 0 then []
    else
      var last := lines[|lines| - 1];
      LineItems(orderId, firstId, lines[..|lines| - 1])
        + [OrderItem(firstId + |lines| - 1, orderId, last.vinylId, last.quantity, last.price)]
  }

  /** Item `j` carries the order's id and the id `firstId + j`, and copies the
      vinyl id, quantity and price of line `j` unchanged. */
  lemma {:induction false} LineItemCopiesLine(orderId: nat, firstId: nat, lines: seq<CartLine>, j: nat)
    requires j < |lines|
    ensures LineItems(orderId, firstId, lines)[j]
         == OrderItem(firstId + j, orderId, lines[j].vinylId, lines[j].quantity, lines[j].price)
    decreases |lines|
  {
    if j < |lines| - 1 {
      LineItemCopiesLine(orderId, firstId, lines[..|lines| - 1], j);
    }
  }

  /** Writing one more line appends one more item. */
  lemma LineItemsOneMore(orderId: nat, firstId: nat, lines: seq<CartLine>, line: CartLine)
    ensures LineItems(orderId, firstId, lines + [line])
         == LineItems(orderId, firstId, lines) + [OrderItem(firstId + |lines|, orderId, line.vinylId, line.quantity, line.price)]
  {
    assert (lines + [line])[..|lines|] == lines;
  }

  /** Items appended for an order that exists keep the item table numbered and
      every item pointing at an existing order. */
  lemma LineItemsKeepItemTableConsistent(items: seq<OrderItem>, orderId: nat, lines: seq<CartLine>, orderCount: nat)
    requires ItemsNumbered(items) && ItemsReferenceOrders(items, orderCount)
    requires 1 <= orderId <= orderCount
    ensures ItemsNumbered(items + LineItems(orderId, |items| + 1, lines))
    ensures ItemsReferenceOrders(items + LineItems(orderId, |items| + 1, lines), orderCount)
  {
    var all := items + LineItems(orderId, |items| + 1, lines);
    forall i | |items| <= i < |all|
      ensures all[i].id == i + 1 && 1 <= all[i].orderId <= orderCount
    {
      LineItemCopiesLine(orderId, |items| + 1, lines, i - |items|);
    }
  }

  /** The stock update of one cart line: the vinyl it names, if there is one,
      loses `quantity` units, with no lower bound. */
  function TakeStock(vinyls: seq<Vinyl>, line: CartLine): (r: seq<Vinyl>)
    ensures |r| == |vinyls|
    ensures FindVinyl(vinyls, line.vinylId).None? ==> r == vinyls
  {
    match FindVinyl(vinyls, line.vinylId)
    case None => vinyls
    case Some(k) => vinyls[k := vinyls[k].(stock := vinyls[k].stock - line.quantity)]
  }

  /** One line takes its quantity from the stock of the vinyl it names, if
      any, and leaves every other row, and every other field, as it was. */
  lemma TakeStockDecrements(vinyls: seq<Vinyl>, line: CartLine)
    requires UniqueVinylIds(vinyls)
    ensures forall k | 0 <= k < |vinyls| ::
      TakeStock(vinyls, line)[k]
        == vinyls[k].(stock := vinyls[k].stock - (if vinyls[k].id == line.vinylId then line.quantity else 0))
  {
    match FindVinyl(vinyls, line.vinylId)
    case None =>
    case Some(m) =>
      forall k | 0 <= k < |vinyls| && k != m
        ensures vinyls[k].id != line.vinylId
      {
        assert vinyls[k].id != vinyls[m].id;
      }
  }

  /** The vinyls table after the cart lines have been applied in input order. */
  function StockAfter(vinyls: seq<Vinyl>, lines: seq<CartLine>): (r: seq<Vinyl>)
    ensures |r| == |vinyls|
    decreases |lines|
  {
    if |lines| == 0 then vinyls
    else TakeStock(StockAfter(vinyls, lines[..|lines| - 1]), lines[|lines| - 1])
  }

  /** Applying one more line is one more stock update. */
  lemma StockAfterOneMore(vinyls: seq<Vinyl>, lines: seq<CartLine>, line: CartLine)
    ensures StockAfter(vinyls, lines + [line]) == TakeStock(StockAfter(vinyls, lines), line)
  {
    assert (lines + [line])[..|lines|] == lines;
  }

  /** The total quantity the cart lines naming `id` ask for, repeated lines included. */
  function QuantityOrdered(lines: seq<CartLine>, id: int): int
    decreases |lines|
  {
    if |lines| == 0 then 0
    else
      var last := lines[|lines| - 1];
      QuantityOrdered(lines[..|lines| - 1], id) + (if last.vinylId == id then last.quantity else 0)
  }

  /** Every vinyl's stock drops by exactly the quantity the cart orders of it;
      nothing else in the table changes and nothing stops the stock going negative. */
  lemma {:induction false} StockDropsByQuantityOrdered(vinyls: seq<Vinyl>, lines: seq<CartLine>)
    requires UniqueVinylIds(vinyls)
    ensures |StockAfter(vinyls, lines)| == |vinyls|
    ensures forall k | 0 <= k < |vinyls| ::
      StockAfter(vinyls, lines)[k] == vinyls[k].(stock := vinyls[k].stock - QuantityOrdered(lines, vinyls[k].id))
    decreases |lines|
  {
    if |lines| > 0 {
      var init, last := lines[..|lines| - 1], lines[|lines| - 1];
      StockDropsByQuantityOrdered(vinyls, init);
      var before := StockAfter(vinyls, init);
      assert forall k | 0 <= k < |vinyls| :: before[k].id == vinyls[k].id;
      forall k | 0 <= k < |vinyls|
        ensures StockAfter(vinyls, lines)[k]
             == vinyls[k].(stock := vinyls[k].stock - QuantityOrdered(lines, vinyls[k].id))
      {
        match FindVinyl(before, last.vinylId)
        case None =>
        case Some(m) =>
          if k != m {
            assert vinyls[k].id != vinyls[m].id;
          }
      }
    }
  }

  /** Placement never renumbers the vinyls table. */
  lemma StockAfterKeepsNumbering(vinyls: seq<Vinyl>, lines: seq<CartLine>)
    requires VinylsNumbered(vinyls)
    ensures VinylsNumbered(StockAfter(vinyls, lines))
  {
    StockDropsByQuantityOrdered(vinyls, lines);
  }

  /** A line naming no vinyl contributes nothing to any vinyl's ordered quantity. */
  lemma {:induction false} UnnamedIdOrdersNothing(lines: seq<CartLine>, id: int)
    requires forall i | 0 <= i < |lines| :: lines[i].vinylId != id
    ensures QuantityOrdered(lines, id) == 0
    decreases |lines|
  {
    if |lines| > 0 {
      UnnamedIdOrdersNothing(lines[..|lines| - 1], id);
    }
  }

  /** A vinyl that no cart line names keeps its row unchanged. */
  lemma UnnamedVinylUnchanged(vinyls: seq<Vinyl>, lines: seq<CartLine>, k: nat)
    requires UniqueVinylIds(vinyls)
    requires k < |vinyls|
    requires forall i | 0 <= i < |lines| :: lines[i].vinylId != vinyls[k].id
    ensures StockAfter(vinyls, lines)[k] == vinyls[k]
  {
    StockDropsByQuantityOrdered(vinyls, lines);
    UnnamedIdOrdersNothing(lines, vinyls[k].id);
  }

  /** Cart lines whose ids match no vinyl change no stock at all. */
  lemma {:induction false} UnknownIdsTakeNoStock(vinyls: seq<Vinyl>, lines: seq<CartLine>)
    requires forall i | 0 <= i < |lines| :: FindVinyl(vinyls, lines[i].vinylId).None?
    ensures StockAfter(vinyls, lines) == vinyls
    decreases |lines|
  {
    if |lines| > 0 {
      UnknownIdsTakeNoStock(vinyls, lines[..|lines| - 1]);
    }
  }

  /** One iteration of order placement: an order item copying the line is
      appended, then the vinyl the line names, if any, loses the line's quantity. */
  method WriteLine(vinyls: seq<Vinyl>, items: seq<OrderItem>, orderId: nat, line: CartLine)
    returns (vinyls': seq<Vinyl>, items': seq<OrderItem>)
    ensures items' == items + [OrderItem(|items| + 1, orderId, line.vinylId, line.quantity, line.price)]
    ensures vinyls' == TakeStock(vinyls, line)
  {
    items' := items + [OrderItem(|items| + 1, orderId, line.vinylId, line.quantity, line.price)];
    vinyls' := vinyls;
    var found := FindVinyl(vinyls, line.vinylId);
    if found.Some? {
      var k := found.value;
      vinyls' := vinyls'[k := vinyls'[k].(stock := vinyls'[k].stock - line.quantity)];
    }
  }

  /** The loop of order placement over the cart, in input order. Returns the
      new vinyls and items tables. */
  method WriteCart(vinyls: seq<Vinyl>, items: seq<OrderItem>, orderId: nat, lines: seq<CartLine>)
    returns (vinyls': seq<Vinyl>, items': seq<OrderItem>)
    ensures items' == items + LineItems(orderId, |items| + 1, lines)
    ensures vinyls' == StockAfter(vinyls, lines)
  {
    vinyls', items' := vinyls, items;
    var i := 0;
    while i < |lines|
      invariant 0 <= i <= |lines|
      invariant items' == items + LineItems(orderId, |items| + 1, lines[..i])
      invariant vinyls' == StockAfter(vinyls, lines[..i])
    {
      ghost var written := LineItems(orderId, |items| + 1, lines[..i]);
      vinyls', items' := WriteLine(vinyls', items', orderId, lines[i]);
      assert lines[..i + 1] == lines[..i] + [lines[i]];
      LineItemsOneMore(orderId, |items| + 1, lines[..i], lines[i]);
      StockAfterOneMore(vinyls, lines[..i], lines[i]);
      assert items' == items + (written + [LineItems(orderId, |items| + 1, lines[..i + 1])[i]]);
      i := i + 1;
    }
    assert lines[..|lines|] == lines;
  }
}
