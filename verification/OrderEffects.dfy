/**
 What each order command stores and answers, field by field, told from the command and the rows before it: when it is
 carried out, which rows it writes, and what it refuses.
 */
module OrderEffects {
  import opened Common
  import opened GoInts
  import opened OrderAggregate
  import opened OrderTables
  import opened OrderCommands
  import opened OrderDrift

  /** A line that can be ordered. */
  predicate IsOrderable(productId: int, quantity: int, unitPrice: int) {
    productId > 0 && quantity > 0 && unitPrice > 0
  }

  predicate IsItem(item: Item, id: int, orderId: int, productId: int, quantity: int, unitPrice: int) {
    && item.id == id && item.orderId == orderId
    && item.productId == productId && item.quantity == quantity && item.unitPrice == unitPrice
    && item.subtotal == Wrap64(quantity * unitPrice)
  }

  predicate IsRow(row: ItemRow, orderId: int, productId: int, quantity: int, unitPrice: int) {
    && row.orderId == orderId
    && row.productId == productId && row.quantity == quantity && row.unitPrice == unitPrice
    && row.subtotal == Wrap64(quantity * unitPrice)
  }

  // ---- Creating an order

  /** Items are inserted exactly when there are identifiers and statements for all, and every quantity fits its column. */
  lemma {:induction false} InsertedIff(s: Session, orderId: int, items: seq<Item>)
    ensures InsertedItems(s, orderId, items).result.Some? <==>
            items == [] ||
            (&& |items| <= s.remaining && s.tables.nextItem + |items| <= 0x8000_0000_0000_0000
             && (forall i :: 0 <= i < |items| ==> 0 < items[i].quantity < 0x8000_0000)
             && orderId in s.tables.orders)
    decreases items
  {
    if items != [] {
      InsertedIff(InsertedItem(s, RowOf(orderId, items[0])).session, orderId, items[1..]);
      assert forall i :: 0 < i < |items| ==> items[i] == items[1..][i - 1];
    }
  }

  /** They take consecutive identifiers, the fields of each in its row. */
  lemma {:induction false} InsertedAre(s: Session, orderId: int, items: seq<Item>)
    requires InsertedItems(s, orderId, items).result.Some?
    ensures var r := InsertedItems(s, orderId, items);
            var t, after, made := s.tables, r.session.tables, r.result.value;
            && |made| == |items| && after.orders == t.orders && after.nextOrder == t.nextOrder
            && after.nextItem == t.nextItem + |items|
            && (forall i :: 0 <= i < |items| ==>
                  && made[i] == items[i].(id := t.nextItem + i, orderId := orderId)
                  && t.nextItem + i in after.items
                  && after.items[t.nextItem + i] == ItemRow(orderId, items[i].productId, items[i].quantity,
                                                            items[i].unitPrice, items[i].subtotal))
            && (forall id :: id in after.items <==> id in t.items || t.nextItem <= id < t.nextItem + |items|)
            && (forall id :: id in t.items && id < t.nextItem ==> after.items[id] == t.items[id])
    decreases items
  {
    if items != [] {
      var first := InsertedItem(s, RowOf(orderId, items[0]));
      InsertedAre(first.session, orderId, items[1..]);
      var rest := InsertedItems(first.session, orderId, items[1..]);
      var made := [first.result.value] + rest.result.value;
      forall i | 0 < i < |items|
        ensures made[i] == rest.result.value[i - 1] && items[i] == items[1..][i - 1]
      {
      }
    }
  }

  /** Items added one by one keep their fields and are charged quantity times price. */
  lemma {:induction false} AddedAre(o: OrderValue, items: seq<Item>)
    ensures AddedAll(o, items).Ok? <==>
            forall i :: 0 <= i < |items| ==> IsOrderable(items[i].productId, items[i].quantity, items[i].unitPrice)
    ensures AddedAll(o, items).Ok? ==>
              var r := AddedAll(o, items).value;
              && r.id == o.id && r.customerId == o.customerId && r.status == o.status
              && |r.items| == |o.items| + |items|
              && (forall i :: 0 <= i < |o.items| ==> r.items[i] == o.items[i])
              && (forall k :: |o.items| <= k < |r.items| ==> r.items[k] == PricedItem(items[k - |o.items|]))
    decreases items
  {
    if items != [] {
      var next := Added(o, items[0]);
      assert forall i :: 0 < i < |items| ==> items[i] == items[1..][i - 1];
      if next.Ok? {
        AddedAre(next.value, items[1..]);
        hide Wrap64;
        if AddedAll(o, items).Ok? {
          var r := AddedAll(o, items).value;
          var n := |o.items|;
          assert r.items[n] == next.value.items[n] == PricedItem(items[0]);
          forall k | n < k < |r.items|
            ensures r.items[k] == PricedItem(items[k - n])
          {
            assert items[1..][k - (n + 1)] == items[k - n];
          }
        }
      }
    }
  }

  /** The item, charged quantity times price. */
  function PricedItem(item: Item): Item {
    Item(item.id, item.orderId, item.productId, item.quantity, item.unitPrice, Wrap64(item.quantity * item.unitPrice))
  }

  /** The order placed holds an item for every line. */
  lemma {:induction false} PlacedAre(customerId: int, lines: seq<Line>)
    ensures Placed(customerId, NewItems(lines)).Ok? <==>
            && customerId > 0 && lines != []
            && forall i :: 0 <= i < |lines| ==> IsOrderable(lines[i].productId, lines[i].quantity, lines[i].unitPrice)
    ensures Placed(customerId, NewItems(lines)).Ok? ==>
              var o := Placed(customerId, NewItems(lines)).value;
              && o.customerId == customerId && o.status == "pending" && |o.items| == |lines|
              && (forall i :: 0 <= i < |lines| ==>
                    o.items[i] == Item(0, 0, lines[i].productId, lines[i].quantity, lines[i].unitPrice,
                                       Wrap64(lines[i].quantity * lines[i].unitPrice)))
  {
    hide Wrap64, AddedAll;
    var items, start := NewItems(lines), OrderValue(0, customerId, "pending", 0, []);
    AddedAre(start, items);
    forall i | 0 <= i < |lines|
      ensures IsOrderable(items[i].productId, items[i].quantity, items[i].unitPrice) <==>
              IsOrderable(lines[i].productId, lines[i].quantity, lines[i].unitPrice)
    {
    }
    assert items == [] <==> lines == [];
    if Placed(customerId, items).Ok? {
      var o := Placed(customerId, items).value;
      assert forall i :: 0 <= i < |lines| ==> o.items[i] == PricedItem(items[i - 0]);
    }
  }

  /** An order is created exactly when its customer and lines are valid and the database takes it. */
  lemma {:induction false} CreateStoredIff(t: Tables, customerId: int, lines: seq<Line>, conditions: Conditions)
    ensures Handled(t, CreateOrder(customerId, lines), conditions).0.Stored? <==>
            && customerId > 0 && lines != []
            && (forall i :: 0 <= i < |lines| ==>
                  IsOrderable(lines[i].productId, lines[i].quantity, lines[i].unitPrice) && lines[i].quantity < 0x8000_0000)
            && conditions.begins && conditions.commits && conditions.statements > |lines|
            && t.nextOrder < 0x8000_0000_0000_0000 && t.nextItem + |lines| <= 0x8000_0000_0000_0000
  {
    hide Wrap64, InsertedItems, Placed, StatusColumn;
    var items := NewItems(lines);
    PlacedAre(customerId, lines);
    PendingFits();
    if Placed(customerId, items).Ok? {
      var order := Placed(customerId, items).value;
      var inserted := InsertedOrder(Session(t, conditions.statements), OrderRow(customerId, "pending", order.total));
      InsertedIff(inserted.session, t.nextOrder, order.items);
      assert order.items != [] && forall i :: 0 <= i < |lines| ==> order.items[i].quantity == lines[i].quantity;
      assert Handled(t, CreateOrder(customerId, lines), conditions) == InTx(t, Insert(order), conditions);
      assert conditions.begins && conditions.commits ==>
          (InTx(t, Insert(order), conditions).0.Stored? <==>
             Created(Session(t, conditions.statements), order).result.Some?);
    }
  }

  lemma {:induction false} PendingFits()
    ensures StatusColumn("pending") == Some("pending")
  {
  }

  /** A created order has the customer asked for and one item per line, in order, answered and stored alike. */
  lemma {:induction false} CreateStores(t: Tables, customerId: int, lines: seq<Line>, conditions: Conditions)
    requires Sound(t) && Handled(t, CreateOrder(customerId, lines), conditions).0.Stored?
    ensures var (answer, after) := Handled(t, CreateOrder(customerId, lines), conditions);
            var o, id := answer.order, t.nextOrder;
            && o.id == id && o.customerId == customerId && o.status == "pending" && |o.items| == |lines|
            && id !in t.orders && after.orders == t.orders[id := OrderRow(customerId, "pending", o.total)]
            && (forall i :: 0 <= i < |lines| ==>
                  IsItem(o.items[i], t.nextItem + i, id, lines[i].productId, lines[i].quantity, lines[i].unitPrice))
            && (forall i :: 0 <= i < |lines| ==>
                  && t.nextItem + i in after.items
                  && IsRow(after.items[t.nextItem + i], id, lines[i].productId, lines[i].quantity, lines[i].unitPrice))
            && (forall item :: item in after.items <==> item in t.items || t.nextItem <= item < t.nextItem + |lines|)
            && (forall item :: item in t.items ==> after.items[item] == t.items[item])
  {
    hide Wrap64, InsertedItems, Placed, RowIsSound, StatusColumn;
    var items := NewItems(lines);
    PlacedAre(customerId, lines);
    PendingFits();
    var order := Placed(customerId, items).value;
    var inserted := InsertedOrder(Session(t, conditions.statements), OrderRow(customerId, "pending", order.total));
    InsertedAre(inserted.session, t.nextOrder, order.items);
  }

  /** What a new order is refused for, before the database is asked: the customer, no lines, or the first line at fault. */
  lemma {:induction false} CreateRefused(t: Tables, customerId: int, lines: seq<Line>, conditions: Conditions)
    ensures var answer := Handled(t, CreateOrder(customerId, lines), conditions).0;
            && (answer == Failed(InvalidCustomerId) <==> customerId <= 0)
            && (answer == Failed(OrderEmpty) <==> customerId > 0 && lines == [])
    ensures forall i :: && customerId > 0 && 0 <= i < |lines|
                        && (forall k :: 0 <= k < i ==>
                              IsOrderable(lines[k].productId, lines[k].quantity, lines[k].unitPrice))
                        && !IsOrderable(lines[i].productId, lines[i].quantity, lines[i].unitPrice) ==>
              Handled(t, CreateOrder(customerId, lines), conditions).0 ==
              Failed(if lines[i].productId <= 0 then InvalidProductId
                     else if lines[i].quantity <= 0 then InvalidQuantity else InvalidPrice)
  {
    hide Wrap64, Created, Added, AddedAll;
    var items := NewItems(lines);
    var start := OrderValue(0, customerId, "pending", 0, []);
    forall i | && 0 <= i < |lines|
               && (forall k :: 0 <= k < i ==> IsOrderable(lines[k].productId, lines[k].quantity, lines[k].unitPrice))
               && !IsOrderable(lines[i].productId, lines[i].quantity, lines[i].unitPrice)
      ensures AddedAll(start, items) ==
              Err(if lines[i].productId <= 0 then InvalidProductId
                  else if lines[i].quantity <= 0 then InvalidQuantity else InvalidPrice)
    {
      FirstFault(start, items, i);
    }
    FaultsAreOfLines(start, items);
  }

  lemma {:induction false} FirstFault(o: OrderValue, items: seq<Item>, i: nat)
    requires i < |items| && !IsOrderable(items[i].productId, items[i].quantity, items[i].unitPrice)
    requires forall k :: 0 <= k < i ==> IsOrderable(items[k].productId, items[k].quantity, items[k].unitPrice)
    ensures AddedAll(o, items) ==
            Err(if items[i].productId <= 0 then InvalidProductId
                else if items[i].quantity <= 0 then InvalidQuantity else InvalidPrice)
    decreases i
  {
    hide Wrap64;
    if i > 0 {
      assert forall k :: 0 < k < |items| ==> items[k] == items[1..][k - 1];
      FirstFault(Added(o, items[0]).value, items[1..], i - 1);
    }
  }

  lemma {:induction false} FaultsAreOfLines(o: OrderValue, items: seq<Item>)
    ensures AddedAll(o, items).Err? ==> AddedAll(o, items).error in {InvalidProductId, InvalidQuantity, InvalidPrice}
    decreases items
  {
    hide Wrap64;
    if items != [] && Added(o, items[0]).Ok? {
      FaultsAreOfLines(Added(o, items[0]).value, items[1..]);
    }
  }

  // ---- Reading an order

  /** An order read has the fields of its row, and exactly its item rows with their fields. */
  lemma {:induction false} ReadIs(t: Tables, id: int, item: Item)
    requires Sound(t) && id in t.orders
    ensures var o := OrderAt(t, id);
            && o.id == id && o.customerId == t.orders[id].customerId
            && o.status == t.orders[id].status && o.total == t.orders[id].total
            && (item in o.items <==>
                  && item.id in t.items && t.items[item.id].orderId == id && item.orderId == id
                  && item.productId == t.items[item.id].productId && item.quantity == t.items[item.id].quantity
                  && item.unitPrice == t.items[item.id].unitPrice && item.subtotal == t.items[item.id].subtotal)
  {
    hide RowIsSound, StatusColumn;
    ItemsAreStored(t.items, id, t.nextItem, item);
  }

  /** One order is read exactly when it exists and two statements go through; all are, with one more than there are orders. */
  lemma {:induction false} ReadIff(s: Session, id: int)
    requires NextIsFresh(s.tables)
    ensures Loaded(s, id).result == if id in s.tables.orders && s.remaining >= 2 then Some(OrderAt(s.tables, id)) else None
    ensures Listed(s).result.Some? <==> s.remaining >= 1 + |s.tables.orders|
  {
    hide ItemsOf, OrdersUpTo;
    OrdersAreStored(s.tables.orders, s.tables.nextOrder);
    OrdersCount(s.tables);
    if s.remaining > 0 {
      LoadedAllIff(Spend(s), OrdersUpTo(s.tables.orders, s.tables.nextOrder));
    }
  }

  lemma {:induction false} OrdersCount(t: Tables)
    requires NextIsFresh(t)
    ensures |OrdersUpTo(t.orders, t.nextOrder)| == |t.orders|
  {
    hide OrdersUpTo;
    var ids := OrdersUpTo(t.orders, t.nextOrder);
    OrdersAreStored(t.orders, t.nextOrder);
    OrdersAscend(t.orders, t.nextOrder);
    NoRepeatsIffCounted(ids);
    forall id
      ensures id in Members(ids) <==> id in t.orders.Keys
    {
    }
    assert Members(ids) == t.orders.Keys;
  }

  lemma {:induction false} LoadedAllIff(s: Session, ids: seq<int>)
    requires forall id :: id in ids ==> id in s.tables.orders
    ensures LoadedAll(s, ids).result.Some? <==> s.remaining >= |ids|
    decreases ids
  {
    hide ItemsOf;
    if ids != [] && s.remaining > 0 {
      LoadedAllIff(SelectedItems(s, ids[0]).session, ids[1..]);
    }
  }

  // ---- Changing an order

  /** Nothing but one order's row and at most one item row differs. */
  ghost predicate OnlyWrites(t: Tables, after: Tables, orderId: int, itemId: Option<int>) {
    && after.orders.Keys == t.orders.Keys
    && (forall id :: id in t.orders && id != orderId ==> after.orders[id] == t.orders[id])
    && after.items.Keys == t.items.Keys + (if itemId.Some? then {itemId.value} else {})
    && (forall id :: id in t.items && Some(id) != itemId ==> after.items[id] == t.items[id])
  }

  /** An item added has the line's product, quantity and price, at the end of the order and in a row of its own. */
  lemma {:induction false} AddStores(t: Tables, orderId: int, line: Line, conditions: Conditions)
    requires Sound(t) && Handled(t, AddOrderItem(orderId, line), conditions).0.Stored?
    ensures orderId in t.orders && IsOrderable(line.productId, line.quantity, line.unitPrice) && t.nextItem !in t.items
    ensures var (answer, after) := Handled(t, AddOrderItem(orderId, line), conditions);
            var was, o := OrderAt(t, orderId), answer.order;
            && OnlyWrites(t, after, orderId, Some(t.nextItem))
            && IsRow(after.items[t.nextItem], orderId, line.productId, line.quantity, line.unitPrice)
            && |o.items| == |was.items| + 1 && o.items[..|was.items|] == was.items
            && IsItem(o.items[|was.items|], t.nextItem, orderId, line.productId, line.quantity, line.unitPrice)
            && o == was.(total := Wrap64(was.total + Wrap64(line.quantity * line.unitPrice)), items := o.items)
            && after.orders[orderId] == OrderRow(was.customerId, was.status, o.total)
  {
    hide Wrap64, InTx, ItemsOf, RowIsSound, StatusColumn;
    ChangeStoredIff(t, orderId, Add(NewItem(line)), conditions);
    StatusKept(t, orderId);
  }

  lemma {:induction false} StatusKept(t: Tables, orderId: int)
    requires Sound(t) && orderId in t.orders
    ensures StatusColumn(t.orders[orderId].status) == Some(t.orders[orderId].status)
  {
  }

  /** The item of that identifier in the order, by position. */
  lemma {:induction false} ItemIsAt(t: Tables, orderId: int, p: nat)
    requires Sound(t) && orderId in t.orders && p < |ItemsOf(t, orderId)|
    ensures Position(ItemsOf(t, orderId), ItemsOf(t, orderId)[p].id) == p
    ensures var item := ItemsOf(t, orderId)[p];
            && item.id in t.items
            && item == Item(item.id, orderId, t.items[item.id].productId, t.items[item.id].quantity,
                            t.items[item.id].unitPrice, t.items[item.id].subtotal)
            && t.items[item.id].orderId == orderId
  {
    hide ItemsUpTo, Position;
    var items := ItemsOf(t, orderId);
    ListedMatches(t, orderId);
    PositionIs(items, items[p].id, p);
  }

  /**
   An item updated has the quantity and the price asked for, each kept where none was asked for, and is charged anew;
   every other item and its own product stay as they were.
   */
  lemma {:induction false} UpdateStores(
    t: Tables, orderId: int, itemId: int, quantity: Option<int>, unitPrice: Option<int>, conditions: Conditions)
    requires Sound(t) && Handled(t, UpdateOrderItem(orderId, itemId, quantity, unitPrice), conditions).0.Stored?
    ensures orderId in t.orders && itemId in t.items && t.items[itemId].orderId == orderId
    ensures var (answer, after) := Handled(t, UpdateOrderItem(orderId, itemId, quantity, unitPrice), conditions);
            var was, o, row := OrderAt(t, orderId), answer.order, t.items[itemId];
            var q, p := if quantity.Some? then quantity.value else row.quantity,
                        if unitPrice.Some? then unitPrice.value else row.unitPrice;
            && (quantity.Some? ==> quantity.value > 0) && (unitPrice.Some? ==> unitPrice.value > 0)
            && OnlyWrites(t, after, orderId, Some(itemId))
            && IsRow(after.items[itemId], orderId, row.productId, q, p)
            && |o.items| == |was.items| && o.id == orderId && o.customerId == was.customerId && o.status == was.status
            && (forall i :: 0 <= i < |was.items| ==>
                  if was.items[i].id == itemId then IsItem(o.items[i], itemId, orderId, row.productId, q, p)
                  else o.items[i] == was.items[i])
            && after.orders[orderId] == OrderRow(was.customerId, was.status, o.total)
  {
    hide Wrap64, InTx, ItemsUpTo, StatusColumn, RowIsSound, Position;
    var call := Patch(itemId, quantity, unitPrice);
    ChangeStoredIff(t, orderId, call, conditions);
    StatusKept(t, orderId);
    var was := OrderAt(t, orderId);
    var at := Position(was.items, itemId);
    ItemIsAt(t, orderId, at);
    RowOfIsSound(t, itemId);
    forall i | 0 <= i < |was.items| && was.items[i].id == itemId
      ensures i == at
    {
      ItemIsAt(t, orderId, i);
    }
  }

  lemma {:induction false} RowOfIsSound(t: Tables, itemId: int)
    requires Sound(t) && itemId in t.items
    ensures t.items[itemId].subtotal == Wrap64(t.items[itemId].quantity * t.items[itemId].unitPrice)
  {
    hide Wrap64;
  }

  /** The status asked for is answered, and stored without the spaces beyond the column's 32 characters. */
  lemma {:induction false} StatusStores(t: Tables, orderId: int, status: string, conditions: Conditions)
    requires Sound(t) && Handled(t, UpdateOrderStatus(orderId, status), conditions).0.Stored?
    ensures orderId in t.orders && status != ""
    ensures var (answer, after) := Handled(t, UpdateOrderStatus(orderId, status), conditions);
            && answer.order == OrderAt(t, orderId).(status := status)
            && OnlyWrites(t, after, orderId, None)
            && after.orders[orderId].customerId == t.orders[orderId].customerId
            && after.orders[orderId].total == t.orders[orderId].total
            && KeptBy32(status, after.orders[orderId].status)
  {
    hide InTx, ItemsOf, Sound;
    ChangeStoredIff(t, orderId, SetStatus(status), conditions);
  }

  /** A text of at most 32 characters is kept, and only trailing spaces of a longer one are lost. */
  predicate KeptBy32(text: string, kept: string) {
    && |kept| <= 32 && kept <= text
    && (|text| <= 32 ==> kept == text)
    && (|text| > 32 ==> |kept| == 32 && forall i :: 32 <= i < |text| ==> text[i] == ' ')
  }

  /** A status is refused when empty, and when its first 32 characters are followed by anything but spaces. */
  lemma {:induction false} StatusStoredIff(t: Tables, orderId: int, status: string, conditions: Conditions)
    requires Sound(t)
    ensures Handled(t, UpdateOrderStatus(orderId, status), conditions).0.Stored? <==>
            && orderId in t.orders && status != "" && (forall i :: 32 <= i < |status| ==> status[i] == ' ')
            && conditions.begins && conditions.commits
            && conditions.statements >= 3 + |ItemsOf(t, orderId)|
    ensures status == "" ==> Handled(t, UpdateOrderStatus(orderId, status), conditions).0 == Failed(StatusRequired)
  {
    hide InTx, ItemsOf, Sound;
    if status != "" {
      ChangeStoredIff(t, orderId, SetStatus(status), conditions);
      if |status| > 32 {
        assert forall i :: 0 <= i < |status[32..]| ==> status[32..][i] == status[32 + i];
        assert forall i :: 32 <= i < |status| ==> status[i] == status[32..][i - 32];
      }
    }
  }

  /** A removed item is gone from the answer, with its subtotal, while its row stays. */
  lemma {:induction false} RemoveStores(t: Tables, orderId: int, itemId: int, conditions: Conditions)
    requires Sound(t) && Handled(t, RemoveOrderItem(orderId, itemId), conditions).0.Stored?
    ensures orderId in t.orders && itemId in t.items && t.items[itemId].orderId == orderId
    ensures var (answer, after) := Handled(t, RemoveOrderItem(orderId, itemId), conditions);
            var was, o := OrderAt(t, orderId), answer.order;
            && (forall item :: item in o.items <==> item in was.items && item.id != itemId)
            && |o.items| == |was.items| - 1
            && o == was.(total := Wrap64(was.total - t.items[itemId].subtotal), items := o.items)
            && OnlyWrites(t, after, orderId, None) && after.items == t.items
            && after.orders[orderId] == OrderRow(was.customerId, was.status, o.total)
  {
    hide Wrap64, InTx, ItemsUpTo, StatusColumn, RowIsSound, Position;
    ChangeStoredIff(t, orderId, Remove(itemId), conditions);
    StatusKept(t, orderId);
    var was := OrderAt(t, orderId);
    var at := Position(was.items, itemId);
    ItemIsAt(t, orderId, at);
    forall i | 0 <= i < |was.items| && i != at
      ensures was.items[i].id != itemId
    {
      ItemIsAt(t, orderId, i);
    }
    var rest := was.items[..at] + was.items[at + 1..];
    forall item
      ensures item in rest <==> item in was.items && item.id != itemId
    {
      if item in was.items && item.id != itemId {
        var i :| 0 <= i < |was.items| && was.items[i] == item;
        assert i < at ==> rest[i] == item;
        assert i > at ==> rest[i - 1] == item;
      }
    }
  }

  /** What a change is refused for: no such order, no such item in it, or a value out of range. */
  lemma {:induction false} ChangeRefused(t: Tables, orderId: int, cmd: Command, conditions: Conditions)
    requires Sound(t) && conditions.begins && conditions.statements >= 2
    requires cmd.AddOrderItem? || cmd.RemoveOrderItem? || cmd.UpdateOrderItem?
    requires cmd.orderId == orderId
    ensures var answer := Handled(t, cmd, conditions).0;
            && (answer == Failed(OrderNotFound(orderId)) <==> orderId !in t.orders)
            && (answer == Failed(ItemNotFound) <==>
                  && orderId in t.orders && !cmd.AddOrderItem?
                  && !(cmd.itemId in t.items && t.items[cmd.itemId].orderId == orderId))
            && (cmd.AddOrderItem? && orderId in t.orders ==>
                  && (answer == Failed(InvalidProductId) <==> cmd.line.productId <= 0)
                  && (answer == Failed(InvalidQuantity) <==> cmd.line.productId > 0 && cmd.line.quantity <= 0)
                  && (answer == Failed(InvalidPrice) <==>
                        cmd.line.productId > 0 && cmd.line.quantity > 0 && cmd.line.unitPrice <= 0))
            && (cmd.UpdateOrderItem? && orderId in t.orders && cmd.itemId in t.items && t.items[cmd.itemId].orderId == orderId ==>
                  && (answer == Failed(InvalidQuantity) <==> cmd.quantity.Some? && cmd.quantity.value <= 0)
                  && (answer == Failed(InvalidPrice) <==>
                        !(cmd.quantity.Some? && cmd.quantity.value <= 0)
                        && cmd.unitPrice.Some? && cmd.unitPrice.value <= 0))
  {
    hide Wrap64, Saved, StatusColumn, Position, Sound, ItemsUpTo;
    if orderId in t.orders && !cmd.AddOrderItem? {
      ListedIff(t, orderId, cmd.itemId);
    }
  }

  /** An order lists an item of an identifier exactly when the row of that identifier is one of its own. */
  lemma {:induction false} ListedIff(t: Tables, orderId: int, itemId: int)
    requires Sound(t) && orderId in t.orders
    ensures Position(ItemsOf(t, orderId), itemId) < |ItemsOf(t, orderId)| <==>
            itemId in t.items && t.items[itemId].orderId == orderId
  {
    hide ItemsUpTo, Position;
    var items := ItemsOf(t, orderId);
    if Position(items, itemId) < |items| {
      ItemIsAt(t, orderId, Position(items, itemId));
    }
    if itemId in t.items && t.items[itemId].orderId == orderId {
      var item := ItemAt(itemId, t.items[itemId]);
      ItemsAreStored(t.items, orderId, t.nextItem, item);
      assert itemId < t.nextItem;
      var i :| 0 <= i < |items| && items[i] == item;
    }
  }

  /** An order is deleted exactly when it exists and the database carries it out. */
  lemma {:induction false} DeleteErasesIff(t: Tables, orderId: int, conditions: Conditions)
    ensures Handled(t, DeleteOrder(orderId), conditions).0.Erased? <==>
            && orderId in t.orders && conditions.begins && conditions.commits && conditions.statements >= 3
    ensures Handled(t, DeleteOrder(orderId), conditions).0.Erased? ==>
              var after := Handled(t, DeleteOrder(orderId), conditions).1;
              && after.orders == t.orders - {orderId}
              && (forall id :: id in after.items <==> id in t.items && t.items[id].orderId != orderId)
              && (forall id :: id in after.items ==> after.items[id] == t.items[id])
    ensures conditions.begins && conditions.statements >= 2 && orderId !in t.orders ==>
              Handled(t, DeleteOrder(orderId), conditions).0 == Failed(OrderNotFound(orderId))
  {
    hide ItemsUpTo;
  }

  /** When a change is carried out: told from the command, the rows and the database. */
  lemma {:induction false} AddStoredIff(t: Tables, orderId: int, line: Line, conditions: Conditions)
    requires Sound(t)
    ensures Handled(t, AddOrderItem(orderId, line), conditions).0.Stored? <==>
            && orderId in t.orders && IsOrderable(line.productId, line.quantity, line.unitPrice)
            && line.quantity < 0x8000_0000 && t.nextItem < 0x8000_0000_0000_0000
            && conditions.begins && conditions.commits && conditions.statements >= 4 + |ItemsOf(t, orderId)|
  {
    hide Wrap64, InTx, ItemsOf, Sound, StatusColumn;
    ChangeStoredIff(t, orderId, Add(NewItem(line)), conditions);
    if orderId in t.orders {
      StatusKept(t, orderId);
    }
  }

  lemma {:induction false} UpdateStoredIff(
    t: Tables, orderId: int, itemId: int, quantity: Option<int>, unitPrice: Option<int>, conditions: Conditions)
    requires Sound(t)
    ensures Handled(t, UpdateOrderItem(orderId, itemId, quantity, unitPrice), conditions).0.Stored? <==>
            && orderId in t.orders && itemId in t.items && t.items[itemId].orderId == orderId
            && (quantity.Some? ==> 0 < quantity.value < 0x8000_0000) && (unitPrice.Some? ==> unitPrice.value > 0)
            && conditions.begins && conditions.commits && conditions.statements >= 3 + |ItemsOf(t, orderId)|
  {
    hide Wrap64, InTx, ItemsUpTo, StatusColumn, RowIsSound, Position;
    ChangeStoredIff(t, orderId, Patch(itemId, quantity, unitPrice), conditions);
    if orderId in t.orders {
      StatusKept(t, orderId);
      ListedIff(t, orderId, itemId);
      var items := ItemsOf(t, orderId);
      var at := Position(items, itemId);
      if at < |items| {
        ItemIsAt(t, orderId, at);
        RowQuantityFits(t, itemId);
      }
    }
  }

  lemma {:induction false} RowQuantityFits(t: Tables, itemId: int)
    requires Sound(t) && itemId in t.items
    ensures 0 < t.items[itemId].quantity < 0x8000_0000
  {
    hide Wrap64;
  }

  lemma {:induction false} RemoveStoredIff(t: Tables, orderId: int, itemId: int, conditions: Conditions)
    requires Sound(t)
    ensures Handled(t, RemoveOrderItem(orderId, itemId), conditions).0.Stored? <==>
            && orderId in t.orders && itemId in t.items && t.items[itemId].orderId == orderId
            && conditions.begins && conditions.commits && conditions.statements >= 2 + |ItemsOf(t, orderId)|
  {
    hide Wrap64, InTx, ItemsUpTo, StatusColumn, RowIsSound, Position;
    ChangeStoredIff(t, orderId, Remove(itemId), conditions);
    if orderId in t.orders {
      StatusKept(t, orderId);
      ListedIff(t, orderId, itemId);
    }
  }
}
