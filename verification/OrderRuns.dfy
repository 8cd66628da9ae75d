/** Runs of order commands from empty tables: every stored total, however the run went. */
module OrderRuns {
  import opened Common
  import opened GoInts
  import opened OrderAggregate
  import opened OrderTables
  import opened OrderCommands
  import opened OrderDrift

  // ---- Creating an order

  ghost predicate ItemsPriced(items: seq<Item>) {
    forall i :: 0 <= i < |items| ==> items[i].subtotal == Charge(items[i])
  }

  /** `after` has the same orders and the listings of `before`, with `added` at the end of one of them. */
  ghost predicate Extends(before: Tables, after: Tables, orderId: int, added: seq<Item>) {
    && after.orders == before.orders && after.nextOrder == before.nextOrder
    && after.nextItem >= before.nextItem
    && ItemsOf(after, orderId) == ItemsOf(before, orderId) + added
    && (forall other :: other != orderId ==> ItemsOf(after, other) == ItemsOf(before, other))
  }

  /** An insert adds one row, under an identifier no item has had, to the end of its order and changes no other row. */
  lemma {:induction false} InsertExtends(s: Session, orderId: int, item: Item)
    requires Sound(s.tables) && orderId in s.tables.orders && item.subtotal == Charge(item)
    requires InsertedItem(s, RowOf(orderId, item)).result.Some?
    ensures var r := InsertedItem(s, RowOf(orderId, item));
            && Sound(r.session.tables) && Extends(s.tables, r.session.tables, orderId, [r.result.value])
            && r.result.value.subtotal == item.subtotal
            && r.result.value.id !in s.tables.items
            && r.session.tables.items.Keys == s.tables.items.Keys + {r.result.value.id}
            && (forall id :: id in s.tables.items ==> r.session.tables.items[id] == s.tables.items[id])
  {
    var after := InsertedItem(s, RowOf(orderId, item)).session.tables;
    ListedAfterInsert(s.tables, RowOf(orderId, item));
    hide ItemsUpTo;
    forall other | other != orderId
      ensures ItemsOf(after, other) == ItemsOf(s.tables, other)
    {
      ItemsFrame(after.items, s.tables.items, other, s.tables.nextItem);
      ListingStops(after.items, other, s.tables.nextItem, after.nextItem);
    }
  }

  lemma {:induction false} InsertsExtend(s: Session, orderId: int, items: seq<Item>)
    requires Sound(s.tables) && orderId in s.tables.orders && ItemsPriced(items)
    requires InsertedItems(s, orderId, items).result.Some?
    ensures var r := InsertedItems(s, orderId, items);
            && Sound(r.session.tables) && Extends(s.tables, r.session.tables, orderId, r.result.value)
            && Sum(r.result.value, Subtotal) == Sum(items, Subtotal)
    decreases items
  {
    hide Sound, ItemsOf, InsertedItem, Charge, Extends;
    if items == [] {
      NothingAdded(s.tables, orderId);
    } else {
      var first := InsertedItem(s, RowOf(orderId, items[0]));
      InsertExtends(s, orderId, items[0]);
      SameOrders(s.tables, first.session.tables, orderId, [first.result.value]);
      InsertsExtend(first.session, orderId, items[1..]);
      var rest := InsertedItems(first.session, orderId, items[1..]);
      AddedInTurn(s.tables, first.session.tables, rest.session.tables, orderId, first.result.value, rest.result.value);
      assert ([first.result.value] + rest.result.value)[1..] == rest.result.value;
    }
  }

  lemma {:induction false} NothingAdded(t: Tables, orderId: int)
    ensures Extends(t, t, orderId, [])
  {
    hide ItemsOf;
    assert ItemsOf(t, orderId) + [] == ItemsOf(t, orderId);
  }

  lemma {:induction false} SameOrders(before: Tables, after: Tables, orderId: int, added: seq<Item>)
    requires Extends(before, after, orderId, added)
    ensures after.orders == before.orders
  {
  }

  lemma {:induction false} AddedInTurn(
    before: Tables, between: Tables, after: Tables, orderId: int, first: Item, rest: seq<Item>)
    requires Extends(before, between, orderId, [first]) && Extends(between, after, orderId, rest)
    ensures Extends(before, after, orderId, [first] + rest)
  {
    hide ItemsOf;
    var was := ItemsOf(before, orderId);
    assert was + [first] + rest == was + ([first] + rest);
  }

  /** An order that was just created is stored with exactly its items, and they add up to its total. */
  lemma {:induction false} CreatedIsStored(s: Session, order: OrderValue)
    requires Sound(s.tables) && Honest(order) && Created(s, order).result.Some?
    ensures var r := Created(s, order);
            var id := s.tables.nextOrder;
            && Sound(r.session.tables) && r.session.tables.nextOrder == id + 1
            && r.session.tables.orders.Keys == s.tables.orders.Keys + {id}
            && OrderAt(r.session.tables, id) == r.result.value.(status := r.session.tables.orders[id].status)
            && Drifted(r.session.tables, id, 0)
            && (forall other :: other in s.tables.orders ==>
                  r.session.tables.orders[other] == s.tables.orders[other]
                  && ItemsOf(r.session.tables, other) == ItemsOf(s.tables, other))
  {
    var id := s.tables.nextOrder;
    var inserted := InsertedOrder(s, OrderRow(order.customerId, order.status, order.total));
    var t1 := inserted.session.tables;
    OrderInserted(s, OrderRow(order.customerId, order.status, order.total));
    SubtotalsAreDue(order.items);
    hide Sound, ItemsUpTo, InsertedItem;
    InsertsExtend(inserted.session, id, order.items);
  }

  lemma {:induction false} OrderInserted(s: Session, row: OrderRow)
    requires Sound(s.tables) && InsertedOrder(s, row).result.Some?
    ensures var t1 := InsertedOrder(s, row).session.tables;
            && Sound(t1) && ItemsOf(t1, s.tables.nextOrder) == [] && s.tables.nextOrder !in s.tables.orders
            && (forall other :: ItemsOf(t1, other) == ItemsOf(s.tables, other))
  {
    hide StatusColumn;
    StatusIsStable(row.status);
    NothingYet(s.tables);
    hide ItemsUpTo;
    var id := s.tables.nextOrder;
    var stored := row.(status := StatusColumn(row.status).value);
    assert InsertedOrder(s, row).session.tables == s.tables.(nextOrder := id + 1, orders := s.tables.orders[id := stored]);
  }

  lemma {:induction false} NothingYet(t: Tables)
    requires Sound(t)
    ensures ItemsOf(t, t.nextOrder) == []
  {
    ListingStops(t.items, t.nextOrder, 0, t.nextItem);
    assert ItemsUpTo(t.items, t.nextOrder, 0) == [];
  }

  /** Wrapped charges add up to the amount due, wrapped. */
  lemma {:induction false} SubtotalsAreDue(items: seq<Item>)
    requires ItemsPriced(items)
    ensures Wrap64(Sum(items, Subtotal)) == Wrap64(AmountDue(items))
  {
    hide Wrap64;
    if items != [] {
      SubtotalsAreDue(items[1..]);
      var cost := Cost(items[0]);
      WrapSum(Sum(items[1..], Subtotal), cost);
      WrapSum(Sum(items[1..], Cost), cost);
      WrapSum(Sum(items[1..], Subtotal), Wrap64(cost));
      WrapSum(cost, Sum(items[1..], Subtotal));
    }
  }

  // ---- Rolling back

  ghost predicate Grows(before: Tables, after: Tables) {
    before.nextOrder <= after.nextOrder && before.nextItem <= after.nextItem
  }

  lemma {:induction false} InsertsGrow(s: Session, orderId: int, items: seq<Item>)
    ensures Grows(s.tables, InsertedItems(s, orderId, items).session.tables)
    decreases items
  {
    if items != [] {
      InsertsGrow(InsertedItem(s, RowOf(orderId, items[0])).session, orderId, items[1..]);
    }
  }

  lemma {:induction false} SavesGrow(s: Session, orderId: int, items: seq<Item>)
    ensures Grows(s.tables, SavedItems(s, orderId, items).session.tables)
    decreases items
  {
    if items != [] {
      SavesGrow(SavedItem(s, orderId, items[0]).session, orderId, items[1..]);
    }
  }

  lemma {:induction false} WorkGrows(s: Session, work: Work)
    ensures Grows(s.tables, Worked(s, work).session.tables)
  {
    hide InsertedItems, SavedItems, StatusColumn, ItemsOf;
    match work {
      case Insert(order) =>
        var inserted := InsertedOrder(s, OrderRow(order.customerId, order.status, order.total));
        if inserted.result.Some? {
          InsertsGrow(inserted.session, inserted.result.value, order.items);
        }
      case Change(orderId, call) =>
        var loaded := Loaded(s, orderId);
        if loaded.result.Some? && Applied(loaded.result.value, call).Ok? {
          SaveGrows(loaded.session, Applied(loaded.result.value, call).value);
        }
      case Erase(_) =>
    }
  }

  lemma {:induction false} SaveGrows(s: Session, order: OrderValue)
    ensures Grows(s.tables, Saved(s, order).session.tables)
  {
    hide SavedItems, StatusColumn;
    var updated := UpdatedOrder(s, order.id, OrderRow(order.customerId, order.status, order.total));
    SavesGrow(updated.session, order.id, order.items);
  }

  lemma {:induction false} RolledBackKeeps(t: Tables, after: Tables, orderId: int, off: int)
    requires Sound(t) && Grows(t, after) && Drifted(t, orderId, off)
    ensures Sound(RolledBack(t, after)) && Drifted(RolledBack(t, after), orderId, off)
    ensures ItemsOf(RolledBack(t, after), orderId) == ItemsOf(t, orderId)
  {
    ListingStops(t.items, orderId, t.nextItem, after.nextItem);
  }

  // ---- Deleting an order

  /** A delete takes an order with all its items, and leaves the rows, the listing and the drift of every other order. */
  lemma {:induction false} ErasedKeeps(s: Session, id: int, orderId: int, off: int)
    requires Sound(s.tables) && s.remaining > 0 && Drifted(s.tables, orderId, off)
    ensures var t := DeletedOrder(s, id).session.tables;
            && Sound(t) && t.orders.Keys == s.tables.orders.Keys - {id}
            && ItemsOf(t, id) == [] && Drifted(t, orderId, off)
            && (forall i :: i in t.items <==> i in s.tables.items && s.tables.items[i].orderId != id)
            && (forall i :: i in t.items ==> t.items[i] == s.tables.items[i])
            && (forall other :: other != id ==> ItemsOf(t, other) == ItemsOf(s.tables, other))
            && (forall other :: other in t.orders ==> t.orders[other] == s.tables.orders[other])
  {
    hide ItemsUpTo, Wrap64, StatusColumn, QuantityFits;
    var t := DeletedOrder(s, id).session.tables;
    ListingStops(t.items, id, 0, t.nextItem);
    forall other | other != id
      ensures ItemsOf(t, other) == ItemsOf(s.tables, other)
    {
      ItemsFrame(t.items, s.tables.items, other, t.nextItem);
    }
    NothingListed(t.items, id);
  }

  lemma {:induction false} NothingListed(items: map<int, ItemRow>, orderId: int)
    ensures ItemsUpTo(items, orderId, 0) == []
  {
  }

  // ---- One command

  /** What a command takes off an order's total without deleting the item it was charged for. */
  function TakenOff(t: Tables, cmd: Command, conditions: Conditions, orderId: int): int {
    if cmd.RemoveOrderItem? && cmd.orderId == orderId && Handled(t, cmd, conditions).0.Stored? && cmd.itemId in t.items
    then t.items[cmd.itemId].subtotal
    else 0
  }

  ghost predicate Kept(t: Tables, orderId: int, off: int) {
    Sound(t) && Drifted(t, orderId, off)
  }

  lemma {:induction false} FailureKeeps(t: Tables, work: Work, conditions: Conditions, orderId: int, off: int)
    requires Kept(t, orderId, off) && InTx(t, work, conditions).0.Failed?
    ensures Kept(InTx(t, work, conditions).1, orderId, off)
  {
    hide Drifted, Worked, Sound;
    var s := Session(t, conditions.statements);
    WorkGrows(s, work);
    RolledBackKeeps(t, Worked(s, work).session.tables, orderId, off);
  }

  lemma {:induction false} InsertKeeps(t: Tables, order: OrderValue, conditions: Conditions, orderId: int, off: int)
    requires Kept(t, orderId, off) && Honest(order) && !InTx(t, Insert(order), conditions).0.Failed?
    ensures Kept(InTx(t, Insert(order), conditions).1, orderId, off)
  {
    hide Sound, Created, ItemsOf, Honest;
    CreatedIsStored(Session(t, conditions.statements), order);
  }

  lemma {:induction false} ChangeKeeps(t: Tables, id: int, call: Call, conditions: Conditions, orderId: int, off: int)
    requires Kept(t, orderId, off) && (call.Add? ==> call.item.id == 0)
    requires InTx(t, Change(id, call), conditions).0.Stored?
    ensures Kept(InTx(t, Change(id, call), conditions).1, orderId,
                 off + if id == orderId then TakenByCall(t, call) else 0)
  {
    hide Sound, InTx, ItemsOf, Written, RowFits;
    ChangeStoredIff(t, id, call, conditions);
    var o := OrderAt(t, id);
    WrittenIsSound(t, o, call);
    ChangedOrder(t, o, call);
    if id == orderId {
      ChangeDrifts(t, o, call, off);
      OrderIsOld(t, id);
    } else {
      OthersAfterChange(t, o, call, orderId);
    }
  }

  lemma {:induction false} OrderIsOld(t: Tables, id: int)
    requires Sound(t) && id in t.orders
    ensures id < t.nextOrder
  {
  }

  lemma {:induction false} ChangedOrder(t: Tables, o: OrderValue, call: Call)
    ensures Written(t, o, call).orders.Keys == t.orders.Keys + {o.id}
  {
  }

  lemma {:induction false} EraseKeeps(t: Tables, id: int, conditions: Conditions, orderId: int, off: int)
    requires Kept(t, orderId, off) && !InTx(t, Erase(id), conditions).0.Failed?
    ensures Kept(InTx(t, Erase(id), conditions).1, orderId, off)
  {
    hide Sound, ItemsOf, Drifted;
    var loaded := Loaded(Session(t, conditions.statements), id);
    ErasedKeeps(loaded.session, id, orderId, off);
  }

  lemma {:induction false} CommandKeeps(t: Tables, cmd: Command, conditions: Conditions, orderId: int, off: int)
    requires Kept(t, orderId, off)
    ensures Kept(Handled(t, cmd, conditions).1, orderId, off + TakenOff(t, cmd, conditions, orderId))
  {
    hide Kept, InTx;
    if Planned(cmd).Ok? {
      var work := Planned(cmd).value;
      if InTx(t, work, conditions).0.Failed? {
        FailureKeeps(t, work, conditions, orderId, off);
      } else {
        match work {
          case Insert(order) =>
            PlacedIsHonest(cmd.customerId, NewItems(cmd.lines));
            InsertKeeps(t, order, conditions, orderId, off);
          case Change(id, call) =>
            AnsweredChange(t, id, call, conditions);
            ChangeKeeps(t, id, call, conditions, orderId, off);
          case Erase(id) =>
            EraseKeeps(t, id, conditions, orderId, off);
        }
      }
    }
  }

  lemma {:induction false} AnsweredChange(t: Tables, id: int, call: Call, conditions: Conditions)
    ensures !InTx(t, Change(id, call), conditions).0.Erased?
  {
  }

  lemma {:induction false} PlacedIsHonest(customerId: int, items: seq<Item>)
    ensures Placed(customerId, items).Ok? ==> Honest(Placed(customerId, items).value)
  {
    AddedAllIsHonest(OrderValue(0, customerId, "pending", 0, []), items);
  }

  // ---- Runs

  datatype Step = Step(cmd: Command, conditions: Conditions)

  function TablesAfter(t: Tables, steps: seq<Step>): Tables
    decreases steps
  {
    if steps == [] then t else TablesAfter(Handled(t, steps[0].cmd, steps[0].conditions).1, steps[1..])
  }

  /** All that a run takes off an order's total. */
  function TakenOffBy(t: Tables, steps: seq<Step>, orderId: int): int
    decreases steps
  {
    if steps == [] then 0
    else TakenOff(t, steps[0].cmd, steps[0].conditions, orderId) +
         TakenOffBy(Handled(t, steps[0].cmd, steps[0].conditions).1, steps[1..], orderId)
  }

  lemma {:induction false} RunKeeps(t: Tables, steps: seq<Step>, orderId: int, off: int)
    requires Kept(t, orderId, off)
    ensures Kept(TablesAfter(t, steps), orderId, off + TakenOffBy(t, steps, orderId))
    decreases steps
  {
    hide Kept, Handled, TakenOff;
    if steps != [] {
      CommandKeeps(t, steps[0].cmd, steps[0].conditions, orderId, off);
      RunKeeps(Handled(t, steps[0].cmd, steps[0].conditions).1, steps[1..], orderId,
               off + TakenOff(t, steps[0].cmd, steps[0].conditions, orderId));
    }
  }

  /**
   After any run from empty tables, a stored order's total is the sum of its stored items less everything
   that successful removals took off it, wrapped to 64 bits.
   */
  lemma {:induction false} DriftIsExact(steps: seq<Step>, orderId: int)
    requires orderId in TablesAfter(EMPTY, steps).orders
    ensures var t := TablesAfter(EMPTY, steps);
            t.orders[orderId].total == Wrap64(StoredSum(t, orderId) - TakenOffBy(EMPTY, steps, orderId))
  {
    RunKeeps(EMPTY, steps, orderId, 0);
  }

  /** The stored total is the wrapped sum of the stored items exactly when what was taken off wraps to nothing. */
  lemma {:induction false} TotalIsSumIff(steps: seq<Step>, orderId: int)
    requires orderId in TablesAfter(EMPTY, steps).orders
    ensures var t := TablesAfter(EMPTY, steps);
            t.orders[orderId].total == Wrap64(StoredSum(t, orderId)) <==>
            Wrap64(TakenOffBy(EMPTY, steps, orderId)) == 0
  {
    DriftIsExact(steps, orderId);
    WrapsTogetherIff(StoredSum(TablesAfter(EMPTY, steps), orderId), TakenOffBy(EMPTY, steps, orderId));
  }

  lemma {:induction false} WrapsTogetherIff(sum: int, off: int)
    ensures Wrap64(sum - off) == Wrap64(sum) <==> Wrap64(off) == 0
  {
    hide Wrap64;
    WrapSum(sum, off);
    WrapSum(sum, sum - off);
    assert sum - (sum - off) == off;
    WrapSum(sum, sum);
    assert Wrap64(0) == 0;
  }

  ghost predicate NoneRemoved(t: Tables, steps: seq<Step>, orderId: int)
    decreases steps
  {
    steps != [] ==>
      && (steps[0].cmd.RemoveOrderItem? && steps[0].cmd.orderId == orderId ==>
            Handled(t, steps[0].cmd, steps[0].conditions).0.Failed?)
      && NoneRemoved(Handled(t, steps[0].cmd, steps[0].conditions).1, steps[1..], orderId)
  }

  /** Without a successful removal the stored total is the sum of the stored items, and of their charges. */
  lemma {:induction false} TotalIsSumWithoutRemoval(steps: seq<Step>, orderId: int)
    requires NoneRemoved(EMPTY, steps, orderId) && orderId in TablesAfter(EMPTY, steps).orders
    ensures var t := TablesAfter(EMPTY, steps);
            && t.orders[orderId].total == Wrap64(StoredSum(t, orderId))
            && t.orders[orderId].total == Wrap64(AmountDue(ItemsOf(t, orderId)))
  {
    var t := TablesAfter(EMPTY, steps);
    NothingTaken(EMPTY, steps, orderId);
    RunKeeps(EMPTY, steps, orderId, 0);
    StoredItemsPriced(t, orderId);
    SubtotalsAreDue(ItemsOf(t, orderId));
  }

  lemma {:induction false} NothingTaken(t: Tables, steps: seq<Step>, orderId: int)
    requires NoneRemoved(t, steps, orderId)
    ensures TakenOffBy(t, steps, orderId) == 0
    decreases steps
  {
    hide Handled;
    if steps != [] {
      NothingTaken(Handled(t, steps[0].cmd, steps[0].conditions).1, steps[1..], orderId);
    }
  }

  lemma {:induction false} StoredItemsPriced(t: Tables, orderId: int)
    requires Sound(t)
    ensures ItemsPriced(ItemsOf(t, orderId))
  {
    hide ItemsUpTo;
    ListedMatches(t, orderId);
  }

  /** A failed command anywhere leaves every stored row as it was. */
  lemma {:induction false} FailureChangesNothing(t: Tables, cmd: Command, conditions: Conditions)
    requires Handled(t, cmd, conditions).0.Failed?
    ensures Handled(t, cmd, conditions).1.orders == t.orders && Handled(t, cmd, conditions).1.items == t.items
  {
  }

  /** The intended equality fails: an item added with an order and then removed stays stored. */
  lemma {:induction false} RemovedItemStaysStored()
    ensures var steady := Conditions(true, 10, true);
            var steps := [Step(CreateOrder(1, [Line(1, 2, 300)]), steady), Step(RemoveOrderItem(1, 1), steady)];
            var t := TablesAfter(EMPTY, steps);
            1 in t.orders && t.orders[1].total == 0 && StoredSum(t, 1) == 600
  {
    var steady := Conditions(true, 10, true);
    var create, remove := CreateOrder(1, [Line(1, 2, 300)]), RemoveOrderItem(1, 1);
    var item := Item(1, 1, 1, 2, 300, 600);
    var t1 := Handled(EMPTY, create, steady).1;
    assert NewItems([Line(1, 2, 300)]) == [Item(0, 0, 1, 2, 300, 0)];
    var line := Item(0, 0, 1, 2, 300, 0);
    var empty, order := OrderValue(0, 1, "pending", 0, []), OrderValue(0, 1, "pending", 600, [Item(0, 0, 1, 2, 300, 600)]);
    assert Charge(line) == 600 && Fault(line) == None;
    assert [] + [line.(subtotal := 600)] == order.items;
    assert [line][1..] == [] && Added(empty, line) == Ok(order);
    assert Placed(1, [line]) == Ok(order);
    assert t1 == Tables(map[1 := OrderRow(1, "pending", 600)], map[1 := ItemRow(1, 1, 2, 300, 600)], 2, 2);
    assert ItemsUpTo(t1.items, 1, 1) == [];
    assert ItemsOf(t1, 1) == [item];
    var t2 := Handled(t1, remove, steady).1;
    assert [item][..0] + [item][1..] == [];
    assert t2 == t1.(orders := t1.orders[1 := OrderRow(1, "pending", 0)]);
    assert ItemsOf(t2, 1) == [item];
    var steps := [Step(create, steady), Step(remove, steady)];
    assert steps[1..] == [Step(remove, steady)];
    assert TablesAfter(t1, steps[1..]) == t2;
  }
}
