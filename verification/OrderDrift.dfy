/**
 What runs of commands do to the stored totals. Writing an order back never deletes an item row, so an item
 taken out of an order stays stored, and the total drifts from the stored items by exactly what was taken out.
 */
module OrderDrift {
  import opened Common
  import opened GoInts
  import opened OrderAggregate
  import opened OrderTables
  import opened OrderCommands

  /** What the constraints and the aggregate keep true of the rows. */
  ghost predicate Sound(t: Tables) {
    && NextIsFresh(t) && t.nextOrder > 0 && t.nextItem > 0
    && (forall id :: id in t.orders ==> StatusColumn(t.orders[id].status) == Some(t.orders[id].status))
    && (forall id :: id in t.items ==> RowIsSound(t, t.items[id]))
  }

  ghost predicate RowIsSound(t: Tables, row: ItemRow) {
    row.orderId in t.orders && QuantityFits(row.quantity) && row.subtotal == Wrap64(row.quantity * row.unitPrice)
  }

  // ---- Writing items back

  /** Every item is exactly its stored row. */
  ghost predicate Matches(t: Tables, orderId: int, items: seq<Item>) {
    forall i :: 0 <= i < |items| ==>
      && items[i].id in t.items && items[i].id != 0 && items[i].orderId == orderId
      && t.items[items[i].id] == RowOf(orderId, items[i]) && QuantityFits(items[i].quantity)
  }

  /** Writing items back over equal rows changes nothing. */
  lemma {:induction false} MatchingUntouched(s: Session, orderId: int, items: seq<Item>)
    requires Matches(s.tables, orderId, items)
    ensures SavedItems(s, orderId, items).session.tables == s.tables
    ensures SavedItems(s, orderId, items).result ==
            if s.remaining < |items| then None else Some(items)
    ensures s.remaining >= |items| ==> SavedItems(s, orderId, items).session.remaining == s.remaining - |items|
    decreases items
  {
    if items != [] {
      var first := SavedItem(s, orderId, items[0]);
      assert s.tables.items[items[0].id := RowOf(orderId, items[0])] == s.tables.items;
      if s.remaining > 0 {
        MatchingUntouched(Spend(s), orderId, items[1..]);
        assert [items[0]] + items[1..] == items;
      }
    }
  }

  lemma {:induction false} SavedSplit(s: Session, orderId: int, a: seq<Item>, b: seq<Item>)
    ensures var front := SavedItems(s, orderId, a);
            SavedItems(s, orderId, a + b) ==
            if front.result.None? then front else Prefixed(front.result.value, SavedItems(front.session, orderId, b))
    decreases a
  {
    hide SavedItem;
    if a == [] {
      assert a + b == b;
    } else {
      assert (a + b)[1..] == a[1..] + b;
      var first := SavedItem(s, orderId, a[0]);
      if first.result.Some? {
        SavedSplit(first.session, orderId, a[1..], b);
        var front := SavedItems(first.session, orderId, a[1..]);
        if front.result.Some? {
          PrefixedTwice([first.result.value], front.result.value, SavedItems(front.session, orderId, b));
        }
      }
    }
  }

  /** With one item among unchanged ones, writing back amounts to writing that item. */
  lemma {:induction false} SavedAround(s: Session, orderId: int, before: seq<Item>, item: Item, after: seq<Item>)
    requires Matches(s.tables, orderId, before)
    requires var one := SavedItem(Session(s.tables, 1), orderId, item);
             one.result.Some? ==> Matches(one.session.tables, orderId, after)
    ensures var one := SavedItem(Session(s.tables, 1), orderId, item);
            var all := SavedItems(s, orderId, before + [item] + after);
            && (all.result.Some? <==> one.result.Some? && s.remaining >= |before| + 1 + |after|)
            && (all.result.Some? ==> all.session.tables == one.session.tables
                                     && all.result.value == before + [one.result.value] + after)
  {
    hide Matches, SavedItems;
    SavedSplit(s, orderId, before + [item], after);
    SavedSplit(s, orderId, before, [item]);
    MatchingUntouched(s, orderId, before);
    if s.remaining >= |before| {
      var mid := SavedItems(s, orderId, before).session;
      OneAtATime(mid, orderId, item);
      if SavedItems(mid, orderId, [item]).result.Some? {
        MatchingUntouched(SavedItems(mid, orderId, [item]).session, orderId, after);
      }
    }
  }

  lemma {:induction false} OneAtATime(s: Session, orderId: int, item: Item)
    ensures var one := SavedItem(Session(s.tables, 1), orderId, item);
            var r := SavedItems(s, orderId, [item]);
            && (r.result.Some? <==> one.result.Some? && s.remaining > 0)
            && (r.result.Some? ==> r.session == Session(one.session.tables, s.remaining - 1)
                                   && r.result.value == [one.result.value])
  {
    assert [item][1..] == [];
  }

  // ---- Listings

  lemma {:induction false} ListedMatches(t: Tables, orderId: int)
    requires Sound(t)
    ensures Matches(t, orderId, ItemsOf(t, orderId)) && Ascending(ItemsOf(t, orderId))
  {
    hide ItemsUpTo;
    var items := ItemsOf(t, orderId);
    ItemsAscend(t.items, orderId, t.nextItem);
    forall i | 0 <= i < |items|
      ensures items[i].id in t.items && items[i] == ItemAt(items[i].id, t.items[items[i].id])
              && items[i].orderId == orderId
    {
      ItemsAreStored(t.items, orderId, t.nextItem, items[i]);
    }
  }

  lemma {:induction false} ListedAfterInsert(t: Tables, row: ItemRow)
    requires Sound(t)
    ensures ItemsUpTo(t.items[t.nextItem := row], row.orderId, t.nextItem + 1) ==
            ItemsOf(t, row.orderId) + [ItemAt(t.nextItem, row)]
  {
    ItemsFrame(t.items[t.nextItem := row], t.items, row.orderId, t.nextItem);
  }

  /** Writing over a row replaces its item in the listing. */
  lemma {:induction false} ListedAfterUpdate(items: map<int, ItemRow>, id: int, row: ItemRow, n: nat, p: nat)
    requires id in items && items[id].orderId == row.orderId
    requires p < |ItemsUpTo(items, row.orderId, n)| && ItemsUpTo(items, row.orderId, n)[p].id == id
    ensures ItemsUpTo(items[id := row], row.orderId, n) == ItemsUpTo(items, row.orderId, n)[p := ItemAt(id, row)]
  {
    var listed := ItemsUpTo(items, row.orderId, n);
    var shorter := ItemsUpTo(items, row.orderId, n - 1);
    if id == n - 1 {
      ItemsFrame(items[id := row], items, row.orderId, n - 1);
      if p < |shorter| {
        ItemsAreStored(items, row.orderId, n - 1, shorter[p]);
      }
    } else {
      ListedAfterUpdate(items, id, row, n - 1, p);
    }
  }

  // ---- What a change writes

  /** The item row a change writes, if it writes one that differs from what is stored. */
  function RowWritten(t: Tables, o: OrderValue, call: Call): Option<(int, ItemRow)> {
    match call
    case Add(item) => Some((t.nextItem, RowOf(o.id, item.(subtotal := Charge(item)))))
    case Patch(itemId, quantity, unitPrice) =>
      var p := Position(o.items, itemId);
      if p < |o.items| && (quantity.Some? || unitPrice.Some?)
      then Some((itemId, RowOf(o.id, PatchedItem(o.items[p], quantity, unitPrice))))
      else None
    case _ => None
  }

  /** Whether the row a change writes fits its columns. */
  predicate RowFits(t: Tables, o: OrderValue, call: Call) {
    && (call.Add? ==> t.nextItem < INT64_LIMIT)
    && (RowWritten(t, o, call).Some? ==> QuantityFits(RowWritten(t, o, call).value.1.quantity))
  }

  /** `t` with the item row a change writes. No row is ever deleted. */
  function WithRow(t: Tables, written: Option<(int, ItemRow)>): Tables {
    match written
    case None => t
    case Some((id, row)) => t.(items := t.items[id := row], nextItem := Max(t.nextItem, id + 1))
  }

  /** What the caller is answered: the changed order, an added item carrying its new identifier. */
  function AnswerTo(t: Tables, o: OrderValue, call: Call): OrderValue {
    match call
    case Add(item) => After(o, call).(items := o.items + [ItemAt(t.nextItem, RowWritten(t, o, call).value.1)])
    case _ => After(o, call)
  }

  /** The state in which a change writes its items back. */
  ghost predicate Midway(s: Session, t: Tables, o: OrderValue, call: Call) {
    && Sound(t) && o.id in t.orders && o == OrderAt(t, o.id)
    && o.id in s.tables.orders && s.tables.items == t.items && s.tables.nextItem == t.nextItem
    && Applied(o, call).Ok? && (call.Add? ==> call.item.id == 0)
  }

  lemma {:induction false} AddWritesBack(s: Session, t: Tables, o: OrderValue, call: Call)
    requires Midway(s, t, o, call) && call.Add?
    ensures ChangeIsWritten(s, t, o, call)
  {
    hide Sound, ItemsUpTo;
    var priced := call.item.(subtotal := Charge(call.item));
    ListedMatches(t, o.id);
    assert Matches(s.tables, o.id, o.items);
    SavedAround(s, o.id, o.items, priced, []);
    assert o.items + [priced] + [] == o.items + [priced];
  }

  /** Writing a changed order's items back writes the one row and answers with the changed items. */
  ghost predicate ChangeIsWritten(s: Session, t: Tables, o: OrderValue, call: Call) {
    var saved := SavedItems(s, o.id, After(o, call).items);
    && (saved.result.Some? <==> s.remaining >= |After(o, call).items| && RowFits(t, o, call))
    && (saved.result.Some? ==> saved.session.tables == WithRow(s.tables, RowWritten(t, o, call))
                               && saved.result.value == AnswerTo(t, o, call).items)
  }

  lemma {:induction false} PatchWritesBack(s: Session, t: Tables, o: OrderValue, call: Call)
    requires Midway(s, t, o, call) && call.Patch? && RowWritten(t, o, call).Some?
    ensures ChangeIsWritten(s, t, o, call)
  {
    hide ItemsUpTo;
    ListedMatches(t, o.id);
    var p := Position(o.items, call.itemId);
    var next := PatchedItem(o.items[p], call.quantity, call.unitPrice);
    var row := RowOf(o.id, next);
    var before, after := o.items[..p], o.items[p + 1..];
    assert Matches(s.tables, o.id, before);
    var one := SavedItem(Session(s.tables, 1), o.id, next);
    assert o.items[p].id in t.items && o.items[p].id < t.nextItem;
    if one.result.Some? {
      assert one.session.tables == WithRow(s.tables, Some((call.itemId, row)));
      assert Matches(one.session.tables, o.id, after);
    }
    SavedAround(s, o.id, before, next, after);
    assert before + [next] + after == o.items[p := next];
  }

  lemma {:induction false} OthersWriteBack(s: Session, t: Tables, o: OrderValue, call: Call)
    requires Midway(s, t, o, call) && !call.Add? && RowWritten(t, o, call).None?
    ensures ChangeIsWritten(s, t, o, call)
  {
    hide ItemsUpTo;
    ListedMatches(t, o.id);
    var items := After(o, call).items;
    assert Matches(s.tables, o.id, items);
    MatchingUntouched(s, o.id, items);
  }

  lemma {:induction false} WritesBack(s: Session, t: Tables, o: OrderValue, call: Call)
    requires Midway(s, t, o, call)
    ensures ChangeIsWritten(s, t, o, call)
  {
    hide Midway, ChangeIsWritten, RowWritten;
    if call.Add? {
      AddWritesBack(s, t, o, call);
    } else if RowWritten(t, o, call).Some? {
      assert call.Patch? by { NoRowForOthers(t, o, call); }
      PatchWritesBack(s, t, o, call);
    } else {
      OthersWriteBack(s, t, o, call);
    }
  }

  lemma {:induction false} NoRowForOthers(t: Tables, o: OrderValue, call: Call)
    ensures RowWritten(t, o, call).Some? ==> call.Add? || call.Patch?
  {
  }

  // ---- A change in its transaction

  /** The tables after a change: the order's own row and at most one item row. */
  function Written(t: Tables, o: OrderValue, call: Call): Tables {
    var next := After(o, call);
    var status := StatusColumn(next.status);
    WithRow(t.(orders := t.orders[o.id :=
      OrderRow(next.customerId, if status.Some? then status.value else "", next.total)]), RowWritten(t, o, call))
  }

  /** The statements a change needs: two to load, one for the order's row and one for each item. */
  predicate EnoughStatements(conditions: Conditions, o: OrderValue, call: Call) {
    conditions.begins && conditions.commits && conditions.statements >= 3 + |After(o, call).items|
  }

  lemma {:induction false} AppliedKeepsId(o: OrderValue, call: Call)
    ensures After(o, call).id == o.id && After(o, call).customerId == o.customerId
  {
  }

  /** Writing a changed order back, statement by statement. */
  lemma {:induction false} SavedWrites(s: Session, t: Tables, o: OrderValue, call: Call)
    requires Sound(t) && o.id in t.orders && o == OrderAt(t, o.id) && s.tables == t
    requires Applied(o, call).Ok? && (call.Add? ==> call.item.id == 0)
    ensures var saved := Saved(s, After(o, call));
            && (saved.result.Some? <==> s.remaining >= 1 + |After(o, call).items|
                                        && StatusColumn(After(o, call).status).Some? && RowFits(t, o, call))
            && (saved.result.Some? ==> saved.session.tables == Written(t, o, call)
                                       && saved.result.value == AnswerTo(t, o, call))
  {
    hide ItemsUpTo, Applied, RowWritten, RowFits, Sound, StatusColumn, SavedItems, ItemsOf;
    AppliedKeepsId(o, call);
    var next := After(o, call);
    var updated := UpdatedOrder(s, o.id, OrderRow(next.customerId, next.status, next.total));
    if updated.result.Some? {
      WritesBack(updated.session, t, o, call);
    }
  }

  /** When a change is stored, and what it then stores and answers. */
  lemma {:induction false} ChangeStoredIff(t: Tables, orderId: int, call: Call, conditions: Conditions)
    requires Sound(t) && (call.Add? ==> call.item.id == 0)
    ensures InTx(t, Change(orderId, call), conditions).0.Stored? <==>
            orderId in t.orders
            && var o := OrderAt(t, orderId);
               && Applied(o, call).Ok? && StatusColumn(After(o, call).status).Some?
               && RowFits(t, o, call) && EnoughStatements(conditions, o, call)
    ensures InTx(t, Change(orderId, call), conditions).0.Stored? ==>
              var o := OrderAt(t, orderId);
              InTx(t, Change(orderId, call), conditions) == (Stored(AnswerTo(t, o, call)), Written(t, o, call))
  {
    hide ItemsUpTo, Applied, AnswerTo, Written, RowFits, Sound, StatusColumn, Saved, ItemsOf;
    var s := Session(t, conditions.statements);
    var loaded := Loaded(s, orderId);
    if loaded.result.Some? {
      var o := loaded.result.value;
      if Applied(o, call).Ok? {
        SavedWrites(loaded.session, t, o, call);
      }
    }
  }

  // ---- The listings after a change

  /** The order's stored items after a change: what was answered, unless an item was taken out. */
  function ItemsLeft(t: Tables, o: OrderValue, call: Call): seq<Item> {
    if call.Remove? then o.items else AnswerTo(t, o, call).items
  }

  lemma {:induction false} ListedAfterChange(t: Tables, o: OrderValue, call: Call)
    requires Sound(t) && o.id in t.orders && o == OrderAt(t, o.id) && Applied(o, call).Ok?
    ensures ItemsOf(Written(t, o, call), o.id) == ItemsLeft(t, o, call)
  {
    hide ItemsUpTo;
    if call.Add? {
      ListedAfterInsert(t, RowWritten(t, o, call).value.1);
    } else if call.Patch? && RowWritten(t, o, call).Some? {
      var p := Position(o.items, call.itemId);
      ListedMatches(t, o.id);
      assert o.items[p].id in t.items;
      ListedAfterUpdate(t.items, call.itemId, RowWritten(t, o, call).value.1, t.nextItem, p);
    }
  }

  /**
   Reading an order back after a successful change gives what was answered, except that a removed item is
   there again and that the status column drops the spaces beyond its width.
   */
  lemma {:induction false} ReadsBack(t: Tables, orderId: int, call: Call, conditions: Conditions)
    requires Sound(t) && (call.Add? ==> call.item.id == 0)
    requires InTx(t, Change(orderId, call), conditions).0.Stored?
    ensures orderId in t.orders && orderId in InTx(t, Change(orderId, call), conditions).1.orders
    ensures var (answer, after) := InTx(t, Change(orderId, call), conditions);
            var status := StatusColumn(answer.order.status);
            && status.Some?
            && OrderAt(after, orderId) ==
               (if call.Remove? then answer.order.(items := OrderAt(t, orderId).items) else answer.order)
               .(status := status.value)
  {
    hide ItemsUpTo, InTx, RowFits, Position, StatusColumn;
    ChangeStoredIff(t, orderId, call, conditions);
    ListedAfterChange(t, OrderAt(t, orderId), call);
    AppliedKeepsId(OrderAt(t, orderId), call);
  }

  /** A change of one order leaves the rows and the listing of every other order. */
  lemma {:induction false} OthersAfterChange(t: Tables, o: OrderValue, call: Call, other: int)
    requires Sound(t) && o.id in t.orders && o == OrderAt(t, o.id) && Applied(o, call).Ok? && other != o.id
    ensures ItemsOf(Written(t, o, call), other) == ItemsOf(t, other)
    ensures other in Written(t, o, call).orders <==> other in t.orders
    ensures other in t.orders ==> Written(t, o, call).orders[other] == t.orders[other]
  {
    var after := Written(t, o, call);
    if call.Patch? && RowWritten(t, o, call).Some? {
      ListedMatches(t, o.id);
      assert o.items[Position(o.items, call.itemId)].id in t.items;
    }
    hide ItemsUpTo;
    ItemsFrame(after.items, t.items, other, t.nextItem);
    ListingStops(after.items, other, t.nextItem, after.nextItem);
  }

  /** A listing is complete once no row of the order is left above it. */
  lemma {:induction false} ListingStops(items: map<int, ItemRow>, orderId: int, n: nat, m: nat)
    requires n <= m && forall id :: id in items && n <= id < m ==> items[id].orderId != orderId
    ensures ItemsUpTo(items, orderId, n) == ItemsUpTo(items, orderId, m)
  {
    if n < m {
      ListingStops(items, orderId, n, m - 1);
    }
  }

  lemma {:induction false} WrittenIsSound(t: Tables, o: OrderValue, call: Call)
    requires Sound(t) && o.id in t.orders && o == OrderAt(t, o.id) && Applied(o, call).Ok?
    requires RowFits(t, o, call) && StatusColumn(After(o, call).status).Some?
    ensures Sound(Written(t, o, call)) && Written(t, o, call).nextOrder == t.nextOrder
  {
    hide ItemsUpTo, ItemsOf, Wrap64;
    if call.Patch? && RowWritten(t, o, call).Some? {
      ListedMatches(t, o.id);
      assert o.items[Position(o.items, call.itemId)].id in t.items;
    }
    StatusIsStable(After(o, call).status);
  }

  lemma {:induction false} StatusIsStable(status: string)
    ensures StatusColumn(status).Some? ==> StatusColumn(StatusColumn(status).value) == StatusColumn(status)
  {
  }

  // ---- Drift

  function Subtotal(item: Item): int {
    item.subtotal
  }

  /** What the stored items of an order add up to. */
  function StoredSum(t: Tables, orderId: int): int {
    Sum(ItemsOf(t, orderId), Subtotal)
  }

  /** The stored total is the sum of the stored items less `off`. */
  ghost predicate Drifted(t: Tables, orderId: int, off: int) {
    && (orderId in t.orders ==> t.orders[orderId].total == Wrap64(StoredSum(t, orderId) - off))
    && (orderId >= t.nextOrder ==> off == 0)
  }

  /** What a change takes off an order without deleting it. */
  function TakenByCall(t: Tables, call: Call): int {
    if call.Remove? && call.itemId in t.items then t.items[call.itemId].subtotal else 0
  }

  lemma {:induction false} ChangeDrifts(t: Tables, o: OrderValue, call: Call, off: int)
    requires Sound(t) && o.id in t.orders && o == OrderAt(t, o.id) && Applied(o, call).Ok?
    requires Drifted(t, o.id, off)
    ensures Written(t, o, call).orders[o.id].total ==
            Wrap64(StoredSum(Written(t, o, call), o.id) - (off + TakenByCall(t, call)))
  {
    hide Wrap64, ItemsUpTo, Sound, Matches;
    ListedAfterChange(t, o, call);
    var sum := StoredSum(t, o.id);
    match call {
      case Add(item) =>
        var stored := ItemAt(t.nextItem, RowWritten(t, o, call).value.1);
        SumJoined(o.items, [stored], Subtotal);
        WrapSum(sum - off, Charge(item));
      case Remove(itemId) =>
        RemovedRow(t, o, itemId);
        WrapSum(sum - off, -t.items[itemId].subtotal);
      case Patch(itemId, quantity, unitPrice) =>
        PatchDrifts(t, o, itemId, quantity, unitPrice, off);
      case SetStatus(_) =>
    }
  }

  lemma {:induction false} RemovedRow(t: Tables, o: OrderValue, itemId: int)
    requires Sound(t) && o.id in t.orders && o == OrderAt(t, o.id) && Position(o.items, itemId) < |o.items|
    ensures itemId in t.items && t.items[itemId].subtotal == o.items[Position(o.items, itemId)].subtotal
  {
    hide ItemsUpTo;
    ListedMatches(t, o.id);
    assert o.items[Position(o.items, itemId)].id == itemId;
  }

  lemma {:induction false} PatchDrifts(
    t: Tables, o: OrderValue, itemId: int, quantity: Option<int>, unitPrice: Option<int>, off: int)
    requires o.total == Wrap64(Sum(o.items, Subtotal) - off)
    requires Patched(o, itemId, quantity, unitPrice).Ok?
    ensures var next := Patched(o, itemId, quantity, unitPrice).value;
            next.total == Wrap64(Sum(next.items, Subtotal) - off)
  {
    hide Wrap64;
    var p := Position(o.items, itemId);
    if quantity.Some? || unitPrice.Some? {
      var next := PatchedItem(o.items[p], quantity, unitPrice);
      SumSpliced(o.items, p, [next], Subtotal);
      assert Spliced(o.items, p, [next]) == o.items[p := next];
      WrapSum(Sum(o.items, Subtotal) - off, Wrap64(next.subtotal - o.items[p].subtotal));
      WrapSum(Sum(o.items, Subtotal) - off, next.subtotal - o.items[p].subtotal);
    }
  }
}
