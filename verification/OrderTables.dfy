/**
 The two order tables and the repository over them. Statements run one at a time on a connection that may
 break after any of them; transactions do not overlap.
 */
module OrderTables {
  import opened Common
  import opened GoInts
  import opened OrderAggregate

  datatype OrderRow = OrderRow(customerId: int, status: string, total: int)

  datatype ItemRow = ItemRow(orderId: int, productId: int, quantity: int, unitPrice: int, subtotal: int)

  /** The rows by identifier, and the identifier each table's sequence hands out next. */
  datatype Tables = Tables(orders: map<int, OrderRow>, items: map<int, ItemRow>, nextOrder: nat, nextItem: nat)

  const EMPTY := Tables(map[], map[], 1, 1)

  const MAX_STATUS := 32

  const INT32_LIMIT := 0x8000_0000

  predicate Spaces(s: string) {
    forall i :: 0 <= i < |s| ==> s[i] == ' '
  }

  /** What a `VARCHAR(32)` column that must not be empty makes of a value. */
  function StatusColumn(status: string): Option<string> {
    if status == "" then None
    else if |status| <= MAX_STATUS then Some(status)
    else if Spaces(status[MAX_STATUS..]) then Some(status[..MAX_STATUS])
    else None
  }

  predicate QuantityFits(quantity: int) {
    0 < quantity < INT32_LIMIT
  }

  /** The tables seen through a connection that will carry `remaining` more statements. */
  datatype Session = Session(tables: Tables, remaining: nat)

  /** A statement's result, `None` when it failed, and the session after it. */
  datatype Reply<+T> = Reply(result: Option<T>, session: Session)

  function Spend(s: Session): Session
    requires s.remaining > 0
  {
    s.(remaining := s.remaining - 1)
  }

  // ---- Statements

  function InsertedOrder(s: Session, row: OrderRow): Reply<int> {
    if s.remaining == 0 then Reply(None, s)
    else if s.tables.nextOrder >= INT64_LIMIT then Reply(None, Spend(s))
    else
      var id := s.tables.nextOrder;
      match StatusColumn(row.status)
      case None => Reply(None, Spend(s).(tables := s.tables.(nextOrder := id + 1)))
      case Some(status) =>
        Reply(Some(id), Spend(s).(tables := s.tables.(
          nextOrder := id + 1, orders := s.tables.orders[id := row.(status := status)])))
  }

  function RowOf(orderId: int, item: Item): ItemRow {
    ItemRow(orderId, item.productId, item.quantity, item.unitPrice, item.subtotal)
  }

  function ItemAt(id: int, row: ItemRow): Item {
    Item(id, row.orderId, row.productId, row.quantity, row.unitPrice, row.subtotal)
  }

  function InsertedItem(s: Session, row: ItemRow): Reply<Item> {
    if s.remaining == 0 then Reply(None, s)
    else if s.tables.nextItem >= INT64_LIMIT then Reply(None, Spend(s))
    else
      var id := s.tables.nextItem;
      if !QuantityFits(row.quantity) || row.orderId !in s.tables.orders then
        Reply(None, Spend(s).(tables := s.tables.(nextItem := id + 1)))
      else
        Reply(Some(ItemAt(id, row)), Spend(s).(tables := s.tables.(
          nextItem := id + 1, items := s.tables.items[id := row])))
  }

  function UpdatedOrder(s: Session, id: int, row: OrderRow): Reply<()> {
    if s.remaining == 0 then Reply(None, s)
    else if id !in s.tables.orders then Reply(Some(()), Spend(s))
    else match StatusColumn(row.status)
      case None => Reply(None, Spend(s))
      case Some(status) =>
        Reply(Some(()), Spend(s).(tables := s.tables.(orders := s.tables.orders[id := row.(status := status)])))
  }

  function UpdatedItem(s: Session, id: int, row: ItemRow): Reply<()> {
    if s.remaining == 0 then Reply(None, s)
    else if id !in s.tables.items || s.tables.items[id].orderId != row.orderId then Reply(Some(()), Spend(s))
    else if !QuantityFits(row.quantity) then Reply(None, Spend(s))
    else Reply(Some(()), Spend(s).(tables := s.tables.(items := s.tables.items[id := row])))
  }

  /** Deleting an order deletes its items. */
  function DeletedOrder(s: Session, id: int): Reply<()> {
    if s.remaining == 0 then Reply(None, s)
    else Reply(Some(()), Spend(s).(tables := s.tables.(
      orders := s.tables.orders - {id},
      items := map i | i in s.tables.items && s.tables.items[i].orderId != id :: s.tables.items[i])))
  }

  function SelectedOrder(s: Session, id: int): Reply<Option<OrderRow>> {
    if s.remaining == 0 then Reply(None, s)
    else Reply(Some(if id in s.tables.orders then Some(s.tables.orders[id]) else None), Spend(s))
  }

  /** An order's items below an identifier, by ascending identifier. */
  function ItemsUpTo(items: map<int, ItemRow>, orderId: int, n: nat): seq<Item> {
    if n == 0 then []
    else ItemsUpTo(items, orderId, n - 1) +
         (if n - 1 in items && items[n - 1].orderId == orderId then [ItemAt(n - 1, items[n - 1])] else [])
  }

  function ItemsOf(t: Tables, orderId: int): seq<Item> {
    ItemsUpTo(t.items, orderId, t.nextItem)
  }

  function SelectedItems(s: Session, orderId: int): Reply<seq<Item>> {
    if s.remaining == 0 then Reply(None, s) else Reply(Some(ItemsOf(s.tables, orderId)), Spend(s))
  }

  /** The identifiers of the orders below `n`, ascending. */
  function OrdersUpTo(orders: map<int, OrderRow>, n: nat): seq<int> {
    if n == 0 then [] else OrdersUpTo(orders, n - 1) + (if n - 1 in orders then [n - 1] else [])
  }

  function SelectedOrders(s: Session): Reply<seq<int>> {
    if s.remaining == 0 then Reply(None, s)
    else Reply(Some(OrdersUpTo(s.tables.orders, s.tables.nextOrder)), Spend(s))
  }

  /** The connection the repository runs its statements on. */
  class Connection {
    var session: Session

    constructor (tables: Tables)
      ensures session == Session(tables, 0)
    {
      session := Session(tables, 0);
    }

    method InsertOrder(row: OrderRow) returns (result: Option<int>)
      modifies this
      ensures Reply(result, session) == InsertedOrder(old(session), row)
    {
      var reply := InsertedOrder(session, row);
      result, session := reply.result, reply.session;
    }

    method InsertItem(row: ItemRow) returns (result: Option<Item>)
      modifies this
      ensures Reply(result, session) == InsertedItem(old(session), row)
    {
      var reply := InsertedItem(session, row);
      result, session := reply.result, reply.session;
    }

    method UpdateOrder(id: int, row: OrderRow) returns (result: Option<()>)
      modifies this
      ensures Reply(result, session) == UpdatedOrder(old(session), id, row)
    {
      var reply := UpdatedOrder(session, id, row);
      result, session := reply.result, reply.session;
    }

    method UpdateItem(id: int, row: ItemRow) returns (result: Option<()>)
      modifies this
      ensures Reply(result, session) == UpdatedItem(old(session), id, row)
    {
      var reply := UpdatedItem(session, id, row);
      result, session := reply.result, reply.session;
    }

    method DeleteOrder(id: int) returns (result: Option<()>)
      modifies this
      ensures Reply(result, session) == DeletedOrder(old(session), id)
    {
      var reply := DeletedOrder(session, id);
      result, session := reply.result, reply.session;
    }

    method SelectOrder(id: int) returns (result: Option<Option<OrderRow>>)
      modifies this
      ensures Reply(result, session) == SelectedOrder(old(session), id)
    {
      var reply := SelectedOrder(session, id);
      result, session := reply.result, reply.session;
    }

    method SelectItems(orderId: int) returns (result: Option<seq<Item>>)
      modifies this
      ensures Reply(result, session) == SelectedItems(old(session), orderId)
    {
      var reply := SelectedItems(session, orderId);
      result, session := reply.result, reply.session;
    }

    method SelectOrders() returns (result: Option<seq<int>>)
      modifies this
      ensures Reply(result, session) == SelectedOrders(old(session))
    {
      var reply := SelectedOrders(session);
      result, session := reply.result, reply.session;
    }
  }

  // ---- What the repository does

  /** A reply to the rest of a list, with what was done before it. */
  function Prefixed<T>(done: seq<T>, rest: Reply<seq<T>>): (r: Reply<seq<T>>)
    ensures done == [] ==> r == rest
    ensures rest.result == Some([]) ==> r == Reply(Some(done), rest.session)
  {
    assert rest.result.Some? ==> [] + rest.result.value == rest.result.value && done + [] == done;
    match rest.result
    case None => rest
    case Some(tail) => Reply(Some(done + tail), rest.session)
  }

  function InsertedItems(s: Session, orderId: int, items: seq<Item>): Reply<seq<Item>>
    decreases items
  {
    if items == [] then Reply(Some([]), s)
    else
      var first := InsertedItem(s, RowOf(orderId, items[0]));
      if first.result.None? then Reply(None, first.session)
      else Prefixed([first.result.value], InsertedItems(first.session, orderId, items[1..]))
  }

  function Created(s: Session, order: OrderValue): Reply<OrderValue> {
    var inserted := InsertedOrder(s, OrderRow(order.customerId, order.status, order.total));
    if inserted.result.None? then Reply(None, inserted.session)
    else
      var id := inserted.result.value;
      var items := InsertedItems(inserted.session, id, order.items);
      if items.result.None? then Reply(None, items.session)
      else Reply(Some(order.(id := id, items := items.result.value)), items.session)
  }

  function OrderAt(t: Tables, id: int): OrderValue
    requires id in t.orders
  {
    var row := t.orders[id];
    OrderValue(id, row.customerId, row.status, row.total, ItemsOf(t, id))
  }

  function Loaded(s: Session, id: int): Reply<OrderValue> {
    var row := SelectedOrder(s, id);
    if row.result.None? || row.result.value.None? then Reply(None, row.session)
    else
      var items := SelectedItems(row.session, id);
      if items.result.None? then Reply(None, items.session)
      else Reply(Some(OrderAt(s.tables, id)), items.session)
  }

  function LoadedAll(s: Session, ids: seq<int>): Reply<seq<OrderValue>>
    requires forall id :: id in ids ==> id in s.tables.orders
    decreases ids
  {
    if ids == [] then Reply(Some([]), s)
    else
      var items := SelectedItems(s, ids[0]);
      if items.result.None? then Reply(None, items.session)
      else Prefixed([OrderAt(s.tables, ids[0])], LoadedAll(items.session, ids[1..]))
  }

  /** An item without an identifier is inserted, any other is written over its row. */
  function SavedItem(s: Session, orderId: int, item: Item): Reply<Item> {
    if item.id == 0 then InsertedItem(s, RowOf(orderId, item))
    else
      var updated := UpdatedItem(s, item.id, RowOf(orderId, item));
      Reply(if updated.result.None? then None else Some(item), updated.session)
  }

  function SavedItems(s: Session, orderId: int, items: seq<Item>): Reply<seq<Item>>
    decreases items
  {
    if items == [] then Reply(Some([]), s)
    else
      var first := SavedItem(s, orderId, items[0]);
      if first.result.None? then Reply(None, first.session)
      else Prefixed([first.result.value], SavedItems(first.session, orderId, items[1..]))
  }

  function Saved(s: Session, order: OrderValue): Reply<OrderValue> {
    var updated := UpdatedOrder(s, order.id, OrderRow(order.customerId, order.status, order.total));
    if updated.result.None? then Reply(None, updated.session)
    else
      var items := SavedItems(updated.session, order.id, order.items);
      if items.result.None? then Reply(None, items.session)
      else Reply(Some(order.(items := items.result.value)), items.session)
  }

  class PostgresOrderRepository {
    const runner: Connection

    constructor (runner: Connection)
      ensures this.runner == runner
    {
      this.runner := runner;
    }

    method Create(order: OrderValue) returns (result: Option<OrderValue>)
      modifies runner
      ensures Reply(result, runner.session) == Created(old(runner.session), order)
    {
      var id := runner.InsertOrder(OrderRow(order.customerId, order.status, order.total));
      if id.None? {
        return None;
      }
      var items: seq<Item> := [];
      assert order.items[0..] == order.items;
      ghost var inserted := runner.session;
      for i := 0 to |order.items|
        invariant InsertedItems(inserted, id.value, order.items) ==
                  Prefixed(items, InsertedItems(runner.session, id.value, order.items[i..]))
      {
        assert order.items[i..][1..] == order.items[i + 1..];
        var saved := runner.InsertItem(RowOf(id.value, order.items[i]));
        if saved.None? {
          return None;
        }
        ghost var rest := InsertedItems(runner.session, id.value, order.items[i + 1..]);
        assert Prefixed(items, Prefixed([saved.value], rest)) == Prefixed(items + [saved.value], rest) by {
          PrefixedTwice(items, [saved.value], rest);
        }
        items := items + [saved.value];
      }
      return Some(order.(id := id.value, items := items));
    }

    method GetByID(id: int) returns (result: Option<OrderValue>)
      modifies runner
      ensures Reply(result, runner.session) == Loaded(old(runner.session), id)
    {
      var row := runner.SelectOrder(id);
      if row.None? || row.value.None? {
        return None;
      }
      var items := runner.SelectItems(id);
      if items.None? {
        return None;
      }
      return Some(OrderValue(id, row.value.value.customerId, row.value.value.status, row.value.value.total, items.value));
    }

    method List() returns (result: Option<seq<OrderValue>>)
      modifies runner
      ensures Reply(result, runner.session) == Listed(old(runner.session))
    {
      OrdersAreStored(runner.session.tables.orders, runner.session.tables.nextOrder);
      var ids := runner.SelectOrders();
      if ids.None? {
        return None;
      }
      var orders: seq<OrderValue> := [];
      assert ids.value[0..] == ids.value;
      ghost var listing := runner.session;
      for i := 0 to |ids.value|
        invariant runner.session.tables == listing.tables
        invariant LoadedAll(listing, ids.value) == Prefixed(orders, LoadedAll(runner.session, ids.value[i..]))
      {
        assert ids.value[i..][1..] == ids.value[i + 1..];
        var id := ids.value[i];
        var items := runner.SelectItems(id);
        if items.None? {
          return None;
        }
        ghost var rest := LoadedAll(runner.session, ids.value[i + 1..]);
        var order := OrderAt(runner.session.tables, id).(items := items.value);
        PrefixedTwice(orders, [order], rest);
        orders := orders + [order];
      }
      return Some(orders);
    }

    method Update(order: OrderValue) returns (result: Option<OrderValue>)
      modifies runner
      ensures Reply(result, runner.session) == Saved(old(runner.session), order)
    {
      var updated := runner.UpdateOrder(order.id, OrderRow(order.customerId, order.status, order.total));
      if updated.None? {
        return None;
      }
      var items := order.items;
      assert items[0..] == items;
      ghost var started := runner.session;
      for i := 0 to |items|
        invariant |items| == |order.items| && items[i..] == order.items[i..]
        invariant SavedItems(started, order.id, order.items) ==
                  Prefixed(items[..i], SavedItems(runner.session, order.id, items[i..]))
      {
        var item := items[i];
        assert items[i..][1..] == items[i + 1..];
        ghost var before := items[..i];
        if item.id == 0 {
          var saved := runner.InsertItem(RowOf(order.id, item));
          if saved.None? {
            return None;
          }
          items := items[i := saved.value];
        } else {
          var written := runner.UpdateItem(item.id, RowOf(order.id, item));
          if written.None? {
            return None;
          }
        }
        PrefixedTwice(before, [items[i]], SavedItems(runner.session, order.id, items[i + 1..]));
        assert items[..i + 1] == before + [items[i]];
      }
      assert items[..|items|] == items;
      return Some(order.(items := items));
    }

    method Delete(id: int) returns (result: Option<()>)
      modifies runner
      ensures Reply(result, runner.session) == DeletedOrder(old(runner.session), id)
    {
      result := runner.DeleteOrder(id);
    }
  }

  lemma {:induction false} PrefixedTwice<T>(a: seq<T>, b: seq<T>, rest: Reply<seq<T>>)
    ensures Prefixed(a, Prefixed(b, rest)) == Prefixed(a + b, rest)
  {
    if rest.result.Some? {
      assert a + (b + rest.result.value) == (a + b) + rest.result.value;
    }
  }

  function Listed(s: Session): Reply<seq<OrderValue>>
  {
    OrdersAreStored(s.tables.orders, s.tables.nextOrder);
    var ids := SelectedOrders(s);
    if ids.result.None? then Reply(None, ids.session)
    else LoadedAll(ids.session, ids.result.value)
  }

  // ---- What a listing holds

  /** Every stored identifier was handed out by its sequence. */
  predicate NextIsFresh(t: Tables) {
    && (forall id :: id in t.orders ==> 0 < id < t.nextOrder)
    && (forall id :: id in t.items ==> 0 < id < t.nextItem)
  }

  lemma {:induction false} OrdersAreStored(orders: map<int, OrderRow>, n: nat)
    ensures forall id :: id in OrdersUpTo(orders, n) <==> id in orders && 0 <= id < n
  {
    if n > 0 {
      OrdersAreStored(orders, n - 1);
    }
  }

  /** The items listed for an order are its rows. */
  lemma {:induction false} ItemsAreStored(items: map<int, ItemRow>, orderId: int, n: nat, item: Item)
    ensures item in ItemsUpTo(items, orderId, n) <==>
            0 <= item.id < n && item.id in items && item == ItemAt(item.id, items[item.id]) && item.orderId == orderId
  {
    if n > 0 {
      ItemsAreStored(items, orderId, n - 1, item);
    }
  }

  predicate Ascending(items: seq<Item>) {
    forall i, k :: 0 <= i < k < |items| ==> items[i].id < items[k].id
  }

  lemma {:induction false} ItemsAscend(items: map<int, ItemRow>, orderId: int, n: nat)
    ensures Ascending(ItemsUpTo(items, orderId, n))
  {
    if n > 0 {
      ItemsAscend(items, orderId, n - 1);
      var before := ItemsUpTo(items, orderId, n - 1);
      forall i | 0 <= i < |before|
        ensures before[i].id < n - 1
      {
        ItemsAreStored(items, orderId, n - 1, before[i]);
      }
    }
  }

  /** Rows of other orders make no difference to an order's items. */
  lemma {:induction false} ItemsFrame(a: map<int, ItemRow>, b: map<int, ItemRow>, orderId: int, n: nat)
    requires forall id :: 0 <= id < n ==>
               ((id in a && a[id].orderId == orderId) <==> (id in b && b[id].orderId == orderId))
    requires forall id :: 0 <= id < n && id in a && a[id].orderId == orderId ==> a[id] == b[id]
    ensures ItemsUpTo(a, orderId, n) == ItemsUpTo(b, orderId, n)
  {
    if n > 0 {
      ItemsFrame(a, b, orderId, n - 1);
    }
  }

  /** A listing holds every stored order once, each as reading it by itself would give it. */
  lemma {:induction false} ListedIsEveryOrder(s: Session)
    requires NextIsFresh(s.tables) && Listed(s).result.Some?
    ensures var orders := Listed(s).result.value;
            var ids := OrdersUpTo(s.tables.orders, s.tables.nextOrder);
            && |orders| == |ids|
            && (forall i :: 0 <= i < |ids| ==>
                  ids[i] in s.tables.orders && Loaded(Session(s.tables, 2), ids[i]).result == Some(orders[i]))
            && (forall id :: id in s.tables.orders <==> id in ids)
            && (forall i, k :: 0 <= i < k < |ids| ==> ids[i] < ids[k])
  {
    var ids := OrdersUpTo(s.tables.orders, s.tables.nextOrder);
    OrdersAreStored(s.tables.orders, s.tables.nextOrder);
    LoadedAllIsEach(Spend(s), ids);
    OrdersAscend(s.tables.orders, s.tables.nextOrder);
  }

  lemma {:induction false} OrdersAscend(orders: map<int, OrderRow>, n: nat)
    ensures forall i, k :: 0 <= i < k < |OrdersUpTo(orders, n)| ==> OrdersUpTo(orders, n)[i] < OrdersUpTo(orders, n)[k]
  {
    if n > 0 {
      OrdersAscend(orders, n - 1);
      OrdersAreStored(orders, n - 1);
      var before := OrdersUpTo(orders, n - 1);
      assert forall i :: 0 <= i < |before| ==> before[i] in before;
    }
  }

  lemma {:induction false} LoadedAllIsEach(s: Session, ids: seq<int>)
    requires forall id :: id in ids ==> id in s.tables.orders
    requires LoadedAll(s, ids).result.Some?
    ensures var orders := LoadedAll(s, ids).result.value;
            |orders| == |ids| && forall i :: 0 <= i < |ids| ==> orders[i] == OrderAt(s.tables, ids[i])
    decreases ids
  {
    hide OrderAt, ItemsUpTo;
    if ids != [] {
      LoadedAllIsEach(Spend(s), ids[1..]);
    }
  }
}
