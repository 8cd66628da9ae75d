/** The order aggregate: its methods update it in place and keep the total incrementally. */
module OrderAggregate {
  import opened Common
  import opened GoInts

  datatype OrderError =
    | InvalidCustomerId
    | OrderEmpty
    | InvalidProductId
    | InvalidQuantity
    | InvalidPrice
    | ItemNotFound
    | OrderNotFound(orderId: int)
    | StatusRequired
    | StoreFailed

  datatype Item = Item(id: int, orderId: int, productId: int, quantity: int, unitPrice: int, subtotal: int)

  /** The fields of an order. */
  datatype OrderValue = OrderValue(id: int, customerId: int, status: string, total: int, items: seq<Item>)

  function Charge(item: Item): int {
    Wrap64(item.quantity * item.unitPrice)
  }

  // ---- What each operation does to the fields

  function Fault(item: Item): Option<OrderError> {
    if item.productId <= 0 then Some(InvalidProductId)
    else if item.quantity <= 0 then Some(InvalidQuantity)
    else if item.unitPrice <= 0 then Some(InvalidPrice)
    else None
  }

  function Added(o: OrderValue, item: Item): Result<OrderValue, OrderError> {
    match Fault(item)
    case Some(e) => Err(e)
    case None =>
      var priced := item.(subtotal := Charge(item));
      Ok(o.(items := o.items + [priced], total := Wrap64(o.total + priced.subtotal)))
  }

  function AddedAll(o: OrderValue, items: seq<Item>): Result<OrderValue, OrderError>
    decreases items
  {
    if items == [] then Ok(o)
    else match Added(o, items[0])
      case Err(e) => Err(e)
      case Ok(next) => AddedAll(next, items[1..])
  }

  function Placed(customerId: int, items: seq<Item>): Result<OrderValue, OrderError> {
    if customerId <= 0 then Err(InvalidCustomerId)
    else if items == [] then Err(OrderEmpty)
    else AddedAll(OrderValue(0, customerId, "pending", 0, []), items)
  }

  /** The first position of an item identifier, the length when there is none. */
  function Position(items: seq<Item>, itemId: int): (p: nat)
    ensures p <= |items|
    ensures p < |items| ==> items[p].id == itemId
    ensures forall i :: 0 <= i < p ==> items[i].id != itemId
  {
    if items == [] || items[0].id == itemId then 0 else Position(items[1..], itemId) + 1
  }

  lemma {:induction false} PositionIs(items: seq<Item>, itemId: int, i: nat)
    requires i < |items| && items[i].id == itemId
    requires forall k :: 0 <= k < i ==> items[k].id != itemId
    ensures Position(items, itemId) == i
  {
  }

  function Without(o: OrderValue, itemId: int): Result<OrderValue, OrderError> {
    var p := Position(o.items, itemId);
    if p == |o.items| then Err(ItemNotFound)
    else Ok(o.(items := o.items[..p] + o.items[p + 1..], total := Wrap64(o.total - o.items[p].subtotal)))
  }

  function PatchFault(quantity: Option<int>, unitPrice: Option<int>): Option<OrderError> {
    if quantity.Some? && quantity.value <= 0 then Some(InvalidQuantity)
    else if unitPrice.Some? && unitPrice.value <= 0 then Some(InvalidPrice)
    else None
  }

  /** An item with its new quantity and price, charged anew. */
  function PatchedItem(item: Item, quantity: Option<int>, unitPrice: Option<int>): Item {
    var next := item.(
      quantity := if quantity.Some? then quantity.value else item.quantity,
      unitPrice := if unitPrice.Some? then unitPrice.value else item.unitPrice);
    next.(subtotal := Charge(next))
  }

  function Patched(o: OrderValue, itemId: int, quantity: Option<int>, unitPrice: Option<int>)
    : Result<OrderValue, OrderError>
  {
    var p := Position(o.items, itemId);
    if p == |o.items| then Err(ItemNotFound)
    else if quantity.None? && unitPrice.None? then Ok(o)
    else match PatchFault(quantity, unitPrice)
      case Some(e) => Err(e)
      case None =>
        var next := PatchedItem(o.items[p], quantity, unitPrice);
        Ok(o.(items := o.items[p := next],
              total := Wrap64(o.total + Wrap64(next.subtotal - o.items[p].subtotal))))
  }

  /** A mutation either does what `spec` says or reports the error and leaves the order as it was. */
  predicate Carried(
    before: OrderValue, spec: Result<OrderValue, OrderError>, after: OrderValue, e: Option<OrderError>)
  {
    match spec
    case Ok(value) => e == None && after == value
    case Err(reason) => e == Some(reason) && after == before
  }

  // ---- The object

  class Order {
    var id: int
    var customerId: int
    var status: string
    var total: int
    var items: seq<Item>

    constructor (value: OrderValue)
      ensures Value() == value
    {
      id, customerId, status, total, items := value.id, value.customerId, value.status, value.total, value.items;
    }

    function Value(): OrderValue
      reads this
    {
      OrderValue(id, customerId, status, total, items)
    }

    method AddItem(item: Item) returns (e: Option<OrderError>)
      modifies this
      ensures Carried(old(Value()), Added(old(Value()), item), Value(), e)
    {
      if item.productId <= 0 {
        return Some(InvalidProductId);
      }
      if item.quantity <= 0 {
        return Some(InvalidQuantity);
      }
      if item.unitPrice <= 0 {
        return Some(InvalidPrice);
      }
      var priced := item.(subtotal := Charge(item));
      items := items + [priced];
      total := Wrap64(total + priced.subtotal);
      return None;
    }

    method RemoveItem(itemId: int) returns (e: Option<OrderError>)
      modifies this
      ensures Carried(old(Value()), Without(old(Value()), itemId), Value(), e)
    {
      for i := 0 to |items|
        invariant Value() == old(Value())
        invariant forall k :: 0 <= k < i ==> items[k].id != itemId
      {
        if items[i].id == itemId {
          PositionIs(items, itemId, i);
          var removedSubtotal := items[i].subtotal;
          items := items[..i] + items[i + 1..];
          total := Wrap64(total - removedSubtotal);
          return None;
        }
      }
      return Some(ItemNotFound);
    }

    method UpdateItem(itemId: int, quantity: Option<int>, unitPrice: Option<int>) returns (e: Option<OrderError>)
      modifies this
      ensures Carried(old(Value()), Patched(old(Value()), itemId, quantity, unitPrice), Value(), e)
    {
      for i := 0 to |items|
        invariant Value() == old(Value())
        invariant forall k :: 0 <= k < i ==> items[k].id != itemId
      {
        if items[i].id == itemId {
          PositionIs(items, itemId, i);
          if quantity.None? && unitPrice.None? {
            return None;
          }
          var oldSubtotal, newQuantity, newUnitPrice := items[i].subtotal, items[i].quantity, items[i].unitPrice;
          if quantity.Some? {
            if quantity.value <= 0 {
              return Some(InvalidQuantity);
            }
            newQuantity := quantity.value;
          }
          if unitPrice.Some? {
            if unitPrice.value <= 0 {
              return Some(InvalidPrice);
            }
            newUnitPrice := unitPrice.value;
          }
          items := items[i := items[i].(quantity := newQuantity, unitPrice := newUnitPrice,
                                        subtotal := Wrap64(newQuantity * newUnitPrice))];
          total := Wrap64(total + Wrap64(items[i].subtotal - oldSubtotal));
          return None;
        }
      }
      return Some(ItemNotFound);
    }

    method UpdateStatus(newStatus: string)
      modifies this
      ensures Value() == old(Value()).(status := newStatus)
    {
      status := newStatus;
    }
  }

  /** A new order, or the first fault found. */
  method NewOrder(customerId: int, items: seq<Item>) returns (r: Result<Order, OrderError>)
    ensures r.Ok? ==> fresh(r.value) && Placed(customerId, items) == Ok(r.value.Value())
    ensures r.Err? ==> Placed(customerId, items) == Err(r.error)
  {
    if customerId <= 0 {
      return Err(InvalidCustomerId);
    }
    if |items| == 0 {
      return Err(OrderEmpty);
    }
    var order := new Order(OrderValue(0, customerId, "pending", 0, []));
    for idx := 0 to |items|
      invariant fresh(order)
      invariant Placed(customerId, items) == AddedAll(order.Value(), items[idx..])
    {
      var item := items[idx];
      assert items[idx..][0] == item && items[idx..][1..] == items[idx + 1..];
      if item.productId <= 0 {
        return Err(InvalidProductId);
      }
      if item.quantity <= 0 {
        return Err(InvalidQuantity);
      }
      if item.unitPrice <= 0 {
        return Err(InvalidPrice);
      }
      item := item.(subtotal := Charge(item));
      order.items := order.items + [item];
      order.total := Wrap64(order.total + item.subtotal);
    }
    return Ok(order);
  }

  // ---- Totals

  function Sum(items: seq<Item>, value: Item -> int): int {
    if items == [] then 0 else value(items[0]) + Sum(items[1..], value)
  }

  lemma {:induction false} SumJoined(a: seq<Item>, b: seq<Item>, value: Item -> int)
    ensures Sum(a + b, value) == Sum(a, value) + Sum(b, value)
  {
    if a == [] {
      assert a + b == b;
    } else {
      SumJoined(a[1..], b, value);
      assert (a + b)[1..] == a[1..] + b;
    }
  }

  function Cost(item: Item): int {
    item.quantity * item.unitPrice
  }

  /** What the items cost, without wrap-around. */
  function AmountDue(items: seq<Item>): int {
    Sum(items, Cost)
  }

  /** Every subtotal is its item's charge and the total is the wrapped amount due. */
  ghost predicate Honest(o: OrderValue) {
    && (forall i :: 0 <= i < |o.items| ==> o.items[i].subtotal == Charge(o.items[i]))
    && o.total == Wrap64(AmountDue(o.items))
  }

  /** `items` with the one at `p` replaced by the items `put`. */
  function Spliced(items: seq<Item>, p: nat, put: seq<Item>): seq<Item>
    requires p < |items|
  {
    items[..p] + put + items[p + 1..]
  }

  lemma {:induction false} SumSpliced(items: seq<Item>, p: nat, put: seq<Item>, value: Item -> int)
    requires p < |items|
    ensures Sum(Spliced(items, p, put), value) == Sum(items, value) - value(items[p]) + Sum(put, value)
  {
    assert items == items[..p] + [items[p]] + items[p + 1..];
    SumJoined(items[..p] + [items[p]], items[p + 1..], value);
    SumJoined(items[..p], [items[p]], value);
    SumJoined(items[..p] + put, items[p + 1..], value);
    SumJoined(items[..p], put, value);
  }

  lemma {:induction false} AddedIsHonest(o: OrderValue, item: Item)
    requires Honest(o)
    ensures Added(o, item).Ok? ==> Honest(Added(o, item).value)
  {
    if Fault(item).None? {
      var priced := item.(subtotal := Charge(item));
      SumJoined(o.items, [priced], Cost);
      WrapSum(AmountDue(o.items), Wrap64(item.quantity * item.unitPrice));
      WrapSum(AmountDue(o.items), item.quantity * item.unitPrice);
    }
  }

  lemma {:induction false} WithoutIsHonest(o: OrderValue, itemId: int)
    requires Honest(o)
    ensures Without(o, itemId).Ok? ==> Honest(Without(o, itemId).value)
  {
    hide Wrap64;
    var p := Position(o.items, itemId);
    if p < |o.items| {
      var gone := o.items[p];
      SumSpliced(o.items, p, [], Cost);
      assert Spliced(o.items, p, []) == o.items[..p] + o.items[p + 1..];
      WrapSum(AmountDue(o.items), -Wrap64(gone.quantity * gone.unitPrice));
      WrapSum(AmountDue(o.items), gone.quantity * gone.unitPrice);
    }
  }

  /** Swapping one charge for another in a wrapped total. */
  lemma {:induction false} WrapSwap(t: int, gained: int, lost: int)
    ensures Wrap64(Wrap64(t) + Wrap64(Wrap64(gained) - Wrap64(lost))) == Wrap64(t + gained - lost)
  {
    hide Wrap64;
    WrapSum(t, Wrap64(Wrap64(gained) - Wrap64(lost)));
    WrapSum(t, Wrap64(gained) - Wrap64(lost));
    WrapSum(t + Wrap64(gained), lost);
    WrapSum(t - lost, gained);
  }

  lemma {:induction false} PatchedIsHonest(o: OrderValue, itemId: int, quantity: Option<int>, unitPrice: Option<int>)
    requires Honest(o)
    ensures Patched(o, itemId, quantity, unitPrice).Ok? ==> Honest(Patched(o, itemId, quantity, unitPrice).value)
  {
    hide Wrap64;
    var p := Position(o.items, itemId);
    if p < |o.items| {
      var was, next := o.items[p], PatchedItem(o.items[p], quantity, unitPrice);
      SumSpliced(o.items, p, [next], Cost);
      assert Spliced(o.items, p, [next]) == o.items[p := next];
      WrapSwap(AmountDue(o.items), next.quantity * next.unitPrice, was.quantity * was.unitPrice);
    }
  }

  lemma {:induction false} AddedAllIsHonest(o: OrderValue, items: seq<Item>)
    requires Honest(o)
    ensures AddedAll(o, items).Ok? ==> Honest(AddedAll(o, items).value)
    decreases items
  {
    if items != [] {
      AddedIsHonest(o, items[0]);
      if Added(o, items[0]).Ok? {
        AddedAllIsHonest(Added(o, items[0]).value, items[1..]);
      }
    }
  }

  /** An order is placed exactly when the customer is valid and there are items, none of them at fault. */
  lemma {:induction false} AddedAllIff(o: OrderValue, items: seq<Item>)
    ensures AddedAll(o, items).Ok? <==> forall i :: 0 <= i < |items| ==> Fault(items[i]).None?
    ensures AddedAll(o, items).Err? ==>
              exists i :: 0 <= i < |items| && Fault(items[i]) == Some(AddedAll(o, items).error)
                          && forall k :: 0 <= k < i ==> Fault(items[k]).None?
    decreases items
  {
    if items != [] && Fault(items[0]).None? {
      var next := Added(o, items[0]).value;
      AddedAllIff(next, items[1..]);
      if AddedAll(next, items[1..]).Err? {
        var i :| 0 <= i < |items[1..]| && Fault(items[1..][i]) == Some(AddedAll(next, items[1..]).error)
                 && forall k :: 0 <= k < i ==> Fault(items[1..][k]).None?;
        assert forall k :: 0 <= k < i + 1 ==> Fault(items[k]).None?;
        assert Fault(items[i + 1]) == Some(AddedAll(o, items).error);
      } else {
        assert forall k :: 0 < k < |items| ==> items[k] == items[1..][k - 1];
      }
    }
  }

  // ---- Runs

  datatype Call =
    | Add(item: Item)
    | Remove(itemId: int)
    | Patch(itemId: int, quantity: Option<int>, unitPrice: Option<int>)
    | SetStatus(status: string)

  function Applied(o: OrderValue, call: Call): Result<OrderValue, OrderError> {
    match call
    case Add(item) => Added(o, item)
    case Remove(itemId) => Without(o, itemId)
    case Patch(itemId, quantity, unitPrice) => Patched(o, itemId, quantity, unitPrice)
    case SetStatus(status) => Ok(o.(status := status))
  }

  function After(o: OrderValue, call: Call): OrderValue {
    match Applied(o, call)
    case Ok(next) => next
    case Err(_) => o
  }

  function Run(o: OrderValue, calls: seq<Call>): OrderValue
    decreases calls
  {
    if calls == [] then o else Run(After(o, calls[0]), calls[1..])
  }

  lemma {:induction false} RunIsHonest(o: OrderValue, calls: seq<Call>)
    requires Honest(o)
    ensures Honest(Run(o, calls))
    decreases calls
  {
    if calls != [] {
      match calls[0] {
        case Add(item) => AddedIsHonest(o, item);
        case Remove(itemId) => WithoutIsHonest(o, itemId);
        case Patch(itemId, quantity, unitPrice) => PatchedIsHonest(o, itemId, quantity, unitPrice);
        case SetStatus(_) =>
      }
      RunIsHonest(After(o, calls[0]), calls[1..]);
    }
  }

  /**
   However a placed order is changed, its total is the amount due wrapped to 64 bits,
   and is that amount whenever it fits.
   */
  lemma {:induction false} TotalsAgree(customerId: int, items: seq<Item>, calls: seq<Call>)
    requires Placed(customerId, items).Ok?
    ensures var o := Run(Placed(customerId, items).value, calls);
            && o.total == Wrap64(AmountDue(o.items))
            && (IsInt64(AmountDue(o.items)) ==> o.total == AmountDue(o.items))
            && (forall i :: 0 <= i < |o.items| ==> o.items[i].subtotal == Charge(o.items[i]))
  {
    var empty := OrderValue(0, customerId, "pending", 0, []);
    assert Honest(empty);
    AddedAllIsHonest(empty, items);
    RunIsHonest(Placed(customerId, items).value, calls);
  }

  /** Removing an item undoes adding it. */
  lemma {:induction false} RemoveUndoesAdd(o: OrderValue, item: Item)
    requires IsInt64(o.total) && Fault(item).None?
    requires forall i :: 0 <= i < |o.items| ==> o.items[i].id != item.id
    ensures Without(Added(o, item).value, item.id) == Ok(o)
  {
    var added := Added(o, item).value;
    var s := Charge(item);
    PositionIs(added.items, item.id, |o.items|);
    assert added.items[..|o.items|] + added.items[|o.items| + 1..] == o.items;
    WrapSum(o.total + s, -s);
  }

  /** Removing an item leaves every item with another identifier, in the order they were in. */
  lemma {:induction false} WithoutKeepsTheRest(o: OrderValue, itemId: int, i: nat, k: nat)
    requires Without(o, itemId).Ok?
    requires i < k < |o.items| && o.items[i].id != itemId && o.items[k].id != itemId
    ensures var rest := Without(o, itemId).value.items;
            exists x, y :: 0 <= x < y < |rest| && rest[x] == o.items[i] && rest[y] == o.items[k]
  {
    var p := Position(o.items, itemId);
    var x, y := if i < p then i else i - 1, if k < p then k else k - 1;
    var rest := Without(o, itemId).value.items;
    assert rest[x] == o.items[i] && rest[y] == o.items[k];
  }
}
