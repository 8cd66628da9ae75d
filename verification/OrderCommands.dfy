/** The six order commands, each run in one transaction. */
module OrderCommands {
  import opened Common
  import opened OrderAggregate
  import opened OrderTables

  datatype Line = Line(productId: int, quantity: int, unitPrice: int)

  datatype Command =
    | CreateOrder(customerId: int, lines: seq<Line>)
    | AddOrderItem(orderId: int, line: Line)
    | RemoveOrderItem(orderId: int, itemId: int)
    | UpdateOrderItem(orderId: int, itemId: int, quantity: Option<int>, unitPrice: Option<int>)
    | UpdateOrderStatus(orderId: int, status: string)
    | DeleteOrder(orderId: int)

  /** What a handler runs inside its transaction. */
  datatype Work =
    | Insert(order: OrderValue)
    | Change(orderId: int, call: Call)
    | Erase(orderId: int)

  /** How the database behaves during one command. */
  datatype Conditions = Conditions(begins: bool, statements: nat, commits: bool)

  datatype Answer = Stored(order: OrderValue) | Erased | Failed(error: OrderError)

  function NewItem(line: Line): Item {
    Item(0, 0, line.productId, line.quantity, line.unitPrice, 0)
  }

  function NewItems(lines: seq<Line>): (items: seq<Item>)
    ensures |items| == |lines|
  {
    seq(|lines|, i requires 0 <= i < |lines| => NewItem(lines[i]))
  }

  /** The checks a handler makes before it opens a transaction, and the work it then does. */
  function Planned(cmd: Command): Result<Work, OrderError> {
    match cmd
    case CreateOrder(customerId, lines) =>
      (match Placed(customerId, NewItems(lines)) case Ok(order) => Ok(Insert(order)) case Err(e) => Err(e))
    case AddOrderItem(orderId, line) => Ok(Change(orderId, Add(NewItem(line))))
    case RemoveOrderItem(orderId, itemId) => Ok(Change(orderId, Remove(itemId)))
    case UpdateOrderItem(orderId, itemId, quantity, unitPrice) =>
      Ok(Change(orderId, Patch(itemId, quantity, unitPrice)))
    case UpdateOrderStatus(orderId, status) =>
      if status == "" then Err(StatusRequired) else Ok(Change(orderId, SetStatus(status)))
    case DeleteOrder(orderId) => Ok(Erase(orderId))
  }

  datatype Effect = Effect(answer: Answer, session: Session)

  /** The transaction body: load, change, write back. */
  function Worked(s: Session, work: Work): Effect {
    match work
    case Insert(order) =>
      var created := Created(s, order);
      Effect(if created.result.None? then Failed(StoreFailed) else Stored(created.result.value), created.session)
    case Change(orderId, call) =>
      var loaded := Loaded(s, orderId);
      if loaded.result.None? then Effect(Failed(OrderNotFound(orderId)), loaded.session)
      else (match Applied(loaded.result.value, call)
        case Err(e) => Effect(Failed(e), loaded.session)
        case Ok(order) =>
          var saved := Saved(loaded.session, order);
          Effect(if saved.result.None? then Failed(StoreFailed) else Stored(saved.result.value), saved.session))
    case Erase(orderId) =>
      var loaded := Loaded(s, orderId);
      if loaded.result.None? then Effect(Failed(OrderNotFound(orderId)), loaded.session)
      else
        var deleted := DeletedOrder(loaded.session, orderId);
        Effect(if deleted.result.None? then Failed(StoreFailed) else Erased, deleted.session)
  }

  /** Rolling back restores the rows; identifiers handed out stay handed out. */
  function RolledBack(before: Tables, after: Tables): Tables {
    before.(nextOrder := after.nextOrder, nextItem := after.nextItem)
  }

  /** The work done as one transaction. */
  function InTx(t: Tables, work: Work, conditions: Conditions): (Answer, Tables) {
    if !conditions.begins then (Failed(StoreFailed), t)
    else
      var effect := Worked(Session(t, conditions.statements), work);
      if effect.answer.Failed? then (effect.answer, RolledBack(t, effect.session.tables))
      else if !conditions.commits then (Failed(StoreFailed), RolledBack(t, effect.session.tables))
      else (effect.answer, effect.session.tables)
  }

  /** A command's answer and the tables after it. */
  function Handled(t: Tables, cmd: Command, conditions: Conditions): (Answer, Tables) {
    match Planned(cmd)
    case Err(e) => (Failed(e), t)
    case Ok(work) => InTx(t, work, conditions)
  }

  class OrderService {
    const runner: Connection
    const orders: PostgresOrderRepository

    ghost predicate Valid() {
      orders.runner == runner
    }

    constructor (runner: Connection, orders: PostgresOrderRepository)
      requires orders.runner == runner
      ensures Valid() && this.runner == runner
    {
      this.runner, this.orders := runner, orders;
    }

    method Handle(cmd: Command, conditions: Conditions) returns (answer: Answer)
      requires Valid()
      modifies runner
      ensures (answer, runner.session.tables) == Handled(old(runner.session.tables), cmd, conditions)
    {
      match cmd {
        case CreateOrder(customerId, lines) =>
          answer := CreateOrderHandler(customerId, lines, conditions);
        case AddOrderItem(orderId, line) =>
          answer := RunInTx(Change(orderId, Add(NewItem(line))), conditions);
        case RemoveOrderItem(orderId, itemId) =>
          answer := RunInTx(Change(orderId, Remove(itemId)), conditions);
        case UpdateOrderItem(orderId, itemId, quantity, unitPrice) =>
          answer := RunInTx(Change(orderId, Patch(itemId, quantity, unitPrice)), conditions);
        case UpdateOrderStatus(orderId, status) =>
          if status == "" {
            return Failed(StatusRequired);
          }
          answer := RunInTx(Change(orderId, SetStatus(status)), conditions);
        case DeleteOrder(orderId) =>
          answer := RunInTx(Erase(orderId), conditions);
      }
    }

    method CreateOrderHandler(customerId: int, lines: seq<Line>, conditions: Conditions) returns (answer: Answer)
      requires Valid()
      modifies runner
      ensures (answer, runner.session.tables) ==
              Handled(old(runner.session.tables), CreateOrder(customerId, lines), conditions)
    {
      if customerId <= 0 {
        return Failed(InvalidCustomerId);
      }
      if |lines| == 0 {
        return Failed(OrderEmpty);
      }
      var domainItems: seq<Item> := [];
      for i := 0 to |lines|
        invariant runner.session == old(runner.session)
        invariant domainItems == NewItems(lines[..i])
      {
        domainItems := domainItems + [NewItem(lines[i])];
      }
      assert lines[..|lines|] == lines;
      var order := NewOrder(customerId, domainItems);
      if order.Err? {
        return Failed(order.error);
      }
      answer := RunInTx(Insert(order.value.Value()), conditions);
    }

    /** Begin, run the work, then commit, or roll back when it failed. */
    method RunInTx(work: Work, conditions: Conditions) returns (answer: Answer)
      requires Valid()
      modifies runner
      ensures (answer, runner.session.tables) == InTx(old(runner.session.tables), work, conditions)
    {
      if !conditions.begins {
        return Failed(StoreFailed);
      }
      var before := runner.session.tables;
      runner.session := Session(before, conditions.statements);
      answer := Perform(work);
      if answer.Failed? {
        runner.session := runner.session.(tables := RolledBack(before, runner.session.tables));
        return;
      }
      if !conditions.commits {
        runner.session := runner.session.(tables := RolledBack(before, runner.session.tables));
        return Failed(StoreFailed);
      }
    }

    method Perform(work: Work) returns (answer: Answer)
      requires Valid()
      modifies runner
      ensures Effect(answer, runner.session) == Worked(old(runner.session), work)
    {
      match work {
        case Insert(order) =>
          var created := orders.Create(order);
          return if created.None? then Failed(StoreFailed) else Stored(created.value);
        case Change(orderId, call) =>
          answer := ChangeOrder(orderId, call);
        case Erase(orderId) =>
          var loaded := orders.GetByID(orderId);
          if loaded.None? {
            return Failed(OrderNotFound(orderId));
          }
          var deleted := orders.Delete(orderId);
          return if deleted.None? then Failed(StoreFailed) else Erased;
      }
    }

    /** The body the add, remove, update and status handlers share: they differ in the call on the order. */
    method ChangeOrder(orderId: int, call: Call) returns (answer: Answer)
      requires Valid()
      modifies runner
      ensures Effect(answer, runner.session) == Worked(old(runner.session), Change(orderId, call))
    {
      var loaded := orders.GetByID(orderId);
      if loaded.None? {
        return Failed(OrderNotFound(orderId));
      }
      var order := new Order(loaded.value);
      var fault: Option<OrderError> := None;
      match call {
        case Add(item) => fault := order.AddItem(item);
        case Remove(itemId) => fault := order.RemoveItem(itemId);
        case Patch(itemId, quantity, unitPrice) => fault := order.UpdateItem(itemId, quantity, unitPrice);
        case SetStatus(status) => order.UpdateStatus(status);
      }
      if fault.Some? {
        return Failed(fault.value);
      }
      var saved := orders.Update(order.Value());
      return if saved.None? then Failed(StoreFailed) else Stored(saved.value);
    }
  }
}
