/**
 The driver and the server's record together, each on its own clock. A lookup the driver sends may reach the
 server at any time before it is answered, while other requests register, save and look at traces of their own.
 */
module ShowcaseSystem {
  import opened Common
  import opened RequestFlow
  import opened ShowcaseDriver
  import opened ShowcaseRuns
  import R = TraceRegistry

  /** The browser's reading and the server's. */
  datatype Clocks = Clocks(browser: int, server: int)

  /** `pending` while the lookup last sent has not reached the server; `asked` when the last one was granted a query. */
  datatype System = System(driver: State, record: Option<R.ActiveTrace>, pending: bool, asked: Option<Clocks>)

  datatype Move =
    | Drive(act: Act)
    | Serve(event: R.Event)
    | Arrive

  datatype Timed = Timed(at: Clocks, move: Move)

  /** The trace the driver is looking up, if it is. */
  function LookedUp(s: State): Option<string> {
    if |s.cycles| == 1 && s.cycles[0].result.Some? then Some(s.cycles[0].result.value.traceId) else None
  }

  function After(y: System, t: Timed): System {
    match t.move
    case Drive(act) =>
      var next := Next(y.driver, Event(t.at.browser, act));
      System(next, y.record,
             |next.cycles| == 1 && next.cycles[0].wait.ForAnswer?
             && (y.pending || (act.LookUp? && |y.driver.cycles| == 1 && !y.driver.cycles[0].wait.ForAnswer?)),
             y.asked)
    case Serve(event) => y.(record := R.Next(y.record, event))
    case Arrive =>
      var id := LookedUp(y.driver);
      if !y.pending || id.None? then y
      else
        var record, now := R.Live(y.record, t.at.server), t.at.server;
        y.(record := R.Queried(record, id.value, now), pending := false,
           asked := if R.Granted(record, id.value, now).Some? then Some(t.at) else y.asked)
  }

  /**
   What the surroundings may do: the browser's clock does not go back, nobody else queries the trace looked up, and
   a response names a trace that has not been queried.
   */
  ghost predicate Allowed(y: System, t: Timed, before: int) {
    && before <= t.at.browser
    && match t.move
       case Serve(event) => event.now == t.at.server && (event.Query? ==> LookedUp(y.driver) != Some(event.traceId))
       case Drive(Respond(_, result)) =>
         y.record.Some? && y.record.value.id == result.traceId ==>
           y.record.value.queries == 0 && y.record.value.lastQueryAt.None?
       case _ => true
  }

  /** Where the record stands when it is the trace being looked up. */
  ghost predicate Paced(y: System, now: int) {
    var id := LookedUp(y.driver);
    id.Some? && y.record.Some? && y.record.value.id == id.value ==>
      var c, a := y.driver.cycles[0], y.record.value;
      && a.queries + (if y.pending then 1 else 0) <= |c.lookups|
      && (a.lastQueryAt.Some? ==>
            && y.asked.Some? && a.lastQueryAt.value == y.asked.value.server
            && y.asked.value.browser <= now
            && (c.wait.ForLookup? ==> y.asked.value.browser <= c.wait.since)
            && (y.pending ==> y.asked.value.browser + TRACE_POLL_INTERVAL_MS <= c.lookups[|c.lookups| - 1]))
  }

  ghost predicate SystemInv(y: System, now: int) {
    && Inv(y.driver) && AllSpaced(y.driver, now) && Paced(y, now)
    && (y.pending ==> |y.driver.cycles| == 1 && y.driver.cycles[0].wait.ForAnswer? && y.driver.cycles[0].lookups != [])
  }

  lemma {:induction false} DriveKeeps(y: System, t: Timed, before: int)
    requires SystemInv(y, before) && Allowed(y, t, before) && t.move.Drive?
    ensures SystemInv(After(y, t), t.at.browser)
  {
    var e := Event(t.at.browser, t.move.act);
    var k := ShapeOf(y.driver, e);
    DrivePaces(y, t, before, k);
    hide Next, Inv, AllSpaced, Paced, Allowed;
    StepKeepsInv(y.driver, e);
    StepKeepsSpacing(y.driver, e, before);
  }

  lemma {:induction false} DrivePaces(y: System, t: Timed, before: int, k: Shape)
    requires SystemInv(y, before) && Allowed(y, t, before) && t.move.Drive?
    requires HasShape(y.driver, Event(t.at.browser, t.move.act), k)
    ensures Paced(After(y, t), t.at.browser)
    ensures var z := After(y, t);
            z.pending ==> |z.driver.cycles| == 1 && z.driver.cycles[0].wait.ForAnswer? && z.driver.cycles[0].lookups != []
  {
    hide Next, Inv, Newest, Counted, SelectedIn, REPLICAS, AsksToBackOff, BackOff, SameBooks;
    var s := y.driver;
    if |s.cycles| == 1 {
      assert LookupsSpaced(s.cycles[0], before);
    }
    match k {
      case Going(c) => assert After(y, t).driver.cycles == [c];
      case _ =>
    }
  }

  lemma {:induction false} ServeKeeps(y: System, t: Timed, before: int)
    requires SystemInv(y, before) && Allowed(y, t, before) && t.move.Serve?
    ensures SystemInv(After(y, t), t.at.browser)
  {
    hide Inv, REPLICAS;
  }

  lemma {:induction false} ArriveKeeps(y: System, t: Timed, before: int)
    requires SystemInv(y, before) && Allowed(y, t, before) && t.move.Arrive?
    ensures SystemInv(After(y, t), t.at.browser)
  {
    hide Inv, REPLICAS;
  }

  // ---- Runs

  const SYSTEM_START := System(START, None, false, None)

  function SystemAt(moves: seq<Timed>, j: nat): System
    requires j <= |moves|
  {
    if j == 0 then SYSTEM_START else After(SystemAt(moves, j - 1), moves[j - 1])
  }

  /** The browser's clock reading before move `j`. */
  function Before(moves: seq<Timed>, j: nat): int
    requires j < |moves|
  {
    if j == 0 then moves[0].at.browser else moves[j - 1].at.browser
  }

  ghost predicate AllAllowed(moves: seq<Timed>) {
    forall j :: 0 <= j < |moves| ==> Allowed(SystemAt(moves, j), moves[j], Before(moves, j))
  }

  lemma {:induction false} SystemKeeps(moves: seq<Timed>, j: nat)
    requires j < |moves| && AllAllowed(moves)
    ensures SystemInv(SystemAt(moves, j), Before(moves, j))
  {
    hide After, SystemInv, Allowed;
    if j == 0 {
      SystemStarts(moves[0].at.browser);
    } else {
      SystemKeeps(moves, j - 1);
      var y, t := SystemAt(moves, j - 1), moves[j - 1];
      var before := Before(moves, j - 1);
      assert Allowed(y, t, before);
      match t.move {
        case Drive(_) => DriveKeeps(y, t, before);
        case Serve(_) => ServeKeeps(y, t, before);
        case Arrive => ArriveKeeps(y, t, before);
      }
    }
  }

  lemma {:induction false} SystemStarts(now: int)
    ensures SystemInv(SYSTEM_START, now)
  {
    StartKeepsInv();
  }

  /** While the browser's clock advances by the wait between lookups, the server's advances by the spacing of queries. */
  ghost predicate KeepsPace(moves: seq<Timed>) {
    forall i, j :: 0 <= i <= j < |moves| && moves[j].at.browser - moves[i].at.browser >= 1_500 ==>
      moves[j].at.server - moves[i].at.server >= 500
  }

  lemma {:induction false} AskedInRun(moves: seq<Timed>, j: nat)
    requires j <= |moves| && SystemAt(moves, j).asked.Some?
    ensures exists i :: 0 <= i < j && SystemAt(moves, j).asked == Some(moves[i].at)
  {
    hide Next;
    if SystemAt(moves, j - 1).asked == SystemAt(moves, j).asked {
      AskedInRun(moves, j - 1);
    }
  }

  /**
   A lookup that reaches the server is granted a query whenever its trace is still the active record, whatever else
   the server's clock does.
   */
  lemma {:induction false} LookupsAreNeverRefused(moves: seq<Timed>, j: nat)
    requires j < |moves| && AllAllowed(moves) && KeepsPace(moves)
    requires moves[j].move.Arrive? && SystemAt(moves, j).pending
    ensures var y, now := SystemAt(moves, j), moves[j].at.server;
            && LookedUp(y.driver).Some?
            && (R.IsActive(y.record, LookedUp(y.driver).value, now) ==>
                  R.Granted(R.Live(y.record, now), LookedUp(y.driver).value, now).Some?)
  {
    hide SystemAt, After, REPLICAS;
    SystemKeeps(moves, j);
    assert Allowed(SystemAt(moves, j), moves[j], Before(moves, j));
    if SystemAt(moves, j).asked.Some? {
      AskedInRun(moves, j);
    }
  }

  lemma {:induction false} SystemAfter(moves: seq<Timed>, j: nat)
    requires j < |moves|
    ensures SystemAt(moves, j + 1) == After(SystemAt(moves, j), moves[j])
  {
    hide After;
  }

  /** Lookups do reach the server: a run in which one arrives and is granted the first query of its trace. */
  lemma {:induction false} ALookupIsGranted()
    ensures var start, later := Clocks(0, 0), Clocks(1_500, 500);
            var moves := [Timed(start, Drive(Send(false))), Timed(start, Serve(R.Register("t", 0))),
                          Timed(start, Drive(Respond(0, HttpResponse("t", 200, None)))),
                          Timed(later, Drive(LookUp(0, false))), Timed(later, Arrive)];
            && AllAllowed(moves) && KeepsPace(moves) && SystemAt(moves, 4).pending
            && R.Granted(R.Live(SystemAt(moves, 4).record, 500), "t", 500) == Some(1)
  {
    var result := HttpResponse("t", 200, None);
    var start, later := Clocks(0, 0), Clocks(1_500, 500);
    var moves := [Timed(start, Drive(Send(false))), Timed(start, Serve(R.Register("t", 0))),
                  Timed(start, Drive(Respond(0, result))),
                  Timed(later, Drive(LookUp(0, false))), Timed(later, Arrive)];
    var c0 := Cycle(ForResponse, None, NotConnected, false, []);
    assert SystemAt(moves, 0) == SYSTEM_START;
    SystemAfter(moves, 0);
    SystemAfter(moves, 1);
    SystemAfter(moves, 2);
    SystemAfter(moves, 3);
    var y1 := SystemAt(moves, 1);
    assert y1.driver.cycles == [c0];
    var y2 := SystemAt(moves, 2);
    assert y2.record == Some(R.Registered("t", 0)) && y2.driver == y1.driver;
    var y3 := SystemAt(moves, 3);
    assert y3.driver.cycles == [c0.(wait := ForLookup(0), result := Some(result), latest := WaitingForTrace(result))];
    hide SystemAt;
  }
}
