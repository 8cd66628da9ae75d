/**
 Round-robin choice of a backend from a shared counter. Tickets come from a 64-bit
 counter that wraps, indexes from Go's truncating remainder.
 */
module BackendPools {
  import opened Common
  import opened GoInts

  /** Go's `%`: the result has the sign of the dividend. */
  function Rem(a: int, n: int): int
    requires n > 0
  {
    if a >= 0 then a % n else -((-a) % n)
  }

  /** The index a ticket selects among `n` backends; None when the index is negative and Go panics. */
  function IndexOf(ticket: int, n: nat): Option<nat>
    requires n > 0
  {
    var index := Rem(ticket, n);
    if index < 0 then None else Some(index)
  }

  class Backend {
    const id: string

    constructor (id: string)
      ensures this.id == id
    {
      this.id := id;
    }
  }

  datatype Pick = NoBackend | Chosen(backend: Backend, index: nat) | Panicked

  class BackendPool {
    var backends: seq<Backend>
    var current: int

    ghost predicate Valid()
      reads this
    {
      IsInt64(current) && |backends| < INT64_LIMIT
    }

    constructor ()
      ensures Valid() && backends == [] && current == 0
    {
      backends, current := [], 0;
    }

    method Add(backend: Backend)
      requires Valid() && |backends| + 1 < INT64_LIMIT
      modifies this
      ensures Valid() && backends == old(backends) + [backend] && current == old(current)
    {
      backends := backends + [backend];
    }

    /** What a ticket picks. */
    function At(ticket: int): Pick
      reads this
    {
      if backends == [] then NoBackend
      else match IndexOf(ticket, |backends|)
        case None => Panicked
        case Some(index) =>
          RemBound(ticket, |backends|);
          Chosen(backends[index], index)
    }

    /** Under the lock the counter moves only when the pick did not panic. */
    method RoundRobinMutex() returns (pick: Pick)
      requires Valid()
      modifies this`current
      ensures Valid() && pick == At(old(current))
      ensures current == if pick.Chosen? then Wrap64(old(current) + 1) else old(current)
    {
      if |backends| == 0 {
        return NoBackend;
      }
      var index := Rem(current, |backends|);
      RemBound(current, |backends|);
      if index < 0 {
        return Panicked;
      }
      pick := Chosen(backends[index], index);
      current := Wrap64(current + 1);
    }

    /** The atomic increment happens first; the ticket is recovered from the new value. */
    method RoundRobinAtomic() returns (pick: Pick)
      requires Valid()
      modifies this`current
      ensures Valid() && pick == At(old(current))
      ensures current == if pick.NoBackend? then old(current) else Wrap64(old(current) + 1)
    {
      if |backends| == 0 {
        return NoBackend;
      }
      current := Wrap64(current + 1);
      var ticket := Wrap64(current - 1);
      TicketRecovered(old(current));
      var index := Rem(ticket, |backends|);
      RemBound(ticket, |backends|);
      if index < 0 {
        return Panicked;
      }
      return Chosen(backends[index], index);
    }
  }

  lemma {:induction false} RemBound(a: int, n: int)
    requires n > 0
    ensures -n < Rem(a, n) < n
  {
  }

  lemma {:induction false} TicketRecovered(c: int)
    requires IsInt64(c)
    ensures Wrap64(Wrap64(c + 1) - 1) == c
  {
  }

  /** A pick panics exactly on tickets that are negative and not a multiple of the pool size. */
  lemma {:induction false} PanicsIff(ticket: int, n: nat)
    requires n > 0
    ensures IndexOf(ticket, n).None? <==> ticket < 0 && ticket % n != 0
  {
    if ticket < 0 {
      var q, r := (-ticket) / n, (-ticket) % n;
      assert -ticket == n * q + r;
      if r == 0 {
        assert ticket == n * (-q);
        MultipleRemainder(-q, n, 0);
      } else {
        assert ticket == n * (-q - 1) + (n - r);
        MultipleRemainder(-q - 1, n, n - r);
      }
    }
  }

  lemma {:induction false} ProductLeavesRange(n: int, d: int)
    requires n > 0
    ensures d > 0 ==> n * d >= n
    ensures d < 0 ==> n * d <= -n
  {
  }

  lemma {:induction false} MultipleRemainder(q: int, n: int, r: int)
    requires 0 <= r < n
    ensures (n * q + r) % n == r
  {
    var x := n * q + r;
    assert x == n * (x / n) + x % n;
    var d := x / n - q;
    assert n * d == r - x % n;
    ProductLeavesRange(n, d);
  }

  // ---- The two versions side by side

  /** The pick after 2^63 picks from zero panics exactly when the pool size does not divide 2^63, with three backends say. */
  lemma {:induction false} WrappedPickPanicsIff(n: nat)
    requires n > 0
    ensures IndexOf(Wrap64(INT64_LIMIT), n).None? <==> INT64_LIMIT % n != 0
    ensures n == 3 ==> IndexOf(Wrap64(INT64_LIMIT), n).None?
  {
    assert Wrap64(INT64_LIMIT) == -INT64_LIMIT;
    PanicsIff(-INT64_LIMIT, n);
    NegatedMultiple(INT64_LIMIT, n);
  }

  /** A number and its negation are multiples of the same numbers. */
  lemma {:induction false} NegatedMultiple(x: int, n: int)
    requires n > 0
    ensures (-x) % n == 0 <==> x % n == 0
  {
    var q, r := x / n, x % n;
    MultipleRemainder(-q, n, 0);
    NegatedForms(x, n, q, r);
    if r != 0 {
      MultipleRemainder(-q - 1, n, n - r);
    }
  }

  lemma {:induction false} NegatedForms(x: int, n: int, q: int, r: int)
    requires n > 0 && q == x / n && r == x % n
    ensures -x == n * (-q) + 0 - r
    ensures -x == n * (-q - 1) + (n - r)
  {
    assert x == n * q + r;
    assert n * (-q) == -(n * q);
    assert n * (-q - 1) == n * (-q) - n;
  }

  /** The first `k` indexes picked by the atomic version from counter `c`. */
  function AtomicPicks(c: int, n: nat, k: nat): (r: seq<Option<nat>>)
    requires n > 0
    ensures |r| == k
    decreases k
  {
    if k == 0 then [] else [IndexOf(c, n)] + AtomicPicks(Wrap64(c + 1), n, k - 1)
  }

  /** The same for the mutex version, which leaves the counter alone when it panics. */
  function MutexPicks(c: int, n: nat, k: nat): (r: seq<Option<nat>>)
    requires n > 0
    ensures |r| == k
    decreases k
  {
    if k == 0 then []
    else [IndexOf(c, n)] + MutexPicks(if IndexOf(c, n).Some? then Wrap64(c + 1) else c, n, k - 1)
  }

  /** While the counter stays nonnegative nothing panics and both versions pick the same sequence. */
  lemma {:induction false} VersionsAgree(c: nat, n: nat, k: nat)
    requires n > 0 && c + k <= INT64_LIMIT
    ensures AtomicPicks(c, n, k) == MutexPicks(c, n, k)
    ensures forall t :: 0 <= t < k ==> AtomicPicks(c, n, k)[t] == Some((c + t) % n)
    decreases k
  {
    if k == 1 {
      assert IndexOf(c, n).Some?;
    } else if k > 1 {
      VersionsAgree(c + 1, n, k - 1);
      forall t | 0 <= t < k
        ensures AtomicPicks(c, n, k)[t] == Some((c + t) % n)
      {
        if t > 0 {
          assert AtomicPicks(c, n, k)[t] == AtomicPicks(c + 1, n, k - 1)[t - 1];
        }
      }
    }
  }

  /** After a panic the mutex version panics for good, while the atomic one moves on. */
  lemma {:induction false} MutexStaysPanicked(c: int, n: nat, k: nat)
    requires n > 0 && IndexOf(c, n).None?
    ensures forall t :: 0 <= t < k ==> MutexPicks(c, n, k)[t].None?
    decreases k
  {
    if k > 0 {
      MutexStaysPanicked(c, n, k - 1);
    }
  }

  // ---- Interleaved callers

  /** A caller of the atomic version between its increment and its selection. */
  datatype Caller = Idle | Holding(ticket: int)

  datatype Action = Take(caller: nat) | Finish(caller: nat)

  /** `tickets` is every ticket handed out so far, `chosen` every selection finished so far. */
  datatype Pool = Pool(current: int, callers: map<nat, Caller>, tickets: seq<int>, chosen: seq<(int, Option<nat>)>)

  predicate Enabled(p: Pool, a: Action) {
    match a
    case Take(c) => c !in p.callers || p.callers[c].Idle?
    case Finish(c) => c in p.callers && p.callers[c].Holding?
  }

  function Step(p: Pool, n: nat, a: Action): Pool
    requires n > 0
  {
    if !Enabled(p, a) then p
    else match a
      case Take(c) =>
        var next := Wrap64(p.current + 1);
        var ticket := Wrap64(next - 1);
        p.(current := next, callers := p.callers[c := Holding(ticket)], tickets := p.tickets + [ticket])
      case Finish(c) =>
        var ticket := p.callers[c].ticket;
        p.(callers := p.callers[c := Idle], chosen := p.chosen + [(ticket, IndexOf(ticket, n))])
  }

  function Run(p: Pool, n: nat, schedule: seq<Action>): Pool
    requires n > 0
  {
    if schedule == [] then p
    else Step(Run(p, n, schedule[..|schedule| - 1]), n, schedule[|schedule| - 1])
  }

  function Start(current: int): Pool {
    Pool(current, map[], [], [])
  }

  /** Tickets run consecutively from `from`; held and finished ones are among those handed out. */
  ghost predicate Serial(p: Pool, n: nat, from: int)
    requires n > 0
  {
    && (forall i :: 0 <= i < |p.tickets| ==> p.tickets[i] == Wrap64(from + i))
    && p.current == Wrap64(from + |p.tickets|)
    && (forall c :: c in p.callers && p.callers[c].Holding? ==>
          p.callers[c].ticket in p.tickets)
    && (forall i :: 0 <= i < |p.chosen| ==>
          p.chosen[i].0 in p.tickets && p.chosen[i].1 == IndexOf(p.chosen[i].0, n))
  }

  lemma {:induction false} TicketsAreConsecutive(from: int, n: nat, schedule: seq<Action>)
    requires IsInt64(from) && n > 0
    ensures Serial(Run(Start(from), n, schedule), n, from)
  {
    hide IndexOf, Wrap64;
    if schedule != [] {
      var front, last := schedule[..|schedule| - 1], schedule[|schedule| - 1];
      TicketsAreConsecutive(from, n, front);
      var p := Run(Start(from), n, front);
      if Enabled(p, last) && last.Take? {
        WrapSum(from + |p.tickets|, 1);
        TicketRecovered(p.current);
      }
    }
  }

  lemma {:induction false} WrapsApart(from: int, i: nat, j: nat)
    requires i < j < i + 2 * INT64_LIMIT
    ensures Wrap64(from + i) != Wrap64(from + j)
  {
    var a, b := from + i + INT64_LIMIT, from + j + INT64_LIMIT;
    var m := 2 * INT64_LIMIT;
    assert b - a == m * (b / m - a / m) + (b % m - a % m);
  }

  /** No two callers ever get the same ticket, short of a full turn of the 64-bit counter. */
  lemma {:induction false} TicketsAreDistinct(from: int, n: nat, schedule: seq<Action>)
    requires IsInt64(from) && n > 0
    requires |Run(Start(from), n, schedule).tickets| <= 2 * INT64_LIMIT
    ensures NoRepeats(Run(Start(from), n, schedule).tickets)
  {
    TicketsAreConsecutive(from, n, schedule);
    var tickets := Run(Start(from), n, schedule).tickets;
    forall i, j | 0 <= i < j < |tickets|
      ensures tickets[i] != tickets[j]
    {
      WrapsApart(from, i, j);
    }
  }

  // ---- Fairness

  /** How many of the `m` tickets from `from` on pick position `i` of `n`. */
  function Picks(from: int, m: nat, n: nat, i: nat): nat
    requires n > 0
  {
    if m == 0 then 0 else Picks(from, m - 1, n, i) + (if (from + m - 1) % n == i then 1 else 0)
  }

  lemma {:induction false} PicksSplit(from: int, a: nat, b: nat, n: nat, i: nat)
    requires n > 0
    ensures Picks(from, a + b, n, i) == Picks(from, a, n, i) + Picks(from + a, b, n, i)
  {
    if b > 0 {
      PicksSplit(from, a, b - 1, n, i);
    }
  }

  lemma {:induction false} AddMultiple(x: int, n: int)
    requires n > 0
    ensures (x + n) % n == x % n
  {
    assert x + n == n * (x / n + 1) + x % n;
    MultipleRemainder(x / n + 1, n, x % n);
  }

  /** Any `n` consecutive tickets pick as often as the `n` tickets one later. */
  lemma {:induction false} CycleShifts(from: int, n: nat, i: nat)
    requires n > 0
    ensures Picks(from, n, n, i) == Picks(from + 1, n, n, i)
  {
    PicksSplit(from, 1, n - 1, n, i);
    assert Picks(from, 1, n, i) == Picks(from, 0, n, i) + if from % n == i then 1 else 0;
    AddMultiple(from, n);
  }

  lemma {:induction false} PicksFromZero(m: nat, n: nat, i: nat)
    requires m <= n && i < n
    ensures Picks(0, m, n, i) == if i < m then 1 else 0
  {
    if m > 0 {
      PicksFromZero(m - 1, n, i);
      MultipleRemainder(0, n, m - 1);
      assert (0 + m - 1) % n == m - 1;
    }
  }

  lemma {:induction false} CyclePicksOnce(from: nat, n: nat, i: nat)
    requires i < n
    ensures Picks(from, n, n, i) == 1
  {
    if from == 0 {
      PicksFromZero(n, n, i);
    } else {
      CyclePicksOnce(from - 1, n, i);
      CycleShifts(from - 1, n, i);
    }
  }

  lemma {:induction false} PicksGrow(from: int, m: nat, k: nat, n: nat, i: nat)
    requires n > 0 && m <= k
    ensures Picks(from, m, n, i) <= Picks(from, k, n, i)
  {
    PicksSplit(from, m, k - m, n, i);
  }

  /** Over any consecutive tickets, two positions are picked equally often up to one. */
  lemma {:induction false} Fair(from: nat, m: nat, n: nat, i: nat, j: nat)
    requires i < n && j < n
    ensures Picks(from, m, n, i) <= Picks(from, m, n, j) + 1
    decreases m
  {
    if m < n {
      CyclePicksOnce(from, n, i);
      PicksGrow(from, m, n, n, i);
    } else {
      PicksSplit(from, n, m - n, n, i);
      PicksSplit(from, n, m - n, n, j);
      CyclePicksOnce(from, n, i);
      CyclePicksOnce(from, n, j);
      Fair(from + n, m - n, n, i, j);
    }
  }

  /** How many of the tickets in `tickets` select position `i`. */
  function Selections(tickets: seq<int>, n: nat, i: nat): nat
    requires n > 0
  {
    if tickets == [] then 0
    else Selections(tickets[..|tickets| - 1], n, i) + (if IndexOf(tickets[|tickets| - 1], n) == Some(i) then 1 else 0)
  }

  lemma {:induction false} SelectionsArePicks(tickets: seq<int>, from: nat, n: nat, i: nat)
    requires n > 0
    requires forall k :: 0 <= k < |tickets| ==> tickets[k] == from + k
    ensures Selections(tickets, n, i) == Picks(from, |tickets|, n, i)
  {
    if tickets != [] {
      SelectionsArePicks(tickets[..|tickets| - 1], from, n, i);
    }
  }

  /**
   Whatever the interleaving of callers, within any stretch of the tickets handed out two
   positions are selected equally often up to one, as long as the counter has not wrapped.
   */
  lemma {:induction false} InterleavedFairness(
    from: nat, n: nat, schedule: seq<Action>, lo: nat, hi: nat, i: nat, j: nat)
    requires i < n && j < n
    requires lo <= hi <= |Run(Start(from), n, schedule).tickets|
    requires from + |Run(Start(from), n, schedule).tickets| <= INT64_LIMIT
    ensures var window := Run(Start(from), n, schedule).tickets[lo..hi];
            Selections(window, n, i) <= Selections(window, n, j) + 1
  {
    if |Run(Start(from), n, schedule).tickets| > 0 {
      TicketsAreConsecutive(from, n, schedule);
      var window := Run(Start(from), n, schedule).tickets[lo..hi];
      SelectionsArePicks(window, from + lo, n, i);
      SelectionsArePicks(window, from + lo, n, j);
      Fair(from + lo, hi - lo, n, i, j);
    }
  }
}
