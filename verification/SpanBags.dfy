/** Lists of spans as bags: what depends on the members of a list, and how often they occur, but not on their order. */
module SpanBags {
  import opened Common
  import opened JaegerParser
  import opened TraceNormalizer

  /** All that `f` gives for the members of a list. */
  ghost function Gathered<T>(ps: seq<Producer>, f: Producer -> seq<T>): multiset<T> {
    if ps == [] then multiset{} else Gathered(ps[..|ps| - 1], f) + multiset(f(ps[|ps| - 1]))
  }

  lemma {:induction false} GatheredWithout<T>(ps: seq<Producer>, f: Producer -> seq<T>, i: nat)
    requires i < |ps|
    ensures Gathered(ps, f) == Gathered(ps[..i] + ps[i + 1..], f) + multiset(f(ps[i]))
  {
    var rest := ps[..i] + ps[i + 1..];
    if i == |ps| - 1 {
      assert rest == ps[..i];
    } else {
      var front := ps[..|ps| - 1];
      GatheredWithout(front, f, i);
      assert rest[..|rest| - 1] == front[..i] + front[i + 1..];
    }
  }

  lemma {:induction false} BagWithout<T>(s: seq<T>, i: nat)
    requires i < |s|
    ensures multiset(s) == multiset(s[..i] + s[i + 1..]) + multiset{s[i]}
  {
    assert s == s[..i] + [s[i]] + s[i + 1..];
  }

  /** Equal bags gather to the same. */
  lemma {:induction false} SameBagGathered<T>(a: seq<Producer>, b: seq<Producer>, f: Producer -> seq<T>)
    requires multiset(a) == multiset(b)
    ensures Gathered(a, f) == Gathered(b, f)
    decreases |a|
  {
    assert |a| == |multiset(a)| == |b|;
    if a != [] {
      var last: nat := |a| - 1;
      assert a[last] in multiset(b);
      var i: nat :| i < |b| && b[i] == a[last];
      BagsWithout(a, b, i);
      SameBagGathered(a[..last], b[..i] + b[i + 1..], f);
      GatheredWithout(b, f, i);
    }
  }

  lemma {:induction false} BagsWithout<T>(a: seq<T>, b: seq<T>, i: nat)
    requires multiset(a) == multiset(b) && a != [] && i < |b| && b[i] == a[|a| - 1]
    ensures multiset(a[..|a| - 1]) == multiset(b[..i] + b[i + 1..])
  {
    var front, x := a[..|a| - 1], a[|a| - 1];
    BagWithout(b, i);
    assert a == front + [x];
    assert multiset(front) == multiset(a) - multiset{x};
  }

  /** A list without repeats, as a bag. */
  lemma {:induction false} NoRepeatsBag<T>(s: seq<T>)
    requires NoRepeats(s)
    ensures forall x :: multiset(s)[x] == if x in s then 1 else 0
  {
    if s != [] {
      var front, last := s[..|s| - 1], s[|s| - 1];
      assert s == front + [last];
      NoRepeatsBag(front);
    }
  }

  lemma {:induction false} SelectCounts(ps: seq<Producer>, sel: Selector)
    ensures forall p :: multiset(Select(ps, sel))[p] == if Matches(sel, p) then multiset(ps)[p] else 0
  {
    hide Matches;
    if ps != [] {
      SelectCounts(ps[1..], sel);
      assert ps == [ps[0]] + ps[1..];
    }
  }

  lemma {:induction false} SameBagSelect(a: seq<Producer>, b: seq<Producer>, sel: Selector)
    requires multiset(a) == multiset(b)
    ensures multiset(Select(a, sel)) == multiset(Select(b, sel))
  {
    SelectCounts(a, sel);
    SelectCounts(b, sel);
    hide Select, Matches;
  }

  lemma {:induction false} DirectsGathered(pols: seq<Producer>)
    ensures multiset(Directs(pols)) == Gathered(pols, p => Direct(p))
  {
    hide Direct;
    if pols != [] {
      DirectsGathered(pols[..|pols| - 1]);
    }
  }

  lemma {:induction false} ShownGathered(ps: seq<Producer>)
    ensures multiset(ShownSpans(ps)) == Gathered(ps, p => [ShownSpan(p)])
  {
    hide ShownSpan;
    if ps != [] {
      var front, last := ps[..|ps| - 1], ps[|ps| - 1];
      ShownGathered(front);
      assert ShownSpans(ps) == ShownSpans(front) + [ShownSpan(last)];
    }
  }

  lemma {:induction false} SameBagDirects(a: seq<Producer>, b: seq<Producer>)
    requires multiset(a) == multiset(b)
    ensures multiset(Directs(a)) == multiset(Directs(b))
  {
    DirectsGathered(a);
    DirectsGathered(b);
    SameBagGathered(a, b, p => Direct(p));
  }

  lemma {:induction false} SameBagShown(a: seq<Producer>, b: seq<Producer>)
    requires multiset(a) == multiset(b)
    ensures multiset(ShownSpans(a)) == multiset(ShownSpans(b))
  {
    ShownGathered(a);
    ShownGathered(b);
    SameBagGathered(a, b, p => [ShownSpan(p)]);
  }
}
