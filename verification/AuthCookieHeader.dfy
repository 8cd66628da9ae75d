/** The dashboard server's filter for the cookie header it passes on to the gateway. */
module AuthCookieHeader {
  import opened Common
  import opened Whitespace
  import opened CookieSession

  datatype Pair = Pair(name: string, value: string)

  datatype CookieError = DuplicateCookie

  function JsTrim(s: string): string {
    Trim(s, IsJsSpace)
  }

  predicate IsAllowed(name: string) {
    name == ACCESS || name == REFRESH
  }

  /** The first position of a character, if it occurs. */
  function IndexOf(s: string, c: char): (r: Option<nat>)
    ensures r.Some? ==> r.value < |s| && s[r.value] == c && c !in s[..r.value]
    ensures r.None? ==> c !in s
  {
    if s == "" then None
    else if s[0] == c then Some(0)
    else
      var r := IndexOf(s[1..], c);
      assert forall i :: 0 < i <= |s| ==> s[..i] == [s[0]] + s[1..][..i - 1];
      if r.None? then None else Some(r.value + 1)
  }

  lemma {:induction false} IndexOfIs(s: string, c: char, i: nat)
    requires i < |s| && s[i] == c && c !in s[..i]
    ensures IndexOf(s, c) == Some(i)
  {
    if i > 0 {
      assert forall k :: 0 <= k < i ==> s[..i][k] == s[k];
      assert s[0] in s[..i];
      IndexOfIs(s[1..], c, i - 1);
    }
  }

  function Split(s: string, c: char): (parts: seq<string>)
    ensures forall i :: 0 <= i < |parts| ==> c !in parts[i]
    decreases |s|
  {
    var i := IndexOf(s, c);
    if i.None? then [s] else [s[..i.value]] + Split(s[i.value + 1..], c)
  }

  /** The allowed cookie a part of the header holds, if it does. */
  function ReadPart(part: string): Option<Pair> {
    var separator := IndexOf(part, '=');
    if separator.None? then None
    else
      var name := JsTrim(part[..separator.value]);
      if IsAllowed(name) then Some(Pair(name, JsTrim(part[separator.value + 1..]))) else None
  }

  /** The allowed cookies of the parts, in order. */
  function Read(parts: seq<string>): seq<Pair> {
    if parts == [] then []
    else
      var before, last := Read(parts[..|parts| - 1]), ReadPart(parts[|parts| - 1]);
      if last.Some? then before + [last.value] else before
  }

  predicate Distinct(pairs: seq<Pair>) {
    forall i, k :: 0 <= i < k < |pairs| ==> pairs[i].name != pairs[k].name
  }

  function Item(p: Pair): string {
    p.name + "=" + p.value
  }

  function Print(pairs: seq<Pair>): string {
    if pairs == [] then ""
    else if |pairs| == 1 then Item(pairs[0])
    else Item(pairs[0]) + "; " + Print(pairs[1..])
  }

  /** The allowed cookies of a header; refused when one occurs twice. */
  function Parsed(header: string): Result<seq<Pair>, CookieError> {
    var pairs := Read(Split(header, ';'));
    if Distinct(pairs) then Ok(pairs) else Err(DuplicateCookie)
  }

  function Filtered(header: string): Result<string, CookieError> {
    match Parsed(header)
    case Ok(pairs) => Ok(Print(pairs))
    case Err(e) => Err(e)
  }

  lemma {:induction false} ReadGrows(parts: seq<string>, k: nat)
    requires k <= |parts|
    ensures Read(parts[..k]) <= Read(parts)
  {
    if k < |parts| {
      ReadGrows(parts[..|parts| - 1], k);
      assert parts[..|parts| - 1][..k] == parts[..k];
    } else {
      assert parts[..k] == parts;
    }
  }

  method FilterCookies(header: string) returns (r: Result<string, CookieError>)
    ensures r == Filtered(header)
  {
    var parts := Split(header, ';');
    var cookies: seq<Pair> := [];
    for k := 0 to |parts|
      invariant cookies == Read(parts[..k]) && Distinct(cookies)
    {
      var part := parts[k];
      assert parts[..k + 1][..k] == parts[..k] && parts[..k + 1][k] == part;
      var separator := IndexOf(part, '=');
      if separator.None? {
        continue;
      }
      var name := JsTrim(part[..separator.value]);
      if !IsAllowed(name) {
        continue;
      }
      var cookie := Pair(name, JsTrim(part[separator.value + 1..]));
      assert Read(parts[..k + 1]) == cookies + [cookie];
      if exists i :: 0 <= i < |cookies| && cookies[i].name == name {
        ReadGrows(parts, k + 1);
        RepeatStays(cookies, cookie, Read(parts));
        return Err(DuplicateCookie);
      }
      cookies := cookies + [cookie];
    }
    assert parts[..|parts|] == parts;
    return Ok(Print(cookies));
  }

  lemma {:induction false} RepeatStays(cookies: seq<Pair>, cookie: Pair, all: seq<Pair>)
    requires cookies + [cookie] <= all
    requires exists i :: 0 <= i < |cookies| && cookies[i].name == cookie.name
    ensures !Distinct(all)
  {
    var i :| 0 <= i < |cookies| && cookies[i].name == cookie.name;
    var start := cookies + [cookie];
    assert start[i] == all[i] && start[|cookies|] == all[|cookies|];
  }

  // ---- Normal form

  /** What reading leaves: an allowed name and a trimmed value without a separator. */
  predicate Clean(p: Pair) {
    IsAllowed(p.name) && Trimmed(p.value, IsJsSpace) && ';' !in p.value
  }

  lemma {:induction false} TrimKeepsOut(s: string, c: char)
    requires c !in s
    ensures c !in JsTrim(s)
  {
    var m := TrimLeftCuts(s, IsJsSpace);
    var n := TrimRightCuts(TrimLeft(s, IsJsSpace), IsJsSpace);
    hide TrimLeft, TrimRight;
    assert JsTrim(s) == s[m..][..n];
  }

  lemma {:induction false} ReadIsClean(parts: seq<string>)
    requires forall i :: 0 <= i < |parts| ==> ';' !in parts[i]
    ensures forall i :: 0 <= i < |Read(parts)| ==> Clean(Read(parts)[i])
  {
    hide Trim, Trimmed, IsAllowed;
    if parts != [] {
      ReadIsClean(parts[..|parts| - 1]);
      var part := parts[|parts| - 1];
      var separator := IndexOf(part, '=');
      if separator.Some? {
        var value := part[separator.value + 1..];
        TrimKeepsOut(value, ';');
        TrimIsTrimmed(value, IsJsSpace);
      }
    }
  }

  /** The characters of the allowed names are neither white space nor separators. */
  lemma {:induction false} NamesArePlain(name: string)
    requires IsAllowed(name)
    ensures name != "" && forall i :: 0 <= i < |name| ==> name[i] == '_' || 'a' <= name[i] <= 'z'
  {
  }

  lemma {:induction false} ItemReadsBack(lead: string, p: Pair)
    requires Clean(p) && (forall i :: 0 <= i < |lead| ==> lead[i] == ' ')
    ensures ReadPart(lead + Item(p)) == Some(p)
    ensures ';' !in lead + Item(p)
  {
    hide IsAllowed, Trim, ACCESS, REFRESH, Item, IndexOf;
    NamesArePlain(p.name);
    ItemSplits(lead, p);
    TrimDrops(lead, p.name, "", IsJsSpace);
    assert lead + p.name + "" == lead + p.name;
    TrimIsTrimmed(p.value, IsJsSpace);
  }

  lemma {:induction false} ItemSplits(lead: string, p: Pair)
    requires '=' !in lead && '=' !in p.name && ';' !in lead && ';' !in p.name && ';' !in p.value
    ensures var part, at := lead + Item(p), |lead| + |p.name|;
            && IndexOf(part, '=') == Some(at) && part[..at] == lead + p.name && part[at + 1..] == p.value
            && ';' !in part
  {
    hide IndexOf;
    var part, at := lead + Item(p), |lead| + |p.name|;
    assert part == lead + p.name + "=" + p.value;
    assert part[..at] == lead + p.name && part[at] == '=' && part[at + 1..] == p.value;
    IndexOfIs(part, '=', at);
  }

  lemma {:induction false} SplitAtSeparator(a: string, b: string)
    requires ';' !in a
    ensures Split(a + ";" + b, ';') == [a] + Split(b, ';')
    ensures Split(a, ';') == [a]
  {
    var s := a + ";" + b;
    assert s[..|a|] == a && s[|a| + 1..] == b;
    IndexOfIs(s, ';', |a|);
  }

  lemma {:induction false} ReadJoined(a: seq<string>, b: seq<string>)
    ensures Read(a + b) == Read(a) + Read(b)
    decreases |b|
  {
    hide ReadPart;
    if b == [] {
      assert a + b == a;
    } else {
      var front := b[..|b| - 1];
      ReadJoined(a, front);
      assert (a + b)[..|a + b| - 1] == a + front;
    }
  }

  lemma {:induction false} ReadOne(part: string)
    ensures Read([part]) == if ReadPart(part).Some? then [ReadPart(part).value] else []
  {
    assert [part][..0] == [];
    assert Read([part][..0]) == [];
  }

  /** Printed cookies read back, a leading space or not. */
  lemma {:induction false} PrintReadsBack(lead: string, pairs: seq<Pair>)
    requires forall i :: 0 <= i < |pairs| ==> Clean(pairs[i])
    requires pairs != [] && (forall i :: 0 <= i < |lead| ==> lead[i] == ' ')
    ensures Read(Split(lead + Print(pairs), ';')) == pairs
    decreases pairs
  {
    hide Clean, ReadPart, Split, Item, Read;
    var first := lead + Item(pairs[0]);
    ItemReadsBack(lead, pairs[0]);
    ReadOne(first);
    if |pairs| == 1 {
      SplitAtSeparator(first, "");
      assert pairs == [pairs[0]];
    } else {
      var rest := " " + Print(pairs[1..]);
      SplitAtSeparator(first, rest);
      assert lead + Print(pairs) == first + ";" + rest;
      PrintReadsBack(" ", pairs[1..]);
      ReadJoined([first], Split(rest, ';'));
      assert pairs == [pairs[0]] + pairs[1..];
    }
  }

  lemma {:induction false} EmptyReadsBack()
    ensures Read(Split("", ';')) == []
  {
    ReadOne("");
    assert Split("", ';') == [""];
  }

  /**
   What the filter lets through parses again to the same allowed cookies in the same order, and filtering it
   again changes nothing.
   */
  lemma {:induction false} FilterIsNormalForm(header: string)
    requires Filtered(header).Ok?
    ensures Parsed(Filtered(header).value) == Parsed(header)
    ensures Filtered(Filtered(header).value) == Filtered(header)
  {
    hide Read, Split, Print;
    var pairs := Read(Split(header, ';'));
    ReadIsClean(Split(header, ';'));
    if pairs == [] {
      EmptyReadsBack();
      assert Print(pairs) == "" by { PrintOfNone(); }
    } else {
      PrintReadsBack("", pairs);
      assert "" + Print(pairs) == Print(pairs);
    }
  }

  lemma {:induction false} PrintOfNone()
    ensures Print([]) == ""
  {
  }

  // ---- Refusals

  ghost predicate Named(pairs: seq<Pair>, name: string) {
    exists i :: 0 <= i < |pairs| && pairs[i].name == name
  }

  /** The part holds the allowed cookie of that name. */
  predicate Holds(part: string, name: string) {
    ReadPart(part).Some? && ReadPart(part).value.name == name
  }

  ghost predicate AnyHolds(parts: seq<string>, name: string) {
    exists k :: 0 <= k < |parts| && Holds(parts[k], name)
  }

  /** Two parts hold a cookie of the same allowed name. */
  ghost predicate Repeats(parts: seq<string>) {
    exists i, k, name :: 0 <= i < k < |parts| && Holds(parts[i], name) && Holds(parts[k], name)
  }

  lemma {:induction false} AnyHoldsGrows(front: seq<string>, part: string, name: string)
    ensures AnyHolds(front + [part], name) <==> AnyHolds(front, name) || Holds(part, name)
  {
    hide Holds;
    var parts := front + [part];
    assert parts[|front|] == part && forall k :: 0 <= k < |front| ==> parts[k] == front[k];
  }

  lemma {:induction false} NamedGrows(before: seq<Pair>, p: Pair, name: string)
    ensures Named(before + [p], name) <==> Named(before, name) || p.name == name
    ensures Distinct(before + [p]) <==> Distinct(before) && !Named(before, p.name)
  {
    var all := before + [p];
    assert all[|before|] == p && forall k :: 0 <= k < |before| ==> all[k] == before[k];
  }

  lemma {:induction false} RepeatsGrows(front: seq<string>, part: string)
    ensures Repeats(front + [part]) <==>
            Repeats(front) || (ReadPart(part).Some? && AnyHolds(front, ReadPart(part).value.name))
  {
    var parts, last := front + [part], ReadPart(part);
    assert parts[|front|] == part && forall k :: 0 <= k < |front| ==> parts[k] == front[k];
    assert last.Some? ==> Holds(part, last.value.name);
    assert forall name :: Holds(part, name) ==> last.Some? && last.value.name == name;
    hide Holds, ReadPart;
    if last.Some? && AnyHolds(front, last.value.name) {
      var k :| 0 <= k < |front| && Holds(front[k], last.value.name);
      assert Holds(parts[k], last.value.name) && Holds(parts[|front|], last.value.name);
    }
    if Repeats(front) {
      var i, k, name :| 0 <= i < k < |front| && Holds(front[i], name) && Holds(front[k], name);
      assert Holds(parts[i], name) && Holds(parts[k], name);
    }
    if Repeats(parts) {
      var i, k, name :| 0 <= i < k < |parts| && Holds(parts[i], name) && Holds(parts[k], name);
      assert Holds(front[i], name);
      assert k < |front| ==> Holds(front[k], name);
    }
  }

  lemma {:induction false} ReadNames(parts: seq<string>, name: string)
    ensures Named(Read(parts), name) <==> AnyHolds(parts, name)
  {
    hide Named, AnyHolds, ReadPart;
    if parts == [] {
      NothingHeld(name);
    } else {
      var front, part := parts[..|parts| - 1], parts[|parts| - 1];
      assert parts == front + [part];
      ReadNames(front, name);
      AnyHoldsGrows(front, part, name);
      if ReadPart(part).Some? {
        NamedGrows(Read(front), ReadPart(part).value, name);
      }
    }
  }

  lemma {:induction false} NothingHeld(name: string)
    ensures !Named([], name) && !AnyHolds([], name) && !Repeats([]) && Distinct([])
  {
  }

  lemma {:induction false} DistinctIff(parts: seq<string>)
    ensures Distinct(Read(parts)) <==> !Repeats(parts)
  {
    hide Named, AnyHolds, ReadPart, Repeats, Distinct;
    if parts == [] {
      NothingHeld("");
    } else {
      var front, part := parts[..|parts| - 1], parts[|parts| - 1];
      assert parts == front + [part];
      DistinctIff(front);
      RepeatsGrows(front, part);
      if ReadPart(part).Some? {
        ReadNames(front, ReadPart(part).value.name);
        NamedGrows(Read(front), ReadPart(part).value, "");
      }
    }
  }

  /** The filter refuses exactly the headers in which two parts hold a cookie of the same allowed name. */
  lemma {:induction false} RefusedIff(header: string)
    ensures Filtered(header).Err? <==> Repeats(Split(header, ';'))
  {
    hide Read, Split, Repeats, Distinct, Print;
    DistinctIff(Split(header, ';'));
  }

  // ---- The header, told from its text

  /** The part is a session cookie of that name and value, apart from white space. */
  ghost predicate IsSessionCookie(part: string, p: Pair) {
    exists left, right :: && part == left + "=" + right && '=' !in left
                          && p.name == JsTrim(left) && p.value == JsTrim(right)
                          && (p.name == "web_access_token" || p.name == "web_refresh_token")
  }

  lemma {:induction false} PartIs(part: string, p: Pair)
    ensures ReadPart(part) == Some(p) <==> IsSessionCookie(part, p)
  {
    hide Trim, IndexOf;
    var at := IndexOf(part, '=');
    if at.Some? {
      var left, right := part[..at.value], part[at.value + 1..];
      assert part == left + "=" + right;
    }
    if left, right :| && part == left + "=" + right && '=' !in left
                      && p.name == JsTrim(left) && p.value == JsTrim(right)
                      && (p.name == "web_access_token" || p.name == "web_refresh_token") {
      assert part[..|left|] == left && part[|left| + 1..] == right;
      IndexOfIs(part, '=', |left|);
    }
  }

  /** Parts put together with a semicolon between them. */
  function Joined(parts: seq<string>): string {
    if parts == [] then "" else if |parts| == 1 then parts[0] else parts[0] + ";" + Joined(parts[1..])
  }

  /** The parts of a header are what stands between its semicolons. */
  lemma {:induction false} PartsAre(header: string)
    ensures Split(header, ';') != [] && Joined(Split(header, ';')) == header
    decreases |header|
  {
    var i := IndexOf(header, ';');
    if i.Some? {
      PartsAre(header[i.value + 1..]);
      var rest := Split(header[i.value + 1..], ';');
      assert ([header[..i.value]] + rest)[1..] == rest;
      assert header == header[..i.value] + ";" + header[i.value + 1..];
    }
    hide IndexOf;
  }

  /** The cookies passed on are exactly the session cookies among the parts. */
  lemma {:induction false} PassedOnIff(header: string, p: Pair)
    requires Filtered(header).Ok?
    ensures p in Parsed(header).value <==> exists k :: 0 <= k < |Split(header, ';')| && IsSessionCookie(Split(header, ';')[k], p)
  {
    hide Split, Print, ReadPart, IsSessionCookie, Read, Distinct;
    var parts := Split(header, ';');
    ReadHolds(parts, p);
    forall k | 0 <= k < |parts|
      ensures ReadPart(parts[k]) == Some(p) <==> IsSessionCookie(parts[k], p)
    {
      PartIs(parts[k], p);
    }
    assert Parsed(header) == Ok(Read(parts));
  }

  /** They keep the order they come in. */
  lemma {:induction false} PassedOnInOrder(header: string, i: nat, k: nat, p: Pair, q: Pair) returns (x: nat, y: nat)
    requires Filtered(header).Ok? && i < k < |Split(header, ';')|
    requires IsSessionCookie(Split(header, ';')[i], p) && IsSessionCookie(Split(header, ';')[k], q)
    ensures x < y < |Parsed(header).value| && Parsed(header).value[x] == p && Parsed(header).value[y] == q
  {
    hide Split, Print, ReadPart, IsSessionCookie, Read, Distinct;
    var parts := Split(header, ';');
    PartIs(parts[i], p);
    PartIs(parts[k], q);
    ReadInOrder(parts, i, k, p, q);
    x, y :| x < y < |Read(parts)| && Read(parts)[x] == p && Read(parts)[y] == q;
  }

  lemma {:induction false} ReadHolds(parts: seq<string>, p: Pair)
    ensures p in Read(parts) <==> exists k :: 0 <= k < |parts| && ReadPart(parts[k]) == Some(p)
  {
    hide ReadPart;
    if parts != [] {
      var front := parts[..|parts| - 1];
      ReadHolds(front, p);
      assert forall k :: 0 <= k < |front| ==> front[k] == parts[k];
    }
  }

  lemma {:induction false} ReadInOrder(parts: seq<string>, i: nat, k: nat, p: Pair, q: Pair)
    requires i < k < |parts| && ReadPart(parts[i]) == Some(p) && ReadPart(parts[k]) == Some(q)
    ensures exists x: nat, y: nat :: x < y < |Read(parts)| && Read(parts)[x] == p && Read(parts)[y] == q
  {
    hide ReadPart;
    var front := parts[..|parts| - 1];
    if k == |parts| - 1 {
      assert front[i] == parts[i];
      ReadHolds(front, p);
      var x: nat :| x < |Read(front)| && Read(front)[x] == p;
      var y: nat := |Read(front)|;
      assert Read(parts)[x] == p && Read(parts)[y] == q;
    } else {
      ReadInOrder(front, i, k, p, q);
      var x: nat, y: nat :| x < y < |Read(front)| && Read(front)[x] == p && Read(front)[y] == q;
      assert Read(parts)[x] == p && Read(parts)[y] == q;
    }
  }

  /** The header written is "name=value" for each cookie passed on, with "; " between them. */
  lemma {:induction false} WrittenIs(header: string)
    requires Filtered(header).Ok?
    ensures var pairs, text := Parsed(header).value, Filtered(header).value;
            match |pairs|
            case 0 => text == ""
            case 1 => text == pairs[0].name + "=" + pairs[0].value
            case 2 => text == pairs[0].name + "=" + pairs[0].value + "; " + pairs[1].name + "=" + pairs[1].value
            case _ => false
  {
    hide Split, Read;
    var parts := Split(header, ';');
    var pairs := Read(parts);
    ReadIsClean(parts);
    TwoNamesOnly(pairs);
    if |pairs| == 2 {
      assert pairs[1..] == [pairs[1]];
      assert Print(pairs) == Item(pairs[0]) + "; " + Item(pairs[1]);
    }
  }

  lemma {:induction false} TwoNamesOnly(pairs: seq<Pair>)
    requires Distinct(pairs) && forall i :: 0 <= i < |pairs| ==> Clean(pairs[i])
    ensures |pairs| <= 2
  {
    hide Trimmed;
    var names := seq(|pairs|, i requires 0 <= i < |pairs| => pairs[i].name);
    NoRepeatsIffCounted(names);
    var all := {ACCESS, REFRESH};
    assert Members(names) <= all;
    assert |all - Members(names)| == |all| - |Members(names)|;
    assert |all| <= 2;
  }
}
