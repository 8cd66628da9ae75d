/** The one-time state of a browser login: created by the login command, used up by the callback. */
module LoginState {
  import opened Common
  import opened CookieSession

  /** `createdAt` is `None` for Go's zero time. */
  datatype OAuthState = OAuthState(
    state: string,
    nonce: string,
    codeVerifier: string,
    returnURL: string,
    createdAt: Option<int>)

  datatype LoginError = InvalidState | InvalidCallback | ProviderRefused

  predicate Valid(s: OAuthState) {
    s.state != "" && s.nonce != "" && s.codeVerifier != "" && s.createdAt.Some?
  }

  predicate IsExpired(s: OAuthState, now: int, ttl: int) {
    s.createdAt.None? || now - s.createdAt.value > ttl
  }

  type States = map<string, OAuthState>

  // ---- The store

  function Saved(states: States, s: OAuthState): (Option<LoginError>, States) {
    if !Valid(s) then (Some(InvalidState), states) else (None, states[s.state := s])
  }

  /** Looking up an expired state removes it. */
  function Got(states: States, ttl: int, value: string, now: int): (Result<OAuthState, LoginError>, States) {
    if value == "" || value !in states then (Err(InvalidState), states)
    else if IsExpired(states[value], now, ttl) then (Err(InvalidState), states - {value})
    else (Ok(states[value]), states)
  }

  function Deleted(states: States, value: string): (Option<LoginError>, States) {
    if value == "" then (Some(InvalidState), states) else (None, states - {value})
  }

  const DEFAULT_TTL := 600_000

  class InMemoryOAuthStateStore {
    const ttl: int
    var states: States

    constructor (ttl: int)
      ensures this.ttl == (if ttl <= 0 then 600_000 else ttl) && states == map[]
    {
      this.ttl := if ttl <= 0 then DEFAULT_TTL else ttl;
      states := map[];
    }

    method Save(s: OAuthState) returns (e: Option<LoginError>)
      modifies this
      ensures (e, states) == Saved(old(states), s)
      ensures e == None <==> s.state != "" && s.nonce != "" && s.codeVerifier != "" && s.createdAt.Some?
      ensures states == if e == None then old(states)[s.state := s] else old(states)
    {
      if !Valid(s) {
        return Some(InvalidState);
      }
      states := states[s.state := s];
      return None;
    }

    method Get(value: string, now: int) returns (r: Result<OAuthState, LoginError>)
      modifies this
      ensures (r, states) == Got(old(states), ttl, value, now)
      ensures r.Ok? ==> value in old(states) && r.value == old(states)[value] && states == old(states)
      ensures states == old(states) || states == old(states) - {value}
    {
      if value == "" {
        return Err(InvalidState);
      }
      if value !in states {
        return Err(InvalidState);
      }
      var s := states[value];
      if IsExpired(s, now, ttl) {
        states := states - {value};
        return Err(InvalidState);
      }
      return Ok(s);
    }

    method Delete(value: string) returns (e: Option<LoginError>)
      modifies this
      ensures (e, states) == Deleted(old(states), value)
      ensures if value == "" then e.Some? && states == old(states) else e == None && states == old(states) - {value}
    {
      if value == "" {
        return Some(InvalidState);
      }
      states := states - {value};
      return None;
    }
  }

  // ---- The commands

  /** The random values of one login; `None` when the source of randomness failed. */
  datatype Draw = Draw(state: Option<string>, nonce: Option<string>, codeVerifier: string)

  function LoggedIn(states: States, draw: Draw, returnURL: string, now: int, urlBuilt: bool):
    (Option<LoginError>, States)
  {
    if draw.state.None? || draw.nonce.None? then (Some(ProviderRefused), states)
    else
      var (e, next) := Saved(states, OAuthState(draw.state.value, draw.nonce.value, draw.codeVerifier, returnURL, Some(now)));
      if e.Some? then (e, next) else (if urlBuilt then None else Some(ProviderRefused), next)
  }

  datatype Exchange = ExchangeFailed | NothingExchanged | Exchanged(accessToken: string, idToken: Option<string>)

  /** The identity provider and the two token validators. */
  datatype Provider = Provider(
    exchange: (string, string) -> Exchange,
    idTokenValid: (string, string) -> bool,
    accessTokenValid: string -> bool)

  datatype Callback = Callback(idToken: string, accessToken: string, returnURL: string)

  /** What the provider and the validators make of the code and the state found. */
  function Redeemed(p: Provider, code: string, s: OAuthState): Result<Callback, LoginError> {
    match p.exchange(code, s.codeVerifier)
    case ExchangeFailed => Err(ProviderRefused)
    case NothingExchanged => Err(InvalidCallback)
    case Exchanged(access, idToken) =>
      if idToken.None? || Blank(idToken.value) then Err(InvalidCallback)
      else if !p.idTokenValid(idToken.value, s.nonce) || !p.accessTokenValid(access) then Err(ProviderRefused)
      else Ok(Callback(idToken.value, access, s.returnURL))
  }

  function CalledBack(states: States, ttl: int, p: Provider, code: string, value: string, now: int):
    (Result<Callback, LoginError>, States)
  {
    if Blank(code) || Blank(value) then (Err(InvalidCallback), states)
    else
      var (r, next) := Got(states, ttl, value, now);
      if r.Err? then (Err(r.error), next)
      else if r.value.state != value then (Err(InvalidState), next)
      else match Redeemed(p, code, r.value)
        case Err(e) => (Err(e), next)
        case Ok(result) =>
          var (e, after) := Deleted(next, value);
          (if e.Some? then Err(e.value) else Ok(result), after)
  }

  class LoginCommand {
    const stateStore: InMemoryOAuthStateStore

    constructor (stateStore: InMemoryOAuthStateStore)
      ensures this.stateStore == stateStore
    {
      this.stateStore := stateStore;
    }

    method Execute(draw: Draw, returnURL: string, now: int, urlBuilt: bool) returns (e: Option<LoginError>)
      modifies stateStore
      ensures (e, stateStore.states) == LoggedIn(old(stateStore.states), draw, returnURL, now, urlBuilt)
    {
      if draw.state.None? {
        return Some(ProviderRefused);
      }
      if draw.nonce.None? {
        return Some(ProviderRefused);
      }
      e := stateStore.Save(OAuthState(draw.state.value, draw.nonce.value, draw.codeVerifier, returnURL, Some(now)));
      if e.Some? {
        return;
      }
      return if urlBuilt then None else Some(ProviderRefused);
    }
  }

  class CallbackCommand {
    const stateStore: InMemoryOAuthStateStore

    constructor (stateStore: InMemoryOAuthStateStore)
      ensures this.stateStore == stateStore
    {
      this.stateStore := stateStore;
    }

    method Execute(p: Provider, code: string, value: string, now: int) returns (r: Result<Callback, LoginError>)
      modifies stateStore
      ensures (r, stateStore.states) == CalledBack(old(stateStore.states), stateStore.ttl, p, code, value, now)
    {
      if GoTrim(code) == "" || GoTrim(value) == "" {
        return Err(InvalidCallback);
      }
      var found := stateStore.Get(value, now);
      if found.Err? {
        return Err(found.error);
      }
      var oauthState := found.value;
      if oauthState.state != value {
        return Err(InvalidState);
      }
      var token := p.exchange(code, oauthState.codeVerifier);
      if token.ExchangeFailed? {
        return Err(ProviderRefused);
      }
      if token.NothingExchanged? {
        return Err(InvalidCallback);
      }
      if token.idToken.None? || GoTrim(token.idToken.value) == "" {
        return Err(InvalidCallback);
      }
      if !p.idTokenValid(token.idToken.value, oauthState.nonce) {
        return Err(ProviderRefused);
      }
      if !p.accessTokenValid(token.accessToken) {
        return Err(ProviderRefused);
      }
      var e := stateStore.Delete(value);
      if e.Some? {
        return Err(InvalidState);
      }
      return Ok(Callback(token.idToken.value, token.accessToken, oauthState.returnURL));
    }
  }

  // ---- Runs of whole commands

  datatype Event =
    | Login(draw: Draw, returnURL: string, now: int, urlBuilt: bool)
    | Return(provider: Provider, code: string, state: string, now: int)

  function StatesBefore(ttl: int, events: seq<Event>, j: nat): States
    requires j <= |events|
  {
    if j == 0 then map[]
    else
      var last := StatesBefore(ttl, events, j - 1);
      match events[j - 1]
      case Login(draw, returnURL, now, urlBuilt) => LoggedIn(last, draw, returnURL, now, urlBuilt).1
      case Return(p, code, value, now) => CalledBack(last, ttl, p, code, value, now).1
  }

  /** What a login saves, if it saves anything. */
  function SavedBy(e: Event): Option<OAuthState> {
    if e.Login? && e.draw.state.Some? && e.draw.nonce.Some? then
      var s := OAuthState(e.draw.state.value, e.draw.nonce.value, e.draw.codeVerifier, e.returnURL, Some(e.now));
      if Valid(s) then Some(s) else None
    else None
  }

  /** The latest save of a state value among the first `j` events. */
  function LatestSave(events: seq<Event>, value: string, j: nat): (r: Option<nat>)
    requires j <= |events|
    ensures r.Some? ==> r.value < j && SavedBy(events[r.value]).Some? && SavedBy(events[r.value]).value.state == value
  {
    if j == 0 then None
    else if SavedBy(events[j - 1]).Some? && SavedBy(events[j - 1]).value.state == value then Some(j - 1)
    else LatestSave(events, value, j - 1)
  }

  predicate Succeeds(ttl: int, events: seq<Event>, j: nat)
    requires j < |events|
  {
    var e := events[j];
    e.Return? && CalledBack(StatesBefore(ttl, events, j), ttl, e.provider, e.code, e.state, e.now).0.Ok?
  }

  /** The event asks for the state value at a time when a state saved by `saved` has expired. */
  predicate FindsExpired(ttl: int, e: Event, saved: OAuthState) {
    e.Return? && e.state == saved.state && !Blank(e.code) && !Blank(e.state) && IsExpired(saved, e.now, ttl)
  }

  /** Neither used up nor found expired from event `i` to event `j`. */
  ghost predicate Unspent(ttl: int, events: seq<Event>, saved: OAuthState, i: nat, j: nat)
    requires j <= |events|
  {
    forall k :: i < k < j ==>
      && (events[k].Return? && events[k].state == saved.state ==> !Succeeds(ttl, events, k))
      && !FindsExpired(ttl, events[k], saved)
  }

  /** The store holds exactly the latest save of each state value that is not spent. */
  lemma {:induction false} StoreIsUnspent(ttl: int, events: seq<Event>, value: string, j: nat)
    requires j <= |events|
    ensures var i := LatestSave(events, value, j);
            var states := StatesBefore(ttl, events, j);
            && (value in states <==> i.Some? && Unspent(ttl, events, SavedBy(events[i.value]).value, i.value, j))
            && (value in states ==> states[value] == SavedBy(events[i.value]).value)
  {
    hide StatesBefore, Succeeds, FindsExpired;
    if j == 0 {
      NothingStored(ttl, events);
    } else {
      StoreIsUnspent(ttl, events, value, j - 1);
      EventStores(ttl, events, value, j - 1);
    }
  }

  lemma {:induction false} NothingStored(ttl: int, events: seq<Event>)
    ensures StatesBefore(ttl, events, 0) == map[]
  {
  }

  /** One event puts a state value into the store, takes it out, or leaves it alone. */
  lemma {:induction false} EventStores(ttl: int, events: seq<Event>, value: string, j: nat)
    requires j < |events|
    requires var before := StatesBefore(ttl, events, j);
             value in before ==> before[value].state == value && Valid(before[value])
    ensures var before, after := StatesBefore(ttl, events, j), StatesBefore(ttl, events, j + 1);
            var saved := SavedBy(events[j]);
            if saved.Some? && saved.value.state == value then value in after && after[value] == saved.value
            else
              && (value in after <==>
                    && value in before
                    && (events[j].Return? && events[j].state == value ==> !Succeeds(ttl, events, j))
                    && !FindsExpired(ttl, events[j], before[value]))
              && (value in after ==> after[value] == before[value])
  {
    hide Redeemed, Blank, IsExpired;
  }

  /** Event `i` is a login that saves the state value, and no later one before event `j` saves it again. */
  ghost predicate Begins(events: seq<Event>, value: string, i: nat, j: nat)
    requires j <= |events|
  {
    i < j && OffersValue(events[i], value) && forall k :: i < k < j ==> !OffersValue(events[k], value)
  }

  /** A login whose random values are there, and not empty. */
  predicate OffersValue(e: Event, value: string) {
    && e.Login? && value != "" && e.draw.state == Some(value)
    && e.draw.nonce.Some? && e.draw.nonce.value != "" && e.draw.codeVerifier != ""
  }

  /** From event `i` to event `j` no callback on the value succeeds, and none that could have asks too late. */
  ghost predicate IsUnspent(ttl: int, events: seq<Event>, value: string, i: nat, j: nat)
    requires j <= |events| && i < |events|
  {
    forall k :: i < k < j && events[k].Return? && events[k].state == value ==>
      !Succeeds(ttl, events, k) && (Blank(events[k].code) || events[k].now - events[i].now <= ttl)
  }

  /**
   The provider exchanges the code for these tokens given the login's code verifier, the identity token is accepted
   with the login's nonce, and the access token is accepted.
   */
  predicate Redeems(p: Provider, code: string, login: Event, r: Callback)
    requires login.Login? && login.draw.nonce.Some?
  {
    && p.exchange(code, login.draw.codeVerifier) == Exchanged(r.accessToken, Some(r.idToken)) && !Blank(r.idToken)
    && p.idTokenValid(r.idToken, login.draw.nonce.value) && p.accessTokenValid(r.accessToken)
    && r.returnURL == login.returnURL
  }

  lemma {:induction false} BeginsIff(events: seq<Event>, value: string, j: nat)
    requires j <= |events|
    ensures LatestSave(events, value, j).Some? <==> exists i: nat :: Begins(events, value, i, j)
    ensures LatestSave(events, value, j).Some? ==> Begins(events, value, LatestSave(events, value, j).value, j)
    ensures forall i: nat :: Begins(events, value, i, j) ==> LatestSave(events, value, j) == Some(i)
  {
    if j > 0 {
      BeginsIff(events, value, j - 1);
      OffersIff(events[j - 1], value);
      hide SavedBy, OffersValue;
      var last: nat := j - 1;
      forall i: nat | Begins(events, value, i, j)
        ensures LatestSave(events, value, j) == Some(i)
      {
        assert i < last ==> Begins(events, value, i, last);
      }
      if OffersValue(events[last], value) {
        assert Begins(events, value, last, j);
      } else if LatestSave(events, value, last).Some? {
        assert Begins(events, value, LatestSave(events, value, last).value, j);
      }
    }
  }

  lemma {:induction false} OffersIff(e: Event, value: string)
    ensures OffersValue(e, value) <==> SavedBy(e).Some? && SavedBy(e).value.state == value
  {
  }

  lemma {:induction false} UnspentIff(ttl: int, events: seq<Event>, value: string, i: nat, j: nat)
    requires j <= |events| && Begins(events, value, i, j) && !Blank(value)
    ensures SavedBy(events[i]).Some?
    ensures Unspent(ttl, events, SavedBy(events[i]).value, i, j) <==> IsUnspent(ttl, events, value, i, j)
  {
    hide Blank, Succeeds;
  }

  /**
   Over every run, a callback answers with these tokens exactly when the latest login on its state value is unspent and
   not older than its lifetime, and the provider and the validators grant them for that login's verifier and nonce.
   */
  lemma {:induction false} CallbackSucceedsIff(ttl: int, events: seq<Event>, j: nat, r: Callback)
    requires j < |events| && events[j].Return?
    ensures var e := events[j];
            CalledBack(StatesBefore(ttl, events, j), ttl, e.provider, e.code, e.state, e.now).0 == Ok(r) <==>
            && !Blank(e.code) && !Blank(e.state)
            && exists i: nat :: && Begins(events, e.state, i, j) && IsUnspent(ttl, events, e.state, i, j)
                                && e.now - events[i].now <= ttl && Redeems(e.provider, e.code, events[i], r)
  {
    var e := events[j];
    var latest := LatestSave(events, e.state, j);
    StoreIsUnspent(ttl, events, e.state, j);
    BeginsIff(events, e.state, j);
    if !Blank(e.state) && latest.Some? {
      UnspentIff(ttl, events, e.state, latest.value, j);
      RedeemedIs(e.provider, e.code, events[latest.value], e.state, r);
    }
    hide Blank, Redeemed, Redeems, IsUnspent, Begins, Unspent, StatesBefore, LatestSave;
  }

  lemma {:induction false} RedeemedIs(p: Provider, code: string, login: Event, value: string, r: Callback)
    requires OffersValue(login, value)
    ensures SavedBy(login).Some? && SavedBy(login).value.createdAt == Some(login.now)
    ensures Redeemed(p, code, SavedBy(login).value) == Ok(r) <==> Redeems(p, code, login, r)
  {
    hide Blank;
  }

  lemma {:induction false} SucceedsIff(ttl: int, events: seq<Event>, j: nat)
    requires j < |events| && events[j].Return?
    ensures var e := events[j];
            var i := LatestSave(events, e.state, j);
            Succeeds(ttl, events, j) <==>
              && !Blank(e.code) && !Blank(e.state) && i.Some?
              && var saved := SavedBy(events[i.value]).value;
                 && Unspent(ttl, events, saved, i.value, j)
                 && e.now <= saved.createdAt.value + ttl
                 && Redeemed(e.provider, e.code, saved).Ok?
  {
    hide Redeemed, Blank, LatestSave, Unspent, StatesBefore;
    StoreIsUnspent(ttl, events, events[j].state, j);
  }

  /** What a callback that does not succeed is answered: the first thing wrong with it. */
  lemma {:induction false} CallbackErrorIs(ttl: int, events: seq<Event>, j: nat)
    requires j < |events| && events[j].Return?
    ensures var e := events[j];
            var answer := CalledBack(StatesBefore(ttl, events, j), ttl, e.provider, e.code, e.state, e.now).0;
            && (Blank(e.code) || Blank(e.state) ==> answer == Err(InvalidCallback))
            && (!Blank(e.code) && !Blank(e.state) ==>
                  && (answer == Err(InvalidState) <==>
                        !exists i: nat :: && Begins(events, e.state, i, j) && IsUnspent(ttl, events, e.state, i, j)
                                          && e.now - events[i].now <= ttl)
                  && (forall i: nat :: && Begins(events, e.state, i, j) && IsUnspent(ttl, events, e.state, i, j)
                                       && e.now - events[i].now <= ttl ==>
                        match e.provider.exchange(e.code, events[i].draw.codeVerifier)
                        case ExchangeFailed => answer == Err(ProviderRefused)
                        case NothingExchanged => answer == Err(InvalidCallback)
                        case Exchanged(access, idToken) =>
                          if idToken.None? || Blank(idToken.value) then answer == Err(InvalidCallback)
                          else answer.Ok? || answer == Err(ProviderRefused)))
  {
    var e := events[j];
    var latest := LatestSave(events, e.state, j);
    StoreIsUnspent(ttl, events, e.state, j);
    BeginsIff(events, e.state, j);
    if !Blank(e.state) && latest.Some? {
      UnspentIff(ttl, events, e.state, latest.value, j);
      OffersIff(events[latest.value], e.state);
    }
    hide Blank, IsUnspent, Begins, Unspent, StatesBefore, LatestSave;
  }

  /** A login is answered without an error exactly when its random values are there and its redirect could be built. */
  lemma {:induction false} LoginSucceedsIff(states: States, draw: Draw, returnURL: string, now: int, urlBuilt: bool)
    ensures var (error, after) := LoggedIn(states, draw, returnURL, now, urlBuilt);
            && (error == None <==>
                  && draw.state.Some? && draw.nonce.Some? && draw.state.value != "" && draw.nonce.value != ""
                  && draw.codeVerifier != "" && urlBuilt)
            && (after != states ==>
                  && draw.state.Some? && draw.nonce.Some?
                  && after == states[draw.state.value :=
                       OAuthState(draw.state.value, draw.nonce.value, draw.codeVerifier, returnURL, Some(now))])
  {
  }

  /** A state value is used at most once for each time it is saved. */
  lemma {:induction false} SingleUse(ttl: int, events: seq<Event>, i: nat, j: nat)
    requires i < j < |events| && events[i].Return? && events[j].Return? && events[i].state == events[j].state
    requires Succeeds(ttl, events, i) && Succeeds(ttl, events, j)
    ensures exists k :: i < k < j && SavedBy(events[k]).Some? && SavedBy(events[k]).value.state == events[j].state
  {
    hide Redeemed, Succeeds, StatesBefore, IsExpired;
    SucceedsIff(ttl, events, j);
    var k := LatestSave(events, events[j].state, j).value;
    var saved := SavedBy(events[k]).value;
    assert Unspent(ttl, events, saved, k, j);
    assert !(k < i);
  }
}
