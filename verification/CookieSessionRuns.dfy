/** What authentication does to the browser's session, request by request and over whole runs. */
module CookieSessionRuns {
  import opened Common
  import opened Text
  import opened Whitespace
  import opened CookieSession

  /** The characters Go writes into a cookie; others it drops. Quotes it adds are taken off again on reading. */
  predicate CookieSafe(c: char) {
    ' ' <= c <= '~' && c != '\"' && c != ';' && c != '\\'
  }

  /** What is read back of a cookie written with this value. */
  function CookieText(s: string): string {
    if s == "" then ""
    else (if CookieSafe(s[0]) then [s[0]] else []) + CookieText(s[1..])
  }

  /** A value reads back unchanged exactly when every character of it can be written. */
  lemma {:induction false} CookieTextIff(s: string)
    ensures |CookieText(s)| <= |s|
    ensures CookieText(s) == s <==> forall i :: 0 <= i < |s| ==> CookieSafe(s[i])
  {
    hide CookieSafe;
    if s != "" {
      CookieTextIff(s[1..]);
      if CookieText(s) == s {
        assert |CookieText(s[1..])| == |s[1..]|;
        assert CookieText(s)[1..] == CookieText(s[1..]);
        assert forall i :: 0 < i < |s| ==> s[i] == s[1..][i - 1];
      }
    }
  }

  /**
   How a browser takes one cookie (section 5.3 of RFC 6265), as the next request reads it: a negative age removes
   it.
   */
  function Took(jar: Jar, c: ResponseCookie): Jar {
    if c.maxAge < 0 then Jar(jar.cookies - {c.name}) else Jar(jar.cookies[c.name := CookieText(c.value)])
  }

  function TookAll(jar: Jar, cs: seq<ResponseCookie>): Jar
    decreases cs
  {
    if cs == [] then jar else TookAll(Took(jar, cs[0]), cs[1..])
  }

  lemma {:induction false} TookTwo(jar: Jar, a: ResponseCookie, b: ResponseCookie)
    ensures TookAll(jar, [a]) == Took(jar, a)
    ensures TookAll(jar, [a, b]) == Took(Took(jar, a), b)
  {
    assert [a][1..] == [] && [a, b][1..] == [b] && [b][1..] == [];
    assert TookAll(Took(jar, a), []) == Took(jar, a);
    assert TookAll(Took(jar, a), [b]) == TookAll(Took(Took(jar, a), b), []);
  }

  lemma {:induction false} TookJoined(jar: Jar, a: seq<ResponseCookie>, b: seq<ResponseCookie>)
    ensures TookAll(jar, a + b) == TookAll(TookAll(jar, a), b)
    decreases a
  {
    if a == [] {
      assert a + b == b;
    } else {
      assert (a + b)[1..] == a[1..] + b;
      TookJoined(Took(jar, a[0]), a[1..], b);
    }
  }

  /** A jar without the session, all other cookies kept. */
  function WithoutSession(jar: Jar): Jar {
    Jar(jar.cookies - {ACCESS, REFRESH})
  }

  /** A jar with a new session; without a new refresh token the old one stays. */
  function WithSession(jar: Jar, accessToken: string, refreshToken: string): Jar {
    Jar(if refreshToken == "" then jar.cookies[ACCESS := CookieText(accessToken)]
        else jar.cookies[ACCESS := CookieText(accessToken)][REFRESH := CookieText(refreshToken)])
  }

  lemma {:induction false} ClearingClears(jar: Jar)
    ensures TookAll(jar, ClearCookies()) == WithoutSession(jar)
  {
    TookTwo(jar, ResponseCookie(ACCESS, "", -1), ResponseCookie(REFRESH, "", -1));
    assert jar.cookies - {ACCESS} - {REFRESH} == jar.cookies - {ACCESS, REFRESH};
  }

  lemma {:induction false} SettingSets(jar: Jar, accessToken: string, refreshToken: string, expiresIn: int)
    requires accessToken != ""
    ensures TookAll(jar, TokenCookies(accessToken, refreshToken, expiresIn)) ==
            WithSession(jar, accessToken, refreshToken)
  {
    var a := NewCookie(ACCESS, accessToken, if expiresIn <= 0 then DEFAULT_ACCESS_TTL else expiresIn);
    var b := NewCookie(REFRESH, refreshToken, REFRESH_TTL);
    TookTwo(jar, a, b);
    assert TokenCookies(accessToken, refreshToken, expiresIn) == if refreshToken == "" then [a] else [a, b];
  }

  /** The jar after a request. */
  ghost function JarAfter(cfg: Config, w: World, jar: Jar, header: string): Jar {
    TookAll(jar, Authenticated(cfg, w, jar, header).cookies)
  }

  /** The request refreshed its session and the new token was accepted. */
  ghost predicate Rotated(cfg: Config, w: World, jar: Jar, header: string) {
    var e := Authenticated(cfg, w, jar, header);
    e.refreshed != [] && e.result.Ok?
  }

  /** The access cookie was expired and no new session came of it. */
  ghost predicate Ended(cfg: Config, w: World, jar: Jar, header: string) {
    && BearerToken(header) == "" && cfg.hasCookieManager && TokenIn(jar, ACCESS).Some?
    && Checked(cfg, w.first(TokenIn(jar, ACCESS).value), TokenIn(jar, ACCESS).value) == Err(ExpiredToken)
    && !Rotated(cfg, w, jar, header)
  }

  lemma {:induction false} BlankIsNotEmpty(s: string)
    ensures !Blank(s) ==> s != ""
  {
  }

  lemma {:induction false} RefreshedJar(cfg: Config, w: World, jar: Jar, expired: string, refreshToken: string)
    ensures var e := AfterRefresh(cfg, w, expired, refreshToken);
            TookAll(jar, e.cookies) ==
            if e.result.Ok? then WithSession(jar, e.result.value.accessToken, w.refresh(refreshToken).refreshToken)
            else WithoutSession(jar)
    ensures AfterRefresh(cfg, w, expired, refreshToken).result.Ok? ==> w.refresh(refreshToken).Renewed?
  {
    hide Checked, Blank, TookAll, WithSession, TokenCookies;
    ClearingClears(jar);
    match w.refresh(refreshToken) {
      case Renewed(access, next, expiresIn) =>
        if !Blank(access) {
          BlankIsNotEmpty(access);
          SettingSets(jar, access, next, expiresIn);
          TookJoined(jar, TokenCookies(access, next, expiresIn), ClearCookies());
          ClearingClears(WithSession(jar, access, next));
          RotationCleared(jar, access, next);
        }
      case _ =>
    }
  }

  lemma {:induction false} RotationCleared(jar: Jar, access: string, next: string)
    ensures WithoutSession(WithSession(jar, access, next)) == WithoutSession(jar)
  {
    assert WithSession(jar, access, next).cookies - {ACCESS, REFRESH} == jar.cookies - {ACCESS, REFRESH};
  }

  /**
   After a request the browser has exactly one of: the session it had, a rotated session whose access token
   this request validated, or no session at all.
   */
  lemma {:induction false} SessionAfter(cfg: Config, w: World, jar: Jar, header: string)
    ensures var e := Authenticated(cfg, w, jar, header);
            && (Rotated(cfg, w, jar, header) ==>
                  && w.refresh(e.refreshed[0]).Renewed?
                  && JarAfter(cfg, w, jar, header) ==
                     WithSession(jar, e.result.value.accessToken, w.refresh(e.refreshed[0]).refreshToken))
            && (Ended(cfg, w, jar, header) ==> JarAfter(cfg, w, jar, header) == WithoutSession(jar))
            && (!Rotated(cfg, w, jar, header) && !Ended(cfg, w, jar, header) ==> JarAfter(cfg, w, jar, header) == jar)
  {
    ClearingClears(jar);
    var access := TokenIn(jar, ACCESS);
    if BearerToken(header) == "" && cfg.hasCookieManager && access.Some? {
      if cfg.hasRefresh && TokenIn(jar, REFRESH).Some? {
        RefreshedJar(cfg, w, jar, access.value, TokenIn(jar, REFRESH).value);
      }
    }
    hide AfterRefresh, Checked, BearerToken, TokenIn, WithSession, WithoutSession, ClearCookies;
  }

  /** The token was accepted in this request, with every required scope. */
  ghost predicate AcceptedIn(cfg: Config, w: World, token: string) {
    Checked(cfg, w.first(token), token).Ok? || Checked(cfg, w.second(token), token).Ok?
  }

  /**
   A request that is let through carries a token that the validator was asked about last and accepted, with the
   claims it gave and every required scope.
   */
  lemma {:induction false} LetThroughIsValidated(cfg: Config, w: World, jar: Jar, header: string)
    requires Authenticated(cfg, w, jar, header).result.Ok?
    ensures var e := Authenticated(cfg, w, jar, header);
            var s := e.result.value;
            && e.validated != [] && e.validated[|e.validated| - 1] == s.accessToken && !Blank(s.accessToken)
            && (if e.refreshed == [] then w.first(s.accessToken) else w.second(s.accessToken)) == Accepted(s.claims)
            && HasScopes(s.claims.scopes, cfg.requiredScopes)
            && AcceptedIn(cfg, w, s.accessToken)
  {
    hide HasScopes, BearerToken, Blank;
  }

  /** Whatever the client sent, what goes downstream reads back as the validated token, outer white space aside. */
  lemma {:induction false} DownstreamReadsBack(token: string)
    requires !Blank(token)
    ensures BearerToken("Bearer " + token) == GoTrim(token)
  {
    var header := "Bearer " + token;
    FirstSpace(header, 6);
    assert header[..6] == "Bearer" && header[7..] == token;
    assert Lower("Bearer") == "bearer";
    NotBlank(header);
  }

  lemma {:induction false} FirstSpace(s: string, i: nat)
    requires i < |s| && s[i] == ' ' && forall k :: 0 <= k < i ==> s[k] != ' '
    ensures SpaceIndex(s) == Some(i)
  {
    if i > 0 {
      FirstSpace(s[1..], i - 1);
    }
  }

  /** Text that starts with a letter is not blank. */
  lemma {:induction false} NotBlank(s: string)
    requires s != "" && !IsGoSpace(s[0])
    ensures !Blank(s)
  {
    var n := TrimRightCuts(s, IsGoSpace);
    assert TrimLeft(s, IsGoSpace) == s;
    hide TrimRight;
    assert n > 0;
  }

  /**
   A request refreshes at most once, and does so exactly when it sends no bearer token, its access cookie is
   found expired, and there is a refresh token to use and a way to use it.
   */
  lemma {:induction false} RefreshesIff(cfg: Config, w: World, jar: Jar, header: string)
    ensures var e := Authenticated(cfg, w, jar, header);
            && |e.refreshed| <= 1 && |e.validated| <= 2
            && (e.refreshed != [] <==>
                  && BearerToken(header) == "" && cfg.hasCookieManager && TokenIn(jar, ACCESS).Some?
                  && Checked(cfg, w.first(TokenIn(jar, ACCESS).value), TokenIn(jar, ACCESS).value) == Err(ExpiredToken)
                  && cfg.hasRefresh && TokenIn(jar, REFRESH).Some?)
            && (e.refreshed != [] ==> e.refreshed == [TokenIn(jar, REFRESH).value])
  {
    hide HasScopes, BearerToken, Blank;
  }

  /** Once a session has ended, a request without a bearer token is turned away without asking anyone. */
  lemma {:induction false} EndedStaysEnded(cfg: Config, w: World, jar: Jar, header: string, later: World)
    requires Ended(cfg, w, jar, header)
    ensures Authenticated(cfg, later, JarAfter(cfg, w, jar, header), "") == Effects(Err(InvalidJwt), [], [], [])
  {
    SessionAfter(cfg, w, jar, header);
    hide JarAfter, Authenticated, Ended;
    var after := WithoutSession(jar);
    NothingSent(cfg, later, after);
  }

  lemma {:induction false} NothingSent(cfg: Config, w: World, jar: Jar)
    requires ACCESS !in jar.cookies
    ensures Authenticated(cfg, w, jar, "") == Effects(Err(InvalidJwt), [], [], [])
  {
    assert Blank("");
  }

  // ---- Runs

  /** A request, a login that sets a session, or the browser dropping a cookie on its own. */
  datatype Event =
    | Visit(world: World, header: string)
    | Login(accessToken: string, refreshToken: string)
    | Forget(name: string)

  ghost function Next(cfg: Config, jar: Jar, e: Event): Jar {
    match e
    case Visit(w, header) => JarAfter(cfg, w, jar, header)
    case Login(accessToken, refreshToken) => WithSession(jar, accessToken, refreshToken)
    case Forget(name) => Jar(jar.cookies - {name})
  }

  ghost function JarBefore(cfg: Config, events: seq<Event>, j: nat): Jar
    requires j <= |events|
  {
    if j == 0 then Jar(map[]) else Next(cfg, JarBefore(cfg, events, j - 1), events[j - 1])
  }

  /** A login gave the token, or a request of the run accepted it with every required scope. */
  ghost predicate Vouched(cfg: Config, events: seq<Event>, j: nat, token: string)
    requires j <= |events|
  {
    exists i :: 0 <= i < j && VouchedBy(cfg, events[i], token)
  }

  ghost predicate VouchedBy(cfg: Config, e: Event, token: string) {
    match e
    case Visit(w, _) => AcceptedIn(cfg, w, token)
    case Login(accessToken, _) => accessToken == token
    case Forget(_) => false
  }

  lemma {:induction false} StepVouches(cfg: Config, jar: Jar, e: Event)
    requires ACCESS in Next(cfg, jar, e).cookies
    ensures var token := Next(cfg, jar, e).cookies[ACCESS];
            || (ACCESS in jar.cookies && jar.cookies[ACCESS] == token)
            || exists given :: VouchedBy(cfg, e, given) && CookieText(given) == token
  {
    match e {
      case Visit(w, header) =>
        SessionAfter(cfg, w, jar, header);
        if Rotated(cfg, w, jar, header) {
          LetThroughIsValidated(cfg, w, jar, header);
          var given := Authenticated(cfg, w, jar, header).result.value.accessToken;
          assert VouchedBy(cfg, e, given) && CookieText(given) == Next(cfg, jar, e).cookies[ACCESS];
        }
      case Login(given, _) =>
        assert VouchedBy(cfg, e, given) && CookieText(given) == Next(cfg, jar, e).cookies[ACCESS];
      case Forget(_) =>
    }
  }

  /**
   In every run from an empty browser, the access cookie is at all times the text of a token that a login gave or
   that some request of the run accepted with every required scope: all of the token if a cookie can hold it, and
   the characters a cookie can hold otherwise.
   */
  lemma {:induction false} AccessCookieIsVouched(cfg: Config, events: seq<Event>, j: nat) returns (token: string)
    requires j <= |events| && ACCESS in JarBefore(cfg, events, j).cookies
    ensures Vouched(cfg, events, j, token)
    ensures JarBefore(cfg, events, j).cookies[ACCESS] == CookieText(token)
    ensures (forall i :: 0 <= i < |token| ==> CookieSafe(token[i])) <==> JarBefore(cfg, events, j).cookies[ACCESS] == token
  {
    hide Next, VouchedBy, CookieSafe, CookieText;
    var last := events[j - 1];
    StepVouches(cfg, JarBefore(cfg, events, j - 1), last);
    var cookie := JarBefore(cfg, events, j).cookies[ACCESS];
    if given :| VouchedBy(cfg, last, given) && CookieText(given) == cookie {
      token := given;
    } else {
      token := AccessCookieIsVouched(cfg, events, j - 1);
    }
    CookieTextIff(token);
  }

  // ---- What goes downstream

  /**
   One request through authentication and the header after it. A request let through goes on with the token that
   was validated last, whatever the client sent; one turned away goes nowhere.
   */
  method Forward(auth: Authentication, rw: ResponseWriter, provider: Provider, jar: Jar, req: Request)
    returns (passed: bool)
    requires provider.validated == [] && provider.refreshed == [] && rw.cookies == []
    modifies rw, provider, req
    ensures passed <==> Authenticated(auth.cfg, provider.world, jar, old(req.authorization)).result.Ok?
    ensures passed ==>
              && provider.validated != []
              && req.authorization == "Bearer " + provider.validated[|provider.validated| - 1]
              && BearerToken(req.authorization) == GoTrim(provider.validated[|provider.validated| - 1])
    ensures !passed ==> req.authorization == old(req.authorization)
  {
    hide Authenticated, BearerToken, Blank;
    var session := auth.AuthenticateRequest(rw, provider, jar, req.authorization);
    if session.Err? {
      return false;
    }
    LetThroughIsValidated(auth.cfg, provider.world, jar, req.authorization);
    AddAuthorizationHeader(req, Some(session.value.accessToken));
    DownstreamReadsBack(session.value.accessToken);
    return true;
  }

  // ---- One request, told from its header, its cookies and the answers

  /** The header is a bearer header, in any letter case, with this token. */
  ghost predicate SendsBearer(header: string, token: string) {
    token != "" &&
    exists scheme, rest :: && header == scheme + " " + rest && ' ' !in scheme && Lower(scheme) == "bearer"
                           && GoTrim(rest) == token
  }

  ghost predicate SendsNoBearer(header: string) {
    forall token :: !SendsBearer(header, token)
  }

  ghost predicate HasCookie(jar: Jar, name: string, value: string) {
    name in jar.cookies && jar.cookies[name] == value && !Blank(value)
  }

  /** There is a validator, and it accepts the token with claims that have every required scope. */
  ghost predicate Accepts(cfg: Config, answer: Validation, token: string, claims: Claims) {
    cfg.hasValidator && !Blank(token) && answer == Accepted(claims) && HasScopes(claims.scopes, cfg.requiredScopes)
  }

  lemma {:induction false} BearerIff(header: string)
    ensures forall token :: SendsBearer(header, token) <==> token != "" && BearerToken(header) == token
  {
    hide BearerToken, SendsBearer;
    forall token | SendsBearer(header, token)
      ensures token != "" && BearerToken(header) == token
    {
      SentIsRead(header, token);
    }
    if BearerToken(header) != "" {
      ReadWasSent(header);
    }
  }

  lemma {:induction false} SentIsRead(header: string, token: string)
    requires SendsBearer(header, token)
    ensures token != "" && BearerToken(header) == token
  {
    hide Trim, Lower, Blank;
    var scheme, rest :| && header == scheme + " " + rest && ' ' !in scheme && Lower(scheme) == "bearer"
                        && GoTrim(rest) == token;
    FirstSpace(header, |scheme|);
    assert header[..|scheme|] == scheme && header[|scheme| + 1..] == rest;
    NotBlankWithin(header, token, rest);
  }

  lemma {:induction false} ReadWasSent(header: string)
    requires BearerToken(header) != ""
    ensures SendsBearer(header, BearerToken(header))
  {
    hide Trim, Lower, Blank;
    SpaceIndexIs(header);
    SpaceIndexFirst(header);
    var i := SpaceIndex(header).value;
    var scheme, rest := header[..i], header[i + 1..];
    assert header == scheme + " " + rest;
  }

  lemma {:induction false} SpaceIndexFirst(s: string)
    ensures SpaceIndex(s).Some? ==> SpaceIndex(s).value < |s| && ' ' !in s[..SpaceIndex(s).value]
    ensures SpaceIndex(s).None? ==> ' ' !in s
  {
    if s != "" && s[0] != ' ' {
      SpaceIndexFirst(s[1..]);
      var i := SpaceIndex(s);
      if i.Some? {
        assert s[..i.value] == [s[0]] + s[1..][..i.value - 1];
      } else {
        assert s == [s[0]] + s[1..];
      }
    }
  }

  /** Text is blank exactly when it is white space throughout. */
  lemma {:induction false} BlankIff(s: string)
    ensures Blank(s) <==> forall i :: 0 <= i < |s| ==> IsGoSpace(s[i])
  {
    var m := TrimLeftCuts(s, IsGoSpace);
    var u := TrimLeft(s, IsGoSpace);
    var n := TrimRightCuts(u, IsGoSpace);
    hide TrimLeft, TrimRight;
    assert u != "" ==> u[0] == s[m];
  }

  lemma {:induction false} NotBlankWithin(header: string, token: string, rest: string)
    requires GoTrim(rest) == token && token != "" && |rest| <= |header| && header[|header| - |rest|..] == rest
    ensures !Blank(header)
  {
    BlankIff(header);
    BlankIff(rest);
    hide Trim;
    assert forall i :: 0 <= i < |rest| ==> rest[i] == header[|header| - |rest| + i];
  }

  lemma {:induction false} AcceptsIff(cfg: Config, answer: Validation, token: string, claims: Claims)
    ensures Checked(cfg, answer, token) == Ok(claims) <==> Accepts(cfg, answer, token, claims)
  {
    hide Blank, HasScopes;
  }

  /** The access cookie turns out to be expired, and the refresh cookie can be and is exchanged for another token. */
  ghost predicate Renews(cfg: Config, w: World, jar: Jar, access: string, next: string) {
    exists old_, refresh, expiresIn ::
      && HasCookie(jar, "web_access_token", old_) && cfg.hasValidator && w.first(old_) == Refused(ExpiredToken)
      && cfg.hasRefresh && HasCookie(jar, "web_refresh_token", refresh)
      && w.refresh(refresh) == Renewed(access, next, expiresIn)
  }

  /**
   A request is let through with this session exactly when its bearer token is accepted, or, without one, its access
   cookie is, or that has expired and a renewed token is.
   */
  lemma {:induction false} LetThroughIff(cfg: Config, w: World, jar: Jar, header: string, s: Session)
    ensures Authenticated(cfg, w, jar, header).result == Ok(s) <==>
            || (&& s.credential.Bearer? && SendsBearer(header, s.accessToken)
                && Accepts(cfg, w.first(s.accessToken), s.accessToken, s.claims))
            || (&& s.credential.Cookie? && SendsNoBearer(header) && cfg.hasCookieManager
                && (|| (&& HasCookie(jar, "web_access_token", s.accessToken)
                        && Accepts(cfg, w.first(s.accessToken), s.accessToken, s.claims))
                    || (&& (exists next :: Renews(cfg, w, jar, s.accessToken, next))
                        && Accepts(cfg, w.second(s.accessToken), s.accessToken, s.claims))))
  {
    BearerIff(header);
    var bearer := BearerToken(header);
    assert SendsNoBearer(header) <==> bearer == "" by {
      if bearer != "" {
        assert SendsBearer(header, bearer);
      }
    }
    hide BearerToken, SendsBearer, SendsNoBearer, Checked, Accepts;
    if bearer != "" {
      AcceptsIff(cfg, w.first(bearer), bearer, s.claims);
    } else if cfg.hasCookieManager && TokenIn(jar, ACCESS).Some? {
      CookieLetsThroughIff(cfg, w, jar, TokenIn(jar, ACCESS).value, s);
    }
    CookieIs(jar, ACCESS);
    hide Blank, FromCookie;
  }

  lemma {:induction false} CookieIs(jar: Jar, name: string)
    ensures forall value :: HasCookie(jar, name, value) <==> TokenIn(jar, name) == Some(value)
    ensures ACCESS == "web_access_token" && REFRESH == "web_refresh_token"
  {
    hide Blank;
  }

  lemma {:induction false} CookieLetsThroughIff(cfg: Config, w: World, jar: Jar, token: string, s: Session)
    requires TokenIn(jar, ACCESS) == Some(token)
    ensures FromCookie(cfg, w, jar, token).result == Ok(s) <==>
            && s.credential.Cookie?
            && (|| (s.accessToken == token && Accepts(cfg, w.first(token), token, s.claims))
                || (&& (exists next :: Renews(cfg, w, jar, s.accessToken, next))
                    && Accepts(cfg, w.second(s.accessToken), s.accessToken, s.claims)))
  {
    hide HasScopes, Blank;
    CookieIs(jar, ACCESS);
    CookieIs(jar, REFRESH);
    var refresh := TokenIn(jar, REFRESH);
    if refresh.Some? && cfg.hasValidator && w.first(token) == Refused(ExpiredToken) && cfg.hasRefresh {
      match w.refresh(refresh.value) {
        case Renewed(access, next, expiresIn) =>
          assert HasCookie(jar, "web_access_token", token) && HasCookie(jar, "web_refresh_token", refresh.value);
          assert Renews(cfg, w, jar, access, next);
        case _ =>
      }
    }
    hide HasCookie, TokenIn;
  }

  /** What a request that is turned away is told: the validator's error, or what became of the attempt to renew. */
  lemma {:induction false} TurnedAwayWith(cfg: Config, w: World, jar: Jar, header: string, error: AuthError)
    requires Authenticated(cfg, w, jar, header).result == Err(error)
    ensures forall token :: SendsBearer(header, token) ==>
              error == if cfg.hasValidator && !Blank(token) && w.first(token).Refused? then w.first(token).error else InvalidJwt
    ensures SendsNoBearer(header) ==>
              if !cfg.hasCookieManager || (forall token :: !HasCookie(jar, "web_access_token", token)) then error == InvalidJwt
              else forall token | HasCookie(jar, "web_access_token", token) ::
                     if !cfg.hasValidator || !w.first(token).Refused? then error == InvalidJwt
                     else if w.first(token).error != ExpiredToken then error == w.first(token).error
                     else if !cfg.hasRefresh || (forall refresh :: !HasCookie(jar, "web_refresh_token", refresh))
                     then error == ExpiredToken
                     else forall refresh | HasCookie(jar, "web_refresh_token", refresh) ::
                            match w.refresh(refresh)
                            case Denied => error == ProviderFailed
                            case NoToken => error == InvalidJwt
                            case Renewed(access, _, _) =>
                              error == if !Blank(access) && w.second(access).Refused? then w.second(access).error else InvalidJwt
  {
    BearerIff(header);
    CookieIs(jar, ACCESS);
    CookieIs(jar, REFRESH);
    var bearer := BearerToken(header);
    if bearer != "" {
      assert SendsBearer(header, bearer);
    }
    hide BearerToken, SendsBearer, HasScopes, Blank, HasCookie, ACCESS, REFRESH;
    var token, refresh := TokenIn(jar, ACCESS), TokenIn(jar, REFRESH);
    assert token.Some? ==> HasCookie(jar, "web_access_token", token.value);
    assert refresh.Some? ==> HasCookie(jar, "web_refresh_token", refresh.value);
  }

  /**
   The cookies a request sets: for a renewed token, that token for as long as it lasts, five minutes when that is not
   known, and the new refresh token for half an hour; after a failed renewal both are dropped; else none.
   */
  lemma {:induction false} CookiesAre(cfg: Config, w: World, jar: Jar, header: string)
    ensures var e := Authenticated(cfg, w, jar, header);
            var dropped := [ResponseCookie("web_access_token", "", -1), ResponseCookie("web_refresh_token", "", -1)];
            if Ended(cfg, w, jar, header) then |e.cookies| >= 2 && e.cookies[|e.cookies| - 2..] == dropped
            else if Rotated(cfg, w, jar, header) then
              && e.refreshed != []
              && match w.refresh(e.refreshed[0])
                 case Renewed(access, next, expiresIn) =>
                   var lasts := if expiresIn <= 0 then 300 else expiresIn / 1000;
                   e.cookies == if next == "" then [ResponseCookie("web_access_token", access, lasts)]
                                else [ResponseCookie("web_access_token", access, lasts),
                                      ResponseCookie("web_refresh_token", next, 1_800)]
                 case _ => false
            else e.cookies == []
  {
    hide HasScopes, Blank, BearerToken, TokenCookies, ClearCookies, ACCESS, REFRESH, AfterRefresh;
    DroppedAre();
    var access, refresh := TokenIn(jar, ACCESS), TokenIn(jar, REFRESH);
    if access.Some? && refresh.Some? {
      RefreshCookies(cfg, w, access.value, refresh.value);
    }
    assert ClearCookies()[|ClearCookies()| - 2..] == ClearCookies();
  }

  lemma {:induction false} DroppedAre()
    ensures ClearCookies() == [ResponseCookie("web_access_token", "", -1), ResponseCookie("web_refresh_token", "", -1)]
    ensures |ClearCookies()| == 2
  {
  }

  lemma {:induction false} RenewedCookies(access: string, next: string, expiresIn: int)
    requires access != ""
    ensures var lasts := if expiresIn <= 0 then 300 else expiresIn / 1000;
            TokenCookies(access, next, expiresIn) ==
            if next == "" then [ResponseCookie("web_access_token", access, lasts)]
            else [ResponseCookie("web_access_token", access, lasts), ResponseCookie("web_refresh_token", next, 1_800)]
  {
  }

  lemma {:induction false} RefreshCookies(cfg: Config, w: World, expired: string, refreshToken: string)
    ensures var e := AfterRefresh(cfg, w, expired, refreshToken);
            && e.refreshed == [refreshToken]
            && (e.result.Err? ==> |e.cookies| >= 2 && e.cookies[|e.cookies| - 2..] == ClearCookies())
            && (e.result.Ok? ==>
                  match w.refresh(refreshToken)
                  case Renewed(access, next, expiresIn) =>
                    var lasts := if expiresIn <= 0 then 300 else expiresIn / 1000;
                    e.cookies == if next == "" then [ResponseCookie("web_access_token", access, lasts)]
                                 else [ResponseCookie("web_access_token", access, lasts),
                                       ResponseCookie("web_refresh_token", next, 1_800)]
                  case _ => false)
  {
    hide HasScopes, Blank, TokenCookies, ClearCookies, Checked;
    DroppedAre();
    var dropped := ClearCookies();
    assert dropped[0..] == dropped;
    match w.refresh(refreshToken) {
      case Renewed(access, next, expiresIn) =>
        BlankIsNotEmpty(access);
        if access != "" {
          RenewedCookies(access, next, expiresIn);
        }
        var rotated := TokenCookies(access, next, expiresIn);
        assert (rotated + dropped)[|rotated + dropped| - 2..] == dropped;
      case _ =>
    }
  }

  /** The token a refresh has brought, if it is one. */
  function RenewedToken(w: World, refreshed: seq<string>): seq<string> {
    if refreshed == [] then []
    else match w.refresh(refreshed[0])
      case Renewed(access, _, _) => if Blank(access) then [] else [access]
      case _ => []
  }

  /**
   The tokens a request has validated, in order: its bearer token, or its access cookie and then the renewed one; blank
   ones never, and none without a validator.
   */
  lemma {:induction false} AskedAre(cfg: Config, w: World, jar: Jar, header: string)
    ensures var e := Authenticated(cfg, w, jar, header);
            && (!cfg.hasValidator ==> e.validated == [])
            && (forall token :: SendsBearer(header, token) && cfg.hasValidator ==>
                  e.validated == if Blank(token) then [] else [token])
            && (SendsNoBearer(header) && cfg.hasValidator ==>
                  forall token :: HasCookie(jar, "web_access_token", token) && cfg.hasCookieManager ==>
                    e.validated == [token] + RenewedToken(w, e.refreshed))
            && (SendsNoBearer(header) && (!cfg.hasCookieManager || forall token :: !HasCookie(jar, "web_access_token", token)) ==>
                  e.validated == [])
  {
    BearerIff(header);
    CookieIs(jar, ACCESS);
    var bearer := BearerToken(header);
    if bearer != "" {
      assert SendsBearer(header, bearer);
    }
    hide BearerToken, SendsBearer, HasScopes, Blank, HasCookie, ACCESS, REFRESH;
    var token := TokenIn(jar, ACCESS);
    assert token.Some? ==> HasCookie(jar, "web_access_token", token.value);
  }
}
