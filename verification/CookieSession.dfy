/** The gateway's authentication of one request, and the session cookies it leaves in the browser. */
module CookieSession {
  import opened Common
  import opened Text
  import opened Whitespace

  const ACCESS := "web_access_token"
  const REFRESH := "web_refresh_token"

  datatype Claims = Claims(subject: string, scopes: seq<string>)

  datatype AuthError = InvalidJwt | ExpiredToken | ProviderFailed

  /** What the token validator may say of a token. */
  datatype Validation = Accepted(claims: Claims) | Refused(error: AuthError) | NoClaims

  /** What the identity provider may answer to a refresh. `expiresIn` is in milliseconds from now. */
  datatype Renewal = Denied | NoToken | Renewed(accessToken: string, refreshToken: string, expiresIn: int)

  /** The answers during one request: to its first validation, to its second, and to its refresh. */
  datatype World = World(first: string -> Validation, second: string -> Validation, refresh: string -> Renewal)

  datatype Config = Config(
    hasValidator: bool,
    hasCookieManager: bool,
    hasRefresh: bool,
    requiredScopes: seq<string>)

  /** Where the token of a session came from. */
  datatype Credential = Bearer | Cookie

  datatype Session = Session(claims: Claims, accessToken: string, credential: Credential)

  /** A cookie of the response. A negative age asks the browser to drop it, zero gives it no age. */
  datatype ResponseCookie = ResponseCookie(name: string, value: string, maxAge: int)

  function GoTrim(s: string): string {
    Trim(s, IsGoSpace)
  }

  predicate Blank(s: string) {
    GoTrim(s) == ""
  }

  // ---- Scopes

  /** Every required scope that is not blank is among those granted, outer white space aside. */
  ghost predicate HasScopes(granted: seq<string>, required: seq<string>) {
    forall i :: 0 <= i < |required| && !Blank(required[i]) ==>
      exists k :: 0 <= k < |granted| && GoTrim(granted[k]) == GoTrim(required[i])
  }

  method HasRequiredScopes(granted: seq<string>, required: seq<string>) returns (ok: bool)
    ensures ok <==> HasScopes(granted, required)
  {
    if |required| == 0 {
      return true;
    }
    var scopes: set<string> := {};
    for k := 0 to |granted|
      invariant forall s :: s in scopes <==> s != "" && exists i :: 0 <= i < k && GoTrim(granted[i]) == s
    {
      var scope := GoTrim(granted[k]);
      if scope != "" {
        scopes := scopes + {scope};
      }
    }
    for i := 0 to |required|
      invariant HasScopes(granted, required[..i])
    {
      var needed := GoTrim(required[i]);
      assert required[..i + 1] == required[..i] + [required[i]];
      if needed == "" {
        continue;
      }
      if needed !in scopes {
        assert !Blank(required[i]);
        return false;
      }
    }
    assert required[..|required|] == required;
    return true;
  }

  // ---- One request

  ghost function Checked(cfg: Config, answer: Validation, token: string): Result<Claims, AuthError> {
    if !cfg.hasValidator || Blank(token) then Err(InvalidJwt)
    else match answer
      case Refused(e) => Err(e)
      case NoClaims => Err(InvalidJwt)
      case Accepted(claims) => if HasScopes(claims.scopes, cfg.requiredScopes) then Ok(claims) else Err(InvalidJwt)
  }

  function SpaceIndex(s: string): Option<nat> {
    if s == "" then None
    else if s[0] == ' ' then Some(0)
    else match SpaceIndex(s[1..]) case None => None case Some(i) => Some(i + 1)
  }

  lemma {:induction false} SpaceIndexIs(s: string)
    ensures SpaceIndex(s).Some? ==> SpaceIndex(s).value < |s| && s[SpaceIndex(s).value] == ' '
  {
    if s != "" && s[0] != ' ' {
      SpaceIndexIs(s[1..]);
    }
  }

  /** The token of a bearer header, empty when there is none. */
  function BearerToken(header: string): string {
    if Blank(header) then ""
    else
      SpaceIndexIs(header);
      match SpaceIndex(header)
      case None => ""
      case Some(i) => if Lower(header[..i]) == "bearer" then GoTrim(header[i + 1..]) else ""
  }

  /** The cookies a request carries. */
  datatype Jar = Jar(cookies: map<string, string>)

  function TokenIn(jar: Jar, name: string): Option<string> {
    if name in jar.cookies && !Blank(jar.cookies[name]) then Some(jar.cookies[name]) else None
  }

  function ClearCookies(): seq<ResponseCookie> {
    [ResponseCookie(ACCESS, "", -1), ResponseCookie(REFRESH, "", -1)]
  }

  /** A cookie with a lifetime in milliseconds, told to the browser in whole seconds. */
  function NewCookie(name: string, value: string, ttl: int): ResponseCookie {
    ResponseCookie(name, value, if ttl > 0 then ttl / 1000 else 0)
  }

  const DEFAULT_ACCESS_TTL := 300_000
  const REFRESH_TTL := 1_800_000

  function TokenCookies(accessToken: string, refreshToken: string, expiresIn: int): seq<ResponseCookie> {
    (if accessToken != ""
     then [NewCookie(ACCESS, accessToken, if expiresIn <= 0 then DEFAULT_ACCESS_TTL else expiresIn)] else []) +
    (if refreshToken != "" then [NewCookie(REFRESH, refreshToken, REFRESH_TTL)] else [])
  }

  /** The result of a request, the cookies set, and the tokens sent to the validator and to the refresh, in order. */
  datatype Effects = Effects(
    result: Result<Session, AuthError>,
    cookies: seq<ResponseCookie>,
    validated: seq<string>,
    refreshed: seq<string>)

  /** The tokens that reach the validator when `token` is checked. */
  function Asked(cfg: Config, token: string): seq<string> {
    if cfg.hasValidator && !Blank(token) then [token] else []
  }

  ghost function AfterRefresh(cfg: Config, w: World, expired: string, refreshToken: string): Effects {
    match w.refresh(refreshToken)
    case Denied => Effects(Err(ProviderFailed), ClearCookies(), [expired], [refreshToken])
    case NoToken => Effects(Err(InvalidJwt), ClearCookies(), [expired], [refreshToken])
    case Renewed(access, next, expiresIn) =>
      if Blank(access) then Effects(Err(InvalidJwt), ClearCookies(), [expired], [refreshToken])
      else
        var rotated := TokenCookies(access, next, expiresIn);
        var asked := [expired] + Asked(cfg, access);
        match Checked(cfg, w.second(access), access)
        case Err(e) => Effects(Err(e), rotated + ClearCookies(), asked, [refreshToken])
        case Ok(claims) => Effects(Ok(Session(claims, access, Cookie)), rotated, asked, [refreshToken])
  }

  ghost function FromCookie(cfg: Config, w: World, jar: Jar, token: string): Effects {
    match Checked(cfg, w.first(token), token)
    case Ok(claims) => Effects(Ok(Session(claims, token, Cookie)), [], Asked(cfg, token), [])
    case Err(e) =>
      if !e.ExpiredToken? then Effects(Err(e), [], Asked(cfg, token), [])
      else if !cfg.hasRefresh || TokenIn(jar, REFRESH).None? then Effects(Err(e), ClearCookies(), [token], [])
      else AfterRefresh(cfg, w, token, TokenIn(jar, REFRESH).value)
  }

  /** What authenticating a request does. */
  ghost function Authenticated(cfg: Config, w: World, jar: Jar, header: string): Effects {
    var bearer := BearerToken(header);
    if bearer != "" then
      (match Checked(cfg, w.first(bearer), bearer)
       case Ok(claims) => Effects(Ok(Session(claims, bearer, Bearer)), [], Asked(cfg, bearer), [])
       case Err(e) => Effects(Err(e), [], Asked(cfg, bearer), []))
    else if cfg.hasCookieManager && TokenIn(jar, ACCESS).Some? then FromCookie(cfg, w, jar, TokenIn(jar, ACCESS).value)
    else Effects(Err(InvalidJwt), [], [], [])
  }

  /** The validator and the identity provider during one request, with the calls made to them. */
  class Provider {
    const world: World
    var validated: seq<string>
    var refreshed: seq<string>

    constructor (world: World)
      ensures this.world == world && validated == [] && refreshed == []
    {
      this.world, validated, refreshed := world, [], [];
    }

    method Validate(token: string) returns (answer: Validation)
      modifies this`validated
      ensures validated == old(validated) + [token]
      ensures answer == if old(validated) == [] then world.first(token) else world.second(token)
    {
      answer := if validated == [] then world.first(token) else world.second(token);
      validated := validated + [token];
    }

    method Refresh(token: string) returns (answer: Renewal)
      modifies this`refreshed
      ensures refreshed == old(refreshed) + [token] && answer == world.refresh(token)
    {
      answer := world.refresh(token);
      refreshed := refreshed + [token];
    }
  }

  /** The response of one request, to which cookies are added in order. */
  class ResponseWriter {
    var cookies: seq<ResponseCookie>

    constructor ()
      ensures cookies == []
    {
      cookies := [];
    }

    method SetCookie(cookie: ResponseCookie)
      modifies this
      ensures cookies == old(cookies) + [cookie]
    {
      cookies := cookies + [cookie];
    }

    method SetTokenCookies(accessToken: string, refreshToken: string, expiresIn: int)
      modifies this
      ensures cookies == old(cookies) + TokenCookies(accessToken, refreshToken, expiresIn)
    {
      if accessToken != "" {
        var expiry := expiresIn;
        if expiry <= 0 {
          expiry := DEFAULT_ACCESS_TTL;
        }
        SetCookie(NewCookie(ACCESS, accessToken, expiry));
      }
      if refreshToken != "" {
        SetCookie(NewCookie(REFRESH, refreshToken, REFRESH_TTL));
      }
    }

    method ClearAuthCookies()
      modifies this
      ensures cookies == old(cookies) + ClearCookies()
    {
      SetCookie(ResponseCookie(ACCESS, "", -1));
      SetCookie(ResponseCookie(REFRESH, "", -1));
    }
  }

  class Authentication {
    const cfg: Config

    constructor (cfg: Config)
      ensures this.cfg == cfg
    {
      this.cfg := cfg;
    }

    method ValidateToken(provider: Provider, token: string) returns (r: Result<Claims, AuthError>)
      modifies provider`validated
      ensures provider.validated == old(provider.validated) + Asked(cfg, token)
      ensures r == Checked(cfg, if old(provider.validated) == [] then provider.world.first(token)
                                else provider.world.second(token), token)
    {
      if !cfg.hasValidator {
        return Err(InvalidJwt);
      }
      if GoTrim(token) == "" {
        return Err(InvalidJwt);
      }
      var answer := provider.Validate(token);
      if answer.Refused? {
        return Err(answer.error);
      }
      if answer.NoClaims? {
        return Err(InvalidJwt);
      }
      var ok := HasRequiredScopes(answer.claims.scopes, cfg.requiredScopes);
      if !ok {
        return Err(InvalidJwt);
      }
      return Ok(answer.claims);
    }

    method AuthenticateRequest(rw: ResponseWriter, provider: Provider, jar: Jar, header: string)
      returns (r: Result<Session, AuthError>)
      requires provider.validated == [] && provider.refreshed == [] && rw.cookies == []
      modifies rw, provider
      ensures Effects(r, rw.cookies, provider.validated, provider.refreshed) ==
              Authenticated(cfg, provider.world, jar, header)
    {
      var bearer := BearerToken(header);
      if bearer != "" {
        var claims := ValidateToken(provider, bearer);
        if claims.Err? {
          return Err(claims.error);
        }
        return Ok(Session(claims.value, bearer, Bearer));
      }
      if cfg.hasCookieManager {
        var token := TokenIn(jar, ACCESS);
        if token.Some? {
          var claims := ValidateToken(provider, token.value);
          if claims.Ok? {
            return Ok(Session(claims.value, token.value, Cookie));
          }
          if !claims.error.ExpiredToken? {
            return Err(claims.error);
          }
          r := RefreshSession(rw, provider, jar, token.value, claims.error);
          return;
        }
      }
      return Err(InvalidJwt);
    }

    /** The rest of the cookie case, once the access token has turned out to be expired. */
    method RefreshSession(rw: ResponseWriter, provider: Provider, jar: Jar, expired: string, error: AuthError)
      returns (r: Result<Session, AuthError>)
      requires provider.validated == [expired] && provider.refreshed == [] && rw.cookies == []
      modifies rw, provider
      ensures Effects(r, rw.cookies, provider.validated, provider.refreshed) ==
              if !cfg.hasRefresh || TokenIn(jar, REFRESH).None?
              then Effects(Err(error), ClearCookies(), [expired], [])
              else AfterRefresh(cfg, provider.world, expired, TokenIn(jar, REFRESH).value)
    {
      hide Checked, TokenCookies, ClearCookies, TokenIn, Asked;
      if !cfg.hasRefresh {
        rw.ClearAuthCookies();
        return Err(error);
      }
      var refreshToken := TokenIn(jar, REFRESH);
      if refreshToken.None? {
        rw.ClearAuthCookies();
        return Err(error);
      }
      var newToken := provider.Refresh(refreshToken.value);
      if newToken.Denied? {
        rw.ClearAuthCookies();
        return Err(ProviderFailed);
      }
      if newToken.NoToken? || GoTrim(newToken.accessToken) == "" {
        rw.ClearAuthCookies();
        return Err(InvalidJwt);
      }
      rw.SetTokenCookies(newToken.accessToken, newToken.refreshToken, newToken.expiresIn);
      var claims := ValidateToken(provider, newToken.accessToken);
      if claims.Err? {
        rw.ClearAuthCookies();
        return Err(claims.error);
      }
      return Ok(Session(claims.value, newToken.accessToken, Cookie));
    }
  }

  /** The request passed on. */
  class Request {
    var authorization: string

    constructor (authorization: string)
      ensures this.authorization == authorization
    {
      this.authorization := authorization;
    }
  }

  /** Forwards the authenticated access token, replacing whatever the client sent. */
  method AddAuthorizationHeader(req: Request, accessToken: Option<string>)
    modifies req
    ensures req.authorization == if accessToken.Some? && !Blank(accessToken.value)
                                 then "Bearer " + accessToken.value
                                 else old(req.authorization)
  {
    if accessToken.Some? && GoTrim(accessToken.value) != "" {
      req.authorization := "Bearer " + accessToken.value;
    }
  }
}
