/**
 The cached signing keys of the identity provider and the validation of tokens against them. What a signature
 check says, and what the key endpoint answers, are inputs.
 */
module JwksCache {
  import opened Common
  import opened CookieSession

  /** One entry of the key document. */
  datatype Jwk = Jwk(kid: string, kty: string, n: string, e: string)

  datatype Key = Key(n: string, e: string)

  /** What the key endpoint may answer. */
  datatype Reply = Unreachable | Status(code: int) | Undecodable | Document(keys: seq<Jwk>)

  /** A fetch, if one is made: when it is considered, its answer, and when it is over. */
  datatype Look = Look(now: int, reply: Reply, doneAt: int)

  datatype Header = Unacceptable | Rs256(kid: Option<string>)

  datatype Verdict = Signed(claims: Claims) | SignedButExpired | BadToken

  /** The library: which base64 texts decode, and how a token's header reads. */
  datatype Library = Library(decodes: string -> bool, header: string -> Header)

  datatype Cache = Cache(keys: map<string, Key>, lastFetch: int)

  predicate Usable(lib: Library, k: Jwk) {
    k.kty == "RSA" && k.n != "" && k.e != "" && lib.decodes(k.n) && lib.decodes(k.e)
  }

  /** The usable keys of a document; a later key replaces an earlier one of the same identifier. */
  function KeysOf(lib: Library, doc: seq<Jwk>): map<string, Key> {
    if doc == [] then map[]
    else
      var before, last := KeysOf(lib, doc[..|doc| - 1]), doc[|doc| - 1];
      if Usable(lib, last) then before[last.kid := Key(last.n, last.e)] else before
  }

  /** The keys a reply yields, if any. */
  function Yield(lib: Library, reply: Reply): Option<map<string, Key>> {
    if reply.Document? && KeysOf(lib, reply.keys) != map[] then Some(KeysOf(lib, reply.keys)) else None
  }

  predicate Fresh(c: Cache, ttl: int, now: int) {
    c.keys != map[] && now - c.lastFetch < ttl
  }

  predicate Fetches(c: Cache, ttl: int, force: bool, look: Look) {
    force || !Fresh(c, ttl, look.now)
  }

  function Refreshed(lib: Library, c: Cache, ttl: int, force: bool, look: Look): (bool, Cache) {
    if !Fetches(c, ttl, force, look) then (true, c)
    else match Yield(lib, look.reply)
      case None => (false, c)
      case Some(keys) => (true, Cache(keys, look.doneAt))
  }

  function FoundKey(c: Cache, kid: string): Option<Key> {
    if kid in c.keys then Some(c.keys[kid]) else None
  }

  /** The key a token is verified with, fetching the keys once more when its identifier is unknown. */
  function KeyFor(lib: Library, c: Cache, ttl: int, kid: string, look: Look): (Option<Key>, Cache) {
    if kid in c.keys then (FoundKey(c, kid), c)
    else
      var (ok, next) := Refreshed(lib, c, ttl, true, look);
      (if ok then FoundKey(next, kid) else None, next)
  }

  /** A validation: the two fetches it may make, and what each key says of the token at that time. */
  datatype Call = Call(token: string, first: Look, second: Look, verify: Key -> Verdict)

  function Validated(lib: Library, c: Cache, ttl: int, call: Call): (Validation, Cache) {
    if Blank(call.token) then (Refused(InvalidJwt), c)
    else
      var (ok, ready) := Refreshed(lib, c, ttl, false, call.first);
      if !ok then (Refused(ProviderFailed), ready)
      else match lib.header(call.token)
        case Unacceptable => (Refused(InvalidJwt), ready)
        case Rs256(None) => (Refused(InvalidJwt), ready)
        case Rs256(Some(kid)) =>
          var (key, after) := KeyFor(lib, ready, ttl, kid, call.second);
          if key.None? then (Refused(InvalidJwt), after)
          else match call.verify(key.value)
            case Signed(claims) => (Accepted(claims), after)
            case SignedButExpired => (Refused(ExpiredToken), after)
            case BadToken => (Refused(InvalidJwt), after)
  }

  class JWTValidator {
    const lib: Library
    const jwksCacheTTL: int
    var verificationKeys: map<string, Key>
    var lastJWKSFetchTime: int
    var fetches: nat

    constructor (lib: Library, ttl: int)
      ensures this.lib == lib && jwksCacheTTL == (if ttl <= 0 then 3_600_000 else ttl)
      ensures verificationKeys == map[] && fetches == 0
    {
      this.lib := lib;
      jwksCacheTTL := if ttl <= 0 then 3_600_000 else ttl;
      verificationKeys, lastJWKSFetchTime, fetches := map[], 0, 0;
    }

    function Value(): Cache
      reads this
    {
      Cache(verificationKeys, lastJWKSFetchTime)
    }

    method RefreshJWKS(force: bool, look: Look) returns (ok: bool)
      modifies this
      ensures (ok, Value()) == Refreshed(lib, old(Value()), jwksCacheTTL, force, look)
      ensures fetches == old(fetches) + if Fetches(old(Value()), jwksCacheTTL, force, look) then 1 else 0
    {
      if !force && verificationKeys != map[] && look.now - lastJWKSFetchTime < jwksCacheTTL {
        return true;
      }
      fetches := fetches + 1;
      if !look.reply.Document? {
        return false;
      }
      var doc := look.reply.keys;
      var keys: map<string, Key> := map[];
      for i := 0 to |doc|
        invariant keys == KeysOf(lib, doc[..i])
        invariant unchanged(`verificationKeys) && unchanged(`lastJWKSFetchTime)
        invariant fetches == old(fetches) + 1
      {
        var key := doc[i];
        assert doc[..i + 1][..i] == doc[..i] && doc[..i + 1][i] == key;
        if key.kty != "RSA" || key.n == "" || key.e == "" {
          continue;
        }
        if !lib.decodes(key.n) || !lib.decodes(key.e) {
          continue;
        }
        keys := keys[key.kid := Key(key.n, key.e)];
      }
      assert doc[..|doc|] == doc;
      if keys == map[] {
        return false;
      }
      verificationKeys := keys;
      lastJWKSFetchTime := look.doneAt;
      return true;
    }

    method Validate(call: Call) returns (r: Validation)
      modifies this
      ensures (r, Value()) == Validated(lib, old(Value()), jwksCacheTTL, call)
      ensures fetches <= old(fetches) + 2
    {
      if GoTrim(call.token) == "" {
        return Refused(InvalidJwt);
      }
      var ok := RefreshJWKS(false, call.first);
      if !ok {
        return Refused(ProviderFailed);
      }
      match lib.header(call.token) {
        case Unacceptable =>
          return Refused(InvalidJwt);
        case Rs256(None) =>
          return Refused(InvalidJwt);
        case Rs256(Some(kid)) =>
          if kid !in verificationKeys {
            ok := RefreshJWKS(true, call.second);
            if !ok || kid !in verificationKeys {
              return Refused(InvalidJwt);
            }
          }
          match call.verify(verificationKeys[kid]) {
            case Signed(claims) =>
              return Accepted(claims);
            case SignedButExpired =>
              return Refused(ExpiredToken);
            case BadToken =>
              return Refused(InvalidJwt);
          }
      }
    }
  }

  // ---- The key map

  /** An RSA key with a modulus and an exponent that both decode. */
  predicate IsSigningKey(lib: Library, k: Jwk) {
    k.kty == "RSA" && k.n != "" && lib.decodes(k.n) && k.e != "" && lib.decodes(k.e)
  }

  /** `i` is the last signing key of the document with its identifier. */
  predicate LastUsable(lib: Library, doc: seq<Jwk>, i: nat)
    requires i < |doc|
  {
    IsSigningKey(lib, doc[i]) && forall k :: i < k < |doc| && doc[k].kid == doc[i].kid ==> !IsSigningKey(lib, doc[k])
  }

  /** The key map holds exactly the signing keys, the last of each identifier. */
  lemma {:induction false} KeysOfIff(lib: Library, doc: seq<Jwk>, kid: string, key: Key)
    ensures kid in KeysOf(lib, doc) && KeysOf(lib, doc)[kid] == key <==>
            exists i :: 0 <= i < |doc| && LastUsable(lib, doc, i) && doc[i].kid == kid && Key(doc[i].n, doc[i].e) == key
  {
    if doc != [] {
      var front, last := doc[..|doc| - 1], doc[|doc| - 1];
      KeysOfIff(lib, front, kid, key);
      if Usable(lib, last) && last.kid == kid {
        assert LastUsable(lib, doc, |doc| - 1);
      } else {
        forall i | 0 <= i < |front| && front[i].kid == kid
          ensures LastUsable(lib, front, i) <==> LastUsable(lib, doc, i)
        {
          assert forall k :: 0 <= k < |front| ==> front[k] == doc[k];
        }
      }
    }
  }

  /** A reply with a document that holds a signing key. */
  ghost predicate GivesKeys(lib: Library, look: Look) {
    look.reply.Document? && exists i :: 0 <= i < |look.reply.keys| && IsSigningKey(lib, look.reply.keys[i])
  }

  /** The document gives this key for the identifier. */
  ghost predicate GivesKey(lib: Library, look: Look, kid: string, key: Key) {
    look.reply.Document? &&
    exists i :: && 0 <= i < |look.reply.keys| && LastUsable(lib, look.reply.keys, i)
                && look.reply.keys[i].kid == kid && Key(look.reply.keys[i].n, look.reply.keys[i].e) == key
  }

  lemma {:induction false} SomeKeyIff(lib: Library, doc: seq<Jwk>)
    ensures KeysOf(lib, doc) != map[] <==> exists i :: 0 <= i < |doc| && IsSigningKey(lib, doc[i])
  {
    if doc != [] {
      var front, last := doc[..|doc| - 1], doc[|doc| - 1];
      SomeKeyIff(lib, front);
      assert forall i :: 0 <= i < |front| ==> doc[i] == front[i];
      if Usable(lib, last) {
        assert last.kid in KeysOf(lib, doc) && IsSigningKey(lib, doc[|doc| - 1]);
      }
    }
  }

  /**
   Keys that are fresh are kept without asking. Otherwise they are asked for: a document with signing keys replaces them
   all and sets the time, and anything else leaves them as they were.
   */
  lemma {:induction false} RefreshIs(lib: Library, c: Cache, ttl: int, force: bool, look: Look)
    ensures var (ok, next) := Refreshed(lib, c, ttl, force, look);
            if !force && c.keys != map[] && look.now - c.lastFetch < ttl then ok && next == c
            else if GivesKeys(lib, look) then
              && ok && next.lastFetch == look.doneAt && next.keys != map[]
              && forall kid, key :: kid in next.keys && next.keys[kid] == key <==> GivesKey(lib, look, kid, key)
            else !ok && next == c
  {
    if look.reply.Document? {
      SomeKeyIff(lib, look.reply.keys);
      forall kid, key
        ensures kid in KeysOf(lib, look.reply.keys) && KeysOf(lib, look.reply.keys)[kid] == key <==> GivesKey(lib, look, kid, key)
      {
        KeysOfIff(lib, look.reply.keys, kid, key);
      }
    }
    hide KeysOf, GivesKey, IsSigningKey;
  }

  ghost predicate GivesSome(lib: Library, look: Look, kid: string) {
    exists key :: GivesKey(lib, look, kid, key)
  }

  lemma {:induction false} KnownIff(lib: Library, c: Cache, ttl: int, force: bool, look: Look, kid: string)
    requires GivesKeys(lib, look) && (force || !(c.keys != map[] && look.now - c.lastFetch < ttl))
    ensures kid in Refreshed(lib, c, ttl, force, look).1.keys <==> GivesSome(lib, look, kid)
  {
    RefreshIs(lib, c, ttl, force, look);
    hide Refreshed, GivesKey, GivesKeys;
    var keys := Refreshed(lib, c, ttl, force, look).1.keys;
    if kid in keys {
      assert GivesKey(lib, look, kid, keys[kid]);
    }
  }

  // ---- Runs, with any answers of the endpoint

  const NOTHING := Cache(map[], 0)

  function CacheBefore(lib: Library, ttl: int, calls: seq<Call>, j: nat): Cache
    requires j <= |calls|
  {
    if j == 0 then NOTHING else Validated(lib, CacheBefore(lib, ttl, calls, j - 1), ttl, calls[j - 1]).1
  }

  /** The fetches a validation makes, in order. */
  function FetchesOf(lib: Library, c: Cache, ttl: int, call: Call): (looks: seq<Look>)
    ensures |looks| <= 2
  {
    if Blank(call.token) then []
    else
      var (ok, ready) := Refreshed(lib, c, ttl, false, call.first);
      (if Fetches(c, ttl, false, call.first) then [call.first] else []) +
      (match lib.header(call.token)
       case Rs256(Some(kid)) => if ok && kid !in ready.keys then [call.second] else []
       case _ => [])
  }

  /** All fetches of a run so far. */
  function FetchLog(lib: Library, ttl: int, calls: seq<Call>, j: nat): seq<Look>
    requires j <= |calls|
  {
    if j == 0 then []
    else FetchLog(lib, ttl, calls, j - 1) + FetchesOf(lib, CacheBefore(lib, ttl, calls, j - 1), ttl, calls[j - 1])
  }

  /** The cache as the last fetch that yielded keys left it; failed fetches leave no mark. */
  function Latest(lib: Library, looks: seq<Look>): Cache {
    if looks == [] then NOTHING
    else
      var last := looks[|looks| - 1];
      match Yield(lib, last.reply)
      case Some(keys) => Cache(keys, last.doneAt)
      case None => Latest(lib, looks[..|looks| - 1])
  }

  lemma {:induction false} LatestOfOne(lib: Library, looks: seq<Look>, look: Look)
    ensures Latest(lib, looks + [look]) ==
            match Yield(lib, look.reply)
            case Some(keys) => Cache(keys, look.doneAt)
            case None => Latest(lib, looks)
  {
    assert (looks + [look])[..|looks|] == looks;
  }

  lemma {:induction false} ValidationFollowsFetches(lib: Library, ttl: int, looks: seq<Look>, call: Call)
    ensures var c := Latest(lib, looks);
            Validated(lib, c, ttl, call).1 == Latest(lib, looks + FetchesOf(lib, c, ttl, call))
  {
    hide Blank, Yield, Latest;
    var c := Latest(lib, looks);
    LatestOfOne(lib, looks, call.first);
    LatestOfOne(lib, looks, call.second);
    LatestOfOne(lib, looks + [call.first], call.second);
    assert looks + ([call.first] + [call.second]) == looks + [call.first] + [call.second];
    assert looks + ([] + [call.second]) == looks + [call.second];
    assert looks + ([call.first] + []) == looks + [call.first];
    assert looks + [] == looks && looks + ([] + []) == looks;
  }

  /** In every run the cache holds the keys and the time of the last fetch that yielded any. */
  lemma {:induction false} CacheIsLatest(lib: Library, ttl: int, calls: seq<Call>, j: nat)
    requires j <= |calls|
    ensures CacheBefore(lib, ttl, calls, j) == Latest(lib, FetchLog(lib, ttl, calls, j))
  {
    hide Validated, Latest, FetchesOf;
    if j == 0 {
      LatestOfNone(lib);
    } else {
      CacheIsLatest(lib, ttl, calls, j - 1);
      ValidationFollowsFetches(lib, ttl, FetchLog(lib, ttl, calls, j - 1), calls[j - 1]);
    }
  }

  lemma {:induction false} LatestOfNone(lib: Library)
    ensures Latest(lib, []) == NOTHING
  {
  }

  /** A fetch that yielded the key for an identifier. */
  ghost predicate Gave(lib: Library, look: Look, kid: string, key: Key) {
    Yield(lib, look.reply).Some? && kid in Yield(lib, look.reply).value && Yield(lib, look.reply).value[kid] == key
  }

  lemma {:induction false} LatestWasFetched(lib: Library, looks: seq<Look>, kid: string) returns (i: nat)
    requires kid in Latest(lib, looks).keys
    ensures i < |looks| && Gave(lib, looks[i], kid, Latest(lib, looks).keys[kid])
    ensures looks[i].doneAt == Latest(lib, looks).lastFetch
  {
    hide Yield;
    var last := looks[|looks| - 1];
    if Yield(lib, last.reply).Some? {
      i := |looks| - 1;
    } else {
      i := LatestWasFetched(lib, looks[..|looks| - 1], kid);
    }
  }

  /** The key a validation verifies its token with, if it gets as far as verifying. */
  function VerifyingKey(lib: Library, c: Cache, ttl: int, call: Call): Option<Key> {
    if Blank(call.token) then None
    else
      var (ok, ready) := Refreshed(lib, c, ttl, false, call.first);
      match lib.header(call.token)
      case Rs256(Some(kid)) => if ok then KeyFor(lib, ready, ttl, kid, call.second).0 else None
      case _ => None
  }

  /**
   A token is accepted, or found expired, only by verifying it, and a verified token is answered by its verdict. One that
   is not verified is invalid, unless the keys were needed and could not be had.
   */
  lemma {:induction false} AnswersRestOnVerdicts(lib: Library, c: Cache, ttl: int, call: Call)
    ensures var r, key := Validated(lib, c, ttl, call).0, VerifyingKey(lib, c, ttl, call);
            && (key.Some? ==>
                  match call.verify(key.value)
                  case Signed(claims) => r == Accepted(claims)
                  case SignedButExpired => r == Refused(ExpiredToken)
                  case BadToken => r == Refused(InvalidJwt))
            && (key.None? ==>
                  if !Blank(call.token) && !(c.keys != map[] && call.first.now - c.lastFetch < ttl)
                     && !GivesKeys(lib, call.first)
                  then r == Refused(ProviderFailed) else r == Refused(InvalidJwt))
  {
    RefreshIs(lib, c, ttl, false, call.first);
    hide Blank, Refreshed, KeyFor, GivesKeys;
  }

  lemma {:induction false} GivesSomeIs(lib: Library, look: Look, kid: string, key: Key)
    ensures GivesKey(lib, look, kid, key) ==> GivesSome(lib, look, kid)
  {
  }

  /** A token is verified exactly when it names a key that is known once the keys are fresh, or known by asking again. */
  lemma {:induction false} VerifiedIff(lib: Library, c: Cache, ttl: int, call: Call, key: Key)
    ensures VerifyingKey(lib, c, ttl, call) == Some(key) <==>
            && !Blank(call.token)
            && var current := c.keys != map[] && call.first.now - c.lastFetch < ttl;
               && (current || GivesKeys(lib, call.first))
               && exists kid ::
                    && lib.header(call.token) == Rs256(Some(kid))
                    && var known := if current then kid in c.keys else GivesSome(lib, call.first, kid);
                       if known then (if current then c.keys[kid] == key else GivesKey(lib, call.first, kid, key))
                       else GivesKeys(lib, call.second) && GivesKey(lib, call.second, kid, key)
  {
    RefreshIs(lib, c, ttl, false, call.first);
    var (ok, ready) := Refreshed(lib, c, ttl, false, call.first);
    RefreshIs(lib, ready, ttl, true, call.second);
    var (again, after) := Refreshed(lib, ready, ttl, true, call.second);
    hide Blank, Refreshed, GivesKeys, GivesKey, GivesSome;
    if lib.header(call.token).Rs256? && lib.header(call.token).kid.Some? {
      var kid := lib.header(call.token).kid.value;
      if GivesKeys(lib, call.first) && !(c.keys != map[] && call.first.now - c.lastFetch < ttl) {
        KnownIff(lib, c, ttl, false, call.first, kid);
      }
      if GivesKeys(lib, call.second) {
        KnownIff(lib, ready, ttl, true, call.second, kid);
        GivesSomeIs(lib, call.second, kid, key);
      }
    }
  }

  /**
   In every run, every token that is verified at all is verified with a key for its identifier. That key comes
   from a fetch of the run, made during this very validation or younger than the cache's lifetime when it began.
   */
  lemma {:induction false} VerifiedByFreshKey(lib: Library, ttl: int, calls: seq<Call>, j: nat)
    returns (look: Look, kid: string)
    requires j < |calls| && VerifyingKey(lib, CacheBefore(lib, ttl, calls, j), ttl, calls[j]).Some?
    ensures lib.header(calls[j].token) == Rs256(Some(kid))
    ensures Gave(lib, look, kid, VerifyingKey(lib, CacheBefore(lib, ttl, calls, j), ttl, calls[j]).value)
    ensures look in FetchLog(lib, ttl, calls, j + 1)
    ensures look in FetchesOf(lib, CacheBefore(lib, ttl, calls, j), ttl, calls[j])
            || (look in FetchLog(lib, ttl, calls, j) && calls[j].first.now - look.doneAt < ttl)
  {
    var c, call := CacheBefore(lib, ttl, calls, j), calls[j];
    CacheIsLatest(lib, ttl, calls, j);
    kid := lib.header(call.token).kid.value;
    hide Yield, Latest, CacheBefore, Blank;
    var (ok, ready) := Refreshed(lib, c, ttl, false, call.first);
    var log := FetchLog(lib, ttl, calls, j);
    if kid !in ready.keys {
      look := call.second;
    } else if Fetches(c, ttl, false, call.first) {
      look := call.first;
    } else {
      var i := LatestWasFetched(lib, log, kid);
      look := log[i];
    }
  }

  /** A fetch is made exactly when the cache is empty or stale, or the token's identifier is unknown. */
  lemma {:induction false} FetchesIff(lib: Library, c: Cache, ttl: int, call: Call)
    ensures var looks := FetchesOf(lib, c, ttl, call);
            && (looks == [] <==>
                  Blank(call.token) ||
                  (c.keys != map[] && call.first.now - c.lastFetch < ttl &&
                   (lib.header(call.token).Rs256? && lib.header(call.token).kid.Some? ==>
                      lib.header(call.token).kid.value in c.keys)))
            && (|looks| == 2 <==>
                  && !Blank(call.token) && !(c.keys != map[] && call.first.now - c.lastFetch < ttl)
                  && GivesKeys(lib, call.first) && lib.header(call.token).Rs256? && lib.header(call.token).kid.Some?
                  && !GivesSome(lib, call.first, lib.header(call.token).kid.value))
  {
    RefreshIs(lib, c, ttl, false, call.first);
    var (ok, ready) := Refreshed(lib, c, ttl, false, call.first);
    hide Blank, Yield, GivesKeys, GivesSome;
    if lib.header(call.token).Rs256? && lib.header(call.token).kid.Some? && GivesKeys(lib, call.first)
       && !(c.keys != map[] && call.first.now - c.lastFetch < ttl) {
      KnownIff(lib, c, ttl, false, call.first, lib.header(call.token).kid.value);
    }
  }
}
