/** The `HTTPRadiusAuth` module: provisioning of its configuration, server
    address validation, and the cache-gated `Authenticate` flow. */
module Auth {
  import opened Base
  import Radius
  import Cache

  const DefaultTimeout: string := "3s"
  const DefaultCacheTTL: string := "0s"
  const DefaultRealm: string := "restricted"

  datatype ProvisionError =
    | NoServersConfigured
    | MissingSecret
    | InvalidCacheTTL(value: string)
    | NoValidServers

  // ----- Server address validation -----

  /** `isValidServerAddr`: the address splits into a non-empty host and port,
      and the host is an IP address or has no space in it. */
  function IsValidServerAddr(lib: GoLib, addr: string): (valid: bool)
    ensures valid <==>
      && lib.splitHostPort(addr).Some?
      && lib.splitHostPort(addr).value.host != ""
      && lib.splitHostPort(addr).value.port != ""
      && (lib.parseIP(lib.splitHostPort(addr).value.host) || ' ' !in lib.splitHostPort(addr).value.host)
  {
    match lib.splitHostPort(addr)
    case None => false
    case Some(hp) =>
      && hp.host != ""
      && hp.port != ""
      && !(!lib.parseIP(hp.host) && ' ' in hp.host)
  }

  /** The addresses of `s` that pass validation, in their original order. */
  function ValidServers(lib: GoLib, s: seq<string>): seq<string> {
    if s == [] then []
    else ValidServers(lib, s[..|s| - 1]) + (if IsValidServerAddr(lib, s[|s| - 1]) then [s[|s| - 1]] else [])
  }

  /** An address is refused when it does not split or splits into an empty host or port. */
  lemma InvalidWhenSplitFails(lib: GoLib, addr: string)
    requires lib.splitHostPort(addr).None? ||
      lib.splitHostPort(addr).value.host == "" || lib.splitHostPort(addr).value.port == ""
    ensures !IsValidServerAddr(lib, addr)
  {
  }

  /** A well-split address is refused exactly when its host is not an IP and contains a space. */
  lemma ValidIffNoSpaceOrIP(lib: GoLib, addr: string, hp: HostPort)
    requires lib.splitHostPort(addr) == Some(hp) && hp.host != "" && hp.port != ""
    ensures IsValidServerAddr(lib, addr) <==> lib.parseIP(hp.host) || ' ' !in hp.host
  {
  }

  /** The filter keeps exactly the valid addresses. */
  lemma {:induction false} ValidServersMembers(lib: GoLib, s: seq<string>)
    ensures forall x :: x in ValidServers(lib, s) <==> x in s && IsValidServerAddr(lib, x)
  {
    if s != [] {
      var init := s[..|s| - 1];
      ValidServersMembers(lib, init);
      assert s == init + [s[|s| - 1]];
    }
  }

  /** The filter distributes over concatenation, so it keeps the relative
      order of the addresses it keeps. */
  lemma {:induction false} ValidServersAppend(lib: GoLib, a: seq<string>, b: seq<string>)
    ensures ValidServers(lib, a + b) == ValidServers(lib, a) + ValidServers(lib, b)
    decreases |b|
  {
    if b == [] {
      assert a + b == a;
    } else {
      var init := b[..|b| - 1];
      assert (a + b)[..|a + b| - 1] == a + init;
      assert (a + b)[|a + b| - 1] == b[|b| - 1];
      ValidServersAppend(lib, a, init);
    }
  }

  /** A list whose every address is valid is kept whole; the filter never grows the list. */
  lemma {:induction false} ValidServersIdentity(lib: GoLib, s: seq<string>)
    ensures |ValidServers(lib, s)| <= |s|
    ensures (forall i :: 0 <= i < |s| ==> IsValidServerAddr(lib, s[i])) <==> ValidServers(lib, s) == s
  {
    if s != [] {
      var init := s[..|s| - 1];
      ValidServersIdentity(lib, init);
      if ValidServers(lib, s) == s {
        assert ValidServers(lib, init) + (if IsValidServerAddr(lib, s[|s| - 1]) then [s[|s| - 1]] else []) == s;
        assert IsValidServerAddr(lib, s[|s| - 1]);
        assert ValidServers(lib, init) == init;
      }
    }
  }

  /** The validation loop of `Provision`: append every valid address in turn. */
  method FilterValidServers(lib: GoLib, servers: seq<string>) returns (valid: seq<string>)
    ensures valid == ValidServers(lib, servers)
  {
    valid := [];
    for i := 0 to |servers|
      invariant valid == ValidServers(lib, servers[..i])
    {
      assert servers[..i + 1][..i] == servers[..i];
      if IsValidServerAddr(lib, servers[i]) {
        valid := valid + [servers[i]];
      }
    }
    assert servers[..|servers|] == servers;
  }

  // ----- Cache key and realm -----

  /** The cache key: user and password joined by a colon. */
  function CacheKey(user: string, pass: string): (key: string)
    ensures |key| == |user| + 1 + |pass|
    ensures key[..|user|] == user && key[|user|] == ':' && key[|user| + 1..] == pass
  {
    user + ":" + pass
  }

  /** The key collides for distinct pairs once a user name contains a colon. */
  lemma CacheKeyCollides()
    ensures ("a:b", "c") != ("a", "b:c")
    ensures CacheKey("a:b", "c") == CacheKey("a", "b:c")
  {
  }

  /** For user names without a colon the key determines the pair. */
  lemma CacheKeyInjective(u1: string, p1: string, u2: string, p2: string)
    requires ':' !in u1 && ':' !in u2
    requires CacheKey(u1, p1) == CacheKey(u2, p2)
    ensures u1 == u2 && p1 == p2
  {
    var k := CacheKey(u1, p1);
    assert k[|u1|] == ':' && k[|u2|] == ':';
    if |u1| < |u2| {
      assert false;
    } else if |u2| < |u1| {
      assert false;
    }
    assert u1 == k[..|u1|] == u2;
    assert p1 == k[|u1| + 1..] == p2;
  }

  /** The realm of the Basic-Auth challenge (`promptForCredentials`). */
  function Realm(configured: string): (realm: string)
    ensures realm != ""
    ensures configured != "" ==> realm == configured
    ensures configured == "" ==> realm == DefaultRealm
  {
    if configured == "" then DefaultRealm else configured
  }

  // ----- The authenticate flow, as a function of the cache state -----

  datatype Credentials = Credentials(user: string, pass: string)

  /** What `Authenticate` returns: the user's ID, whether they are authenticated,
      the error, and the realm of the WWW-Authenticate challenge when one is sent. */
  datatype Response = Response(userID: string, authenticated: bool, err: Option<string>, challenge: Option<string>)

  /** `promptForCredentials(w, nil)`. */
  function Challenge(realm: string): (r: Response)
    ensures r.userID == "" && !r.authenticated && r.err.None?
    ensures r.challenge.Some? && r.challenge.value != ""
    ensures realm != "" ==> r.challenge.value == realm
  {
    Response("", false, None, Some(Realm(realm)))
  }

  function Granted(user: string): Response {
    Response(user, true, None, None)
  }

  /** The items and default TTL of a cache. */
  datatype CacheState = CacheState(items: map<string, Cache.Item>, ttl: int)

  /** One call: the response, whether the RADIUS servers were consulted, and the cache after. */
  datatype Step = Step(resp: Response, queried: bool, cache: Option<CacheState>)

  /** The verdict cached for the credentials at time `now`, if caching is enabled. */
  function Hit(cache: Option<CacheState>, c: Credentials, now: int): Option<bool> {
    if cache.Some? then Cache.Lookup(cache.value.items, CacheKey(c.user, c.pass), now) else None
  }

  /** `Authenticate` on a module whose cache is `cache` (None when disabled),
      when the RADIUS servers would decide `d` for these credentials. `now` is
      the clock reading of the lookup and `storedAt` that of the store, which
      comes after the servers have answered. The servers are consulted exactly
      on a miss, and the cache changes only to record a definite verdict. */
  function AuthStep(cache: Option<CacheState>, realm: string, creds: Option<Credentials>,
                    now: int, storedAt: int, d: Radius.Decision): (st: Step)
    ensures st.queried <==> creds.Some? && Hit(cache, creds.value, now).None?
    ensures st.cache.Some? <==> cache.Some?
    ensures st.cache != cache ==> st.queried && d != Radius.Indeterminate
  {
    match creds
    case None => Step(Challenge(realm), false, cache)
    case Some(c) =>
      var hit := Hit(cache, c, now);
      if hit.Some? then
        Step(if hit.value then Granted(c.user) else Challenge(realm), false, cache)
      else if d == Radius.Indeterminate then
        Step(Challenge(realm), true, cache)
      else
        Step(if d == Radius.Accept then Granted(c.user) else Challenge(realm), true,
             if cache.Some? then
               Some(CacheState(Cache.Put(cache.value.items, CacheKey(c.user, c.pass), d == Radius.Accept, storedAt, cache.value.ttl), cache.value.ttl))
             else None)
  }

  /** The returned triple: (User{ID: user}, true, nil) only for the user whose
      verdict (cached or fresh) is true; otherwise (User{}, false, nil) with a
      challenge in the configured realm or "restricted". The error is always nil. */
  lemma AuthStepResponse(cache: Option<CacheState>, realm: string, creds: Option<Credentials>, now: int, storedAt: int, d: Radius.Decision)
    ensures var st := AuthStep(cache, realm, creds, now, storedAt, d);
      && st.resp.err.None?
      && (st.resp.authenticated <==>
            creds.Some? && (Hit(cache, creds.value, now) == Some(true) ||
                            (Hit(cache, creds.value, now).None? && d == Radius.Accept)))
      && (st.resp.authenticated ==> st.resp == Granted(creds.value.user))
      && (!st.resp.authenticated ==> st.resp == Challenge(realm) && st.resp.challenge == Some(Realm(realm)))
  {
  }

  /** A cache hit answers without consulting the servers, whatever they would decide. */
  lemma HitSkipsServers(cache: Option<CacheState>, realm: string, c: Credentials, now: int, storedAt: int,
                        d1: Radius.Decision, d2: Radius.Decision)
    requires Hit(cache, c, now).Some?
    ensures !AuthStep(cache, realm, Some(c), now, storedAt, d1).queried
    ensures AuthStep(cache, realm, Some(c), now, storedAt, d1) == AuthStep(cache, realm, Some(c), now, storedAt, d2)
  {
  }

  /** With caching disabled every call with credentials consults the servers,
      and nothing is stored. */
  lemma DisabledCacheAlwaysQueries(realm: string, c: Credentials, now: int, storedAt: int, d: Radius.Decision)
    ensures AuthStep(None, realm, Some(c), now, storedAt, d).queried
    ensures AuthStep(None, realm, Some(c), now, storedAt, d).cache.None?
  {
  }

  /** An error outcome is never cached: the cache is unchanged and any later
      call with the same credentials consults the servers again. */
  lemma IndeterminateNotCached(cache: Option<CacheState>, realm: string, c: Credentials,
                               now: int, storedAt: int, later: int, storedAt2: int, d2: Radius.Decision)
    requires Hit(cache, c, now).None? && now <= later
    ensures AuthStep(cache, realm, Some(c), now, storedAt, Radius.Indeterminate).cache == cache
    ensures AuthStep(AuthStep(cache, realm, Some(c), now, storedAt, Radius.Indeterminate).cache,
                     realm, Some(c), later, storedAt2, d2).queried
  {
  }

  /** After a definite verdict is computed with caching enabled, a second call
      with the same credentials within one TTL of the store gets the same
      response without consulting the servers, whatever they would now decide.
      The TTL counts from the store, so the time the servers took to answer
      does not shorten it. */
  lemma CachedVerdictRepeats(items: map<string, Cache.Item>, ttl: int, realm: string, c: Credentials,
                             now: int, storedAt: int, later: int, storedAt2: int, d1: Radius.Decision, d2: Radius.Decision)
    requires ttl > 0 && now <= storedAt <= later <= storedAt + ttl
    requires Hit(Some(CacheState(items, ttl)), c, now).None?
    requires d1 != Radius.Indeterminate
    ensures var first := AuthStep(Some(CacheState(items, ttl)), realm, Some(c), now, storedAt, d1);
      var second := AuthStep(first.cache, realm, Some(c), later, storedAt2, d2);
      first.queried && !second.queried && second.resp == first.resp
  {
    Cache.PutThenLookup(items, CacheKey(c.user, c.pass), d1 == Radius.Accept, storedAt, ttl, later);
  }

  /** Once a TTL has elapsed since the store, the stored verdict is no longer
      served and the servers are consulted again. */
  lemma ExpiredVerdictRequeries(items: map<string, Cache.Item>, ttl: int, realm: string, c: Credentials,
                                now: int, storedAt: int, later: int, storedAt2: int, d1: Radius.Decision, d2: Radius.Decision)
    requires ttl > 0 && now <= storedAt && later > storedAt + ttl
    requires Hit(Some(CacheState(items, ttl)), c, now).None?
    requires d1 != Radius.Indeterminate
    ensures var first := AuthStep(Some(CacheState(items, ttl)), realm, Some(c), now, storedAt, d1);
      AuthStep(first.cache, realm, Some(c), later, storedAt2, d2).queried
  {
    Cache.PutThenLookup(items, CacheKey(c.user, c.pass), d1 == Radius.Accept, storedAt, ttl, later);
  }

  /** Because the key is not injective, a verdict cached for one pair is served
      to another pair whose user name contains a colon. */
  lemma KeyCollisionSharesVerdict(ttl: int, realm: string, now: int)
    requires ttl > 0
    ensures var first := AuthStep(Some(CacheState(map[], ttl)), realm, Some(Credentials("a", "b:c")), now, now, Radius.Accept);
      AuthStep(first.cache, realm, Some(Credentials("a:b", "c")), now, now, Radius.Reject) == Step(Granted("a:b"), false, first.cache)
  {
    CacheKeyCollides();
  }

  // ----- The module object -----

  class RadiusAuth {
    var servers: seq<string>
    var secret: string
    var realm: string
    var timeout: string
    var cacheTTL: string
    var cache: Cache.VerdictCache?

    /** A module as decoded from its JSON configuration, before `Provision`. */
    constructor (servers: seq<string>, secret: string, realm: string, timeout: string, cacheTTL: string)
      ensures this.servers == servers && this.secret == secret && this.realm == realm
      ensures this.timeout == timeout && this.cacheTTL == cacheTTL && cache == null
    {
      this.servers, this.secret, this.realm := servers, secret, realm;
      this.timeout, this.cacheTTL := timeout, cacheTTL;
      cache := null;
    }

    ghost function CacheView(): Option<CacheState>
      reads this, cache
    {
      if cache == null then None else Some(CacheState(cache.items, cache.ttl))
    }

    /** `Provision`: check the required fields, apply the defaults, create the
        cache for a positive TTL, and keep only the valid server addresses.
        Fields assigned before a failing step keep their new values. */
    method Provision(lib: GoLib) returns (err: Option<ProvisionError>)
      modifies this
      ensures secret == old(secret) && realm == old(realm)
      ensures old(servers) == [] ==> err == Some(NoServersConfigured) && unchanged(this)
      ensures old(servers) != [] && old(secret) == "" ==> err == Some(MissingSecret) && unchanged(this)
      ensures old(servers) != [] && old(secret) != "" ==>
        && timeout == (if old(timeout) == "" then DefaultTimeout else old(timeout))
        && cacheTTL == (if old(cacheTTL) == "" then DefaultCacheTTL else old(cacheTTL))
        && (lib.parseDuration(cacheTTL).None? ==>
              err == Some(InvalidCacheTTL(cacheTTL)) && servers == old(servers) && cache == old(cache))
        && (lib.parseDuration(cacheTTL).Some? ==>
              && (cache != null <==> lib.parseDuration(cacheTTL).value > 0)
              && (cache != null ==> fresh(cache) && cache.ttl == lib.parseDuration(cacheTTL).value && cache.items == map[])
              && servers == ValidServers(lib, old(servers))
              && (err.None? <==> servers != [])
              && (err.Some? ==> err == Some(NoValidServers)))
    {
      if |servers| == 0 {
        return Some(NoServersConfigured);
      }
      if secret == "" {
        return Some(MissingSecret);
      }
      if timeout == "" {
        timeout := DefaultTimeout;
      }
      if cacheTTL == "" {
        cacheTTL := DefaultCacheTTL;
      }
      var ttl := lib.parseDuration(cacheTTL);
      if ttl.None? {
        return Some(InvalidCacheTTL(cacheTTL));
      }
      if ttl.value > 0 {
        cache := new Cache.VerdictCache(ttl.value);
      } else {
        cache := null;
      }
      var valid := FilterValidServers(lib, servers);
      servers := valid;
      if |servers| == 0 {
        return Some(NoValidServers);
      }
      return None;
    }

    /** The decision the servers reach when the exchange with `servers[i]`
        ends as `outcomes[i]`. */
    ghost function Decision(outcomes: seq<Radius.Exchange>): Radius.Decision
      requires |outcomes| == |servers|
      reads this
    {
      Radius.Decide(servers, outcomes)
    }

    /** `Authenticate`: serve a cached verdict on a hit; otherwise run the
        RADIUS check, cache a definite verdict, and answer from it. `creds` is
        None when the request carries no Basic-Auth credentials. `now` is the
        clock reading of the cache lookup and `storedAt` the later one of the
        store. `outcomes[i]` is how this call's own exchange with `servers[i]`
        ends, so a server listed twice is asked twice and may answer
        differently. */
    method Authenticate(creds: Option<Credentials>, now: int, storedAt: int,
                        outcomes: seq<Radius.Exchange>, arrival: seq<nat>)
      returns (resp: Response, ghost queried: bool)
      requires now <= storedAt
      requires |outcomes| == |servers|
      requires Radius.IsArrivalOrder(arrival, |servers|)
      modifies cache
      ensures var st := AuthStep(old(CacheView()), realm, creds, now, storedAt, Decision(outcomes));
        resp == st.resp && queried == st.queried && CacheView() == st.cache
    {
      if creds.None? {
        return Challenge(realm), false;
      }
      var user, pass := creds.value.user, creds.value.pass;
      var key := CacheKey(user, pass);
      if cache != null {
        var cached, found := cache.Get(key, now);
        if found {
          if cached {
            return Granted(user), false;
          } else {
            return Challenge(realm), false;
          }
        }
      }
      queried := true;
      var ok, err := Radius.CheckRadiusConcurrent(servers, outcomes, arrival);
      if err.Some? {
        return Challenge(realm), queried;
      }
      if cache != null {
        cache.SetDefault(key, ok, storedAt);
      }
      if !ok {
        return Challenge(realm), queried;
      }
      return Granted(user), queried;
    }
  }
}
