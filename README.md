# caddy2-radius-auth, modelled in Dafny

This is a model of the Caddy HTTP authentication provider `radius_auth`. The
provider checks Basic-Auth credentials against one or more RADIUS servers. It
can keep the verdict for each credential pair in a cache with a TTL. The
model covers three parts of the code:

- **`checkRadiusConcurrent`** (`radius.go`), in `radius.dfy`, module `Radius`.
  One result arrives per server. A sequential loop raises the
  `hasAccessAccept` and `hasReject` flags and records each result by server
  name. The decision is: any Access-Accept gives `(true, nil)`; otherwise any
  Access-Reject gives `(false, nil)`; otherwise the result is
  `(false, error)`, and the error lists each server as "error", "unknown
  code" or "no response". The codes are those of section 3 of RFC 2865. A
  failed exchange is recorded with the code 0. The caller supplies each
  server's exchange outcome and the order in which the results arrive. The
  main lemma shows that this order does not change the verdict.
- **`Provision`, `isValidServerAddr`, `Authenticate` and
  `promptForCredentials`** (`module.go`), in `auth.dfy`, module `Auth`.
  `HTTPRadiusAuth` becomes the class `RadiusAuth`, whose methods update its
  fields. `Authenticate` is tied to the pure function `AuthStep`, and the
  caching properties are lemmas about `AuthStep`.
- **The verdict cache** in `cache.dfy`, module `Cache`. go-cache is a
  foreign library, so only the behaviour the plugin relies on is modelled.
  The cache is a map with an explicit clock: `SetDefault` sets the expiry to
  now + TTL, and `Get` treats an entry as missing once its expiry has passed.
- **`parseCaddyfile`** (`caddyfile.go`), in `caddyfile.dfy`, module
  `Caddyfile`. The loop over the directives is a method. It is proved equal to
  the function `Parse`, and the lemmas about `Parse` give what a successful
  parse guarantees.

`base.dfy` holds `Option`, `Result` and `GoLib`. A `GoLib` stands for the
three standard-library functions the configuration code calls:
`net.SplitHostPort`, `net.ParseIP` (whether it returns an address) and
`time.ParseDuration`. They are passed in as given functions and not
interpreted.

Modelling choices that matter when reading the contracts:

- The goroutines write to a channel in an order nobody controls. This is a
  parameter `arrival`: a sequence of server indices that contains each index
  once. Go gives no order when ranging over the `serverResults` map. The
  message loop therefore picks any key that is left (`:|`). Its contract says
  only that each recorded server appears exactly once, with its
  classification.
- The error message appears as its list of per-server entries
  (`Radius.AuthError.Issues`), not as formatted text.
- Caddy's dispenser reads the block one token at a time. A `secret`,
  `realm`, `timeout` or `cache_ttl` line with more than one argument uses
  only its first argument. The next token on that line is then read as a
  directive name. The model does the same (`ExtraTokenIsReadAsDirective`).
  `TidyParse` fully describes a parse of a block without such extra tokens.
- The cache key `user + ":" + pass` is not injective (`CacheKeyCollides`,
  `KeyCollisionSharesVerdict`). It is injective when the user name contains
  no colon (`CacheKeyInjective`). net/http's `BasicAuth` is not part of this
  model. It is expected to cut the decoded credentials at the first colon,
  which would make the collision impossible through that path. For that
  reason no finding is reported.

Behaviour of the code that the contracts make explicit:

- `Provision` does not fail on an invalid address. It leaves the address out,
  prints a notice (module.go:71) and goes on; it fails only when no address
  remains (`NoValidServers`, module.go:75-77).
- The field comment at module.go:25 says a TTL of 0 disables the cache. The
  code creates the cache only for a positive TTL (module.go:59-63), so any TTL
  that is not positive disables it.
- The error message is built from `serverResults`, which is keyed by server
  name (radius.go:72-75). A name listed twice gets one entry, from whichever
  of its results arrived last (`DuplicateNameLastWriteWins`). The verdict
  does not depend on that order.
- A cached negative verdict is answered with the same challenge as a fresh
  rejection (module.go:107-109 and 126-128).
- The cache lookup and the store read the clock at different times: the store
  comes after all servers have answered. `Authenticate` takes both readings,
  `now` and `storedAt`, and the TTL counts from `storedAt`.
- Each call exchanges with every entry of `Servers` separately
  (radius.go:44-56). `Authenticate` therefore takes one outcome per entry:
  an address listed twice is asked twice and may get two different answers.

## Model

| member | source | states |
|---|---|---|
| `Radius.Collect` | radius.go:64-82 | after the loop, `hasAccessAccept` holds exactly when some result has code 2, `hasReject` exactly when some result has code 3, and `serverResults` is the map of the results read in order |
| `Radius.Describe` | radius.go:95-104 | the message lists every server in `serverResults` exactly once, each as error, unknown code or no response according to its record, whatever order the map is walked in |
| `Radius.CheckRadiusConcurrent` | radius.go:18-106 | no servers gives `(false, "no RADIUS servers configured")`; otherwise `ok` holds exactly when the decision is Accept, the error is nil exactly when the decision is Accept or Reject, and a non-nil error describes every server recorded from the results as they arrived |
| `Radius.Decide` | radius.go:14-92 | with no servers the outcome is the error; otherwise the verdict is Accept exactly when some server replied Access-Accept, and Reject exactly when none did and some server replied Access-Reject |
| `Radius.DispatchHasCode` | radius.go:50-56 | a RADIUS code occurs among the sent results exactly when some server's exchange replied with it, since a failed exchange is sent with code 0 |
| `Radius.AcceptAnywhereWins` | radius.go:77-87 | a single Access-Accept anywhere in the results makes the verdict `(true, nil)` |
| `Radius.RejectWithoutAccept` | radius.go:79-92 | with no Accept, one Access-Reject makes the verdict `(false, nil)` |
| `Radius.IndeterminateIff` | radius.go:94-106 | the error outcome arises exactly when no result has code Accept or Reject |
| `Radius.FailedExchangeNeverDecides` | radius.go:50-53 | a failed exchange is recorded with code 0, so it is neither Accept nor Reject, and it is reported as an error with its reason |
| `Radius.ReplyClassification` | radius.go:99-103 | a reply with a nil error is reported as "unknown code" when its code is not 0, and as "no response" when it is 0 |
| `Radius.ResolvePermutation` | radius.go:71-92 | any two lists of results that are permutations of each other give the same verdict |
| `Radius.ArrivalIrrelevant` | radius.go:41-92 | the verdict on the results in arrival order equals the verdict on the results in server order |
| `Radius.ServerMapKeys` | radius.go:66-75 | `serverResults` has exactly one key per server name that occurs among the results |
| `Radius.ServerMapLastWins` | radius.go:72-75 | each server name keeps the record of its last result |
| `Radius.MessageNamesEveryServer` | radius.go:44-75 | in every arrival order, the servers recorded for the message are exactly the configured ones |
| `Radius.DuplicateNameLastWriteWins` | radius.go:72-75 | if a name is listed twice with different results, only the later result is kept, so the recorded results depend on arrival order, while the verdict on the two results is the same in either order |
| `Cache.PutThenLookup` | module.go:60 | a verdict stored with a positive TTL is served unchanged until the TTL has passed, and after that it is not served |
| `Cache.PutOtherKey` | module.go:123 | storing under one key does not change lookups of other keys |
| `Cache.LookupIsFresh` | module.go:104 | a hit comes from a stored entry that has not expired at the time of the lookup |
| `Cache.PutIdempotent` | module.go:123 | storing the same verdict again for the same key at the same time changes nothing |
| `Cache.VerdictCache.Get` | module.go:104 | found exactly when the key is present and not expired at `now`, and then it returns the stored verdict |
| `Cache.VerdictCache.SetDefault` | module.go:123 | the entries afterwards are the old ones, with the key set to the verdict and an expiry of now + TTL |
| `Auth.IsValidServerAddr` | module.go:83-92 | an address is valid exactly when it splits into a non-empty host and a non-empty port and the host is an IP address or contains no space |
| `Auth.InvalidWhenSplitFails` | module.go:84-87 | an address that does not split, or that has an empty host or port, is invalid |
| `Auth.ValidIffNoSpaceOrIP` | module.go:88-91 | an address that splits properly is valid exactly when its host is an IP address or contains no space |
| `Auth.ValidServersMembers` | module.go:66-74 | the filtered list holds exactly the input addresses that pass validation |
| `Auth.ValidServersAppend` | module.go:66-74 | filtering a concatenation gives the concatenation of the filtered parts, so the order of the kept addresses is preserved |
| `Auth.ValidServersIdentity` | module.go:66-74 | the filter never makes the list longer, and it leaves the list unchanged exactly when every address is valid |
| `Auth.FilterValidServers` | module.go:66-73 | the append loop produces the order-preserving filter of the addresses |
| `Auth.CacheKey` | module.go:102 | the key is the user name, then one ':', then the password, each recoverable at its position |
| `Auth.CacheKeyCollides` | module.go:102 | the distinct credential pairs ("a:b","c") and ("a","b:c") give the same cache key |
| `Auth.CacheKeyInjective` | module.go:102 | for user names without a colon, equal cache keys mean equal user names and equal passwords |
| `Auth.Realm` | module.go:138-141 | the challenge realm is never empty: it is the configured realm, or "restricted" when none is configured |
| `Auth.Challenge` | module.go:134-144 | the challenge response carries an empty user, is not authenticated, has a nil error, and sets a non-empty realm that is the configured one when one is configured |
| `Auth.AuthStep` | module.go:95-132 | the servers are consulted exactly when there are credentials and the cache has no fresh verdict for them; caching stays enabled or disabled; the cache changes only after a consultation that ended in a definite verdict |
| `Auth.AuthStepResponse` | module.go:95-143 | the error is always nil; the user is authenticated exactly when the credentials are present and either the cache holds true or, on a miss, the servers accept; then the response is `(User{ID: user}, true, nil)`, and otherwise it is `(User{}, false, nil)` with a challenge |
| `Auth.HitSkipsServers` | module.go:103-111 | on a cache hit the answer does not involve the servers and does not depend on what they would decide |
| `Auth.DisabledCacheAlwaysQueries` | module.go:103-124 | with no cache, every call with credentials asks the servers and nothing is stored |
| `Auth.IndeterminateNotCached` | module.go:115-119 | an error outcome leaves the cache unchanged, so any later call with the same credentials asks the servers again |
| `Auth.CachedVerdictRepeats` | module.go:102-124 | after a definite verdict with caching on, a second call within one TTL of the store gets the same response without asking the servers |
| `Auth.ExpiredVerdictRequeries` | module.go:102-124 | once a TTL has passed since the store, the stored verdict is no longer used and the servers are asked again |
| `Auth.KeyCollisionSharesVerdict` | module.go:102-106 | an Accept cached for ("a","b:c") is served to ("a:b","c") without asking the servers |
| `Auth.RadiusAuth.Provision` | module.go:38-80 | an empty server list or an empty secret is an error and changes nothing; an empty Timeout becomes "3s" and an empty CacheTTL "0s", while non-empty values are kept; an unparseable TTL is an error; the cache exists exactly when the TTL is positive; Servers becomes the filtered list, and an empty result is an error |
| `Auth.RadiusAuth.Authenticate` | module.go:95-131 | the response, whether the servers are asked, and the cache afterwards are exactly those given by `AuthStep` for the old cache, the lookup and store times, and the decision on this call's per-entry exchange outcomes |
| `Caddyfile.AddServers` | caddyfile.go:42-51 | the address loop fails with the error of the first address that lacks ':' or splits into an empty host or port; otherwise it appends all addresses in order |
| `Caddyfile.Directive` | caddyfile.go:34-87 | for each directive name, the error it raises, or else the settings it leaves and the tokens of its line it has not read |
| `Caddyfile.ParseCaddyfile` | caddyfile.go:26-97 | the directive loop, the per-directive checks and the final checks compute `Parse` |
| `Caddyfile.FirstAddrErrorNone` | caddyfile.go:42-51 | the address loop on a `servers` line succeeds exactly when every address contains ':' and splits into a non-empty host and port |
| `Caddyfile.RunKeepsGoodAddrs` | caddyfile.go:33-88 | the directive loop adds only addresses that passed the checks |
| `Caddyfile.ParsedIsWellFormed` | caddyfile.go:36-95 | every successful parse has at least one server and a non-empty secret, and each server contains ':' and splits into a non-empty host and port |
| `Caddyfile.RefusedLineFailsRun` | caddyfile.go:33-88 | from any point in the loop, a refused line further on makes the loop fail |
| `Caddyfile.RefusedLineFailsParse` | caddyfile.go:36-86 | an unknown directive, `servers` with no address or a bad address, a value directive without a value, or a bad duration makes the whole parse fail, wherever it appears |
| `Caddyfile.ExtraTokenIsReadAsDirective` | caddyfile.go:33-86 | the token after a secret's value is read as a directive name, which is refused here |
| `Caddyfile.TidyRun` | caddyfile.go:33-88 | on a block without extra tokens, the loop fails with the error of the first refused line; otherwise it appends the `servers` arguments in order and keeps the last value of each value directive |
| `Caddyfile.TidyParse` | caddyfile.go:26-97 | the whole result of parsing a block without extra tokens: the first refused line's error, otherwise "no server" when there are no addresses, "no secret" when the last secret is empty, and otherwise the servers in order with the last secret, realm, timeout and TTL, stored as written |
| `Caddyfile.ParsedAddrSurvivesProvision` | caddyfile.go:43-49 | an address the parser accepts is kept by provisioning exactly when its host is an IP address or contains no space |
| `Caddyfile.SpacedHostAcceptedThenDropped` | caddyfile.go:43-49 | the parser accepts "my host:1812", and provisioning then drops it |

## Left out

- The fan-out is left out: goroutines, the `sync.WaitGroup`, the buffered channel and the goroutine that closes it (radius.go:41-62). The model keeps only what they deliver: one result per server, in an arrival order that is a parameter.
- The RADIUS protocol is left out: building the Access-Request, hiding the password and `radius.Exchange` (radius.go:23-31, 50). Each server's exchange outcome is an input instead. The two early error returns for `UserName_SetString` and `UserPassword_SetString` rely on library code that is not part of this model, so they are not modelled.
- The timeouts are left out: parsing `Timeout` and the per-server `context.WithTimeout` deadlines (radius.go:33, 48), because they are wall-clock behaviour. Provisioning keeps `Timeout` only as a string with its default.
- go-cache itself is not modelled: its locking, its janitor goroutine and its cleanup interval. Its expiry rule appears as an assumed contract with explicit clock readings. Concurrent use of the cache by parallel requests is not modelled.
- The HTTP layer is left out: decoding the Basic-Auth header, `http.Error`, the status codes and writing headers. A request without credentials is `creds == None`. The challenge appears as the realm that `promptForCredentials` sets in the `WWW-Authenticate` header. On the three paths that call `http.Error` first (module.go:108, 117, 127) the status line has already been written, so net/http may not send that header; only the path without credentials (module.go:98) is sure to deliver it.
- The `queried` result of `Auth.RadiusAuth.Authenticate` is ghost, because the code has no such value; it records whether the servers were asked.
- The text of the error message is left out: the `fmt` formatting of each part and Go's map order. The message appears as its list of entries.
- The Caddyfile dispenser is modelled only as far as the loop needs it. The block arrives as lines of tokens. Braces, nested blocks, line continuations and the initial `h.Next()` for the directive name are not modelled.
- Registration is left out: `init`, `CaddyModule`, `RegisterHandlerDirective` and `RegisterDirectiveOrder`. So are the JSON encoding of the parsed settings, the zap logger and the `fmt.Printf` for skipped servers. None of these affects a decision.
