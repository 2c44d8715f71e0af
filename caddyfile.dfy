/** `parseCaddyfile`: the `radius_auth { ... }` block of a Caddyfile.

    The block is given as its lines, each a directive name followed by its
    arguments. Caddy's dispenser walks the block one token at a time: a
    directive that takes a single value (`secret`, `realm`, `timeout`,
    `cache_ttl`) consumes one token of its line, and the loop then reads the
    next token, which may still be on that line, as a directive name. The
    model keeps that: `cur` is the part of the current line not yet read. */
module Caddyfile {
  import opened Base
  import Auth

  datatype Line = Line(name: string, args: seq<string>)

  /** The fields of `HTTPRadiusAuth` the parser sets. */
  datatype Settings = Settings(servers: seq<string>, secret: string, realm: string, timeout: string, cacheTTL: string)

  const Unset: Settings := Settings([], "", "", "", "")

  datatype ParseError =
    | ServersNeedAddress
    | MissingPort(addr: string)
    | InvalidServerFormat(addr: string)
    | SecretNeedsValue
    | RealmNeedsValue
    | TimeoutNeedsValue
    | InvalidTimeout(value: string)
    | CacheTTLNeedsValue
    | InvalidCacheTTL(value: string)
    | UnrecognizedDirective(name: string)
    | NoServerDefined
    | SecretNotSet

  function Tokens(l: Line): seq<string> {
    [l.name] + l.args
  }

  /** Why a `servers` argument is refused, if it is. */
  function AddrError(lib: GoLib, s: string): Option<ParseError> {
    if ':' !in s then Some(MissingPort(s))
    else match lib.splitHostPort(s)
      case None => Some(InvalidServerFormat(s))
      case Some(hp) => if hp.host == "" || hp.port == "" then Some(InvalidServerFormat(s)) else None
  }

  /** The error of the first refused address among `args`, if any. */
  function FirstAddrError(lib: GoLib, args: seq<string>): Option<ParseError> {
    if args == [] then None
    else if AddrError(lib, args[0]).Some? then AddrError(lib, args[0])
    else FirstAddrError(lib, args[1..])
  }

  /** The error raised by the directive `name` followed by the tokens `rest` of its line, if any. */
  function Check(lib: GoLib, name: string, rest: seq<string>): Option<ParseError> {
    if name == "servers" then
      if rest == [] then Some(ServersNeedAddress) else FirstAddrError(lib, rest)
    else if name == "secret" then
      if rest == [] then Some(SecretNeedsValue) else None
    else if name == "realm" then
      if rest == [] then Some(RealmNeedsValue) else None
    else if name == "timeout" then
      if rest == [] then Some(TimeoutNeedsValue)
      else if lib.parseDuration(rest[0]).None? then Some(InvalidTimeout(rest[0]))
      else None
    else if name == "cache_ttl" then
      if rest == [] then Some(CacheTTLNeedsValue)
      else if lib.parseDuration(rest[0]).None? then Some(InvalidCacheTTL(rest[0]))
      else None
    else Some(UnrecognizedDirective(name))
  }

  /** The settings after an accepted directive, and the tokens of its line it leaves unread. */
  function Apply(lib: GoLib, name: string, rest: seq<string>, s: Settings): (r: (Settings, seq<string>))
    requires Check(lib, name, rest).None?
    ensures |r.1| < |rest| + 1
  {
    if name == "servers" then (s.(servers := s.servers + rest), [])
    else if name == "secret" then (s.(secret := rest[0]), rest[1..])
    else if name == "realm" then (s.(realm := rest[0]), rest[1..])
    else if name == "timeout" then (s.(timeout := rest[0]), rest[1..])
    else (s.(cacheTTL := rest[0]), rest[1..])
  }

  /** The directive loop from the state (`cur` unread on the current line,
      `lines` still to come, `s` set so far) to its end or its first error. */
  function Run(lib: GoLib, cur: seq<string>, lines: seq<Line>, s: Settings): Result<Settings, ParseError>
    decreases |lines|, |cur|
  {
    if cur == [] then
      if lines == [] then Ok(s) else Run(lib, Tokens(lines[0]), lines[1..], s)
    else
      match Check(lib, cur[0], cur[1..])
      case Some(e) => Err(e)
      case None =>
        var r := Apply(lib, cur[0], cur[1..], s);
        Run(lib, r.1, lines, r.0)
  }

  /** The final checks: at least one server and a non-empty secret. */
  function Finish(r: Result<Settings, ParseError>): Result<Settings, ParseError> {
    if r.Err? then r
    else if r.value.servers == [] then Err(NoServerDefined)
    else if r.value.secret == "" then Err(SecretNotSet)
    else r
  }

  /** The outcome of `parseCaddyfile` on a block. */
  function Parse(lib: GoLib, lines: seq<Line>): Result<Settings, ParseError> {
    Finish(Run(lib, [], lines, Unset))
  }

  /** The address loop of a `servers` directive: append every address of
      `rest`, stopping at the first one refused. */
  method AddServers(lib: GoLib, rest: seq<string>, ra: Settings) returns (res: Result<Settings, ParseError>)
    ensures FirstAddrError(lib, rest).Some? ==> res == Err(FirstAddrError(lib, rest).value)
    ensures FirstAddrError(lib, rest).None? ==> res == Ok(ra.(servers := ra.servers + rest))
  {
    var acc := ra;
    var k := 0;
    while k < |rest|
      invariant 0 <= k <= |rest|
      invariant FirstAddrError(lib, rest[k..]) == FirstAddrError(lib, rest)
      invariant acc == ra.(servers := ra.servers + rest[..k])
    {
      var addr := rest[k];
      assert rest[k..][1..] == rest[k + 1..];
      if ':' !in addr {
        return Err(MissingPort(addr));
      }
      var split := lib.splitHostPort(addr);
      if split.None? || split.value.host == "" || split.value.port == "" {
        return Err(InvalidServerFormat(addr));
      }
      assert rest[..k + 1] == rest[..k] + [addr];
      acc := acc.(servers := acc.servers + [addr]);
      k := k + 1;
    }
    assert rest[..k] == rest;
    return Ok(acc);
  }

  /** The `switch` on one directive name: its checks, and the settings and
      unread tokens after it. */
  method Directive(lib: GoLib, name: string, rest: seq<string>, ra: Settings)
    returns (res: Result<(Settings, seq<string>), ParseError>)
    ensures Check(lib, name, rest).Some? ==> res == Err(Check(lib, name, rest).value)
    ensures Check(lib, name, rest).None? ==> res == Ok(Apply(lib, name, rest, ra))
  {
    if name == "servers" {
      if rest == [] {
        return Err(ServersNeedAddress);
      }
      var added := AddServers(lib, rest, ra);
      if added.Err? {
        return Err(added.error);
      }
      return Ok((added.value, []));
    } else if name == "secret" {
      if rest == [] {
        return Err(SecretNeedsValue);
      }
      return Ok((ra.(secret := rest[0]), rest[1..]));
    } else if name == "realm" {
      if rest == [] {
        return Err(RealmNeedsValue);
      }
      return Ok((ra.(realm := rest[0]), rest[1..]));
    } else if name == "timeout" {
      if rest == [] {
        return Err(TimeoutNeedsValue);
      }
      if lib.parseDuration(rest[0]).None? {
        return Err(InvalidTimeout(rest[0]));
      }
      return Ok((ra.(timeout := rest[0]), rest[1..]));
    } else if name == "cache_ttl" {
      if rest == [] {
        return Err(CacheTTLNeedsValue);
      }
      if lib.parseDuration(rest[0]).None? {
        return Err(InvalidCacheTTL(rest[0]));
      }
      return Ok((ra.(cacheTTL := rest[0]), rest[1..]));
    } else {
      return Err(UnrecognizedDirective(name));
    }
  }

  /** `parseCaddyfile`: read directives until the block ends, then apply the final checks. */
  method ParseCaddyfile(lib: GoLib, lines: seq<Line>) returns (r: Result<Settings, ParseError>)
    ensures r == Parse(lib, lines)
  {
    var ra := Unset;
    var i := 0;
    var cur: seq<string> := [];
    assert lines[0..] == lines;
    while cur != [] || i < |lines|
      invariant 0 <= i <= |lines|
      invariant Run(lib, cur, lines[i..], ra) == Run(lib, [], lines, Unset)
      decreases |lines| - i, |cur|
    {
      if cur == [] {
        assert lines[i..][1..] == lines[i + 1..];
        cur := Tokens(lines[i]);
        i := i + 1;
      }
      var step := Directive(lib, cur[0], cur[1..], ra);
      if step.Err? {
        return Err(step.error);
      }
      ra, cur := step.value.0, step.value.1;
    }
    assert lines[i..] == [];
    if ra.servers == [] {
      return Err(NoServerDefined);
    }
    if ra.secret == "" {
      return Err(SecretNotSet);
    }
    return Ok(ra);
  }

  // ----- Properties -----

  /** No refused address among `args` means every one of them is accepted. */
  lemma {:induction false} FirstAddrErrorNone(lib: GoLib, args: seq<string>)
    ensures FirstAddrError(lib, args).None? <==> forall i :: 0 <= i < |args| ==> AddrError(lib, args[i]).None?
  {
    if args != [] {
      FirstAddrErrorNone(lib, args[1..]);
      assert forall i :: 1 <= i < |args| ==> args[i] == args[1..][i - 1];
    }
  }

  predicate GoodAddrs(lib: GoLib, servers: seq<string>) {
    forall i :: 0 <= i < |servers| ==> AddrError(lib, servers[i]).None?
  }

  /** The loop only ever adds accepted addresses. */
  lemma {:induction false} RunKeepsGoodAddrs(lib: GoLib, cur: seq<string>, lines: seq<Line>, s: Settings)
    requires GoodAddrs(lib, s.servers)
    requires Run(lib, cur, lines, s).Ok?
    ensures GoodAddrs(lib, Run(lib, cur, lines, s).value.servers)
    decreases |lines|, |cur|
  {
    if cur == [] {
      if lines != [] {
        RunKeepsGoodAddrs(lib, Tokens(lines[0]), lines[1..], s);
      }
    } else {
      var r := Apply(lib, cur[0], cur[1..], s);
      if cur[0] == "servers" {
        FirstAddrErrorNone(lib, cur[1..]);
      }
      RunKeepsGoodAddrs(lib, r.1, lines, r.0);
    }
  }

  /** Every successful parse has at least one server, every server contains
      ':' and splits into a non-empty host and port, and the secret is set. */
  lemma ParsedIsWellFormed(lib: GoLib, lines: seq<Line>)
    requires Parse(lib, lines).Ok?
    ensures var st := Parse(lib, lines).value;
      && st.servers != []
      && st.secret != ""
      && forall i :: 0 <= i < |st.servers| ==>
           && ':' in st.servers[i]
           && lib.splitHostPort(st.servers[i]).Some?
           && lib.splitHostPort(st.servers[i]).value.host != ""
           && lib.splitHostPort(st.servers[i]).value.port != ""
  {
    RunKeepsGoodAddrs(lib, [], lines, Unset);
  }

  /** A line that is refused on its own (an unknown directive, `servers`
      without addresses or with a refused one, a missing value, a bad
      duration) makes the whole parse fail, wherever it stands. */
  lemma {:induction false} RefusedLineFailsRun(lib: GoLib, cur: seq<string>, lines: seq<Line>, s: Settings, k: nat)
    requires k < |lines| && Check(lib, lines[k].name, lines[k].args).Some?
    ensures Run(lib, cur, lines, s).Err?
    decreases |lines|, |cur|
  {
    if cur == [] {
      if k == 0 {
        var t := Tokens(lines[0]);
        assert t[0] == lines[0].name && t[1..] == lines[0].args;
      } else {
        var t := Tokens(lines[0]);
        if Check(lib, t[0], t[1..]).None? {
          var r := Apply(lib, t[0], t[1..], s);
          RefusedLineFailsRun(lib, r.1, lines[1..], r.0, k - 1);
        }
      }
    } else if Check(lib, cur[0], cur[1..]).None? {
      var r := Apply(lib, cur[0], cur[1..], s);
      RefusedLineFailsRun(lib, r.1, lines, r.0, k);
    }
  }

  lemma RefusedLineFailsParse(lib: GoLib, lines: seq<Line>, k: nat)
    requires k < |lines| && Check(lib, lines[k].name, lines[k].args).Some?
    ensures Parse(lib, lines).Err?
  {
    RefusedLineFailsRun(lib, [], lines, Unset, k);
  }

  /** A value directive followed by a second token: the extra token is read as a directive name. */
  lemma ExtraTokenIsReadAsDirective(lib: GoLib)
    ensures Parse(lib, [Line("secret", ["s3cret", "x"])]) == Err(UnrecognizedDirective("x"))
  {
    var lines := [Line("secret", ["s3cret", "x"])];
    var t := Tokens(lines[0]);
    assert t == ["secret", "s3cret", "x"] && t[1..] == ["s3cret", "x"];
    assert lines[1..] == [];
    var after := Unset.(secret := "s3cret");
    assert Apply(lib, "secret", ["s3cret", "x"], Unset) == (after, ["x"]);
    assert Run(lib, [], lines, Unset) == Run(lib, t, [], Unset) == Run(lib, ["x"], [], after);
    assert ["x"][1..] == [];
    assert Check(lib, "x", []) == Some(UnrecognizedDirective("x"));
  }

  // ----- An independent description of a parse of a tidy block -----

  predicate SingleValued(name: string) {
    name == "secret" || name == "realm" || name == "timeout" || name == "cache_ttl"
  }

  /** A block in which no value directive carries more than one argument. */
  predicate Tidy(lines: seq<Line>) {
    forall k :: 0 <= k < |lines| && SingleValued(lines[k].name) ==> |lines[k].args| <= 1
  }

  /** The error of the first refused line, if any. */
  function FirstLineError(lib: GoLib, lines: seq<Line>): Option<ParseError> {
    if lines == [] then None
    else if Check(lib, lines[0].name, lines[0].args).Some? then Check(lib, lines[0].name, lines[0].args)
    else FirstLineError(lib, lines[1..])
  }

  /** All arguments of all `servers` lines, in order. */
  function ServerArgs(lines: seq<Line>): seq<string> {
    if lines == [] then []
    else (if lines[0].name == "servers" then lines[0].args else []) + ServerArgs(lines[1..])
  }

  /** The value of the last `name` line that has one, or `otherwise`. */
  function LastValue(lines: seq<Line>, name: string, otherwise: string): string {
    if lines == [] then otherwise
    else if lines[|lines| - 1].name == name && lines[|lines| - 1].args != [] then lines[|lines| - 1].args[0]
    else LastValue(lines[..|lines| - 1], name, otherwise)
  }

  function Summary(lines: seq<Line>, s: Settings): Settings {
    Settings(s.servers + ServerArgs(lines),
             LastValue(lines, "secret", s.secret),
             LastValue(lines, "realm", s.realm),
             LastValue(lines, "timeout", s.timeout),
             LastValue(lines, "cache_ttl", s.cacheTTL))
  }

  /** Reading the first line of a block first: the last value is that of the
      rest of the block, with the first line's value as the fallback. */
  lemma {:induction false} LastValueFirst(lines: seq<Line>, name: string, otherwise: string)
    requires lines != []
    ensures LastValue(lines, name, otherwise) ==
      LastValue(lines[1..], name, if lines[0].name == name && lines[0].args != [] then lines[0].args[0] else otherwise)
    decreases |lines|
  {
    if |lines| > 1 {
      var init := lines[..|lines| - 1];
      assert init[1..] == lines[1..][..|lines[1..]| - 1];
      assert init[0] == lines[0];
      LastValueFirst(init, name, otherwise);
    } else {
      assert lines[..0] == [];
      assert lines[1..] == [];
    }
  }

  /** On a tidy block the loop fails with the first refused line's error, and
      otherwise collects the `servers` arguments in order and keeps the last
      value of each value directive. */
  lemma {:induction false} TidyRun(lib: GoLib, lines: seq<Line>, s: Settings)
    requires Tidy(lines)
    ensures Run(lib, [], lines, s) ==
      match FirstLineError(lib, lines)
      case Some(e) => Err(e)
      case None => Ok(Summary(lines, s))
    decreases |lines|
  {
    if lines == [] {
      assert s.servers + [] == s.servers;
    } else {
      var l, tail := lines[0], lines[1..];
      var t := Tokens(l);
      assert t[0] == l.name && t[1..] == l.args;
      if Check(lib, l.name, l.args).None? {
        var r := Apply(lib, l.name, l.args, s);
        assert SingleValued(l.name) ==> |l.args| == 1;
        assert r.1 == [];
        assert Tidy(tail) by {
          forall k | 0 <= k < |tail| && SingleValued(tail[k].name) ensures |tail[k].args| <= 1 {
            assert tail[k] == lines[k + 1];
          }
        }
        TidyRun(lib, tail, r.0);
        LastValueFirst(lines, "secret", s.secret);
        LastValueFirst(lines, "realm", s.realm);
        LastValueFirst(lines, "timeout", s.timeout);
        LastValueFirst(lines, "cache_ttl", s.cacheTTL);
        assert Run(lib, [], lines, s) == Run(lib, [], tail, r.0);
        assert FirstLineError(lib, lines) == FirstLineError(lib, tail);
        if l.name == "servers" {
          assert ServerArgs(lines) == l.args + ServerArgs(tail);
          assert s.servers + ServerArgs(lines) == (s.servers + l.args) + ServerArgs(tail);
        } else {
          assert ServerArgs(lines) == ServerArgs(tail);
        }
        assert Summary(lines, s) == Summary(tail, r.0);
      }
    }
  }

  /** The whole outcome of a parse of a tidy block, described without the loop. */
  lemma TidyParse(lib: GoLib, lines: seq<Line>)
    requires Tidy(lines)
    ensures Parse(lib, lines) ==
      if FirstLineError(lib, lines).Some? then Err(FirstLineError(lib, lines).value)
      else if ServerArgs(lines) == [] then Err(NoServerDefined)
      else if LastValue(lines, "secret", "") == "" then Err(SecretNotSet)
      else Ok(Summary(lines, Unset))
  {
    TidyRun(lib, lines, Unset);
    assert Summary(lines, Unset).servers == ServerArgs(lines);
  }

  // ----- Relation to provisioning -----

  /** An address the parser accepts is kept by `Provision` exactly when its
      host is an IP address or has no space. */
  lemma ParsedAddrSurvivesProvision(lib: GoLib, addr: string)
    requires AddrError(lib, addr).None?
    ensures lib.splitHostPort(addr).Some?
    ensures Auth.IsValidServerAddr(lib, addr) <==>
      lib.parseIP(lib.splitHostPort(addr).value.host) || ' ' !in lib.splitHostPort(addr).value.host
  {
  }

  /** The parser accepts a host name with a space that `Provision` then drops. */
  lemma SpacedHostAcceptedThenDropped()
    ensures var lib := GoLib(a => if a == "my host:1812" then Some(HostPort("my host", "1812")) else None,
                             h => false, d => None);
      AddrError(lib, "my host:1812").None? && !Auth.IsValidServerAddr(lib, "my host:1812")
  {
    var lib := GoLib(a => if a == "my host:1812" then Some(HostPort("my host", "1812")) else None,
                     h => false, d => None);
    assert "my host:1812"[7] == ':';
    assert "my host"[2] == ' ';
  }
}
