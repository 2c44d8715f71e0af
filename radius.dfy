/** `checkRadiusConcurrent`: one Access-Request is sent to every configured
    server, one result per server comes back on a channel in some order, and
    a sequential fold over those results decides the verdict.

    The fan-out itself (goroutines, the wait group, the closing goroutine) is
    not modelled; what it delivers is: for every server, the outcome of its
    exchange, and an arrival order in which those outcomes are received. */
module Radius {
  import opened Base

  /** Packet type codes of section 3 of RFC 2865. */
  const AccessRequest: int := 1
  const AccessAccept: int := 2
  const AccessReject: int := 3

  /** The code recorded for a server whose exchange failed; it is not a RADIUS code. */
  const NoCode: int := 0

  /** What `radius.Exchange` gives back for one server: an error, or a reply with its code. */
  datatype Exchange = Failed(reason: string) | Replied(code: int)

  /** One value sent on the results channel. */
  datatype ServerResult = ServerResult(server: string, code: int, err: Option<string>)

  /** The value kept per server name in `serverResults`. */
  datatype Record = Record(code: int, err: Option<string>)

  /** How the error message describes one server. */
  datatype Issue = ExchangeError(reason: string) | UnknownCode(code: int) | NoResponse

  /** One "<server> ...; " part of the error message. */
  datatype Entry = Entry(server: string, issue: Issue)

  /** The non-nil errors `checkRadiusConcurrent` can return. The message text
      is "RADIUS authentication issues: " followed by one part per entry, in
      the order the entries are listed. */
  datatype AuthError = NoServersConfigured | Issues(entries: seq<Entry>)

  /** The three outcomes of the decision: (true, nil), (false, nil), (false, error). */
  datatype Decision = Accept | Reject | Indeterminate

  /** The result a worker sends for `server` after its exchange. */
  function Deliver(server: string, x: Exchange): ServerResult {
    match x
    case Failed(reason) => ServerResult(server, NoCode, Some(reason))
    case Replied(code) => ServerResult(server, code, None)
  }

  /** The results listed in server order (the order of `Servers`). */
  function Dispatch(servers: seq<string>, outcomes: seq<Exchange>): seq<ServerResult>
    requires |outcomes| == |servers|
  {
    seq(|servers|, i requires 0 <= i < |servers| => Deliver(servers[i], outcomes[i]))
  }

  /** `arrival[k]` is the index of the server whose result is received k-th:
      every server's result arrives, exactly once. */
  predicate IsArrivalOrder(arrival: seq<nat>, n: nat) {
    && |arrival| == n
    && (forall k :: 0 <= k < |arrival| ==> arrival[k] < n)
    && (forall j :: 0 <= j < n ==> j in arrival)
  }

  /** The results in the order they are read from the channel. */
  function Arrived(servers: seq<string>, outcomes: seq<Exchange>, arrival: seq<nat>): seq<ServerResult>
    requires |outcomes| == |servers|
    requires IsArrivalOrder(arrival, |servers|)
  {
    seq(|arrival|, k requires 0 <= k < |arrival| => Deliver(servers[arrival[k]], outcomes[arrival[k]]))
  }

  predicate HasCode(rs: seq<ServerResult>, code: int) {
    exists i :: 0 <= i < |rs| && rs[i].code == code
  }

  /** The decision rule of the doc comment: any Accept wins, then any Reject,
      and otherwise the outcome is an error. */
  function Resolve(rs: seq<ServerResult>): Decision {
    if HasCode(rs, AccessAccept) then Accept
    else if HasCode(rs, AccessReject) then Reject
    else Indeterminate
  }

  /** The decision for a configuration and the servers' outcomes: no servers
      is an error; otherwise an Access-Accept reply from any server accepts,
      failing that an Access-Reject reply from any server rejects, and a failed
      exchange never decides. */
  function Decide(servers: seq<string>, outcomes: seq<Exchange>): (d: Decision)
    requires |outcomes| == |servers|
    ensures |servers| == 0 ==> d == Indeterminate
    ensures |servers| > 0 ==>
      (d == Accept <==> exists i :: 0 <= i < |outcomes| && outcomes[i] == Replied(AccessAccept))
    ensures |servers| > 0 ==>
      (d == Reject <==>
        (forall i :: 0 <= i < |outcomes| ==> outcomes[i] != Replied(AccessAccept)) &&
        (exists i :: 0 <= i < |outcomes| && outcomes[i] == Replied(AccessReject)))
  {
    if |servers| == 0 then Indeterminate
    else
      DispatchHasCode(servers, outcomes, AccessAccept);
      DispatchHasCode(servers, outcomes, AccessReject);
      Resolve(Dispatch(servers, outcomes))
  }

  /** A RADIUS code occurs among the dispatched results exactly when some
      server replied with it: a failed exchange carries no RADIUS code. */
  lemma DispatchHasCode(servers: seq<string>, outcomes: seq<Exchange>, code: int)
    requires |outcomes| == |servers| && code != NoCode
    ensures HasCode(Dispatch(servers, outcomes), code) <==>
      exists i :: 0 <= i < |outcomes| && outcomes[i] == Replied(code)
  {
    var rs := Dispatch(servers, outcomes);
    if HasCode(rs, code) {
      var i :| 0 <= i < |rs| && rs[i].code == code;
      assert outcomes[i] == Replied(code);
    }
    if exists i :: 0 <= i < |outcomes| && outcomes[i] == Replied(code) {
      var i :| 0 <= i < |outcomes| && outcomes[i] == Replied(code);
      assert rs[i].code == code;
    }
  }

  function RecordOf(r: ServerResult): Record {
    Record(r.code, r.err)
  }

  /** `serverResults` after reading `rs` in order: one record per server name,
      a later result for the same name replacing an earlier one. */
  function ServerMap(rs: seq<ServerResult>): map<string, Record> {
    if rs == [] then map[]
    else ServerMap(rs[..|rs| - 1])[rs[|rs| - 1].server := RecordOf(rs[|rs| - 1])]
  }

  /** The classification of one record in the error message. */
  function Classify(r: Record): Issue {
    if r.err.Some? then ExchangeError(r.err.value)
    else if r.code != NoCode then UnknownCode(r.code)
    else NoResponse
  }

  /** `entries` lists every server of `m` exactly once, each with its classification. */
  predicate Describes(entries: seq<Entry>, m: map<string, Record>) {
    && (forall i :: 0 <= i < |entries| ==>
          entries[i].server in m && entries[i].issue == Classify(m[entries[i].server]))
    && (forall s :: s in m ==> exists i :: 0 <= i < |entries| && entries[i].server == s)
    && (forall i, j :: 0 <= i < j < |entries| ==> entries[i].server != entries[j].server)
  }

  /** The result-collection loop: raises the two flags and records every result. */
  method Collect(arrived: seq<ServerResult>)
    returns (hasAccessAccept: bool, hasReject: bool, serverResults: map<string, Record>)
    ensures hasAccessAccept == HasCode(arrived, AccessAccept)
    ensures hasReject == HasCode(arrived, AccessReject)
    ensures serverResults == ServerMap(arrived)
  {
    hasAccessAccept, hasReject := false, false;
    serverResults := map[];
    for i := 0 to |arrived|
      invariant hasAccessAccept == HasCode(arrived[..i], AccessAccept)
      invariant hasReject == HasCode(arrived[..i], AccessReject)
      invariant serverResults == ServerMap(arrived[..i])
    {
      var res := arrived[i];
      assert arrived[..i + 1][..i] == arrived[..i];
      assert arrived[..i + 1][i] == res;
      serverResults := serverResults[res.server := Record(res.code, res.err)];
      if res.code == AccessAccept {
        hasAccessAccept := true;
      } else if res.code == AccessReject {
        hasReject := true;
      }
    }
    assert arrived[..|arrived|] == arrived;
  }

  /** The message-building loop: one part per recorded server, in whatever
      order the map is walked. */
  method Describe(serverResults: map<string, Record>) returns (entries: seq<Entry>)
    ensures Describes(entries, serverResults)
  {
    entries := [];
    var remaining := serverResults.Keys;
    while remaining != {}
      invariant remaining <= serverResults.Keys
      invariant forall i :: 0 <= i < |entries| ==>
        entries[i].server in serverResults && entries[i].server !in remaining &&
        entries[i].issue == Classify(serverResults[entries[i].server])
      invariant forall s :: s in serverResults && s !in remaining ==>
        exists i :: 0 <= i < |entries| && entries[i].server == s
      invariant forall i, j :: 0 <= i < j < |entries| ==> entries[i].server != entries[j].server
      decreases remaining
    {
      var server :| server in remaining;
      ghost var prior := entries;
      entries := entries + [Entry(server, Classify(serverResults[server]))];
      assert forall i :: 0 <= i < |prior| ==> entries[i] == prior[i];
      assert entries[|prior|].server == server;
      remaining := remaining - {server};
    }
  }

  /** `checkRadiusConcurrent`, given each server's exchange outcome (in server
      order) and the order in which the results are received. */
  method CheckRadiusConcurrent(servers: seq<string>, outcomes: seq<Exchange>, arrival: seq<nat>)
    returns (ok: bool, err: Option<AuthError>)
    requires |outcomes| == |servers|
    requires IsArrivalOrder(arrival, |servers|)
    ensures ok <==> Decide(servers, outcomes) == Accept
    ensures err.None? <==> Decide(servers, outcomes) != Indeterminate
    ensures |servers| == 0 ==> err == Some(NoServersConfigured)
    ensures |servers| > 0 && err.Some? ==>
      err.value.Issues? && Describes(err.value.entries, ServerMap(Arrived(servers, outcomes, arrival)))
  {
    if |servers| == 0 {
      return false, Some(NoServersConfigured);
    }
    var arrived := Arrived(servers, outcomes, arrival);
    var hasAccessAccept, hasReject, serverResults := Collect(arrived);
    ArrivalIrrelevant(servers, outcomes, arrival);
    if hasAccessAccept {
      return true, None;
    }
    if hasReject {
      return false, None;
    }
    var entries := Describe(serverResults);
    return false, Some(Issues(entries));
  }

  // ----- Properties of the decision -----

  /** An Accept anywhere in the list decides, whatever the other servers returned. */
  lemma AcceptAnywhereWins(rs: seq<ServerResult>, i: nat)
    requires i < |rs| && rs[i].code == AccessAccept
    ensures Resolve(rs) == Accept
  {
  }

  /** Without an Accept, a single Reject gives a negative verdict that is not an error. */
  lemma RejectWithoutAccept(rs: seq<ServerResult>, i: nat)
    requires i < |rs| && rs[i].code == AccessReject
    requires forall j :: 0 <= j < |rs| ==> rs[j].code != AccessAccept
    ensures Resolve(rs) == Reject
  {
  }

  /** The error outcome arises exactly when no result carries Accept or Reject. */
  lemma IndeterminateIff(rs: seq<ServerResult>)
    ensures Resolve(rs) == Indeterminate <==>
      forall j :: 0 <= j < |rs| ==> rs[j].code != AccessAccept && rs[j].code != AccessReject
  {
  }

  /** A failed exchange is recorded with code 0, so it never counts as Accept or
      Reject, and the message classifies it as an error carrying its reason. */
  lemma FailedExchangeNeverDecides(server: string, reason: string)
    ensures Deliver(server, Failed(reason)).code != AccessAccept
    ensures Deliver(server, Failed(reason)).code != AccessReject
    ensures Classify(RecordOf(Deliver(server, Failed(reason)))) == ExchangeError(reason)
  {
  }

  /** A reply with code 0 is reported as "no response", any other code as "unknown code". */
  lemma ReplyClassification(server: string, code: int)
    ensures Classify(RecordOf(Deliver(server, Replied(code)))) ==
      if code == NoCode then NoResponse else UnknownCode(code)
  {
  }

  /** The verdict depends only on which codes occur: any two lists holding the
      same results, in any order, resolve alike. */
  lemma ResolvePermutation(a: seq<ServerResult>, b: seq<ServerResult>)
    requires multiset(a) == multiset(b)
    ensures Resolve(a) == Resolve(b)
  {
    forall code | HasCode(a, code) ensures HasCode(b, code) {
      var i :| 0 <= i < |a| && a[i].code == code;
      assert a[i] in multiset(b);
      var j :| 0 <= j < |b| && b[j] == a[i];
    }
    forall code | HasCode(b, code) ensures HasCode(a, code) {
      var j :| 0 <= j < |b| && b[j].code == code;
      assert b[j] in multiset(a);
      var i :| 0 <= i < |a| && a[i] == b[j];
    }
  }

  /** The verdict computed from the results as they arrive equals the verdict on
      the results in server order: the arrival order plays no part. */
  lemma ArrivalIrrelevant(servers: seq<string>, outcomes: seq<Exchange>, arrival: seq<nat>)
    requires |outcomes| == |servers|
    requires IsArrivalOrder(arrival, |servers|)
    ensures Resolve(Arrived(servers, outcomes, arrival)) == Resolve(Dispatch(servers, outcomes))
  {
    var a, d := Arrived(servers, outcomes, arrival), Dispatch(servers, outcomes);
    forall code | HasCode(a, code) ensures HasCode(d, code) {
      var k :| 0 <= k < |a| && a[k].code == code;
      assert d[arrival[k]] == a[k];
    }
    forall code | HasCode(d, code) ensures HasCode(a, code) {
      var j :| 0 <= j < |d| && d[j].code == code;
      assert j in arrival;
      var k :| 0 <= k < |arrival| && arrival[k] == j;
      assert a[k] == d[j];
    }
  }

  // ----- Properties of the recorded results and the error message -----

  /** `serverResults` holds exactly the server names that occur among the results. */
  lemma {:induction false} ServerMapKeys(rs: seq<ServerResult>)
    ensures ServerMap(rs).Keys == set i | 0 <= i < |rs| :: rs[i].server
  {
    if rs != [] {
      var init := rs[..|rs| - 1];
      ServerMapKeys(init);
      assert forall i :: 0 <= i < |init| ==> init[i] == rs[i];
    }
  }

  /** For a name that occurs, the record kept is that of its last result. */
  lemma {:induction false} ServerMapLastWins(rs: seq<ServerResult>, i: nat)
    requires i < |rs|
    requires forall j :: i < j < |rs| ==> rs[j].server != rs[i].server
    ensures rs[i].server in ServerMap(rs) && ServerMap(rs)[rs[i].server] == RecordOf(rs[i])
  {
    if i < |rs| - 1 {
      var init := rs[..|rs| - 1];
      assert forall j :: i < j < |init| ==> init[j] == rs[j];
      ServerMapLastWins(init, i);
    }
  }

  /** Whatever the arrival order, the error message names exactly the configured servers. */
  lemma MessageNamesEveryServer(servers: seq<string>, outcomes: seq<Exchange>, arrival: seq<nat>)
    requires |outcomes| == |servers|
    requires IsArrivalOrder(arrival, |servers|)
    ensures ServerMap(Arrived(servers, outcomes, arrival)).Keys == set s | s in servers
  {
    var a := Arrived(servers, outcomes, arrival);
    ServerMapKeys(a);
    forall s | s in servers ensures s in ServerMap(a).Keys {
      var j :| 0 <= j < |servers| && servers[j] == s;
      assert j in arrival;
      var k :| 0 <= k < |arrival| && arrival[k] == j;
      assert a[k].server == s;
    }
  }

  /** With a name listed twice, the entry for it reflects whichever of its two
      results arrived last, so the message depends on order while the verdict
      does not. */
  lemma DuplicateNameLastWriteWins(x: ServerResult, y: ServerResult)
    requires x.server == y.server && RecordOf(x) != RecordOf(y)
    ensures ServerMap([x, y]) == map[x.server := RecordOf(y)]
    ensures ServerMap([x, y]) != ServerMap([y, x])
    ensures Resolve([x, y]) == Resolve([y, x])
  {
    ResolvePermutation([x, y], [y, x]);
    assert [x, y][..1] == [x] && [y, x][..1] == [y];
    assert [x][..0] == [] && [y][..0] == [];
    assert ServerMap([x]) == map[x.server := RecordOf(x)];
    assert ServerMap([y, x])[x.server] == RecordOf(x);
  }
}
