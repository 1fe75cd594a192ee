/** `ServerInteraction`: the endpoint table, leader rotation, redirects, the retry loop of one request and the
    broadcast by rotation.

    What the network answers is a script: `net[i]` is the outcome of the i-th call that is ever made through
    the object.  A method that needs an answer beyond the end of the script is still waiting for it and reports
    `Blocked`; since scripts are arbitrary, the contracts speak about every finite stretch of every execution. */
module Interaction {
  import opened Options
  import opened Sequences
  import opened Status

  datatype EndPoint = EndPoint(ip: int, port: int)

  /** A leader hint.  Port 0 means no hint; `named` is what the address resolves to when it is compared with the
      table, `channel` the endpoint of the channel that opens for it when it has to be added. */
  datatype Location = Location(port: nat, named: Option<EndPoint>, channel: Option<EndPoint>)

  /** The outcome of one call: a transport failure, or an answer with an error code and a leader hint. */
  datatype Reply = Failed(code: Errno) | Answered(status: Status, leader: Location)

  /** What a request gives its caller: the status, and the error code left in the response. */
  datatype Result = Blocked | Returned(status: Status, response: Status)

  predicate Retryable(r: Reply) {
    match r
    case Failed(code) => code == EHOSTDOWN
    case Answered(status, _) => status == Error(ERAFT_NOTLEADER) || status == Error(EREGION_NOT_FOUND)
  }

  /** The status that a request ends with when its last call is not to be retried. */
  function StatusOf(r: Reply): Status {
    match r
    case Failed(code) => Error(code)
    case Answered(status, _) => status
  }

  predicate IsDown(r: Reply) {
    r == Failed(EHOSTDOWN)
  }

  predicate Accepts(r: Reply) {
    r.Answered? && r.status.Ok?
  }

  function Max(a: int, b: int): int {
    if a < b then b else a
  }

  /** The index after `p`, going round in a table of `n`. */
  function Next(p: nat, n: nat): (q: nat)
    requires p < n
    ensures q < n
  {
    if p + 1 == n then 0 else p + 1
  }

  lemma NextMod(p: nat, n: nat)
    requires p < n
    ensures (p + 1) % n == Next(p, n)
  {
  }

  /** The leader index after `k` moves by one from `first`, in a table of `n`. */
  function Position(first: nat, k: nat, n: nat): (p: nat)
    requires first < n
    ensures p < n
  {
    if k == 0 then first else Next(Position(first, k - 1, n), n)
  }

  /** The channels that `k` calls go to when the leader moves on by one after each. */
  function Rotation(first: nat, k: nat, n: nat): (r: seq<nat>)
    requires first < n
    ensures |r| == k
    ensures forall i :: 0 <= i < k ==> r[i] == Position(first, i, n)
  {
    if k == 0 then [] else Rotation(first, k - 1, n) + [Position(first, k - 1, n)]
  }

  class ServerInteraction {
    const net: seq<Reply>
    /** Whether the i-th weak compare-exchange fails for no reason. */
    const flaky: nat -> bool

    var leaderIndex: nat
    var endpoints: seq<EndPoint>
    var channels: seq<EndPoint>
    var calls: nat          // calls made so far
    var exchanges: nat      // compare-exchanges made so far
    var sent: seq<nat>      // the channel of each call

    constructor (net: seq<Reply>, flaky: nat -> bool)
      ensures this.net == net && this.flaky == flaky
      ensures leaderIndex == calls == exchanges == 0 && endpoints == [] && channels == [] && sent == []
    {
      this.net, this.flaky := net, flaky;
      leaderIndex, calls, exchanges, endpoints, channels, sent := 0, 0, 0, [], [], [];
    }

    /** One open channel per endpoint, and the leader is one of them. */
    ghost predicate Valid()
      reads this
    {
      channels == endpoints && leaderIndex < |channels| && calls == |sent| <= |net|
    }

    /** Addresses that do not resolve are passed over; an endpoint whose channel does not open ends it. */
    method Init(resolved: seq<Option<EndPoint>>, opens: EndPoint -> bool) returns (ok: bool)
      requires leaderIndex == calls == 0 && endpoints == [] && channels == [] && sent == []
      modifies this`endpoints, this`channels
      ensures ok ==> Valid()
      ensures ok <==> (exists i :: 0 <= i < |resolved| && resolved[i].Some?)
                      && forall i :: 0 <= i < |resolved| && resolved[i].Some? ==> opens(resolved[i].value)
      ensures endpoints == Resolved(resolved)
    {
      for i := 0 to |resolved|
        invariant endpoints == Resolved(resolved[..i]) && channels == []
      {
        if resolved[i].Some? {
          endpoints := endpoints + [resolved[i].value];
        }
        assert resolved[..i + 1][..i] == resolved[..i];
      }
      assert resolved[..|resolved|] == resolved;
      ResolvedContents(resolved);
      if endpoints == [] {
        return false;
      }
      for i := 0 to |endpoints|
        invariant endpoints == Resolved(resolved) && channels == endpoints[..i]
        invariant forall j :: 0 <= j < i ==> opens(endpoints[j])
      {
        if !opens(endpoints[i]) {
          assert endpoints[i] in endpoints;
          var j :| 0 <= j < |resolved| && resolved[j] == Some(endpoints[i]);
          return false;
        }
        channels := channels + [endpoints[i]];
      }
      return true;
    }

    /** `NextLeader(int)`: move on by one, if nobody else has moved the leader. */
    method NextLeader(leader: nat)
      requires Valid()
      modifies this`leaderIndex, this`exchanges
      ensures Valid() && exchanges == old(exchanges) + 1
      ensures leaderIndex == if old(leaderIndex) == leader && !flaky(old(exchanges))
                             then Next(leader, |endpoints|) else old(leaderIndex)
    {
      var next := (leader + 1) % |endpoints|;
      if leaderIndex == leader && !flaky(exchanges) {
        NextMod(leader, |endpoints|);
        leaderIndex := next;
      }
      exchanges := exchanges + 1;
    }

    /** `NextLeader(Location)`: go to the named endpoint, adding it to the table if it is new. */
    method Redirect(location: Location)
      requires Valid()
      modifies this`leaderIndex, this`endpoints, this`channels
      ensures Valid() && old(endpoints) <= endpoints
      ensures location.port == 0 || location.named.None? ==>
                endpoints == old(endpoints) && leaderIndex == old(leaderIndex)
      ensures location.port != 0 && location.named.Some? ==>
                if location.named.value in old(endpoints) then
                  endpoints == old(endpoints) && endpoints[leaderIndex] == location.named.value
                else if location.channel.Some? then
                  endpoints == old(endpoints) + [location.channel.value] && leaderIndex == |old(endpoints)|
                else
                  endpoints == old(endpoints) && leaderIndex == old(leaderIndex)
    {
      if location.port == 0 {
        return;
      }
      for i := 0 to |endpoints|
        invariant unchanged(this) && (i > 0 ==> location.named.Some?)
        invariant forall j :: 0 <= j < i ==> Some(endpoints[j]) != location.named
      {
        if location.named.None? {
          return;
        }
        if location.named.value == endpoints[i] {
          leaderIndex := i;
          return;
        }
      }
      if location.channel.Some? {
        channels := channels + [location.channel.value];
        endpoints := endpoints + [location.channel.value];
        leaderIndex := |endpoints| - 1;
      }
    }

    /** One call to the current leader, and where to go next if it has to be repeated. */
    method Attempt() returns (answer: Reply)
      requires Valid() && calls < |net|
      modifies this
      ensures Valid() && old(endpoints) <= endpoints
      ensures answer == net[old(calls)]
      ensures calls == old(calls) + 1 && sent == old(sent) + [old(leaderIndex)]
      ensures old(exchanges) <= exchanges
      ensures !Retryable(answer) ==> endpoints == old(endpoints) && leaderIndex == old(leaderIndex)
      ensures IsDown(answer) ==>
                && endpoints == old(endpoints)
                && (!flaky(old(exchanges)) ==> leaderIndex == Next(old(leaderIndex), |endpoints|))
    {
      var leader := leaderIndex;
      answer := net[calls];
      calls := calls + 1;
      sent := sent + [leader];
      match answer {
        case Failed(code) =>
          if code == EHOSTDOWN {
            NextLeader(leader);
          }
        case Answered(errcode, location) =>
          if errcode == Error(ERAFT_NOTLEADER) || errcode == Error(EREGION_NOT_FOUND) {
            if location.port != 0 {
              Redirect(location);
            } else {
              NextLeader(leaderIndex);
            }
          }
      }
    }

    /** One request with retries.  `response` is what the response object holds before the call. */
    method SendRequest(maxRetry: int, response: Status) returns (result: Result)
      requires Valid()
      modifies this
      ensures Valid() && old(endpoints) <= endpoints
      ensures old(calls) <= calls && old(exchanges) <= exchanges && old(sent) <= sent
      // the number of attempts, and what each but the last one met
      ensures calls - old(calls) <= Max(1, maxRetry)
      ensures forall i :: old(calls) <= i < calls - 1 ==> Retryable(net[i])
      ensures result.Blocked? ==>
                && calls == |net| && (calls > old(calls) ==> Retryable(net[calls - 1]))
                && calls - old(calls) < Max(1, maxRetry)
      // what the answer means
      ensures result.Returned? ==> calls > old(calls)
      ensures result.Returned? && !Retryable(net[calls - 1]) ==> result.status == StatusOf(net[calls - 1])
      ensures result.Returned? && Retryable(net[calls - 1]) ==>
                && calls - old(calls) == Max(1, maxRetry)
                && result.status == if AnyDown(net, old(calls), calls) then Error(EHOSTDOWN) else Ok
      ensures result.Returned? && net[calls - 1].Answered? ==> result.response == net[calls - 1].status
      ensures result == Returned(Ok, Ok) ==> Accepts(net[calls - 1])
      // where the calls go when nodes are up or down but none of them redirects
      ensures Steady(old(exchanges)) ==> Landed(net, old(calls), calls, old(Here()), Here())
    {
      var status, reply, retryCount := Ok, response, 0;
      ghost var start := Here();
      while true
        invariant Valid() && old(endpoints) <= endpoints && old(sent) <= sent && old(exchanges) <= exchanges
        invariant retryCount == calls - old(calls) >= 0
        invariant retryCount == 0 || retryCount < maxRetry
        invariant forall i :: old(calls) <= i < calls ==> Retryable(net[i])
        invariant status == if AnyDown(net, old(calls), calls) then Error(EHOSTDOWN) else Ok
        invariant Steady(old(exchanges)) ==> OnCourse(net, old(calls), calls, start, Here())
        decreases |net| - calls
      {
        if calls == |net| {
          return Blocked;
        }
        ghost var before := Here();
        var answer := Attempt();
        PlainGrows(net, old(calls), calls);
        if Steady(old(exchanges)) {
          CourseStep(net, old(calls), calls, start, before, Here());
        }
        if answer.Answered? {
          reply := answer.status;
        }
        if !Retryable(answer) {
          return Returned(StatusOf(answer), reply);
        }
        if answer.Failed? {
          status := Error(answer.code);
        }
        retryCount := retryCount + 1;
        if retryCount >= maxRetry {
          return Returned(status, reply);
        }
      }
    }

    /** The move to the next channel after a request that was accepted. */
    method MoveOn(ghost from: nat, ghost first: Course)
      requires Valid() && from < calls && first.leader < |first.endpoints|
      requires Plain(net, from, calls) ==> Accepts(net[calls - 1])
      modifies this`leaderIndex, this`exchanges
      ensures Valid() && old(exchanges) <= exchanges
      ensures Steady(old(exchanges)) && old(Landed(net, from, calls, first, Here())) ==>
                OnCourse(net, from, calls, first, Here())
    {
      ghost var before := Here();
      NextLeader(leaderIndex);
      if Steady(old(exchanges)) && Landed(net, from, calls, first, before) {
        CourseOn(net, from, calls, first, before, Here());
      }
    }

    /** One round of a broadcast: a request and, if it gave OK, the move to the next channel. */
    method Round(maxRetry: int, response: Status) returns (result: Result)
      requires Valid()
      modifies this
      ensures Valid() && old(endpoints) <= endpoints
      ensures old(calls) <= calls && old(exchanges) <= exchanges && old(sent) <= sent
      ensures result.Returned? ==> old(calls) < calls
      ensures result.Returned? && result.status.Ok? && Steady(old(exchanges)) ==>
                && OnCourse(net, old(calls), calls, old(Here()), Here())
                && (Plain(net, old(calls), calls) ==> Acceptances(net, old(calls), calls) == 1)
      ensures Matches(Scan(net, old(calls), 0, 1, Max(1, maxRetry)), calls, result)
      ensures result.Blocked? ==> calls == |net|
      ensures result.Returned? && result.status.Error? ==> Explains(net, old(calls), calls, result.status)
      ensures !(result.Returned? && result.status.Ok?) && Steady(old(exchanges)) ==>
                Landed(net, old(calls), calls, old(Here()), Here())
    {
      result := SendRequest(maxRetry, response);
      RequestMatches(net, old(calls), 0, calls, Max(1, maxRetry), result);
      if result.Returned? && result.status.Ok? {
        AcceptancesOfOne(net, old(calls), old(calls), calls);
        PlainGrows(net, old(calls), calls);
        MoveOn(old(calls), old(Here()));
      }
    }

    /** The broadcast: a round for each channel, counting also channels that redirects add on the way. */
    method AllSendRequest(maxRetry: int) returns (result: Result)
      requires Valid()
      modifies this
      ensures Valid() && old(endpoints) <= endpoints
      ensures old(calls) <= calls && old(sent) <= sent
      ensures result.Returned? && result.status.Ok? && Steady(old(exchanges)) ==>
                && OnCourse(net, old(calls), calls, old(Here()), Here())
                && (Plain(net, old(calls), calls) ==> Acceptances(net, old(calls), calls) == |endpoints|)
      // what the answer means
      ensures result.Blocked? ==> calls == |net|
      ensures result.Returned? && result.status.Ok? ==> calls - old(calls) >= |endpoints|
      ensures result.Returned? && result.status.Error? ==> Explains(net, old(calls), calls, result.status)
      // and what it is, call by call, as long as the nodes are up or down and none of them redirects
      ensures Steady(old(exchanges)) ==>
                Matches(Scan(net, old(calls), 0, |old(endpoints)|, Max(1, maxRetry)), calls, result)
      ensures Steady(old(exchanges)) && Plain(net, old(calls), calls) ==>
                && endpoints == old(endpoints)
                && sent == old(sent) + Rotation(old(leaderIndex), calls - old(calls), |endpoints|)
      // with all nodes up: one call to each channel, and the leader is back
      ensures Steady(old(exchanges)) && AllUp(net, old(calls), |old(endpoints)|) ==>
                && result == Returned(Ok, Ok) && calls == old(calls) + |old(endpoints)|
                && endpoints == old(endpoints) && leaderIndex == old(leaderIndex)
                && forall channel :: 0 <= channel < |endpoints| ==> HitsOnce(sent[old(calls)..], channel)
    {
      ghost var start, first := calls, Here();
      ghost var m := Max(1, maxRetry);
      var response, i := Ok, 0;
      while i < |channels|
        invariant Valid() && old(endpoints) <= endpoints && old(sent) <= sent
        invariant start <= calls && old(exchanges) <= exchanges
        invariant i <= calls - start
        invariant Steady(old(exchanges)) ==> Underway(net, start, calls, i, m, response, first, Here())
        decreases |net| - calls
      {
        ghost var from, before := calls, Here();
        result := Round(maxRetry, response);
        if result.Blocked? || !result.status.Ok? {
          if Steady(old(exchanges)) {
            Stopped(net, start, from, calls, i, m, response, result, first, before, Here());
          }
          return;
        }
        if Steady(old(exchanges)) {
          OneOn(net, start, from, calls, i, m, response, result, first, before, Here());
        }
        response := result.response;
        i := i + 1;
      }
      if Steady(old(exchanges)) {
        Arrived(net, start, calls, i, m, response, first, Here());
      }
      return Returned(Ok, response);
    }

    ghost function Here(): Course
      reads this
    {
      Course(endpoints, sent, leaderIndex)
    }

    /** No compare-exchange from the i-th on fails for no reason. */
    ghost predicate Steady(i: nat) {
      forall j :: i <= j ==> !flaky(j)
    }
  }

  datatype Verdict = AllDone | StillWaiting | HostDown | Elsewhere

  /** What `need` requests in a row come to, read off the replies: each is over with the first acceptance, or given up
      after `max` times down in a row.  A reply of another kind is not looked at. */
  function Scan(net: seq<Reply>, c: nat, streak: nat, need: nat, max: nat): (r: (nat, Verdict))
    requires c <= |net|
    ensures c <= r.0 <= |net|
    decreases |net| - c
  {
    if need == 0 then (c, AllDone)
    else if c == |net| then (c, StillWaiting)
    else if Accepts(net[c]) then Scan(net, c + 1, 0, need - 1, max)
    else if !IsDown(net[c]) then (c, Elsewhere)
    else if streak + 1 >= max then (c + 1, HostDown)
    else Scan(net, c + 1, streak + 1, need, max)
  }

  predicate Matches(scan: (nat, Verdict), calls: nat, result: Result) {
    match scan.1
    case AllDone => calls == scan.0 && result == Returned(Ok, Ok)
    case StillWaiting => calls == scan.0 && result.Blocked?
    case HostDown => calls == scan.0 && result.Returned? && result.status == Error(EHOSTDOWN)
    case Elsewhere => true
  }

  /** Several requests are one and then the others. */
  lemma {:induction false} ScanSplit(net: seq<Reply>, c: nat, streak: nat, need: nat, max: nat)
    requires c <= |net| && need > 0
    ensures var one := Scan(net, c, streak, 1, max);
            && Scan(net, c, streak, need, max)
               == (if one.1.AllDone? then Scan(net, one.0, 0, need - 1, max) else one)
            && (!one.1.Elsewhere? ==> Plain(net, c, one.0))
    decreases |net| - c
  {
    if c < |net| && IsDown(net[c]) && streak + 1 < max {
      ScanSplit(net, c + 1, streak + 1, need, max);
    }
  }

  /** How a single request ends is what the replies come to. */
  lemma {:induction false} RequestMatches(net: seq<Reply>, c: nat, streak: nat, to: nat, max: nat, result: Result)
    requires c <= to <= |net| && streak < max && to - c <= max - streak
    requires forall i :: c <= i < to - 1 ==> Retryable(net[i])
    requires result.Blocked? ==> to == |net| && (to > c ==> Retryable(net[to - 1])) && to - c < max - streak
    requires result.Returned? ==> to > c && (net[to - 1].Answered? ==> result.response == net[to - 1].status)
    requires result.Returned? && !Retryable(net[to - 1]) ==> result.status == StatusOf(net[to - 1])
    requires result.Returned? && Retryable(net[to - 1]) ==>
               && to - c == max - streak
               && (streak > 0 || AnyDown(net, c, to) ==> result.status == Error(EHOSTDOWN))
    ensures Matches(Scan(net, c, streak, 1, max), to, result)
    decreases |net| - c
  {
    if c < |net| && IsDown(net[c]) {
      if c + 1 <= to {
        assert AnyDown(net, c, to);
      }
      if streak + 1 < max {
        RequestMatches(net, c + 1, streak + 1, to, max, result);
      }
    }
  }

  /** A broadcast of `n` rounds has done `i` of them, and the replies say the same. */
  ghost predicate OnScan(net: seq<Reply>, start: nat, c: nat, i: nat, n: nat, max: nat, response: Status)
    requires start <= c <= |net|
  {
    var scan := Scan(net, start, 0, n, max);
    || scan.1.Elsewhere?
    || (response.Ok? && Plain(net, start, c) && i <= n && scan == Scan(net, c, 0, n - i, max))
  }

  lemma OnScanStep(net: seq<Reply>, start: nat, from: nat, to: nat, i: nat, n: nat, max: nat,
                   response: Status, result: Result)
    requires start <= from <= to <= |net| && OnScan(net, start, from, i, n, max, response)
    requires Plain(net, start, from) ==> i < n
    requires Matches(Scan(net, from, 0, 1, max), to, result)
    ensures result.Returned? && result.status.Ok? ==> OnScan(net, start, to, i + 1, n, max, result.response)
    ensures !(result.Returned? && result.status.Ok?) ==> Matches(Scan(net, start, 0, n, max), to, result)
  {
    if !Scan(net, start, 0, n, max).1.Elsewhere? {
      ScanSplit(net, from, 0, n - i, max);
      PlainJoins(net, start, from, to);
    }
  }

  lemma OnScanEnd(net: seq<Reply>, start: nat, c: nat, i: nat, n: nat, max: nat, response: Status)
    requires start <= c <= |net| && OnScan(net, start, c, i, n, max, response)
    requires Plain(net, start, c) ==> i >= n
    ensures Matches(Scan(net, start, 0, n, max), c, Returned(Ok, response))
  {
  }

  lemma UpMeansDone(net: seq<Reply>, start: nat, n: nat, max: nat, c: nat, result: Result)
    requires start <= |net| && Matches(Scan(net, start, 0, n, max), c, result)
    ensures AllUp(net, start, n) ==> c == start + n && result == Returned(Ok, Ok) && Plain(net, start, start + n)
  {
    ScanAllUp(net, start, 0, n, max);
  }

  /** The next `n` replies are all acceptances. */
  predicate AllUp(net: seq<Reply>, from: nat, n: nat) {
    from + n <= |net| && forall i :: from <= i < from + n ==> Accepts(net[i])
  }

  lemma {:induction false} ScanAllUp(net: seq<Reply>, c: nat, streak: nat, n: nat, max: nat)
    requires c <= |net|
    ensures AllUp(net, c, n) ==> Scan(net, c, streak, n, max) == (c + n, AllDone)
    decreases n
  {
    if n > 0 && c < |net| {
      ScanAllUp(net, c + 1, 0, n - 1, max);
    }
  }

  /** Why a request or a broadcast that made the calls up to `to` gives an error: its last reply, or, with that one
      to be retried, a node that was down. */
  ghost predicate Explains(net: seq<Reply>, from: nat, to: nat, status: Status)
    requires to <= |net|
  {
    && from < to
    && status == (if Retryable(net[to - 1]) then Error(EHOSTDOWN) else StatusOf(net[to - 1]))
    && (Retryable(net[to - 1]) ==> AnyDown(net, from, to))
  }

  /** Where an interaction stands: its table, the channels called so far, and the leader. */
  datatype Course = Course(endpoints: seq<EndPoint>, sent: seq<nat>, leader: nat)

  /** When the nodes in the range are up or down but none of them redirects: the table stays, and the calls and the
      leader go round by one. */
  ghost predicate OnCourse(net: seq<Reply>, from: nat, to: nat, a: Course, b: Course)
    requires from <= to <= |net| && a.leader < |a.endpoints|
  {
    Plain(net, from, to) ==> b == Moved(a, to - from)
  }

  /** The same for a request, which stays with the node that accepts it. */
  ghost predicate Landed(net: seq<Reply>, from: nat, to: nat, a: Course, b: Course)
    requires from <= to <= |net| && a.leader < |a.endpoints|
  {
    Plain(net, from, to) ==>
      b == Course(a.endpoints, a.sent + Rotation(a.leader, to - from, |a.endpoints|),
                  Position(a.leader, to - from - (if to > from && Accepts(net[to - 1]) then 1 else 0), |a.endpoints|))
  }

  lemma CourseStep(net: seq<Reply>, from: nat, to: nat, a: Course, b: Course, c: Course)
    requires from < to <= |net| && a.leader < |a.endpoints| && b.leader < |b.endpoints|
    requires OnCourse(net, from, to - 1, a, b)
    requires IsDown(net[to - 1]) ==> c == Course(b.endpoints, b.sent + [b.leader], Next(b.leader, |b.endpoints|))
    requires Accepts(net[to - 1]) ==> c == Course(b.endpoints, b.sent + [b.leader], b.leader)
    ensures Landed(net, from, to, a, c)
    ensures !Accepts(net[to - 1]) ==> OnCourse(net, from, to, a, c)
  {
    PlainGrows(net, from, to);
    var k, n := to - 1 - from, |a.endpoints|;
    assert a.sent + (Rotation(a.leader, k, n) + [Position(a.leader, k, n)]) ==
      a.sent + Rotation(a.leader, k, n) + [Position(a.leader, k, n)];
  }

  lemma CourseOn(net: seq<Reply>, from: nat, to: nat, a: Course, b: Course, c: Course)
    requires from < to <= |net| && a.leader < |a.endpoints| && b.leader < |b.endpoints|
    requires Landed(net, from, to, a, b) && (Plain(net, from, to) ==> Accepts(net[to - 1]))
    requires c == Course(b.endpoints, b.sent, Next(b.leader, |b.endpoints|))
    ensures OnCourse(net, from, to, a, c)
  {
  }

  lemma CourseJoins(net: seq<Reply>, from: nat, mid: nat, to: nat, a: Course, b: Course, c: Course)
    requires from <= mid <= to <= |net| && a.leader < |a.endpoints| && b.leader < |b.endpoints|
    requires OnCourse(net, from, mid, a, b) && OnCourse(net, mid, to, b, c)
    ensures OnCourse(net, from, to, a, c)
    ensures Plain(net, from, to) ==> Plain(net, from, mid) && Plain(net, mid, to) && c.endpoints == b.endpoints
  {
    if Plain(net, from, to) {
      PlainSplits(net, from, mid, to);
      MovesJoin(a, mid - from, to - mid);
    }
  }

  lemma LandedJoins(net: seq<Reply>, from: nat, mid: nat, to: nat, a: Course, b: Course, c: Course)
    requires from <= mid <= to <= |net| && a.leader < |a.endpoints| && b.leader < |b.endpoints|
    requires OnCourse(net, from, mid, a, b) && Landed(net, mid, to, b, c)
    ensures Plain(net, from, to) ==>
              c.endpoints == a.endpoints && c.sent == a.sent + Rotation(a.leader, to - from, |a.endpoints|)
  {
    if Plain(net, from, to) {
      PlainSplits(net, from, mid, to);
      MovesJoin(a, mid - from, to - mid);
    }
  }

  /** As many calls as channels: each is called once, and the leader is back. */
  lemma WholeTurn(a: Course, b: Course)
    requires a.leader < |a.endpoints| && b == Moved(a, |a.endpoints|)
    ensures b.leader == a.leader
    ensures forall channel :: 0 <= channel < |a.endpoints| ==> HitsOnce(b.sent[|a.sent|..], channel)
  {
    var n := |a.endpoints|;
    assert b.sent[|a.sent|..] == Rotation(a.leader, n, n);
    FullTurn(a.leader, n, 0);
    forall channel | 0 <= channel < n
      ensures HitsOnce(Rotation(a.leader, n, n), channel)
    {
      FullTurn(a.leader, n, channel);
    }
  }

  /** A broadcast that began at `a` has done `i` rounds and stands at `b`. */
  ghost predicate Underway(net: seq<Reply>, start: nat, c: nat, i: nat, max: nat, response: Status, a: Course, b: Course)
    requires start <= c <= |net| && a.leader < |a.endpoints|
  {
    && OnScan(net, start, c, i, |a.endpoints|, max, response)
    && OnCourse(net, start, c, a, b)
    && (Plain(net, start, c) ==> Acceptances(net, start, c) == i <= |a.endpoints|)
  }

  lemma OneOn(net: seq<Reply>, start: nat, from: nat, to: nat, i: nat, max: nat, response: Status, result: Result,
              a: Course, b: Course, c: Course)
    requires start <= from <= to <= |net| && a.leader < |a.endpoints| && b.leader < |b.endpoints|
    requires Underway(net, start, from, i, max, response, a, b) && i < |b.endpoints|
    requires Matches(Scan(net, from, 0, 1, max), to, result) && result.Returned? && result.status.Ok?
    requires OnCourse(net, from, to, b, c) && (Plain(net, from, to) ==> Acceptances(net, from, to) == 1)
    ensures Underway(net, start, to, i + 1, max, result.response, a, c)
  {
    OnScanStep(net, start, from, to, i, |a.endpoints|, max, response, result);
    CourseJoins(net, start, from, to, a, b, c);
    AcceptancesAdd(net, start, from, to);
  }

  lemma Stopped(net: seq<Reply>, start: nat, from: nat, to: nat, i: nat, max: nat, response: Status, result: Result,
                a: Course, b: Course, c: Course)
    requires start <= from <= to <= |net| && a.leader < |a.endpoints| && b.leader < |b.endpoints|
    requires Underway(net, start, from, i, max, response, a, b) && i < |b.endpoints|
    requires Matches(Scan(net, from, 0, 1, max), to, result) && !(result.Returned? && result.status.Ok?)
    requires Landed(net, from, to, b, c)
    ensures Matches(Scan(net, start, 0, |a.endpoints|, max), to, result)
    ensures Plain(net, start, to) ==>
              c.endpoints == a.endpoints && c.sent == a.sent + Rotation(a.leader, to - start, |a.endpoints|)
    ensures !AllUp(net, start, |a.endpoints|)
  {
    OnScanStep(net, start, from, to, i, |a.endpoints|, max, response, result);
    LandedJoins(net, start, from, to, a, b, c);
    UpMeansDone(net, start, |a.endpoints|, max, to, result);
  }

  lemma Arrived(net: seq<Reply>, start: nat, c: nat, i: nat, max: nat, response: Status, a: Course, b: Course)
    requires start <= c <= |net| && a.leader < |a.endpoints|
    requires Underway(net, start, c, i, max, response, a, b) && i >= |b.endpoints|
    ensures Matches(Scan(net, start, 0, |a.endpoints|, max), c, Returned(Ok, response))
    ensures AllUp(net, start, |a.endpoints|) ==>
              && c == start + |a.endpoints| && response.Ok? && b == Moved(a, |a.endpoints|) && b.leader == a.leader
              && forall channel :: 0 <= channel < |a.endpoints| ==> HitsOnce(b.sent[|a.sent|..], channel)
  {
    OnScanEnd(net, start, c, i, |a.endpoints|, max, response);
    UpMeansDone(net, start, |a.endpoints|, max, c, Returned(Ok, response));
    if AllUp(net, start, |a.endpoints|) {
      WholeTurn(a, b);
    }
  }

  /** `k` calls on, each moving the leader by one. */
  ghost function Moved(a: Course, k: nat): (b: Course)
    requires a.leader < |a.endpoints|
    ensures b.leader < |b.endpoints|
  {
    Course(a.endpoints, a.sent + Rotation(a.leader, k, |a.endpoints|), Position(a.leader, k, |a.endpoints|))
  }

  lemma MovesJoin(a: Course, k: nat, m: nat)
    requires a.leader < |a.endpoints|
    ensures Moved(Moved(a, k), m) == Moved(a, k + m)
  {
    var n := |a.endpoints|;
    RotationJoins(a.leader, k, m, n);
    Regroup(a.sent, Rotation(a.leader, k, n), Rotation(Position(a.leader, k, n), m, n));
  }

  /** Some call in the range found its node down. */
  ghost predicate AnyDown(net: seq<Reply>, from: nat, to: nat)
    requires from <= to <= |net|
  {
    exists i :: from <= i < to && IsDown(net[i])
  }

  /** Every call in the range was accepted or found its node down. */
  ghost predicate Plain(net: seq<Reply>, from: nat, to: nat)
    requires from <= to <= |net|
  {
    forall i :: from <= i < to ==> Accepts(net[i]) || IsDown(net[i])
  }

  lemma PlainGrows(net: seq<Reply>, from: nat, to: nat)
    requires from < to <= |net|
    ensures Plain(net, from, to) <==> Plain(net, from, to - 1) && (Accepts(net[to - 1]) || IsDown(net[to - 1]))
    ensures AnyDown(net, from, to) <==> AnyDown(net, from, to - 1) || IsDown(net[to - 1])
  {
  }

  lemma PlainSplits(net: seq<Reply>, from: nat, mid: nat, to: nat)
    requires from <= mid <= to <= |net| && Plain(net, from, to)
    ensures Plain(net, from, mid) && Plain(net, mid, to)
  {
  }

  lemma PlainJoins(net: seq<Reply>, from: nat, mid: nat, to: nat)
    requires from <= mid <= to <= |net|
    ensures Plain(net, from, mid) && Plain(net, mid, to) ==> Plain(net, from, to)
  {
  }

  /** The calls in the range that were accepted. */
  ghost function Acceptances(net: seq<Reply>, from: nat, to: nat): nat
    requires from <= to <= |net|
  {
    if from == to then 0 else Acceptances(net, from, to - 1) + if Accepts(net[to - 1]) then 1 else 0
  }

  lemma {:induction false} AcceptancesAdd(net: seq<Reply>, from: nat, mid: nat, to: nat)
    requires from <= mid <= to <= |net|
    ensures Acceptances(net, from, to) == Acceptances(net, from, mid) + Acceptances(net, mid, to)
  {
    if mid < to {
      AcceptancesAdd(net, from, mid, to - 1);
    }
  }

  lemma {:induction false} AcceptancesOfOne(net: seq<Reply>, from: nat, mid: nat, to: nat)
    requires from <= mid < to <= |net|
    requires forall i :: mid <= i < to - 1 ==> Retryable(net[i])
    ensures Acceptances(net, from, to) == Acceptances(net, from, mid) + if Accepts(net[to - 1]) then 1 else 0
  {
    if to - 1 > mid {
      AcceptancesOfOne(net, from, mid, to - 1);
    }
  }

  lemma {:induction false} PositionJoins(first: nat, a: nat, b: nat, n: nat)
    requires first < n
    ensures Position(Position(first, a, n), b, n) == Position(first, a + b, n)
  {
    if b > 0 {
      PositionJoins(first, a, b - 1, n);
    }
  }

  lemma {:induction false} RotationJoins(first: nat, a: nat, b: nat, n: nat)
    requires first < n
    ensures Rotation(first, a, n) + Rotation(Position(first, a, n), b, n) == Rotation(first, a + b, n)
    ensures Position(Position(first, a, n), b, n) == Position(first, a + b, n)
  {
    PositionJoins(first, a, b, n);
    if b > 0 {
      RotationJoins(first, a, b - 1, n);
    }
  }

  // ----- whom a broadcast reaches

  lemma {:induction false} PositionWithinTurn(first: nat, k: nat, n: nat)
    requires first < n && k <= n
    ensures Position(first, k, n) == if first + k < n then first + k else first + k - n
  {
    if k > 0 {
      PositionWithinTurn(first, k - 1, n);
    }
  }

  ghost predicate HitsOnce(r: seq<nat>, channel: nat) {
    exists i :: OnlyAt(r, channel, i)
  }

  predicate OnlyAt(r: seq<nat>, channel: nat, i: int) {
    0 <= i < |r| && r[i] == channel && forall j :: 0 <= j < |r| && r[j] == channel ==> j == i
  }

  lemma OnceInTurn(r: seq<nat>, first: nat, channel: nat)
    requires first < |r| && channel < |r|
    requires forall k :: 0 <= k < |r| ==> r[k] == if first + k < |r| then first + k else first + k - |r|
    ensures HitsOnce(r, channel)
  {
    var i := if channel >= first then channel - first else channel + |r| - first;
    assert OnlyAt(r, channel, i);
  }

  /** As many calls as there are channels, the leader moving on by one each time, reach every channel exactly
      once and bring the leader back to where it was. */
  lemma FullTurn(first: nat, n: nat, channel: nat)
    requires first < n && channel < n
    ensures Position(first, n, n) == first
    ensures HitsOnce(Rotation(first, n, n), channel)
  {
    PositionWithinTurn(first, n, n);
    forall k | 0 <= k < n
      ensures Rotation(first, n, n)[k] == if first + k < n then first + k else first + k - n
    {
      PositionWithinTurn(first, k, n);
    }
    OnceInTurn(Rotation(first, n, n), first, channel);
  }

  function Resolved(resolved: seq<Option<EndPoint>>): seq<EndPoint> {
    if resolved == [] then []
    else
      Resolved(resolved[..|resolved| - 1])
      + if resolved[|resolved| - 1].Some? then [resolved[|resolved| - 1].value] else []
  }

  lemma {:induction false} ResolvedContents(resolved: seq<Option<EndPoint>>)
    ensures forall e :: e in Resolved(resolved) <==> Some(e) in resolved
    ensures Resolved(resolved) == [] <==> forall i :: 0 <= i < |resolved| ==> resolved[i].None?
  {
    if resolved != [] {
      var n := |resolved| - 1;
      ResolvedContents(resolved[..n]);
      assert resolved == resolved[..n] + [resolved[n]];
    }
  }
}
