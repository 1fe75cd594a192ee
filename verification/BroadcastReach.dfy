/** Whom a broadcast reaches: the channels whose node accepted, in the order of the calls. */
module BroadcastReach {
  import opened Options
  import opened Status
  import opened Interaction
  import opened Pigeonhole

  /** The channels of the accepted calls in the range; `sent` has the channel of every call. */
  function Reached(net: seq<Reply>, sent: seq<nat>, from: nat, to: nat): seq<nat>
    requires from <= to <= |net| && to <= |sent|
  {
    if from == to then []
    else Reached(net, sent, from, to - 1) + if Accepts(net[to - 1]) then [sent[to - 1]] else []
  }

  lemma {:induction false} ReachedCount(net: seq<Reply>, sent: seq<nat>, from: nat, to: nat)
    requires from <= to <= |net| && to <= |sent|
    ensures |Reached(net, sent, from, to)| == Acceptances(net, from, to)
  {
    if from < to {
      ReachedCount(net, sent, from, to - 1);
    }
  }

  ghost predicate EachOnce(visits: seq<nat>, n: nat) {
    forall channel :: 0 <= channel < n ==> HitsOnce(visits, channel)
  }

  predicate Repeats(visits: seq<nat>) {
    exists i, j :: 0 <= i < j < |visits| && visits[i] == visits[j]
  }

  ghost predicate Misses(visits: seq<nat>, n: nat) {
    exists channel: nat :: channel < n && channel !in visits
  }

  lemma RepeatMisses(visits: seq<nat>, n: nat)
    requires |visits| == n && Repeats(visits)
    ensures Misses(visits, n)
  {
    var i, j :| 0 <= i < j < |visits| && visits[i] == visits[j];
    if !Misses(visits, n) {
      forall x | x in Below(n)
        ensures x in Without(visits, j)
      {
        StillThere(visits, i, j, x);
      }
      CoverNeeds(Without(visits, j), Below(n));
    }
  }

  function Without(visits: seq<nat>, j: nat): (rest: seq<nat>)
    requires j < |visits|
    ensures |rest| == |visits| - 1
  {
    visits[..j] + visits[j + 1..]
  }

  lemma StillThere(visits: seq<nat>, i: nat, j: nat, x: nat)
    requires i < j < |visits| && visits[i] == visits[j] && x in visits
    ensures x in Without(visits, j)
  {
    var k :| 0 <= k < |visits| && visits[k] == x;
    var at := if k < j then k else if k == j then i else k - 1;
    assert Without(visits, j)[at] == x;
  }

  lemma MissRepeats(visits: seq<nat>, n: nat)
    requires |visits| == n && forall i :: 0 <= i < n ==> visits[i] < n
    requires Misses(visits, n)
    ensures Repeats(visits)
  {
    var channel: nat :| channel < n && channel !in visits;
    if !Repeats(visits) {
      DistinctWithin(visits, Below(n) - {channel});
    }
  }

  /** A broadcast gets as many acceptances as there are channels, so: a node is missed if and only if another one has
      accepted twice, and otherwise each has accepted once. */
  lemma MissedIffTwice(visits: seq<nat>, n: nat)
    requires |visits| == n && forall i :: 0 <= i < n ==> visits[i] < n
    ensures Misses(visits, n) <==> Repeats(visits)
    ensures EachOnce(visits, n) <==> !Repeats(visits)
  {
    if Repeats(visits) {
      RepeatMisses(visits, n);
      var channel: nat :| channel < n && channel !in visits;
      assert !HitsOnce(visits, channel);
    } else {
      forall channel | 0 <= channel < n
        ensures HitsOnce(visits, channel)
      {
        if channel !in visits {
          MissRepeats(visits, n);
        }
        var i :| 0 <= i < n && visits[i] == channel;
        assert OnlyAt(visits, channel, i);
      }
    }
    if Misses(visits, n) {
      MissRepeats(visits, n);
    }
  }

  // ----- when no node redirects

  predicate IsMultiple(d: nat, n: nat)
    requires n > 0
  {
    d == 0 || (d >= n && IsMultiple(d - n, n))
  }

  lemma {:induction false} RoundAgain(p: nat, d: nat, n: nat)
    requires p < n
    ensures Position(p, d, n) == p <==> IsMultiple(d, n)
  {
    if d < n {
      PositionWithinTurn(p, d, n);
    } else {
      PositionWithinTurn(p, n, n);
      PositionJoins(p, n, d - n, n);
      RoundAgain(p, d - n, n);
    }
  }

  /** Two calls go to the same channel exactly if they lie a multiple of the number of channels apart. */
  lemma SameChannel(first: nat, i: nat, j: nat, n: nat)
    requires first < n && i <= j
    ensures Position(first, i, n) == Position(first, j, n) <==> IsMultiple(j - i, n)
  {
    PositionJoins(first, i, j - i, n);
    RoundAgain(Position(first, i, n), j - i, n);
  }

  /** The calls from `from` on go round by one, beginning with channel `first`. */
  ghost predicate GoesRound(sent: seq<nat>, from: nat, to: nat, first: nat, n: nat) {
    && first < n && from <= to == |sent|
    && forall k :: from <= k < to ==> sent[k] == Position(first, k - from, n)
  }

  lemma {:induction false} ReachedAt(net: seq<Reply>, sent: seq<nat>, from: nat, to: nat, k: nat)
    requires from <= k < to <= |net| && to <= |sent| && Accepts(net[k])
    ensures Acceptances(net, from, k) < |Reached(net, sent, from, to)|
    ensures Reached(net, sent, from, to)[Acceptances(net, from, k)] == sent[k]
  {
    if k < to - 1 {
      ReachedAt(net, sent, from, to - 1, k);
    } else {
      ReachedCount(net, sent, from, k);
    }
  }

  lemma {:induction false} WhichCall(net: seq<Reply>, sent: seq<nat>, from: nat, to: nat, j: nat) returns (k: nat)
    requires from <= to <= |net| && to <= |sent| && j < |Reached(net, sent, from, to)|
    ensures from <= k < to && Accepts(net[k]) && Acceptances(net, from, k) == j
    ensures Reached(net, sent, from, to)[j] == sent[k]
  {
    if j < |Reached(net, sent, from, to - 1)| {
      k := WhichCall(net, sent, from, to - 1, j);
    } else {
      k := to - 1;
      ReachedCount(net, sent, from, k);
    }
  }

  lemma {:induction false} AcceptancesGrow(net: seq<Reply>, from: nat, a: nat, b: nat)
    requires from <= a <= b <= |net|
    ensures Acceptances(net, from, a) <= Acceptances(net, from, b)
    ensures a < b && Accepts(net[a]) ==> Acceptances(net, from, a) < Acceptances(net, from, b)
  {
    if a < b {
      AcceptancesGrow(net, from, a, b - 1);
    }
  }

  /** No two accepted calls lie a multiple of `n` apart. */
  ghost predicate Apart(net: seq<Reply>, from: nat, to: nat, n: nat)
    requires to <= |net| && n > 0
  {
    forall i, j :: from <= i < j < to && Accepts(net[i]) && Accepts(net[j]) ==> !IsMultiple(j - i, n)
  }

  lemma ClashRepeats(net: seq<Reply>, sent: seq<nat>, from: nat, to: nat, first: nat, n: nat)
    requires from <= to <= |net| && GoesRound(sent, from, to, first, n) && !Apart(net, from, to, n)
    ensures Repeats(Reached(net, sent, from, to))
  {
    var i, j :| from <= i < j < to && Accepts(net[i]) && Accepts(net[j]) && IsMultiple(j - i, n);
    SameChannel(first, i - from, j - from, n);
    ReachedAt(net, sent, from, to, i);
    ReachedAt(net, sent, from, to, j);
    AcceptancesGrow(net, from, i, j);
  }

  lemma FewerIsEarlier(net: seq<Reply>, from: nat, i: nat, j: nat)
    requires from <= i <= |net| && from <= j <= |net| && Acceptances(net, from, i) < Acceptances(net, from, j)
    ensures i < j
  {
    if j <= i {
      AcceptancesGrow(net, from, j, i);
    }
  }

  lemma Clash(net: seq<Reply>, sent: seq<nat>, from: nat, to: nat, first: nat, n: nat, i: nat, j: nat)
    requires to <= |net| && GoesRound(sent, from, to, first, n)
    requires from <= i < j < to && Accepts(net[i]) && Accepts(net[j]) && sent[i] == sent[j]
    ensures !Apart(net, from, to, n)
  {
    SameChannel(first, i - from, j - from, n);
  }

  lemma RepeatClashes(net: seq<Reply>, sent: seq<nat>, from: nat, to: nat, first: nat, n: nat)
    requires from <= to <= |net| && GoesRound(sent, from, to, first, n) && Repeats(Reached(net, sent, from, to))
    ensures !Apart(net, from, to, n)
  {
    var v := Reached(net, sent, from, to);
    var a, b :| 0 <= a < b < |v| && v[a] == v[b];
    var i := WhichCall(net, sent, from, to, a);
    var j := WhichCall(net, sent, from, to, b);
    FewerIsEarlier(net, from, i, j);
    Clash(net, sent, from, to, first, n, i, j);
  }

  lemma ReachedInRange(net: seq<Reply>, sent: seq<nat>, from: nat, to: nat, first: nat, n: nat, j: nat)
    requires from <= to <= |net| && GoesRound(sent, from, to, first, n) && j < |Reached(net, sent, from, to)|
    ensures Reached(net, sent, from, to)[j] < n
  {
    var k := WhichCall(net, sent, from, to, j);
  }

  /** The exact condition for a broadcast with as many acceptances as channels, read off its replies: every node accepts
      exactly once if and only if no two accepted calls lie a multiple of the number of channels apart; otherwise some
      node is missed. */
  lemma OnceExactly(net: seq<Reply>, sent: seq<nat>, from: nat, to: nat, first: nat, n: nat)
    requires from <= to <= |net| && GoesRound(sent, from, to, first, n) && Acceptances(net, from, to) == n
    ensures EachOnce(Reached(net, sent, from, to), n) <==> Apart(net, from, to, n)
    ensures Misses(Reached(net, sent, from, to), n) <==> !Apart(net, from, to, n)
  {
    var v := Reached(net, sent, from, to);
    ReachedCount(net, sent, from, to);
    forall j | 0 <= j < n
      ensures v[j] < n
    {
      ReachedInRange(net, sent, from, to, first, n, j);
    }
    MissedIffTwice(v, n);
    if Apart(net, from, to, n) {
      if Repeats(v) {
        RepeatClashes(net, sent, from, to, first, n);
      }
    } else {
      ClashRepeats(net, sent, from, to, first, n);
    }
  }

  lemma RotationGoesRound(sent: seq<nat>, before: seq<nat>, first: nat, k: nat, n: nat)
    requires first < n && sent == before + Rotation(first, k, n)
    ensures GoesRound(sent, |before|, |before| + k, first, n)
  {
  }

  lemma {:induction false} ScanCounts(net: seq<Reply>, c: nat, streak: nat, need: nat, max: nat)
    requires c <= |net|
    ensures var r := Scan(net, c, streak, need, max);
            r.1.AllDone? ==> Plain(net, c, r.0) && Acceptances(net, c, r.0) == need
    decreases |net| - c
  {
    if need > 0 && c < |net| {
      var r := Scan(net, c, streak, need, max);
      if Accepts(net[c]) {
        ScanCounts(net, c + 1, 0, need - 1, max);
      } else if IsDown(net[c]) && streak + 1 < max {
        ScanCounts(net, c + 1, streak + 1, need, max);
      }
      if r.1.AllDone? {
        AcceptancesAdd(net, c, c + 1, r.0);
      }
    }
  }

  /** A broadcast from any state of an interaction, with any replies: if these come to a success, it answers OK, the
      calls go round from the leader it started with, and each node has accepted once exactly if no two accepted calls
      lie a multiple of the number of channels apart. */
  method Broadcast(interaction: ServerInteraction, maxRetry: int) returns (result: Result)
    requires interaction.Valid() && interaction.Steady(interaction.exchanges)
    modifies interaction
    ensures interaction.Valid()
    ensures Matches(Scan(interaction.net, old(interaction.calls), 0, |old(interaction.endpoints)|, Max(1, maxRetry)),
                    interaction.calls, result)
    ensures var n, net, from := |old(interaction.endpoints)|, interaction.net, old(interaction.calls);
            Scan(net, from, 0, n, Max(1, maxRetry)).1.AllDone? ==>
              && interaction.endpoints == old(interaction.endpoints) && from <= interaction.calls
              && GoesRound(interaction.sent, from, interaction.calls, old(interaction.leaderIndex), n)
              && (EachOnce(Reached(net, interaction.sent, from, interaction.calls), n) <==>
                  Apart(net, from, interaction.calls, n))
  {
    ghost var net, from, n := interaction.net, interaction.calls, |interaction.endpoints|;
    ghost var before, first := interaction.sent, interaction.leaderIndex;
    ScanCounts(net, from, 0, n, Max(1, maxRetry));
    result := interaction.AllSendRequest(maxRetry);
    if Scan(net, from, 0, n, Max(1, maxRetry)).1.AllDone? {
      RotationGoesRound(interaction.sent, before, first, interaction.calls - from, n);
      OnceExactly(net, interaction.sent, from, interaction.calls, first, n);
    }
  }

  // ----- one node down for one call

  /** Of the next replies, number `d` says that the node is down; the others are acceptances. */
  ghost predicate OneDown(net: seq<Reply>, from: nat, n: nat, d: nat) {
    && from + n < |net| && from <= d < from + n
    && forall k :: from <= k <= from + n ==> if k == d then IsDown(net[k]) else Accepts(net[k])
  }

  lemma {:induction false} OneDownScan(net: seq<Reply>, from: nat, n: nat, d: nat, max: nat)
    requires OneDown(net, from, n, d) && max > 0
    ensures Scan(net, from, 0, n, max) == if max > 1 then (from + n + 1, AllDone) else (d + 1, HostDown)
    decreases n
  {
    if d > from {
      OneDownScan(net, from + 1, n - 1, d, max);
    } else if max > 1 {
      ScanAllUp(net, from + 1, 1, n, max);
    }
  }

  /** The number of the `j`-th accepted call. */
  function Skip(from: nat, d: nat, j: nat): nat {
    if from + j < d then from + j else from + j + 1
  }

  lemma {:induction false} OneDownCount(net: seq<Reply>, from: nat, n: nat, d: nat, to: nat)
    requires OneDown(net, from, n, d) && from <= to <= from + n + 1
    ensures Acceptances(net, from, to) == if to <= d then to - from else to - from - 1
  {
    if to > from {
      OneDownCount(net, from, n, d, to - 1);
    }
  }

  lemma OneDownVisit(net: seq<Reply>, sent: seq<nat>, from: nat, n: nat, d: nat, j: nat)
    requires OneDown(net, from, n, d) && from + n < |sent| && j < n
    ensures var v := Reached(net, sent, from, from + n + 1); |v| == n && v[j] == sent[Skip(from, d, j)]
  {
    ReachedCount(net, sent, from, from + n + 1);
    OneDownCount(net, from, n, d, from + n + 1);
    OneDownCount(net, from, n, d, Skip(from, d, j));
    ReachedAt(net, sent, from, from + n + 1, Skip(from, d, j));
  }

  /** What the acceptances look like when call `i` finds its node down: each node once if and only if that was the first
      call; otherwise the node called first is also the last to accept, and only the node that was down is missing. */
  ghost predicate Skewed(v: seq<nat>, first: nat, n: nat, i: nat) {
    && first < n == |v| && v[n - 1] == first
    && (forall j :: 0 <= j < n ==> v[j] < n)
    && (EachOnce(v, n) <==> i == 0)
    && (i > 0 ==> v[0] == first && n > 1 && OnlyMissing(v, n, Position(first, i, n)))
  }

  ghost predicate OnlyMissing(v: seq<nat>, n: nat, channel: nat) {
    forall c: nat :: c < n ==> (c in v <==> c != channel)
  }

  /** The exact condition: every node accepts once if and only if the node that was down is the one called first.
      Otherwise it is passed over for good, and the broadcast ends with a second call to the node called first. */
  lemma OneDownExactly(net: seq<Reply>, sent: seq<nat>, from: nat, first: nat, n: nat, d: nat)
    requires OneDown(net, from, n, d) && GoesRound(sent, from, from + n + 1, first, n)
    ensures Skewed(Reached(net, sent, from, from + n + 1), first, n, d - from)
  {
    var v := Reached(net, sent, from, from + n + 1);
    OneDownVisit(net, sent, from, n, d, 0);
    forall j | 0 <= j < n
      ensures v[j] == Position(first, if j < d - from then j else j + 1, n)
    {
      OneDownVisit(net, sent, from, n, d, j);
    }
    OneSkipped(v, first, n, d - from);
  }

  lemma OneSkipped(v: seq<nat>, first: nat, n: nat, i: nat)
    requires first < n == |v| && i < n
    requires forall j :: 0 <= j < n ==> v[j] == Position(first, if j < i then j else j + 1, n)
    ensures Skewed(v, first, n, i)
  {
    PositionWithinTurn(first, n, n);
    if i > 0 {
      assert v[0] == v[n - 1];
      assert Repeats(v);
      OthersThere(v, first, n, i);
    } else {
      AllDifferent(v, first, n);
    }
    MissedIffTwice(v, n);
  }

  lemma OthersThere(v: seq<nat>, first: nat, n: nat, i: nat)
    requires first < n == |v| && 0 < i < n
    requires forall j :: 0 <= j < n ==> v[j] == Position(first, if j < i then j else j + 1, n)
    ensures OnlyMissing(v, n, Position(first, i, n))
  {
    forall k: nat | k <= n
      ensures Position(first, k, n) == if first + k < n then first + k else first + k - n
    {
      PositionWithinTurn(first, k, n);
    }
    forall c: nat | c < n
      ensures c in v <==> c != Position(first, i, n)
    {
      var k := if c >= first then c - first else c + n - first;
      assert Position(first, k, n) == c;
      if k < i {
        assert v[k] == c;
      } else if k > i {
        assert v[k - 1] == c;
      } else {
        assert forall j :: 0 <= j < n ==> v[j] != c;
      }
    }
  }

  lemma AllDifferent(v: seq<nat>, first: nat, n: nat)
    requires first < n == |v| && forall j :: 0 <= j < n ==> v[j] == Position(first, j + 1, n)
    ensures !Repeats(v)
  {
    forall j | 0 <= j < n
      ensures v[j] == if first + j + 1 < n then first + j + 1 else first + j + 1 - n
    {
      PositionWithinTurn(first, j + 1, n);
    }
  }

  lemma {:induction false} ResolvedAll(endpoints: seq<EndPoint>, resolved: seq<Option<EndPoint>>)
    requires |resolved| == |endpoints| && forall i :: 0 <= i < |endpoints| ==> resolved[i] == Some(endpoints[i])
    ensures Resolved(resolved) == endpoints
  {
    if endpoints != [] {
      var n := |endpoints| - 1;
      ResolvedAll(endpoints[..n], resolved[..n]);
    }
  }

  /** The replies of a broadcast to `n` nodes, with the node of call `d` down. */
  function Script(n: nat, d: nat, location: Location): (net: seq<Reply>)
    requires d < n
    ensures OneDown(net, 0, n, d) && |net| == n + 1 && Plain(net, 0, n + 1)
  {
    seq(n + 1, k => if k == d then Failed(EHOSTDOWN) else Answered(Ok, location))
  }

  method Connect(net: seq<Reply>, endpoints: seq<EndPoint>) returns (interaction: ServerInteraction)
    requires endpoints != []
    ensures fresh(interaction) && interaction.Valid() && interaction.net == net && interaction.Steady(0)
    ensures interaction.endpoints == endpoints && interaction.sent == [] && interaction.leaderIndex == 0
    ensures interaction.calls == interaction.exchanges == 0
  {
    var n := |endpoints|;
    interaction := new ServerInteraction(net, _ => false);
    var resolved := seq(n, k requires 0 <= k < n => Some(endpoints[k]));
    ResolvedAll(endpoints, resolved);
    assert resolved[0].Some?;
    var ok := interaction.Init(resolved, _ => true);
  }

  lemma ScriptScan(n: nat, d: nat, location: Location, maxRetry: int)
    requires d < n
    ensures Scan(Script(n, d, location), 0, 0, n, Max(1, maxRetry)) ==
      if maxRetry > 1 then (n + 1, AllDone) else (d + 1, HostDown)
  {
    OneDownScan(Script(n, d, location), 0, n, d, Max(1, maxRetry));
  }

  /** A broadcast to any number of nodes, one of which is down for call `d`.  With retries it always answers OK; each
      node has accepted once if and only if that call was the first one. */
  method BroadcastWithOneDown(endpoints: seq<EndPoint>, d: nat, location: Location, maxRetry: int)
    returns (result: Result, sent: seq<nat>)
    requires d < |endpoints|
    ensures maxRetry > 1 ==>
              && result == Returned(Ok, Ok) && |sent| == |endpoints| + 1
              && Skewed(Reached(Script(|endpoints|, d, location), sent, 0, |sent|), 0, |endpoints|, d)
    ensures maxRetry <= 1 ==> result.Returned? && result.status == Error(EHOSTDOWN) && |sent| == d + 1
  {
    var interaction := Connect(Script(|endpoints|, d, location), endpoints);
    ScriptScan(|endpoints|, d, location, maxRetry);
    result := Broadcast(interaction, maxRetry);
    sent := interaction.sent;
    if maxRetry > 1 {
      OneDownExactly(Script(|endpoints|, d, location), sent, 0, 0, |endpoints|, d);
    }
  }
}
