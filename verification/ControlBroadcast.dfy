/** What a broadcast that misses a node does to the switches of the cluster. */
module ControlBroadcast {
  import opened Status
  import opened Interaction
  import opened BroadcastReach
  import opened ClusterControl

  lemma OnceIsClean(nodes: seq<Node>, v: seq<nat>)
    requires |v| == |nodes| > 0 && (forall j :: 0 <= j < |v| ==> v[j] < |v|) && EachOnce(v, |v|)
    ensures Clean(nodes, Trail(v, true))
  {
    MissedIffTwice(v, |v|);
    forall i | 0 <= i < |nodes|
      ensures i in v
    {
      assert HitsOnce(v, i);
    }
    assert forall j :: 0 <= j < |v| - 1 ==> v[j] != v[|v| - 1];
  }

  lemma SkewedForgets(nodes: seq<Node>, v: seq<nat>, n: nat, d: nat)
    requires Skewed(v, 0, n, d) && 0 < d < n == |nodes|
    ensures !EndsNew(nodes, v)
  {
    assert v[..n - 1][0] == 0;
  }

  /** Turning balancing off with one coordinator down for call `d`, and later on again.  Every call reports success.
      If the call was the first one, the switches come back exactly if the coordinators agreed; otherwise all but the
      one that was passed over stay off for good. */
  method OffAndOnWithOneDown(nodes: seq<Node>, endpoints: seq<EndPoint>, d: nat, location: Location, maxRetry: int, on: Trail)
    returns (disabled: Status, enabled: Status, after: seq<Node>)
    requires |endpoints| == |nodes| && d < |nodes| && maxRetry > 1 && Complete(nodes, on)
    ensures disabled.Ok? && enabled.Ok? && |after| == |nodes|
    ensures d == 0 ==> (after == nodes <==> Uniform(nodes))
    ensures d > 0 ==> forall i :: 0 <= i < |nodes| ==> after[i] == if i == d then nodes[i] else Node(false, false)
  {
    var result, sent := BroadcastWithOneDown(endpoints, d, location, maxRetry);
    var off := Trail(Reached(Script(|endpoints|, d, location), sent, 0, |sent|), result == Returned(Ok, Ok));
    var control := new Control(false, nodes, [], []);
    disabled := control.DisableBalance(off);
    enabled := control.EnableBalance(on);
    after := control.coordinators;
    assert after == BalanceAfter(nodes, off, on);
    if d == 0 {
      OnceIsClean(nodes, off.visits);
      BalanceRestored(nodes, off, on);
    } else {
      SkewedForgets(nodes, off.visits, |nodes|, d);
      BalanceForgotten(nodes, off, on);
      PositionWithinTurn(0, d, |nodes|);
    }
  }
}
