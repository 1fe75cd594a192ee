/** The cluster switches that a backup or restore turns off and has to put back: garbage collection on the
    coordinator, leader and region balancing on every coordinator, automatic split and merge on every store
    and index node.  `Backup` and `Restore` carry the same operations and flags; they are modelled once. */
module ClusterControl {
  import opened Status

  /** The two switches of a node: leader and region balancing, or split and merge. */
  datatype Node = Node(first: bool, second: bool)

  /** A `ControlConfig` request: for each of the two variables, the value to set, if it is named. */
  datatype Request = Request(setFirst: bool, setSecond: bool, value: bool)

  function SetNode(n: Node, r: Request): Node {
    Node(if r.setFirst then r.value else n.first, if r.setSecond then r.value else n.second)
  }

  /** What a broadcast came to: the nodes that accepted, in the order of the calls, and whether its caller saw success.
      A node may be missing and a node may occur twice, as `BroadcastReach` shows. */
  datatype Trail = Trail(visits: seq<nat>, ok: bool)

  /** The nodes after a request was accepted by those in `visits`. */
  function Visit(nodes: seq<Node>, r: Request, visits: seq<nat>): (after: seq<Node>)
    ensures |after| == |nodes|
    ensures forall i :: 0 <= i < |nodes| ==> after[i] == if i in visits then SetNode(nodes[i], r) else nodes[i]
  {
    seq(|nodes|, i requires 0 <= i < |nodes| => if i in visits then SetNode(nodes[i], r) else nodes[i])
  }

  const OFF := Request(true, true, false)

  function Off(nodes: seq<Node>, t: Trail): seq<Node> {
    Visit(nodes, OFF, t.visits)
  }

  /** A request to turn on what is named; without a name there is no request. */
  function On(nodes: seq<Node>, t: Trail, first: bool, second: bool): seq<Node> {
    if first || second then Visit(nodes, Request(first, second, true), t.visits) else nodes
  }

  /** The caller goes on: the broadcast succeeded, or there was nobody to send it to. */
  predicate Through(nodes: seq<Node>, t: Trail) {
    nodes == [] || t.ok
  }

  /** The last node to accept had not accepted before, so its answer tells what was changed there. */
  predicate EndsNew(nodes: seq<Node>, visits: seq<nat>) {
    visits != [] && visits[|visits| - 1] < |nodes| && visits[|visits| - 1] !in visits[..|visits| - 1]
  }

  /** What the caller remembers of a turn-off: what the last answer says was on. */
  predicate KeepsFirst(nodes: seq<Node>, t: Trail) {
    t.ok && EndsNew(nodes, t.visits) && nodes[t.visits[|t.visits| - 1]].first
  }

  predicate KeepsSecond(nodes: seq<Node>, t: Trail) {
    t.ok && EndsNew(nodes, t.visits) && nodes[t.visits[|t.visits| - 1]].second
  }

  lemma VisitStep(nodes: seq<Node>, r: Request, visits: seq<nat>, i: nat)
    requires i < |visits|
    ensures var before, k := Visit(nodes, r, visits[..i]), visits[i];
            && Visit(nodes, r, visits[..i + 1]) == (if k < |nodes| then before[k := SetNode(before[k], r)] else before)
            && (k < |nodes| ==> before[k] == if k in visits[..i] then SetNode(nodes[k], r) else nodes[k])
  {
    assert visits[..i + 1] == visits[..i] + [visits[i]];
  }

  /** A `ControlConfig` to one node after the other.  What the caller sees of the answers is the last one: for each
      variable, whether it had to be changed. */
  method Broadcast(nodes: seq<Node>, r: Request, t: Trail)
    returns (after: seq<Node>, ok: bool, changedFirst: bool, changedSecond: bool)
    ensures after == Visit(nodes, r, t.visits)
    ensures ok <==> Through(nodes, t)
    ensures changedFirst <==>
              EndsNew(nodes, t.visits) && r.setFirst && nodes[t.visits[|t.visits| - 1]].first != r.value
    ensures changedSecond <==>
              EndsNew(nodes, t.visits) && r.setSecond && nodes[t.visits[|t.visits| - 1]].second != r.value
  {
    after, ok, changedFirst, changedSecond := nodes, nodes == [] || t.ok, false, false;
    for i := 0 to |t.visits|
      invariant after == Visit(nodes, r, t.visits[..i])
      invariant changedFirst <==>
                  EndsNew(nodes, t.visits[..i]) && r.setFirst && nodes[t.visits[i - 1]].first != r.value
      invariant changedSecond <==>
                  EndsNew(nodes, t.visits[..i]) && r.setSecond && nodes[t.visits[i - 1]].second != r.value
    {
      VisitStep(nodes, r, t.visits, i);
      assert t.visits[..i + 1][..i] == t.visits[..i];
      var k := t.visits[i];
      changedFirst, changedSecond := false, false;
      if k < |nodes| {
        changedFirst := r.setFirst && after[k].first != r.value;
        changedSecond := r.setSecond && after[k].second != r.value;
        after := after[k := SetNode(after[k], r)];
      }
    }
    assert t.visits[..|t.visits|] == t.visits;
  }

  /** How the control calls of a run go; `enroll` and `dismiss` register and unregister the task. */
  datatype Reach = Reach(
    enroll: Trail, dismiss: Trail,
    gcStop: bool, gcStart: bool,
    balanceOff: Trail, balanceOn: Trail,
    storeOff: Trail, indexOff: Trail, storeOn: Trail, indexOn: Trail)

  class Control {
    // the cluster
    var gcStopped: bool
    var coordinators: seq<Node>
    var stores: seq<Node>
    var indexes: seq<Node>

    // the tool
    var isGcStop: bool
    var gcAfterFinish: bool
    var leaderAfterFinish: bool
    var regionAfterFinish: bool
    var splitAfterFinish: bool
    var mergeAfterFinish: bool

    constructor (gcStopped: bool, coordinators: seq<Node>, stores: seq<Node>, indexes: seq<Node>)
      ensures this.gcStopped == gcStopped && this.coordinators == coordinators
      ensures this.stores == stores && this.indexes == indexes
      ensures Fresh()
    {
      this.gcStopped, this.coordinators, this.stores, this.indexes := gcStopped, coordinators, stores, indexes;
      isGcStop, gcAfterFinish := false, false;
      leaderAfterFinish, regionAfterFinish, splitAfterFinish, mergeAfterFinish := false, false, false, false;
    }

    /** Nothing has been turned off yet. */
    ghost predicate Fresh()
      reads this
    {
      && !isGcStop && !gcAfterFinish
      && !leaderAfterFinish && !regionAfterFinish && !splitAfterFinish && !mergeAfterFinish
    }

    method SetGcStop(ok: bool) returns (status: Status)
      modifies this`gcStopped, this`isGcStop, this`gcAfterFinish
      ensures status.Ok? <==> old(isGcStop) || ok
      ensures if old(isGcStop) || !ok
              then gcStopped == old(gcStopped) && isGcStop == old(isGcStop) && gcAfterFinish == old(gcAfterFinish)
              else gcStopped && isGcStop && gcAfterFinish
    {
      if isGcStop {
        return Ok;
      }
      if !ok {
        return Error(EINTERNAL);
      }
      gcStopped, isGcStop, gcAfterFinish := true, true, true;
      return Ok;
    }

    method SetGcStart(ok: bool) returns (status: Status)
      modifies this`gcStopped, this`isGcStop, this`gcAfterFinish
      ensures status.Ok? <==> !old(gcAfterFinish) || ok
      ensures if old(gcAfterFinish) && ok
              then !gcStopped && !isGcStop && !gcAfterFinish
              else gcStopped == old(gcStopped) && isGcStop == old(isGcStop) && gcAfterFinish == old(gcAfterFinish)
    {
      if !gcAfterFinish {
        return Ok;
      }
      if !ok {
        return Error(EINTERNAL);
      }
      gcStopped, isGcStop, gcAfterFinish := false, false, false;
      return Ok;
    }

    method DisableBalance(t: Trail) returns (status: Status)
      modifies this`coordinators, this`leaderAfterFinish, this`regionAfterFinish
      ensures coordinators == Off(old(coordinators), t)
      ensures status.Ok? <==> Through(old(coordinators), t)
      ensures leaderAfterFinish == (old(leaderAfterFinish) || KeepsFirst(old(coordinators), t))
      ensures regionAfterFinish == (old(regionAfterFinish) || KeepsSecond(old(coordinators), t))
    {
      var ok, first, second;
      coordinators, ok, first, second := Broadcast(coordinators, OFF, t);
      if !ok {
        return Error(EINTERNAL);
      }
      if first {
        leaderAfterFinish := true;
      }
      if second {
        regionAfterFinish := true;
      }
      return Ok;
    }

    method EnableBalance(t: Trail) returns (status: Status)
      modifies this`coordinators
      ensures coordinators == On(old(coordinators), t, leaderAfterFinish, regionAfterFinish)
      ensures status.Ok? <==> !(leaderAfterFinish || regionAfterFinish) || Through(old(coordinators), t)
    {
      if leaderAfterFinish || regionAfterFinish {
        var ok, first, second;
        coordinators, ok, first, second :=
          Broadcast(coordinators, Request(leaderAfterFinish, regionAfterFinish, true), t);
        if !ok {
          return Error(EINTERNAL);
        }
      }
      return Ok;
    }

    /** First the stores, then the index nodes; a failing store broadcast leaves the index nodes alone. */
    method DisableSplitAndMerge(storeTrail: Trail, indexTrail: Trail) returns (status: Status)
      modifies this`stores, this`indexes, this`splitAfterFinish, this`mergeAfterFinish
      ensures stores == Off(old(stores), storeTrail)
      ensures indexes == Off(old(indexes), After(old(stores), storeTrail, indexTrail))
      ensures status.Ok? <==> Through(old(stores), storeTrail) && Through(old(indexes), indexTrail)
      ensures splitAfterFinish == (old(splitAfterFinish) || KeepsFirst(old(stores), storeTrail)
                                   || KeepsFirst(old(indexes), After(old(stores), storeTrail, indexTrail)))
      ensures mergeAfterFinish == (old(mergeAfterFinish) || KeepsSecond(old(stores), storeTrail)
                                   || KeepsSecond(old(indexes), After(old(stores), storeTrail, indexTrail)))
    {
      if stores == [] && indexes == [] {
        return Ok;
      }
      if stores != [] {
        status := DisableStores(storeTrail);
        if !status.Ok? {
          return;
        }
      }
      if indexes != [] {
        status := DisableIndexes(indexTrail);
        if !status.Ok? {
          return;
        }
      }
      return Ok;
    }

    method DisableStores(t: Trail) returns (status: Status)
      requires stores != []
      modifies this`stores, this`splitAfterFinish, this`mergeAfterFinish
      ensures stores == Off(old(stores), t) && (status.Ok? <==> t.ok)
      ensures splitAfterFinish == (old(splitAfterFinish) || KeepsFirst(old(stores), t))
      ensures mergeAfterFinish == (old(mergeAfterFinish) || KeepsSecond(old(stores), t))
    {
      var ok, first, second;
      stores, ok, first, second := Broadcast(stores, OFF, t);
      if !ok {
        return Error(EINTERNAL);
      }
      splitAfterFinish, mergeAfterFinish := splitAfterFinish || first, mergeAfterFinish || second;
      return Ok;
    }

    method DisableIndexes(t: Trail) returns (status: Status)
      requires indexes != []
      modifies this`indexes, this`splitAfterFinish, this`mergeAfterFinish
      ensures indexes == Off(old(indexes), t) && (status.Ok? <==> t.ok)
      ensures splitAfterFinish == (old(splitAfterFinish) || KeepsFirst(old(indexes), t))
      ensures mergeAfterFinish == (old(mergeAfterFinish) || KeepsSecond(old(indexes), t))
    {
      var ok, first, second;
      indexes, ok, first, second := Broadcast(indexes, OFF, t);
      if !ok {
        return Error(EINTERNAL);
      }
      splitAfterFinish, mergeAfterFinish := splitAfterFinish || first, mergeAfterFinish || second;
      return Ok;
    }

    method EnableSplitAndMerge(storeTrail: Trail, indexTrail: Trail) returns (status: Status)
      modifies this`stores, this`indexes
      ensures stores == On(old(stores), storeTrail, splitAfterFinish, mergeAfterFinish)
      ensures indexes == On(old(indexes), After(old(stores), storeTrail, indexTrail), splitAfterFinish, mergeAfterFinish)
      ensures status.Ok? <==>
                || !(splitAfterFinish || mergeAfterFinish)
                || (Through(old(stores), storeTrail) && Through(old(indexes), indexTrail))
    {
      if stores == [] && indexes == [] {
        return Ok;
      }
      if splitAfterFinish || mergeAfterFinish {
        var r := Request(splitAfterFinish, mergeAfterFinish, true);
        var ok, first, second;
        if stores != [] {
          stores, ok, first, second := Broadcast(stores, r, storeTrail);
          if !ok {
            return Error(EINTERNAL);
          }
        }
        if indexes != [] {
          indexes, ok, first, second := Broadcast(indexes, r, indexTrail);
          if !ok {
            return Error(EINTERNAL);
          }
        }
      }
      return Ok;
    }
  }

  /** The index broadcast is only made after a successful store broadcast. */
  function After(stores: seq<Node>, storeTrail: Trail, indexTrail: Trail): Trail {
    if Through(stores, storeTrail) then indexTrail else Trail([], false)
  }

  // ----- when are the switches back where they were

  predicate Uniform(nodes: seq<Node>) {
    forall i, j :: 0 <= i < |nodes| && 0 <= j < |nodes| ==> nodes[i] == nodes[j]
  }

  predicate AllOff(nodes: seq<Node>) {
    forall i :: 0 <= i < |nodes| ==> nodes[i] == Node(false, false)
  }

  /** A group of nodes after a turn-off and a turn-on of what was remembered. */
  function Cycled(nodes: seq<Node>, off: Trail, on: Trail, first: bool, second: bool): (after: seq<Node>)
    ensures |after| == |nodes|
  {
    On(Off(nodes, off), on, first, second)
  }

  /** A switch that is turned on again must have been on; one that is only turned off must have been off. */
  predicate SwitchKept(was: bool, off: bool, on: bool) {
    if on then was else off ==> !was
  }

  predicate NodeKept(n: Node, off: bool, on: bool, first: bool, second: bool) {
    SwitchKept(n.first, off, on && first) && SwitchKept(n.second, off, on && second)
  }

  predicate Kept(nodes: seq<Node>, off: Trail, on: Trail, first: bool, second: bool) {
    forall i :: 0 <= i < |nodes| ==> NodeKept(nodes[i], i in off.visits, i in on.visits, first, second)
  }

  /** One node after a turn-off that reached it or not, and a turn-on that did or not. */
  function Turned(n: Node, off: bool, on: bool, first: bool, second: bool): Node {
    var there := if off then Node(false, false) else n;
    if on then Node(first || there.first, second || there.second) else there
  }

  lemma TurnedExactly(n: Node, off: bool, on: bool, first: bool, second: bool)
    ensures Turned(n, off, on, first, second) == n <==> NodeKept(n, off, on, first, second)
  {
  }

  lemma OffAt(nodes: seq<Node>, t: Trail, i: nat)
    requires i < |nodes|
    ensures Off(nodes, t)[i] == if i in t.visits then Node(false, false) else nodes[i]
  {
  }

  lemma OnAt(nodes: seq<Node>, t: Trail, first: bool, second: bool, i: nat)
    requires i < |nodes|
    ensures |On(nodes, t, first, second)| == |nodes|
    ensures On(nodes, t, first, second)[i] ==
      if i in t.visits then Node(first || nodes[i].first, second || nodes[i].second) else nodes[i]
  {
  }

  lemma CycledNode(nodes: seq<Node>, off: Trail, on: Trail, first: bool, second: bool, i: nat)
    requires i < |nodes|
    ensures Cycled(nodes, off, on, first, second)[i] == nodes[i]
       <==> NodeKept(nodes[i], i in off.visits, i in on.visits, first, second)
  {
    var offs, ons := i in off.visits, i in on.visits;
    OffAt(nodes, off, i);
    OnAt(Off(nodes, off), on, first, second, i);
    assert Cycled(nodes, off, on, first, second)[i] == Turned(nodes[i], offs, ons, first, second);
    TurnedExactly(nodes[i], offs, ons, first, second);
  }

  /** The exact condition, whoever was reached. */
  lemma CycledExactly(nodes: seq<Node>, off: Trail, on: Trail, first: bool, second: bool)
    ensures Cycled(nodes, off, on, first, second) == nodes <==> Kept(nodes, off, on, first, second)
  {
    var after := Cycled(nodes, off, on, first, second);
    forall i | 0 <= i < |nodes|
      ensures after[i] == nodes[i] <==> NodeKept(nodes[i], i in off.visits, i in on.visits, first, second)
    {
      CycledNode(nodes, off, on, first, second, i);
    }
    SameAt(after, nodes);
  }

  lemma SameAt(a: seq<Node>, b: seq<Node>)
    requires |a| == |b|
    ensures a == b <==> forall i :: 0 <= i < |b| ==> a[i] == b[i]
  {
  }

  /** A broadcast that succeeded and left nobody out. */
  predicate Complete(nodes: seq<Node>, t: Trail) {
    Through(nodes, t) && forall i :: 0 <= i < |nodes| ==> i in t.visits
  }

  /** And ended with a node that had not been asked before. */
  predicate Clean(nodes: seq<Node>, t: Trail) {
    Complete(nodes, t) && (nodes != [] ==> EndsNew(nodes, t.visits))
  }

  /** The coordinators after a run that tried to turn balancing off and then finished. */
  function BalanceAfter(nodes: seq<Node>, off: Trail, on: Trail): seq<Node> {
    Cycled(nodes, off, on, KeepsFirst(nodes, off), KeepsSecond(nodes, off))
  }

  /** With clean broadcasts, off and on again is neutral exactly if all nodes had the same settings. */
  lemma BalanceRestored(nodes: seq<Node>, off: Trail, on: Trail)
    requires Clean(nodes, off) && Complete(nodes, on)
    ensures BalanceAfter(nodes, off, on) == nodes <==> Uniform(nodes)
  {
    CycledExactly(nodes, off, on, KeepsFirst(nodes, off), KeepsSecond(nodes, off));
    if nodes != [] {
      KeptByAll(nodes, off, on, nodes[off.visits[|off.visits| - 1]]);
    }
  }

  lemma KeptByAll(nodes: seq<Node>, off: Trail, on: Trail, n: Node)
    requires Complete(nodes, off) && Complete(nodes, on)
    ensures Kept(nodes, off, on, n.first, n.second) <==> All(nodes, n)
  {
    forall i | 0 <= i < |nodes|
      ensures NodeKept(nodes[i], i in off.visits, i in on.visits, n.first, n.second) <==> nodes[i] == n
    {
    }
  }

  /** Without a memory of what was on, nothing is turned on again: neutral exactly if those reached were off. */
  lemma BalanceForgotten(nodes: seq<Node>, off: Trail, on: Trail)
    requires !(off.ok && EndsNew(nodes, off.visits))
    ensures BalanceAfter(nodes, off, on) == Off(nodes, off)
    ensures BalanceAfter(nodes, off, on) == nodes <==> ReachedOff(nodes, off)
  {
    OffExactly(nodes, off);
  }

  predicate ReachedOff(nodes: seq<Node>, t: Trail) {
    forall i :: 0 <= i < |nodes| && i in t.visits ==> nodes[i] == Node(false, false)
  }

  lemma OffExactly(nodes: seq<Node>, t: Trail)
    ensures Off(nodes, t) == nodes <==> ReachedOff(nodes, t)
  {
    var off := Off(nodes, t);
    if off == nodes {
      assert forall i :: 0 <= i < |nodes| ==> nodes[i] == off[i];
    }
    if ReachedOff(nodes, t) {
      assert forall i :: 0 <= i < |nodes| ==> nodes[i] == off[i];
    }
  }

  /** Stores and index nodes share the remembered flags, so both groups have to agree. */
  lemma SplitRestored(stores: seq<Node>, indexes: seq<Node>, storeOff: Trail, indexOff: Trail, storeOn: Trail, indexOn: Trail)
    requires Clean(stores, storeOff) && Clean(indexes, indexOff)
    requires Complete(stores, storeOn) && Complete(indexes, indexOn)
    ensures var first := KeepsFirst(stores, storeOff) || KeepsFirst(indexes, indexOff);
            var second := KeepsSecond(stores, storeOff) || KeepsSecond(indexes, indexOff);
            && Cycled(stores, storeOff, storeOn, first, second) == stores
            && Cycled(indexes, indexOff, indexOn, first, second) == indexes
            <==> Uniform(stores + indexes)
  {
    var n := Node(KeepsFirst(stores, storeOff) || KeepsFirst(indexes, indexOff),
                  KeepsSecond(stores, storeOff) || KeepsSecond(indexes, indexOff));
    CycledExactly(stores, storeOff, storeOn, n.first, n.second);
    CycledExactly(indexes, indexOff, indexOn, n.first, n.second);
    KeptByAll(stores, storeOff, storeOn, n);
    KeptByAll(indexes, indexOff, indexOn, n);
    AllJoin(stores, indexes, n);
    if All(stores + indexes, n) {
      assert Uniform(stores + indexes);
    }
    if Uniform(stores + indexes) {
      UniformIsRemembered(stores, indexes, storeOff, indexOff);
    }
  }

  ghost predicate All(nodes: seq<Node>, n: Node) {
    forall i :: 0 <= i < |nodes| ==> nodes[i] == n
  }

  lemma AllJoin(a: seq<Node>, b: seq<Node>, n: Node)
    ensures All(a + b, n) <==> All(a, n) && All(b, n)
  {
    if All(a + b, n) {
      assert forall i :: 0 <= i < |a| ==> (a + b)[i] == a[i];
      assert forall i :: 0 <= i < |b| ==> (a + b)[|a| + i] == b[i];
    }
  }

  lemma UniformIsRemembered(stores: seq<Node>, indexes: seq<Node>, storeOff: Trail, indexOff: Trail)
    requires Uniform(stores + indexes) && Clean(stores, storeOff) && Clean(indexes, indexOff)
    ensures All(stores + indexes, Node(KeepsFirst(stores, storeOff) || KeepsFirst(indexes, indexOff),
                                       KeepsSecond(stores, storeOff) || KeepsSecond(indexes, indexOff)))
  {
    var all := stores + indexes;
    if stores != [] {
      var k := storeOff.visits[|storeOff.visits| - 1];
      assert all[k] == stores[k];
    }
    if indexes != [] {
      var k := indexOff.visits[|indexOff.visits| - 1];
      assert all[|stores| + k] == indexes[k];
    }
  }
}
