/** `RestoreRegionData::SendRegionRequest`: send the load request, and as long as the server objects to the
    region epoch, ask the coordinator for the current one and send again.

    The loop has no bound of its own.  As in `Interaction`, what happens is a script, one entry per time round
    the loop, and `Running` means that the script ended first. */
module RegionEpoch {
  import opened Status
  import opened Interaction

  datatype Epoch = Epoch(confVersion: int, version: int)

  /** One time round: what the request gave, what the epoch query gave, and the region's actual epoch at the
      moment of each. */
  datatype Round = Round(send: Result, atSend: Epoch, query: Result, atQuery: Epoch)

  datatype Outcome = Running | Done(status: Status)

  /** The server objected to the epoch of the request. */
  predicate Stale(r: Round) {
    r.send.Returned? && (r.send.status == Error(EREGION_VERSION)
                         || (r.send.status.Ok? && r.send.response == Error(EREGION_VERSION)))
  }

  predicate QueryOk(r: Round) {
    r.query == Returned(Ok, Ok)
  }

  /** Whether the round is still waiting for an answer. */
  predicate Waits(r: Round) {
    r.send.Blocked? || (Stale(r) && r.query.Blocked?)
  }

  /** What a round decides: an accepted request ends in OK, and any refusal but an objection to the epoch ends in that
      refusal; an objection goes on if the new epoch can be had, and otherwise ends in that failure. */
  function Ends(r: Round): Outcome {
    if Waits(r) || (Stale(r) && QueryOk(r)) then Running
    else if Stale(r) then Done(if r.query.status.Ok? then r.query.response else r.query.status)
    else Done(if r.send.status.Ok? then r.send.response else r.send.status)
  }

  /** The epoch that the i-th request carries. */
  function Carried(first: Epoch, script: seq<Round>, i: nat): Epoch
    requires i <= |script|
  {
    if i == 0 then first else script[i - 1].atQuery
  }

  /** The server objects only to epochs that are not the current one. */
  predicate Honest(first: Epoch, script: seq<Round>) {
    forall i :: 0 <= i < |script| && Stale(script[i]) ==> Carried(first, script, i) != script[i].atSend
  }

  /** How often the epoch changed between consecutive moments of the script. */
  function Changes(script: seq<Round>): nat {
    if script == [] then 0
    else
      var n := |script| - 1;
      Changes(script[..n])
      + (if n > 0 && script[n - 1].atQuery != script[n].atSend then 1 else 0)
      + (if script[n].atSend != script[n].atQuery then 1 else 0)
  }

  /** After `k` objections there have been at least `k - 1` changes: only the first guess can be wrong without
      one. */
  lemma {:induction false} ObjectionsNeedChanges(first: Epoch, script: seq<Round>)
    requires Honest(first, script)
    requires forall i :: 0 <= i < |script| ==> Stale(script[i])
    ensures |script| <= Changes(script) + 1
  {
    if |script| > 1 {
      var n := |script| - 1;
      assert Honest(first, script[..n]) by {
        forall i | 0 <= i < n && Stale(script[..n][i])
          ensures Carried(first, script[..n], i) != script[..n][i].atSend
        {
          assert Carried(first, script, i) != script[i].atSend;
        }
      }
      ObjectionsNeedChanges(first, script[..n]);
      assert Carried(first, script, n) != script[n].atSend;
    }
  }

  class RestoreRegionData {
    const hasGroup: bool
    var epoch: Epoch

    /** `Init` starts with epoch (1, 1), to avoid a first failure. */
    constructor (hasGroup: bool)
      ensures this.hasGroup == hasGroup && epoch == Epoch(1, 1)
    {
      this.hasGroup := hasGroup;
      epoch := Epoch(1, 1);
    }

    method SendRegionRequest(script: seq<Round>) returns (outcome: Outcome, sends: nat)
      modifies this`epoch
      ensures sends <= |script|
      // without SST files there is nothing to do
      ensures !hasGroup ==> outcome == Done(Ok) && sends == 0 && epoch == old(epoch)
      // every request but the last one met an objection, and the epoch was refreshed after it
      ensures forall i :: 0 <= i < sends - 1 ==> Stale(script[i]) && QueryOk(script[i])
      // how it ends is what the last round says, and it does not end without one
      ensures hasGroup && outcome == Done(Ok) ==> sends > 0 && script[sends - 1].send == Returned(Ok, Ok)
      ensures hasGroup && outcome.Done? ==> sends > 0 && Ends(script[sends - 1]) == outcome
      ensures hasGroup && outcome.Running? ==>
                || (sends > 0 && Waits(script[sends - 1]))
                || (sends == |script| && epoch == Carried(old(epoch), script, sends)
                    && forall i :: 0 <= i < sends ==> Stale(script[i]) && QueryOk(script[i]))
      // how many requests it can take
      ensures Honest(old(epoch), script) && sends > 0 ==> sends <= 2 + Changes(script[..sends - 1])
    {
      outcome, sends := Done(Ok), 0;
      if !hasGroup {
        return;
      }
      while true
        invariant sends <= |script|
        invariant forall i :: 0 <= i < sends ==> Stale(script[i]) && QueryOk(script[i])
        invariant epoch == Carried(old(epoch), script, sends)
        invariant Honest(old(epoch), script) && sends > 0 ==> sends <= 2 + Changes(script[..sends - 1])
        decreases |script| - sends
      {
        if sends == |script| {
          return Running, sends;
        }
        var round := script[sends];
        if Honest(old(epoch), script) {
          EnoughChanges(old(epoch), script, sends);
        }
        sends := sends + 1;
        if round.send.Blocked? {
          return Running, sends;
        }
        if round.send.status.Ok? {
          if round.send.response.Ok? {
            return Done(Ok), sends;
          }
          if round.send.response != Error(EREGION_VERSION) {
            return Done(round.send.response), sends;
          }
        } else if round.send.status != Error(EREGION_VERSION) {
          return Done(round.send.status), sends;
        }
        if round.query.Blocked? {
          return Running, sends;
        }
        if !round.query.status.Ok? {
          return Done(round.query.status), sends;
        }
        if !round.query.response.Ok? {
          return Done(round.query.response), sends;
        }
        epoch := round.atQuery;
      }
    }
  }

  /** Against an honest server, `k` objections in a row take at least `k - 1` changes of the epoch. */
  lemma EnoughChanges(first: Epoch, script: seq<Round>, k: nat)
    requires k <= |script| && Honest(first, script)
    requires forall i :: 0 <= i < k ==> Stale(script[i])
    ensures k <= 1 + Changes(script[..k])
  {
    assert Honest(first, script[..k]) by {
      forall i | 0 <= i < k && Stale(script[..k][i])
        ensures Carried(first, script[..k], i) != script[..k][i].atSend
      {
        assert Carried(first, script, i) != script[i].atSend;
      }
    }
    ObjectionsNeedChanges(first, script[..k]);
  }
}
