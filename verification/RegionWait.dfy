/** Waiting until the created regions are ready: poll all of them, drop the ready ones, try again, give up in the end. */
module RegionWait {
  import opened Status

  /** What the query for a region comes back with, by round. */
  type Answers = (nat, int) -> Status

  predicate Soft(s: Status) {
    s == Error(ERAFT_NOTLEADER) || s == Error(EREGION_NOT_FOUND)
  }

  /** Not ready in any of the first `r` rounds, so still on the list. */
  predicate Pending(a: Answers, id: int, r: nat) {
    r == 0 || (Pending(a, id, r - 1) && a(r - 1, id) != Ok)
  }

  /** Asked in round `r` and refused for good. */
  predicate Fails(a: Answers, id: int, r: nat) {
    Pending(a, id, r) && a(r, id) != Ok && !Soft(a(r, id))
  }

  ghost predicate NoneFails(a: Answers, ids: seq<int>, r: nat) {
    forall id :: id in ids ==> !Fails(a, id, r)
  }

  ghost predicate NeverFails(a: Answers, ids: seq<int>, rounds: nat) {
    forall r :: 0 <= r < rounds ==> NoneFails(a, ids, r)
  }

  /** The list at the start of round `r`. */
  function Waiting(a: Answers, ids: seq<int>, r: nat): seq<int> {
    if ids == [] then [] else
      var before := Waiting(a, ids[..|ids| - 1], r);
      var last := ids[|ids| - 1];
      if Pending(a, last, r) then before + [last] else before
  }

  function Unready(a: Answers, list: seq<int>, r: nat): seq<int> {
    if list == [] then [] else
      var before := Unready(a, list[..|list| - 1], r);
      var last := list[|list| - 1];
      if a(r, last) != Ok then before + [last] else before
  }

  lemma UnreadyStep(a: Answers, list: seq<int>, r: nat, i: nat)
    requires i < |list|
    ensures Unready(a, list[..i + 1], r) == Unready(a, list[..i], r) + (if a(r, list[i]) != Ok then [list[i]] else [])
  {
    assert list[..i + 1][..i] == list[..i];
  }

  lemma {:induction false} NextRound(a: Answers, ids: seq<int>, r: nat)
    ensures Unready(a, Waiting(a, ids, r), r) == Waiting(a, ids, r + 1)
  {
    if ids != [] {
      var n := |ids| - 1;
      NextRound(a, ids[..n], r);
      if Pending(a, ids[n], r) {
        var before := Waiting(a, ids[..n], r);
        assert (before + [ids[n]])[..|before|] == before;
      }
    }
  }

  lemma {:induction false} WaitingExactly(a: Answers, ids: seq<int>, r: nat, id: int)
    ensures id in Waiting(a, ids, r) <==> id in ids && Pending(a, id, r)
  {
    if ids != [] {
      var n := |ids| - 1;
      WaitingExactly(a, ids[..n], r, id);
      assert ids == ids[..n] + [ids[n]];
    }
  }

  lemma {:induction false} AllAtFirst(a: Answers, ids: seq<int>)
    ensures Waiting(a, ids, 0) == ids
  {
    if ids != [] {
      AllAtFirst(a, ids[..|ids| - 1]);
    }
  }

  lemma {:induction false} StaysEmpty(a: Answers, ids: seq<int>, r: nat, q: nat)
    requires Waiting(a, ids, r) == [] && r <= q
    ensures Waiting(a, ids, q) == [] && NoneFails(a, ids, q)
    decreases q
  {
    if r < q {
      StaysEmpty(a, ids, r, q - 1);
      NextRound(a, ids, q - 1);
    }
    forall id | id in ids
      ensures !Fails(a, id, q)
    {
      WaitingExactly(a, ids, q, id);
    }
  }

  lemma Around(kept: seq<int>, start: seq<int>, k: nat)
    requires k < |start|
    ensures var list := kept + start[k..];
      && list[|kept|] == start[k]
      && list[..|kept|] + list[|kept| + 1..] == kept + start[k + 1..]
      && list == kept + [start[k]] + start[k + 1..]
  {
    assert start[k..] == [start[k]] + start[k + 1..];
  }

  ghost predicate Tolerable(a: Answers, ids: seq<int>, r: nat) {
    forall i :: 0 <= i < |ids| ==> a(r, ids[i]) == Ok || Soft(a(r, ids[i]))
  }

  /** The first `seen` regions have been asked: those not ready come first, the others follow. */
  ghost predicate Halfway(a: Answers, start: seq<int>, r: nat, seen: nat, kept: seq<int>, list: seq<int>) {
    && seen <= |start| && kept == Unready(a, start[..seen], r)
    && list == kept + start[seen..] && Tolerable(a, start[..seen], r)
  }

  lemma TolerableMore(a: Answers, start: seq<int>, r: nat, k: nat)
    requires k < |start| && Tolerable(a, start[..k], r) && (a(r, start[k]) == Ok || Soft(a(r, start[k])))
    ensures Tolerable(a, start[..k + 1], r)
  {
    assert start[..k + 1] == start[..k] + [start[k]];
  }

  lemma HalfwayErase(a: Answers, start: seq<int>, r: nat, seen: nat, kept: seq<int>, list: seq<int>)
    requires Halfway(a, start, r, seen, kept, list) && seen < |start| && a(r, start[seen]) == Ok
    ensures |kept| < |list| && Halfway(a, start, r, seen + 1, kept, list[..|kept|] + list[|kept| + 1..])
  {
    Around(kept, start, seen);
    UnreadyStep(a, start, r, seen);
    TolerableMore(a, start, r, seen);
  }

  lemma HalfwayKeep(a: Answers, start: seq<int>, r: nat, seen: nat, kept: seq<int>, list: seq<int>)
    requires Halfway(a, start, r, seen, kept, list) && seen < |start| && Soft(a(r, start[seen]))
    ensures Halfway(a, start, r, seen + 1, kept + [start[seen]], list)
  {
    Around(kept, start, seen);
    UnreadyStep(a, start, r, seen);
    TolerableMore(a, start, r, seen);
  }

  lemma HalfwayAt(a: Answers, start: seq<int>, r: nat, seen: nat, kept: seq<int>, list: seq<int>)
    requires Halfway(a, start, r, seen, kept, list) && |kept| < |list|
    ensures seen < |start| && list[|kept|] == start[seen]
  {
  }

  lemma HalfwayEnd(a: Answers, start: seq<int>, r: nat, seen: nat, kept: seq<int>, list: seq<int>)
    requires Halfway(a, start, r, seen, kept, list) && |kept| >= |list|
    ensures list == Unready(a, start, r) && Tolerable(a, start, r)
  {
    assert start[..seen] == start && list == kept;
  }

  /** One pass over the list, erasing the ready regions on the way. */
  method PollOnce(a: Answers, start: seq<int>, r: nat) returns (status: Status, list: seq<int>)
    ensures status == Ok ==> list == Unready(a, start, r)
    ensures status == Ok <==> Tolerable(a, start, r)
    ensures status != Ok ==> exists i :: 0 <= i < |start| && a(r, start[i]) == status && !Soft(status)
  {
    list := start;
    var i := 0;
    ghost var kept, seen := [], 0;
    assert start[..0] == [] && start[0..] == start;
    while i < |list|
      invariant Halfway(a, start, r, seen, kept, list) && i == |kept|
      decreases |start| - seen
    {
      HalfwayAt(a, start, r, seen, kept, list);
      status := a(r, list[i]);
      if status == Ok {
        HalfwayErase(a, start, r, seen, kept, list);
        list := list[..i] + list[i + 1..];
      } else {
        if !Soft(status) {
          return;
        }
        HalfwayKeep(a, start, r, seen, kept, list);
        i := i + 1;
        kept := kept + [start[seen]];
      }
      seen := seen + 1;
    }
    HalfwayEnd(a, start, r, seen, kept, list);
    status := Ok;
  }

  /** Fails with the first hard answer; otherwise it reports success, even for regions that never became ready. */
  method WaitForRegionFinish(ids: seq<int>, maxRetry: int, a: Answers) returns (status: Status, left: seq<int>)
    ensures status == Ok <==> NeverFails(a, ids, Rounds(maxRetry))
    ensures status == Ok ==> left == Waiting(a, ids, Rounds(maxRetry))
    ensures status != Ok ==> exists r, id :: 0 <= r < maxRetry && id in ids && Fails(a, id, r) && a(r, id) == status
  {
    AllAtFirst(a, ids);
    left := ids;
    if |left| == 0 {
      return Ok, left;
    }
    var retry := 0;
    while retry < maxRetry
      invariant 0 <= retry <= Rounds(maxRetry)
      invariant left == Waiting(a, ids, retry)
      invariant NeverFails(a, ids, retry)
    {
      ghost var before := left;
      status, left := PollOnce(a, left, retry);
      if status != Ok {
        ghost var i :| 0 <= i < |before| && a(retry, before[i]) == status && !Soft(status);
        ghost var id := before[i];
        WaitingExactly(a, ids, retry, id);
        assert Fails(a, id, retry);
        assert !NoneFails(a, ids, retry);
        return;
      }
      RoundClean(a, ids, retry);
      NextRound(a, ids, retry);
      if |left| == 0 {
        RestClean(a, ids, retry + 1, maxRetry);
        return;
      }
      retry := retry + 1;
    }
    status := Ok;
  }

  function Rounds(maxRetry: int): nat {
    if maxRetry < 0 then 0 else maxRetry
  }

  lemma RoundClean(a: Answers, ids: seq<int>, r: nat)
    requires Tolerable(a, Waiting(a, ids, r), r)
    ensures NoneFails(a, ids, r)
  {
    forall id | id in ids
      ensures !Fails(a, id, r)
    {
      WaitingExactly(a, ids, r, id);
    }
  }

  lemma RestClean(a: Answers, ids: seq<int>, r: nat, maxRetry: int)
    requires NeverFails(a, ids, r) && r <= maxRetry && Waiting(a, ids, r) == []
    ensures NeverFails(a, ids, maxRetry) && Waiting(a, ids, maxRetry) == []
  {
    forall q | 0 <= q < maxRetry
      ensures NoneFails(a, ids, q)
    {
      if r <= q {
        StaysEmpty(a, ids, r, q);
      }
    }
    StaysEmpty(a, ids, r, maxRetry);
  }

  predicate ReadyWithin(a: Answers, id: int, n: nat) {
    exists r :: 0 <= r < n && a(r, id) == Ok
  }

  /** A successful wait means that the regions are ready, exactly if each of them answered well within the rounds. */
  lemma SuccessMeansReady(a: Answers, ids: seq<int>, n: nat)
    ensures Waiting(a, ids, n) == [] <==> forall id :: id in ids ==> ReadyWithin(a, id, n)
  {
    forall id
      ensures id in Waiting(a, ids, n) <==> id in ids && !ReadyWithin(a, id, n)
    {
      WaitingExactly(a, ids, n, id);
      PendingExactly(a, id, n);
    }
    if Waiting(a, ids, n) != [] {
      var id := Waiting(a, ids, n)[0];
      assert id in Waiting(a, ids, n);
    }
  }

  lemma {:induction false} PendingExactly(a: Answers, id: int, n: nat)
    ensures Pending(a, id, n) <==> forall r :: 0 <= r < n ==> a(r, id) != Ok
  {
    if n > 0 {
      PendingExactly(a, id, n - 1);
    }
  }

  /** With regions that stay leaderless, the wait ends in success and the regions are not there. */
  lemma GivesUpSilently(ids: seq<int>, maxRetry: int)
    requires ids != []
    ensures var a: Answers := (r: nat, id: int) => Error(ERAFT_NOTLEADER);
      NeverFails(a, ids, Rounds(maxRetry)) && Waiting(a, ids, Rounds(maxRetry)) == ids
  {
    var a: Answers := (r: nat, id: int) => Error(ERAFT_NOTLEADER);
    AlwaysWaiting(a, ids, Rounds(maxRetry));
  }

  lemma {:induction false} AlwaysWaiting(a: Answers, ids: seq<int>, n: nat)
    requires forall r: nat, id :: a(r, id) != Ok
    ensures Waiting(a, ids, n) == ids
  {
    if ids != [] {
      AlwaysWaiting(a, ids[..|ids| - 1], n);
      PendingExactly(a, ids[|ids| - 1], n);
    }
  }
}
