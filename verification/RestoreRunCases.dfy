/** A restore in which a timeout hides a failure: data is loaded into a region that was never created. */
module RestoreRunCases {
  import opened Sequences
  import opened Status
  import opened WorkerPool
  import opened WorkerPoolTheorems
  import opened RestoreRun

  lemma Next(plan: seq<Config>, steps: seq<Step>, step: Step)
    ensures Play(plan, steps + [step]) ==
      var r := Play(plan, steps);
      match step
      case InPhase(k, a) => if k < |r.schedules| then StepPhase(plan, r, k, a) else r
      case Advance => Proceed(plan, r)
  {
    assert (steps + [step])[..|steps|] == steps;
  }

  lemma TagJoin(k: nat, a: seq<Event>, b: seq<Event>)
    ensures Tag(k, a + b) == Tag(k, a) + Tag(k, b)
  {
  }

  lemma TagMore(k: nat, base: seq<Tagged>, was: seq<Event>, now: seq<Event>)
    requires was <= now
    ensures base + Tag(k, was) + Tag(k, now[|was|..]) == base + Tag(k, now)
  {
    TagJoin(k, was, now[|was|..]);
    assert was + now[|was|..] == now;
    Regroup(base, Tag(k, was), Tag(k, now[|was|..]));
  }

  /** Phase `k` has gone through a schedule while the others stood still. */
  function Alone(plan: seq<Config>, r: Run, k: nat, acts: seq<Action>): Run
    requires k < |r.schedules| <= |plan|
  {
    Run(r.schedules[k := acts], r.verdict, r.log + Tag(k, Exec(plan[k], acts).log))
  }

  lemma LogStep(c: Config, acts: seq<Action>, a: Action)
    ensures Exec(c, acts + [a]) == Apply(c, Exec(c, acts), a)
    ensures Exec(c, acts).log <= Apply(c, Exec(c, acts), a).log
  {
    Then(c, acts, a);
    Settled(c, acts, a);
  }

  /** A phase gets from one log to a longer one. */
  lemma AloneMoves(r: Run, k: nat, acts: seq<Action>, a: Action, was: seq<Event>, now: seq<Event>)
    requires k < |r.schedules| && was <= now
    ensures r.schedules[k := acts][k := acts + [a]] == r.schedules[k := acts + [a]]
    ensures r.log + Tag(k, was) + Tag(k, now[|was|..]) == r.log + Tag(k, now)
  {
    TagMore(k, r.log, was, now);
  }

  lemma AloneStep(plan: seq<Config>, r: Run, k: nat, acts: seq<Action>, a: Action)
    requires k < |r.schedules| <= |plan|
    ensures StepPhase(plan, Alone(plan, r, k, acts), k, a) == Alone(plan, r, k, acts + [a])
  {
    LogStep(plan[k], acts, a);
    AloneMoves(r, k, acts, a, Exec(plan[k], acts).log, Apply(plan[k], Exec(plan[k], acts), a).log);
  }

  lemma {:induction false} PlayPhase(plan: seq<Config>, steps: seq<Step>, k: nat, acts: seq<Action>) returns (more: seq<Step>)
    requires k < |Play(plan, steps).schedules| && Play(plan, steps).schedules[k] == []
    ensures Play(plan, more) == Alone(plan, Play(plan, steps), k, acts)
    decreases |acts|
  {
    var r := Play(plan, steps);
    if acts == [] {
      more := steps;
      assert r.schedules[k := []] == r.schedules;
      assert Tag(k, []) == [] && r.log + [] == r.log;
    } else {
      var n := |acts| - 1;
      more := PlayPhase(plan, steps, k, acts[..n]);
      AloneStep(plan, r, k, acts[..n], acts[n]);
      assert acts[..n] + [acts[n]] == acts;
      Next(plan, more, InPhase(k, acts[n]));
      more := more + [InPhase(k, acts[n])];
    }
  }

  function OneRegion(x: Item, y: Item): seq<Config> {
    [Config(Meta, [x], 1), Config(Data, [y], 1)]
  }

  /** The creating phase answers OK although its region was refused. */
  lemma CreationRefused(x: Item, y: Item, err: Errno) returns (steps: seq<Step>, acts: seq<Action>)
    ensures Play(OneRegion(x, y), steps) == Run([acts, []], [], [] + Tag(0, RefusedLog(x)))
    ensures Exec(OneRegion(x, y)[0], acts).main == Returned(Ok, true) && Exec(OneRegion(x, y)[0], acts).log == RefusedLog(x)
  {
    var plan := OneRegion(x, y);
    Next(plan, [], Advance);
    steps := [] + [Advance];
    assert Play(plan, steps) == Run([[]], [], []);
    acts := TimeoutHidesFailure(plan[0], x, err);
    steps := PlayPhase(plan, steps, 0, acts);
    assert [[]][0 := acts] == [acts];
    Next(plan, steps, Advance);
    steps := steps + [Advance];
    assert [acts] + [[]] == [acts, []];
  }

  lemma NothingCreated(x: Item, y: Item, log: seq<Event>, id: int)
    ensures !Created(OneRegion(x, y), [] + Tag(0, RefusedLog(x)) + Tag(1, log), id)
  {
    var plan, all := OneRegion(x, y), [] + Tag(0, RefusedLog(x)) + Tag(1, log);
    forall h | 0 <= h < |all|
      ensures !Creates(plan, all[h], id)
    {
      var n := |RefusedLog(x)|;
      if h < n {
        assert all[h] == Tagged(0, RefusedLog(x)[h]);
      } else {
        assert all[h] == Tagged(1, log[h - n]);
      }
    }
  }

  /** So the loading phase begins, and its request goes out. */
  lemma LoadWithoutCreation(x: Item, y: Item, err: Errno) returns (steps: seq<Step>)
    requires x.id == y.id && !y.empty
    ensures WellFormed(OneRegion(x, y))
    ensures var log := Play(OneRegion(x, y), steps).log;
            && (exists h :: 0 <= h < |log| && Loads(OneRegion(x, y), log[h]) && log[h].event.item == y)
            && !Created(OneRegion(x, y), log, y.id)
  {
    var plan := OneRegion(x, y);
    var acts;
    steps, acts := CreationRefused(x, y, err);
    var sent := OneInFlight(plan[1], y);
    steps := PlayPhase(plan, steps, 1, sent);
    var log := Exec(plan[1], sent).log;
    var all := Play(plan, steps).log;
    assert all == [] + Tag(0, RefusedLog(x)) + Tag(1, log);
    NothingCreated(x, y, log, y.id);
    assert all[|RefusedLog(x)| + 1] == Tagged(1, log[1]);
    assert Loads(plan, all[|RefusedLog(x)| + 1]);
    assert Provides(plan[0], y.id) by {
      assert plan[0].items[0].id == y.id;
    }
  }
}
