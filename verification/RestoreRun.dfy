/** A whole restore run: the region pools of `RestoreDataBase::Run`, one phase after the other.

    The main thread starts a phase, waits for its manager, and goes on only when it answered OK.  A manager
    that gave up waiting leaves its detached workers running, so every phase that was ever started may still
    take steps here. */
module RestoreRun {
  import opened Status
  import opened WorkerPool
  import opened WorkerPoolProofs
  import opened WorkerPoolTheorems

  datatype Tagged = Tagged(phase: nat, event: Event)

  /** `schedules[k]` is what phase `k` has done so far; `log` interleaves the histories of all phases. */
  datatype Run = Run(schedules: seq<seq<Action>>, verdict: seq<Status>, log: seq<Tagged>)

  datatype Step = InPhase(phase: nat, action: Action) | Advance

  function PoolOf(plan: seq<Config>, r: Run, k: nat): Pool
    requires k < |plan| && k < |r.schedules|
  {
    Exec(plan[k], r.schedules[k])
  }

  function Tag(k: nat, events: seq<Event>): (tagged: seq<Tagged>)
    ensures |tagged| == |events|
    ensures forall i :: 0 <= i < |events| ==> tagged[i] == Tagged(k, events[i])
  {
    seq(|events|, i requires 0 <= i < |events| => Tagged(k, events[i]))
  }

  function StepPhase(plan: seq<Config>, r: Run, k: nat, a: Action): Run
    requires k < |plan| && k < |r.schedules|
  {
    var s := PoolOf(plan, r, k);
    var t := Apply(plan[k], s, a);
    r.(schedules := r.schedules[k := r.schedules[k] + [a]],
       log := r.log + Tag(k, if |s.log| <= |t.log| then t.log[|s.log|..] else []))
  }

  /** The main thread moves on: it starts the next phase, or it returns. */
  function Proceed(plan: seq<Config>, r: Run): Run
    requires |r.schedules| <= |plan|
  {
    var n := |r.schedules|;
    if r.verdict != [] then r
    else if n > 0 && !PoolOf(plan, r, n - 1).main.Returned? then r
    else if n > 0 && !PoolOf(plan, r, n - 1).main.result.Ok? then
      r.(verdict := [PoolOf(plan, r, n - 1).main.result])
    else if n < |plan| then r.(schedules := r.schedules + [[]])
    else r.(verdict := [Ok])
  }

  function Play(plan: seq<Config>, steps: seq<Step>): (r: Run)
    ensures |r.schedules| <= |plan|
  {
    if steps == [] then Run([], [], [])
    else
      var r := Play(plan, steps[..|steps| - 1]);
      match steps[|steps| - 1]
      case InPhase(k, a) => if k < |r.schedules| then StepPhase(plan, r, k, a) else r
      case Advance => Proceed(plan, r)
  }

  // ----- what stays true of one pool

  ghost predicate Grows(before: seq<Event>, after: seq<Event>) {
    after == before || exists e :: after == before + [e]
  }

  lemma GrowsByNews(log: seq<Event>, news: seq<Event>)
    requires |news| <= 1
    ensures Grows(log, log + news)
  {
    if news == [] {
      assert log + news == log;
    } else {
      assert news == [news[0]];
    }
  }

  lemma WorkerSettled(c: Config, s: Pool, w: nat, reply: Status)
    requires w < |s.workers| && w < |s.exited|
    ensures var t := WorkerStep(c, s, w, reply);
            t.main == s.main && (s.stop ==> t.stop) && Grows(s.log, t.log)
  {
    GrowsByNews(s.log, News(s, w, reply));
  }

  lemma Settled(c: Config, acts: seq<Action>, a: Action)
    ensures var s, t := Exec(c, acts), Exec(c, acts + [a]);
            && (s.main.Returned? ==> t.main == s.main)
            && (s.stop ==> t.stop)
            && Grows(s.log, t.log)
  {
    Then(c, acts, a);
    var s := Exec(c, acts);
    if a.Work? && a.worker < |s.workers| && a.worker < |s.exited| {
      WorkerSettled(c, s, a.worker, a.reply);
    }
  }

  // ----- phases start in order, each after its predecessor answered OK

  ghost predicate InOrder(plan: seq<Config>, r: Run) {
    && |r.schedules| <= |plan|
    && forall k :: 0 <= k < |r.schedules| - 1 ==> PoolOf(plan, r, k).main.Returned? && PoolOf(plan, r, k).main.result.Ok?
  }

  lemma OthersStay(plan: seq<Config>, r: Run, t: Run, k: nat)
    requires k < |r.schedules| <= |plan| && k < |t.schedules| && t.schedules[k] == r.schedules[k]
    ensures PoolOf(plan, t, k) == PoolOf(plan, r, k)
  {
  }

  lemma PhaseInOrder(plan: seq<Config>, r: Run, k: nat, a: Action)
    requires k < |r.schedules| && InOrder(plan, r)
    ensures InOrder(plan, StepPhase(plan, r, k, a))
  {
    var t := StepPhase(plan, r, k, a);
    Settled(plan[k], r.schedules[k], a);
    assert PoolOf(plan, t, k) == Exec(plan[k], r.schedules[k] + [a]);
    forall j | 0 <= j < |r.schedules| && j != k
      ensures PoolOf(plan, t, j) == PoolOf(plan, r, j)
    {
      OthersStay(plan, r, t, j);
    }
  }

  lemma ProceedInOrder(plan: seq<Config>, r: Run)
    requires InOrder(plan, r)
    ensures InOrder(plan, Proceed(plan, r))
  {
    var t := Proceed(plan, r);
    forall j | 0 <= j < |r.schedules|
      ensures PoolOf(plan, t, j) == PoolOf(plan, r, j)
    {
      OthersStay(plan, r, t, j);
    }
  }

  /** No phase starts after a phase that has not answered, or that answered with an error. */
  lemma {:induction false} NoPhaseAfterError(plan: seq<Config>, steps: seq<Step>)
    ensures InOrder(plan, Play(plan, steps))
  {
    if steps != [] {
      var r := Play(plan, steps[..|steps| - 1]);
      NoPhaseAfterError(plan, steps[..|steps| - 1]);
      match steps[|steps| - 1]
      case InPhase(k, a) => if k < |r.schedules| { PhaseInOrder(plan, r, k, a); }
      case Advance => ProceedInOrder(plan, r);
    }
  }

  // ----- no load before its region exists

  /** `CreateRegion` was accepted for region `id`, in some phase that creates regions. */
  ghost predicate Created(plan: seq<Config>, log: seq<Tagged>, id: int) {
    exists h :: 0 <= h < |log| && Creates(plan, log[h], id)
  }

  predicate Creates(plan: seq<Config>, t: Tagged, id: int) {
    && t.phase < |plan| && plan[t.phase].kind.Meta?
    && t.event.Reached? && t.event.stage == Accepted && t.event.item.id == id
  }

  predicate Loads(plan: seq<Config>, t: Tagged) {
    t.phase < |plan| && plan[t.phase].kind.Data? && t.event.Reached? && t.event.stage == Sent
  }

  /** Every group to load belongs to a region that an earlier phase creates. */
  predicate Covered(plan: seq<Config>, k: nat, x: Item)
    requires k < |plan|
  {
    exists j :: 0 <= j < k && Provides(plan[j], x.id)
  }

  predicate Provides(c: Config, id: int) {
    c.kind.Meta? && exists i :: 0 <= i < |c.items| && c.items[i].id == id
  }

  predicate WellFormed(plan: seq<Config>) {
    && (forall k :: 0 <= k < |plan| ==> Ascending(plan[k].items))
    && (forall k, x :: 0 <= k < |plan| && plan[k].kind.Data? && x in plan[k].items && !x.empty ==> Covered(plan, k, x))
  }

  /** No phase answered OK through the timeout branch with its stop flag up. */
  ghost predicate NoHiddenFailure(plan: seq<Config>, r: Run)
    requires |r.schedules| <= |plan|
  {
    forall k :: 0 <= k < |r.schedules| ==> !(PoolOf(plan, r, k).main == Returned(Ok, true) && PoolOf(plan, r, k).stop)
  }

  lemma HiddenStaysHidden(plan: seq<Config>, r: Run, k: nat, a: Action)
    requires k < |r.schedules| <= |plan|
    requires NoHiddenFailure(plan, StepPhase(plan, r, k, a))
    ensures NoHiddenFailure(plan, r)
  {
    var t := StepPhase(plan, r, k, a);
    Settled(plan[k], r.schedules[k], a);
    forall j | 0 <= j < |r.schedules| && j != k
      ensures PoolOf(plan, t, j) == PoolOf(plan, r, j)
    {
      assert t.schedules[j] == r.schedules[j];
    }
    assert PoolOf(plan, t, k) == Exec(plan[k], r.schedules[k] + [a]);
  }

  /** The interleaved log holds the history of every phase. */
  ghost predicate Mirrored(plan: seq<Config>, r: Run) {
    && |r.schedules| <= |plan|
    && forall k, i :: 0 <= k < |r.schedules| && 0 <= i < |PoolOf(plan, r, k).log| ==>
         Tagged(k, PoolOf(plan, r, k).log[i]) in r.log
  }

  lemma {:induction false} ReachedSomewhere(log: seq<Event>, r: nat, x: Item)
    requires ReachedAt(log, r, Only(x)) > 0
    ensures exists i :: 0 <= i < |log| && log[i].Reached? && Rank(log[i].stage) == r && log[i].item == x
  {
    var n := |log| - 1;
    if log[n].Reached? && Rank(log[n].stage) == r && log[n].item == x {
    } else {
      ReachedSomewhere(log[..n], r, x);
      var i :| 0 <= i < n && log[..n][i].Reached? && Rank(log[..n][i].stage) == r && log[..n][i].item == x;
      assert log[i] == log[..n][i];
    }
  }

  /** A creating phase that answered OK, with no failure hidden, has created all its regions. */
  lemma PhaseCreates(plan: seq<Config>, r: Run, j: nat, id: int)
    requires WellFormed(plan) && Mirrored(plan, r)
    requires j < |r.schedules| && Provides(plan[j], id)
    requires PoolOf(plan, r, j).main.Returned? && PoolOf(plan, r, j).main.result.Ok?
    requires NoHiddenFailure(plan, r)
    ensures Created(plan, r.log, id)
  {
    var c, acts := plan[j], r.schedules[j];
    var n :| 0 <= n < |c.items| && c.items[n].id == id;
    var x := c.items[n];
    ReturnedOk(c, acts);
    FullCounter(c, acts, x);
    ReachedSomewhere(Exec(c, acts).log, 2, x);
    var i :| 0 <= i < |Exec(c, acts).log| && Exec(c, acts).log[i].Reached?
             && Rank(Exec(c, acts).log[i].stage) == 2 && Exec(c, acts).log[i].item == x;
    assert Tagged(j, PoolOf(plan, r, j).log[i]) in r.log;
    var h :| 0 <= h < |r.log| && r.log[h] == Tagged(j, PoolOf(plan, r, j).log[i]);
    assert Creates(plan, r.log[h], id);
  }

  /** The regions of every started loading phase exist, and each load in the log came after its region. */
  ghost predicate Prepared(plan: seq<Config>, r: Run)
    requires |r.schedules| <= |plan|
  {
    && (forall k, x :: 0 <= k < |r.schedules| && plan[k].kind.Data? && x in plan[k].items && !x.empty ==>
          Created(plan, r.log, x.id))
    && (forall i :: 0 <= i < |r.log| && Loads(plan, r.log[i]) ==> Created(plan, r.log[..i], r.log[i].event.item.id))
  }

  lemma CreatedMore(plan: seq<Config>, a: seq<Tagged>, b: seq<Tagged>, id: int)
    requires a <= b && Created(plan, a, id)
    ensures Created(plan, b, id)
  {
    var h :| 0 <= h < |a| && Creates(plan, a[h], id);
    assert Creates(plan, b[h], id);
  }

  lemma PhaseStep(plan: seq<Config>, r: Run, k: nat, a: Action)
    requires k < |r.schedules| <= |plan|
    requires Mirrored(plan, r) && Prepared(plan, r)
    ensures Mirrored(plan, StepPhase(plan, r, k, a)) && Prepared(plan, StepPhase(plan, r, k, a))
  {
    var t := StepPhase(plan, r, k, a);
    var acts := r.schedules[k] + [a];
    Settled(plan[k], r.schedules[k], a);
    Then(plan[k], r.schedules[k], a);
    ExecHonest(plan[k], acts);
    assert forall j :: 0 <= j < |r.schedules| && j != k ==> t.schedules[j] == r.schedules[j];
    assert PoolOf(plan, t, k) == Exec(plan[k], acts);
    StepMirrored(plan, r, t, k);
    StepPrepared(plan, r, t, k);
  }

  /** Phase `k` took a step that appended at most one event, and the log took it over. */
  predicate Extends(plan: seq<Config>, r: Run, t: Run, k: nat) {
    && k < |r.schedules| == |t.schedules| <= |plan|
    && (forall j :: 0 <= j < |r.schedules| && j != k ==> t.schedules[j] == r.schedules[j])
    && PoolOf(plan, r, k).log <= PoolOf(plan, t, k).log
    && t.log == r.log + Tag(k, PoolOf(plan, t, k).log[|PoolOf(plan, r, k).log|..])
  }

  lemma StepMirrored(plan: seq<Config>, r: Run, t: Run, k: nat)
    requires Extends(plan, r, t, k) && Mirrored(plan, r)
    ensures Mirrored(plan, t)
  {
    var was, now := PoolOf(plan, r, k).log, PoolOf(plan, t, k).log;
    forall j, i | 0 <= j < |t.schedules| && 0 <= i < |PoolOf(plan, t, j).log|
      ensures Tagged(j, PoolOf(plan, t, j).log[i]) in t.log
    {
      if j == k && i >= |was| {
        assert t.log[|r.log| + (i - |was|)] == Tagged(k, now[i]);
      } else {
        assert Tagged(j, PoolOf(plan, r, j).log[i]) in r.log;
      }
    }
  }

  lemma StepPrepared(plan: seq<Config>, r: Run, t: Run, k: nat)
    requires Extends(plan, r, t, k) && Prepared(plan, r)
    requires Honest(plan[k], PoolOf(plan, t, k))
    ensures Prepared(plan, t)
  {
    var was, now := PoolOf(plan, r, k).log, PoolOf(plan, t, k).log;
    forall j, x | 0 <= j < |t.schedules| && plan[j].kind.Data? && x in plan[j].items && !x.empty
      ensures Created(plan, t.log, x.id)
    {
      CreatedMore(plan, r.log, t.log, x.id);
    }
    forall i | 0 <= i < |t.log| && Loads(plan, t.log[i])
      ensures Created(plan, t.log[..i], t.log[i].event.item.id)
    {
      if i < |r.log| {
        assert t.log[..i] == r.log[..i];
      } else {
        var e := now[|was| + (i - |r.log|)];
        assert t.log[i] == Tagged(k, e);
        assert HonestEvent(plan[k], e);
        CreatedMore(plan, r.log, t.log[..i], e.item.id);
      }
    }
  }

  /** The items of phase `n` that are to be loaded have their regions. */
  ghost predicate Ready(plan: seq<Config>, log: seq<Tagged>, n: nat)
    requires n < |plan|
  {
    forall x :: x in plan[n].items && plan[n].kind.Data? && !x.empty ==> Created(plan, log, x.id)
  }

  lemma NextReady(plan: seq<Config>, r: Run)
    requires WellFormed(plan) && Mirrored(plan, r) && NoHiddenFailure(plan, r) && |r.schedules| < |plan|
    requires forall j :: 0 <= j < |r.schedules| ==>
               PoolOf(plan, r, j).main.Returned? && PoolOf(plan, r, j).main.result.Ok?
    ensures Ready(plan, r.log, |r.schedules|)
  {
    var n := |r.schedules|;
    forall x | x in plan[n].items && plan[n].kind.Data? && !x.empty
      ensures Created(plan, r.log, x.id)
    {
      assert Covered(plan, n, x);
      var j :| 0 <= j < n && Provides(plan[j], x.id);
      PhaseCreates(plan, r, j, x.id);
    }
  }

  lemma StartedMirrored(plan: seq<Config>, r: Run, t: Run)
    requires Mirrored(plan, r) && t.log == r.log && |t.schedules| <= |plan|
    requires t.schedules == r.schedules || t.schedules == r.schedules + [[]]
    ensures Mirrored(plan, t)
  {
    forall k, i | 0 <= k < |t.schedules| && 0 <= i < |PoolOf(plan, t, k).log|
      ensures Tagged(k, PoolOf(plan, t, k).log[i]) in t.log
    {
      assert k < |r.schedules| && PoolOf(plan, t, k) == PoolOf(plan, r, k);
    }
  }

  lemma StartedPrepared(plan: seq<Config>, r: Run, t: Run)
    requires |r.schedules| <= |t.schedules| <= |plan| && t.log == r.log && Prepared(plan, r)
    requires forall n :: |r.schedules| <= n < |t.schedules| ==> Ready(plan, r.log, n)
    ensures Prepared(plan, t)
  {
    forall k, x | 0 <= k < |t.schedules| && plan[k].kind.Data? && x in plan[k].items && !x.empty
      ensures Created(plan, t.log, x.id)
    {
      if k >= |r.schedules| {
        assert Ready(plan, r.log, k);
      }
    }
  }

  lemma ProceedPrepared(plan: seq<Config>, r: Run)
    requires WellFormed(plan) && InOrder(plan, r) && Mirrored(plan, r) && Prepared(plan, r) && NoHiddenFailure(plan, r)
    ensures Mirrored(plan, Proceed(plan, r)) && Prepared(plan, Proceed(plan, r))
  {
    var t := Proceed(plan, r);
    if |t.schedules| > |r.schedules| {
      NextReady(plan, r);
    }
    StartedMirrored(plan, r, t);
    StartedPrepared(plan, r, t);
  }

  lemma ProceedHides(plan: seq<Config>, r: Run)
    requires |r.schedules| <= |plan| && NoHiddenFailure(plan, Proceed(plan, r))
    ensures NoHiddenFailure(plan, r)
  {
    var t := Proceed(plan, r);
    forall k | 0 <= k < |r.schedules|
      ensures PoolOf(plan, t, k) == PoolOf(plan, r, k)
    {
      OthersStay(plan, r, t, k);
    }
  }

  /** Over a whole restore run and any interleaving of all its threads: no `RestoreData` request for a region
      is sent before `CreateRegion` for that region was accepted. */
  lemma {:induction false} LoadAfterCreate(plan: seq<Config>, steps: seq<Step>)
    requires WellFormed(plan)
    requires NoHiddenFailure(plan, Play(plan, steps))
    ensures Mirrored(plan, Play(plan, steps)) && Prepared(plan, Play(plan, steps))
  {
    if steps != [] {
      var before := steps[..|steps| - 1];
      var r := Play(plan, before);
      match steps[|steps| - 1]
      case InPhase(k, a) =>
        if k < |r.schedules| {
          HiddenStaysHidden(plan, r, k, a);
          LoadAfterCreate(plan, before);
          PhaseStep(plan, r, k, a);
        } else {
          LoadAfterCreate(plan, before);
        }
      case Advance =>
        ProceedHides(plan, r);
        LoadAfterCreate(plan, before);
        NoPhaseAfterError(plan, before);
        ProceedPrepared(plan, r);
    }
  }

  /** In particular it holds on every run in which no exit-wait timeout fires. */
  lemma LoadAfterCreateNoTimeout(plan: seq<Config>, steps: seq<Step>, i: nat)
    requires WellFormed(plan)
    requires forall k :: 0 <= k < |Play(plan, steps).schedules| ==>
               var main := PoolOf(plan, Play(plan, steps), k).main; main.Returned? ==> !main.timedOut
    requires i < |Play(plan, steps).log| && Loads(plan, Play(plan, steps).log[i])
    ensures exists h :: 0 <= h < i && Creates(plan, Play(plan, steps).log[h], Play(plan, steps).log[i].event.item.id)
  {
    var r := Play(plan, steps);
    LoadAfterCreate(plan, steps);
    assert Created(plan, r.log[..i], r.log[i].event.item.id);
    var h :| 0 <= h < |r.log[..i]| && Creates(plan, r.log[..i][h], r.log[i].event.item.id);
    assert r.log[..i][h] == r.log[h];
  }

  // ----- what the verdict of the run means

  ghost predicate Judged(plan: seq<Config>, r: Run) {
    r.verdict == [Ok] ==>
      && |r.schedules| == |plan|
      && forall k :: 0 <= k < |plan| ==> PoolOf(plan, r, k).main.Returned? && PoolOf(plan, r, k).main.result.Ok?
  }

  lemma PhaseJudged(plan: seq<Config>, r: Run, k: nat, a: Action)
    requires k < |r.schedules| <= |plan| && Judged(plan, r)
    ensures Judged(plan, StepPhase(plan, r, k, a))
  {
    var t := StepPhase(plan, r, k, a);
    Settled(plan[k], r.schedules[k], a);
    assert PoolOf(plan, t, k) == Exec(plan[k], r.schedules[k] + [a]);
    forall j | 0 <= j < |r.schedules| && j != k
      ensures PoolOf(plan, t, j) == PoolOf(plan, r, j)
    {
      OthersStay(plan, r, t, j);
    }
  }

  lemma ProceedJudged(plan: seq<Config>, r: Run)
    requires InOrder(plan, r) && Judged(plan, r)
    ensures Judged(plan, Proceed(plan, r))
  {
    var t := Proceed(plan, r);
    if t.verdict == [Ok] {
      assert t.schedules == r.schedules;
      forall k | 0 <= k < |plan|
        ensures PoolOf(plan, t, k).main.Returned? && PoolOf(plan, t, k).main.result.Ok?
      {
        OthersStay(plan, r, t, k);
      }
    }
  }

  lemma {:induction false} VerdictOk(plan: seq<Config>, steps: seq<Step>)
    ensures Judged(plan, Play(plan, steps))
  {
    if steps != [] {
      var r := Play(plan, steps[..|steps| - 1]);
      VerdictOk(plan, steps[..|steps| - 1]);
      NoPhaseAfterError(plan, steps[..|steps| - 1]);
      match steps[|steps| - 1]
      case InPhase(k, a) => if k < |r.schedules| { PhaseJudged(plan, r, k, a); }
      case Advance => ProceedJudged(plan, r);
    }
  }

  /** A restore run that ends with OK, with no failure hidden by a timeout, has created every region and
      loaded every non-empty group exactly once. */
  lemma RestoreComplete(plan: seq<Config>, steps: seq<Step>, k: nat, x: Item)
    requires WellFormed(plan) && k < |plan| && x in plan[k].items && !Skips(plan[k], x)
    requires Play(plan, steps).verdict == [Ok]
    requires NoHiddenFailure(plan, Play(plan, steps))
    ensures |Play(plan, steps).schedules| == |plan|
    ensures ReachedAt(PoolOf(plan, Play(plan, steps), k).log, 2, Only(x)) == 1
  {
    var r := Play(plan, steps);
    VerdictOk(plan, steps);
    assert PoolOf(plan, r, k).main.Returned? && PoolOf(plan, r, k).main.result.Ok?;
    ReturnedOk(plan[k], r.schedules[k]);
    FullCounter(plan[k], r.schedules[k], x);
  }

  // ----- the phases of `RestoreDataBase::Run`

  /** The store, index or document share of a backup: its region map and its group map, when present. */
  datatype Share = Share(hasRegions: bool, regions: seq<Item>, hasGroups: bool, groups: seq<Item>)

  /** `Init` refuses groups without regions; ids are map keys; each group's region is in the region map. */
  predicate ShareOk(s: Share) {
    && Ascending(s.regions) && Ascending(s.groups)
    && (s.hasGroups ==> s.hasRegions)
    && (forall x :: x in s.groups && !x.empty ==> exists i :: 0 <= i < |s.regions| && s.regions[i].id == x.id)
  }

  /** Each share contributes a creating phase and then a loading phase; an absent manager is passed over. */
  function PlanOf(shares: seq<Share>, creators: nat, loaders: nat): seq<Config> {
    if shares == [] then []
    else
      var s := shares[|shares| - 1];
      PlanOf(shares[..|shares| - 1], creators, loaders)
      + (if s.hasRegions then [Config(Meta, s.regions, creators)] else [])
      + (if s.hasGroups then [Config(Data, s.groups, loaders)] else [])
  }

  lemma AddPhase(plan: seq<Config>, c: Config)
    requires WellFormed(plan) && Ascending(c.items)
    requires c.kind.Data? ==>
               forall x :: x in c.items && !x.empty ==> exists j :: 0 <= j < |plan| && Provides(plan[j], x.id)
    ensures WellFormed(plan + [c])
  {
    var longer := plan + [c];
    forall k, x | 0 <= k < |longer| && longer[k].kind.Data? && x in longer[k].items && !x.empty
      ensures Covered(longer, k, x)
    {
      if k < |plan| {
        assert Covered(plan, k, x);
      }
      var j :| 0 <= j < k && j < |plan| && Provides(plan[j], x.id);
      assert Provides(longer[j], x.id);
    }
  }

  /** The order in which the managers run always creates a region in an earlier phase than it is loaded. */
  lemma {:induction false} PlanWellFormed(shares: seq<Share>, creators: nat, loaders: nat)
    requires forall i :: 0 <= i < |shares| ==> ShareOk(shares[i])
    ensures WellFormed(PlanOf(shares, creators, loaders))
  {
    if shares != [] {
      var s := shares[|shares| - 1];
      var plan := PlanOf(shares[..|shares| - 1], creators, loaders);
      PlanWellFormed(shares[..|shares| - 1], creators, loaders);
      if s.hasRegions {
        var meta := Config(Meta, s.regions, creators);
        AddPhase(plan, meta);
        if s.hasGroups {
          assert (plan + [meta])[|plan|] == meta;
          AddPhase(plan + [meta], Config(Data, s.groups, loaders));
        } else {
          assert PlanOf(shares, creators, loaders) == plan + [meta];
        }
      } else {
        assert PlanOf(shares, creators, loaders) == plan;
      }
    }
  }
}
