/** The promises of the worker pool, for every configuration and every schedule. */
module WorkerPoolTheorems {
  import opened Status
  import opened WorkerPool
  import opened WorkerPoolProofs
  import opened Pigeonhole

  // ----- conservation and order

  lemma {:induction false} TallyConcat(a: seq<Item>, b: seq<Item>, sel: Item -> bool)
    ensures Tally(a + b, sel) == Tally(a, sel) + Tally(b, sel)
  {
    if b == [] {
      assert a + b == a;
    } else {
      var n := |b| - 1;
      TallyConcat(a, b[..n], sel);
      assert (a + b)[..|a| + n] == a + b[..n];
    }
  }

  lemma {:induction false} TallyReverse(s: seq<Item>, sel: Item -> bool)
    ensures Tally(Reverse(s), sel) == Tally(s, sel)
  {
    if s != [] {
      var n := |s| - 1;
      TallyReverse(s[..n], sel);
      ReverseSnoc(s);
      TallyConcat([s[n]], Reverse(s[..n]), sel);
      assert Tally([s[n]], sel) == Tally([], sel) + Pick(s[n], sel) by { assert [s[n]][..0] == []; }
    }
  }

  lemma {:induction false} PopsTally(log: seq<Event>, sel: Item -> bool)
    ensures Tally(Pops(log), sel) == ReachedAt(log, 0, sel)
  {
    if log != [] {
      var n := |log| - 1;
      PopsTally(log[..n], sel);
      var e := log[n];
      if e.Reached? && e.stage == Taken {
        var pops := Pops(log[..n]);
        assert (pops + [e.item])[..|pops|] == pops;
      } else {
        assert Pops(log) == Pops(log[..n]);
      }
    }
  }

  /** Nothing is lost and nothing appears: whatever class of items `sel` describes, every one of them is
      stacked, held by a worker, counted, or dropped; and the atomic counter is the number counted. */
  lemma Conservation(c: Config, acts: seq<Action>, sel: Item -> bool)
    ensures var s := Exec(c, acts);
            Tally(c.items, sel)
            == Tally(s.stack, sel) + Held(s.workers, 0, sel) + Completed(s.log, sel) + Dropped(s.log, sel)
    ensures Exec(c, acts).counter == Completed(Exec(c, acts).log, Any())
  {
    var s := Exec(c, acts);
    ExecAccounted(c, acts, 0, sel);
    ExecOrdered(c, acts);
    ExecAnswered(c, acts);
    TallyConcat(Pops(s.log), Reverse(s.stack), sel);
    TallyReverse(s.stack, sel);
    PopsTally(s.log, sel);
  }

  predicate Ascending(items: seq<Item>) {
    forall i, j :: 0 <= i < j < |items| ==> items[i].id < items[j].id
  }

  /** The ordered map, the reversal and `pop_back` together hand the regions out by ascending id. */
  lemma PopOrder(c: Config, acts: seq<Action>)
    ensures Pops(Exec(c, acts).log) <= c.items
    ensures Ascending(c.items) ==> Ascending(Pops(Exec(c, acts).log))
  {
    ExecOrdered(c, acts);
    var pops := Pops(Exec(c, acts).log);
    assert forall i :: 0 <= i < |pops| ==> pops[i] == c.items[i];
  }

  lemma {:induction false} TallyOne(items: seq<Item>, x: Item)
    requires Ascending(items)
    ensures Tally(items, Only(x)) == if x in items then 1 else 0
  {
    if items != [] {
      var n := |items| - 1;
      TallyOne(items[..n], x);
      assert items == items[..n] + [items[n]];
      assert x == items[n] ==> x !in items[..n];
    }
  }

  /** At-most-once dispatch: no region is popped, sent or accepted twice. */
  lemma AtMostOnce(c: Config, acts: seq<Action>, r: nat, x: Item)
    requires Ascending(c.items) && r <= 2
    ensures ReachedAt(Exec(c, acts).log, r, Only(x)) <= 1
  {
    var s := Exec(c, acts);
    TallyOne(c.items, x);
    Conservation(c, acts, Only(x));
    ExecAccounted(c, acts, 0, Only(x));
    ExecAccounted(c, acts, r, Only(x));
    HeldLess(s.workers, r, Only(x));
    EndedLess(s.log, r, Only(x));
  }

  lemma {:induction false} HeldLess(workers: seq<Pc>, r: nat, sel: Item -> bool)
    ensures Held(workers, r, sel) <= Held(workers, 0, sel)
  {
    if workers != [] {
      HeldLess(workers[..|workers| - 1], r, sel);
    }
  }

  lemma {:induction false} EndedLess(log: seq<Event>, r: nat, sel: Item -> bool)
    ensures EndedAt(log, r, sel) <= EndedAt(log, 0, sel)
  {
    if log != [] {
      EndedLess(log[..|log| - 1], r, sel);
    }
  }

  // ----- which items are sent

  /** Held and recorded items come from the input, and an item to be skipped is never sent. */
  ghost predicate Honest(c: Config, s: Pool) {
    && (forall w :: 0 <= w < |s.workers| && Grip(s.workers[w]) > 0 ==>
          s.workers[w].item in c.items && (s.workers[w].Skipping? <==> Skips(c, s.workers[w].item)))
    && (forall i :: 0 <= i < |s.log| ==> HonestEvent(c, s.log[i]))
  }

  predicate HonestEvent(c: Config, e: Event) {
    && (e.Reached? ==> e.item in c.items && (e.stage == Taken || !Skips(c, e.item)))
    && (e.Ended? && e.counted ==> e.stage == Accepted || Skips(c, e.item))
  }

  lemma MoveHonest(c: Config, s: Pool, w: nat, reply: Status)
    requires w < |s.workers| && Honest(c, s)
    requires s.stack != [] ==> s.stack[|s.stack| - 1] in c.items
    ensures var next := NextPc(c, s, w, reply);
            Grip(next) > 0 ==> next.item in c.items && (next.Skipping? <==> Skips(c, next.item))
    ensures forall i :: 0 <= i < |News(s, w, reply)| ==> HonestEvent(c, News(s, w, reply)[i])
  {
  }

  lemma WorkerHonest(c: Config, s: Pool, w: nat, reply: Status)
    requires w < |s.workers| && w < |s.exited| && Honest(c, s) && Ordered(c, s)
    ensures Honest(c, WorkerStep(c, s, w, reply))
  {
    if s.stack != [] {
      ReverseSnoc(s.stack);
      assert c.items[|Pops(s.log)|] == s.stack[|s.stack| - 1];
    }
    MoveHonest(c, s, w, reply);
  }

  lemma MainHonest(c: Config, s: Pool, reply: Status, timeout: bool)
    requires Honest(c, s)
    ensures Honest(c, MainStep(c, s, reply, timeout))
  {
  }

  lemma {:induction false} ExecHonest(c: Config, acts: seq<Action>)
    ensures Honest(c, Exec(c, acts))
  {
    if acts != [] {
      var s := Exec(c, acts[..|acts| - 1]);
      ExecHonest(c, acts[..|acts| - 1]);
      ExecOrdered(c, acts[..|acts| - 1]);
      match acts[|acts| - 1]
      case Work(w, reply) => if w < |s.workers| && w < |s.exited| { WorkerHonest(c, s, w, reply); }
      case Supervise(reply, timeout) => MainHonest(c, s, reply, timeout);
    }
  }

  lemma {:induction false} CountedAccepted(c: Config, log: seq<Event>, x: Item)
    requires !Skips(c, x)
    requires forall i :: 0 <= i < |log| ==> HonestEvent(c, log[i])
    ensures Completed(log, Only(x)) <= EndedAt(log, 2, Only(x))
  {
    if log != [] {
      CountedAccepted(c, log[..|log| - 1], x);
    }
  }

  // ----- what an answer of the supervisor means

  lemma {:induction false} TallyAll(items: seq<Item>)
    ensures Tally(items, Any()) == |items|
  {
    if items != [] {
      TallyAll(items[..|items| - 1]);
    }
  }

  lemma {:induction false} NothingHeld(workers: seq<Pc>, sel: Item -> bool)
    requires Held(workers, 0, Any()) == 0
    ensures Held(workers, 0, sel) == 0
  {
    if workers != [] {
      NothingHeld(workers[..|workers| - 1], sel);
    }
  }

  lemma {:induction false} NothingDropped(log: seq<Event>, sel: Item -> bool)
    requires Dropped(log, Any()) == 0
    ensures Dropped(log, sel) == 0
  {
    if log != [] {
      NothingDropped(log[..|log| - 1], sel);
    }
  }

  /** When the counter has reached the number of items, each item was counted, and each one that is not
      skipped had its request accepted, exactly once. */
  lemma FullCounter(c: Config, acts: seq<Action>, x: Item)
    requires Ascending(c.items) && x in c.items
    requires Exec(c, acts).counter >= |c.items|
    ensures Completed(Exec(c, acts).log, Only(x)) == 1
    ensures !Skips(c, x) ==> ReachedAt(Exec(c, acts).log, 2, Only(x)) == 1
    ensures Exec(c, acts).counter == |c.items| && !Exec(c, acts).stop
  {
    var s := Exec(c, acts);
    Conservation(c, acts, Any());
    TallyAll(c.items);
    TallyAll(s.stack);
    ExecAnswered(c, acts);
    Conservation(c, acts, Only(x));
    TallyOne(c.items, x);
    NothingHeld(s.workers, Only(x));
    NothingDropped(s.log, Only(x));
    if !Skips(c, x) {
      ExecHonest(c, acts);
      CountedAccepted(c, s.log, x);
      ExecAccounted(c, acts, 2, Only(x));
      AtMostOnce(c, acts, 2, x);
    }
  }

  /** An OK answer stands for a finished pool exactly when the stop flag is down; and when the wait for the
      exit flags was not cut short by the timeout, the flag is down. */
  lemma ReturnedOk(c: Config, acts: seq<Action>)
    requires Exec(c, acts).main.Returned? && Exec(c, acts).main.result.Ok?
    ensures !Exec(c, acts).stop <==> Exec(c, acts).counter == |c.items|
    ensures !Exec(c, acts).main.timedOut ==> !Exec(c, acts).stop
  {
    var s := Exec(c, acts);
    ExecAnswered(c, acts);
    Conservation(c, acts, Any());
    TallyAll(c.items);
  }

  /** All exit flags seen and no error: every region was created, or loaded, exactly once. */
  lemma CleanRun(c: Config, acts: seq<Action>, x: Item)
    requires Ascending(c.items) && x in c.items
    requires Exec(c, acts).main == Returned(Ok, false)
    ensures Completed(Exec(c, acts).log, Only(x)) == 1
    ensures !Skips(c, x) ==> ReachedAt(Exec(c, acts).log, 2, Only(x)) == 1
    ensures Exec(c, acts).counter == |c.items|
  {
    ReturnedOk(c, acts);
    FullCounter(c, acts, x);
  }

  /** A failure is never lost: with the flag up and every exit flag seen, the answer is an error. */
  lemma FailureReported(c: Config, acts: seq<Action>)
    requires Exec(c, acts).main.Returned? && !Exec(c, acts).main.timedOut && Exec(c, acts).stop
    ensures !Exec(c, acts).main.result.Ok?
  {
    ExecAnswered(c, acts);
  }

  // ----- requests after a failure

  /** After the stop flag first goes up, each of the other workers begins at most one more request: the one
      it had already decided on.  So at most one less than the number of workers begin. */
  lemma FewLateRequests(c: Config, acts: seq<Action>)
    ensures var late := LateSenders(Exec(c, acts).log);
            && (forall i, j :: 0 <= i < j < |late| ==> late[i] != late[j])
            && (late != [] ==> |late| <= WorkerCount(c) - 1)
  {
    var s := Exec(c, acts);
    ExecLately(c, acts);
    ExecFlagged(c, acts);
    var late := LateSenders(s.log);
    if late != [] {
      DistinctWithin(late + [Raisers(s.log)[0]], Below(|s.workers|));
    }
  }

  // ----- workers cannot run on forever

  function Weight(pc: Pc): nat {
    match pc
    case Unlaunched => 6
    case Top => 5
    case Popping => 4
    case Skipping(_) => 6
    case CheckInit(_) => 13
    case Initing(_) => 12
    case CheckRun(_) => 11
    case Sending(_) => 10
    case Waiting(_) => 9
    case CheckFinish(_) => 8
    case Finishing(_) => 7
    case Counting(_) => 6
    case Raising(_) => 3
    case Recording(_) => 2
    case Leaving => 1
    case Gone => 0
    case LaunchFailed => 0
  }

  function Weights(workers: seq<Pc>): nat {
    if workers == [] then 0 else Weights(workers[..|workers| - 1]) + Weight(workers[|workers| - 1])
  }

  lemma {:induction false} WeightsUpdate(workers: seq<Pc>, w: nat, pc: Pc)
    requires w < |workers|
    ensures Weights(workers[w := pc]) == Weights(workers) - Weight(workers[w]) + Weight(pc)
  {
    var n := |workers| - 1;
    if w == n {
      assert workers[w := pc][..n] == workers[..n];
    } else {
      WeightsUpdate(workers[..n], w, pc);
      assert workers[w := pc][..n] == workers[..n][w := pc];
    }
  }

  function Potential(s: Pool): nat {
    Weights(s.workers) + 10 * |s.stack|
  }

  /** The number of steps that running workers took in a schedule. */
  function Effort(c: Config, acts: seq<Action>): nat {
    if acts == [] then 0
    else
      var s, a := Exec(c, acts[..|acts| - 1]), acts[|acts| - 1];
      Effort(c, acts[..|acts| - 1])
      + if a.Work? && a.worker < |s.workers| && Active(s.workers[a.worker]) then 1 else 0
  }

  lemma MoveWeight(c: Config, s: Pool, w: nat, reply: Status)
    requires w < |s.workers|
    ensures var pc, popped := s.workers[w], if s.workers[w].Popping? && s.stack != [] then 10 else 0;
            if Active(pc) then Weight(NextPc(c, s, w, reply)) < Weight(pc) + popped
            else NextPc(c, s, w, reply) == pc
  {
  }

  lemma WorkerPotential(c: Config, s: Pool, w: nat, reply: Status)
    requires w < |s.workers| && w < |s.exited|
    ensures Potential(WorkerStep(c, s, w, reply)) + (if Active(s.workers[w]) then 1 else 0) <= Potential(s)
  {
    MoveWeight(c, s, w, reply);
    WeightsUpdate(s.workers, w, NextPc(c, s, w, reply));
  }

  lemma MainPotential(c: Config, s: Pool, reply: Status, timeout: bool)
    requires Flagged(c, s)
    ensures Potential(MainStep(c, s, reply, timeout)) <= Potential(s)
  {
    if s.main.Starting? {
      WeightsUpdate(s.workers, s.main.next, MainStep(c, s, reply, timeout).workers[s.main.next]);
    }
  }

  lemma {:induction false} StartWeights(n: nat)
    ensures Weights(seq(n, _ => Unlaunched)) == 6 * n
  {
    if n > 0 {
      StartWeights(n - 1);
      assert seq(n, _ => Unlaunched)[..n - 1] == seq(n - 1, _ => Unlaunched);
    }
  }

  /** Whatever the schedule, the workers take at most 10 steps per item and 6 per worker in all; so every
      worker that keeps being scheduled reaches its exit flag, and the supervisor's wait can end. */
  lemma {:induction false} BoundedEffort(c: Config, acts: seq<Action>)
    ensures Effort(c, acts) + Potential(Exec(c, acts)) <= 10 * |c.items| + 6 * WorkerCount(c)
  {
    if acts == [] {
      StartWeights(WorkerCount(c));
    } else {
      var s := Exec(c, acts[..|acts| - 1]);
      BoundedEffort(c, acts[..|acts| - 1]);
      ExecFlagged(c, acts[..|acts| - 1]);
      match acts[|acts| - 1]
      case Work(w, reply) => if w < |s.workers| { WorkerPotential(c, s, w, reply); }
      case Supervise(reply, timeout) => MainPotential(c, s, reply, timeout);
    }
  }

  // ----- the timeout branch

  lemma Then(c: Config, acts: seq<Action>, a: Action)
    ensures Exec(c, acts + [a]) == Apply(c, Exec(c, acts), a)
  {
    assert (acts + [a])[..|acts|] == acts;
  }

  /** Launch the one worker of a one-item pool. */
  lemma OneLaunched(c: Config, x: Item) returns (acts: seq<Action>)
    requires c.items == [x] && c.concurrency > 0
    ensures Exec(c, acts) == Pool([x], false, 0, Ok, [false], [Top], PollStop, [])
  {
    var tick := Supervise(Ok, false);
    assert Start(c) == Pool([x], false, 0, Ok, [true], [Unlaunched], Launching(0), []);
    Then(c, [], tick);
    Then(c, [tick], tick);
    Then(c, [tick] + [tick], tick);
    acts := [tick] + [tick] + [tick];
  }

  /** Let it pop its item. */
  lemma OneTaken(c: Config, x: Item) returns (acts: seq<Action>)
    requires c.items == [x] && c.concurrency > 0 && !Skips(c, x)
    ensures Exec(c, acts) == Pool([], false, 0, Ok, [false], [CheckInit(x)], PollStop, [Reached(0, x, Taken)])
  {
    var go := Work(0, Ok);
    acts := OneLaunched(c, x);
    Then(c, acts, go);
    Then(c, acts + [go], go);
    acts := acts + [go] + [go];
  }

  /** Let it initialise the request. */
  lemma OnePopped(c: Config, x: Item) returns (acts: seq<Action>)
    requires c.items == [x] && c.concurrency > 0 && !Skips(c, x)
    ensures Exec(c, acts) == Pool([], false, 0, Ok, [false], [CheckRun(x)], PollStop, [Reached(0, x, Taken)])
  {
    var go := Work(0, Ok);
    acts := OneTaken(c, x);
    Then(c, acts, go);
    Then(c, acts + [go], go);
    acts := acts + [go] + [go];
  }

  /** Let it send its request. */
  lemma OneInFlight(c: Config, x: Item) returns (acts: seq<Action>)
    requires c.items == [x] && c.concurrency > 0 && !Skips(c, x)
    ensures Exec(c, acts) == Pool([], false, 0, Ok, [false], [Waiting(x)], PollStop,
                                  [Reached(0, x, Taken), Reached(0, x, Sent)])
  {
    var go := Work(0, Ok);
    acts := OnePopped(c, x);
    Then(c, acts, go);
    Then(c, acts + [go], go);
    acts := acts + [go] + [go];
  }

  /** The exit-wait timeout is not harmless: if it fires while the worker that raised the flag has not yet
      recorded its error, the manager answers OK although its region was refused. */
  lemma TimeoutHidesFailure(c: Config, x: Item, err: Errno) returns (acts: seq<Action>)
    requires c.items == [x] && c.concurrency > 0 && !Skips(c, x)
    ensures Exec(c, acts).main == Returned(Ok, true)
    ensures Exec(c, acts).counter == 0 && ReachedAt(Exec(c, acts).log, 2, Only(x)) == 0
    ensures Exec(c, acts).log == RefusedLog(x)
  {
    acts := OneRaised(c, x, err);
    var log := RefusedLog(x);
    var tick, late := Supervise(Ok, false), Supervise(Ok, true);
    Then(c, acts, tick);
    Then(c, acts + [tick], late);
    Then(c, acts + [tick] + [late], tick);
    acts := acts + [tick] + [late] + [tick];
    assert Exec(c, acts) == Pool([], true, 0, Ok, [false], [Recording(err)], Returned(Ok, true), log);
    NothingAnswered(x);
  }

  function RefusedLog(x: Item): seq<Event> {
    [Reached(0, x, Taken), Reached(0, x, Sent)] + [Ended(0, x, Sent, false)] + [Raised(0)]
  }

  lemma NothingAnswered(x: Item)
    ensures ReachedAt(RefusedLog(x), 2, Only(x)) == 0
  {
    var log := RefusedLog(x);
    AppendTallies([], log[0], 2, Only(x));
    AppendTallies([log[0]], log[1], 2, Only(x));
    AppendTallies([log[0], log[1]], log[2], 2, Only(x));
    AppendTallies([log[0], log[1], log[2]], log[3], 2, Only(x));
    assert log == [] + [log[0]] + [log[1]] + [log[2]] + [log[3]];
  }

  /** Let the request be refused and the worker raise the flag. */
  lemma OneRaised(c: Config, x: Item, err: Errno) returns (acts: seq<Action>)
    requires c.items == [x] && c.concurrency > 0 && !Skips(c, x)
    ensures Exec(c, acts) == Pool([], true, 0, Ok, [false], [Recording(err)], PollStop, RefusedLog(x))
  {
    acts := OneInFlight(c, x);
    var refuse, go := Work(0, Error(err)), Work(0, Ok);
    Then(c, acts, refuse);
    Then(c, acts + [refuse], go);
    acts := acts + [refuse] + [go];
  }
}
