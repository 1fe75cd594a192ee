/** What holds in every state that a worker pool can reach, whatever the schedule. */
module WorkerPoolProofs {
  import opened Sequences
  import opened Status
  import opened WorkerPool

  // ----- the history grows by one event

  lemma AppendTallies(log: seq<Event>, e: Event, r: nat, sel: Item -> bool)
    ensures ReachedAt(log + [e], r, sel)
         == ReachedAt(log, r, sel) + if e.Reached? && Rank(e.stage) == r then Pick(e.item, sel) else 0
    ensures EndedAt(log + [e], r, sel)
         == EndedAt(log, r, sel) + if e.Ended? && Rank(e.stage) >= r then Pick(e.item, sel) else 0
    ensures Completed(log + [e], sel) == Completed(log, sel) + if e.Ended? && e.counted then Pick(e.item, sel) else 0
    ensures Dropped(log + [e], sel) == Dropped(log, sel) + if e.Ended? && !e.counted then Pick(e.item, sel) else 0
  {
    assert (log + [e])[..|log|] == log;
  }

  lemma AppendOrder(log: seq<Event>, e: Event)
    ensures Pops(log + [e]) == Pops(log) + if e.Reached? && e.stage == Taken then [e.item] else []
    ensures Raisers(log + [e]) == Raisers(log) + if e.Raised? then [e.worker] else []
    ensures LateSenders(log + [e])
         == LateSenders(log) + if e.Reached? && e.stage == Sent && Raisers(log) != [] then [e.worker] else []
  {
    assert (log + [e])[..|log|] == log;
  }

  lemma {:induction false} HeldUpdate(workers: seq<Pc>, w: nat, pc: Pc, r: nat, sel: Item -> bool)
    requires w < |workers|
    ensures Held(workers[w := pc], r, sel) == Held(workers, r, sel) - HeldBy(workers[w], r, sel) + HeldBy(pc, r, sel)
  {
    var n := |workers| - 1;
    if w == n {
      assert workers[w := pc][..n] == workers[..n];
    } else {
      HeldUpdate(workers[..n], w, pc, r, sel);
      assert workers[w := pc][..n] == workers[..n][w := pc];
    }
  }

  lemma {:induction false} HeldNothing(workers: seq<Pc>, r: nat, sel: Item -> bool)
    requires forall w :: 0 <= w < |workers| ==> Grip(workers[w]) == 0
    ensures Held(workers, r, sel) == 0
  {
    if workers != [] {
      HeldNothing(workers[..|workers| - 1], r, sel);
    }
  }

  // ----- conservation

  /** Of the items that reached a stage, each is still held at that stage or beyond, or has ended there. */
  ghost predicate Accounted(s: Pool, r: nat, sel: Item -> bool) {
    && ReachedAt(s.log, r, sel) == Held(s.workers, r, sel) + EndedAt(s.log, r, sel)
    && (r == 0 ==> EndedAt(s.log, r, sel) == Completed(s.log, sel) + Dropped(s.log, sel))
  }

  function Gain(news: seq<Event>, r: nat, sel: Item -> bool): nat {
    if news != [] && news[0].Reached? && Rank(news[0].stage) == r then Pick(news[0].item, sel) else 0
  }

  function Loss(news: seq<Event>, r: nat, sel: Item -> bool): nat {
    if news != [] && news[0].Ended? && Rank(news[0].stage) >= r then Pick(news[0].item, sel) else 0
  }

  /** A move takes up exactly what its event says was reached, and lets go of what it says has ended. */
  lemma MoveBalance(c: Config, s: Pool, w: nat, reply: Status, r: nat, sel: Item -> bool)
    requires w < |s.workers| && r <= 2
    ensures HeldBy(s.workers[w], r, sel) + Gain(News(s, w, reply), r, sel)
         == HeldBy(NextPc(c, s, w, reply), r, sel) + Loss(News(s, w, reply), r, sel)
  {
  }

  lemma StepAccounted(c: Config, s: Pool, w: nat, reply: Status, r: nat, sel: Item -> bool)
    requires w < |s.workers| && w < |s.exited|
    requires Accounted(s, r, sel) && r <= 2
    ensures Accounted(WorkerStep(c, s, w, reply), r, sel)
  {
    var news := News(s, w, reply);
    MoveBalance(c, s, w, reply, r, sel);
    HeldUpdate(s.workers, w, NextPc(c, s, w, reply), r, sel);
    if news == [] {
      assert s.log + news == s.log;
    } else {
      AppendTallies(s.log, news[0], r, sel);
      assert news == [news[0]];
    }
  }

  // ----- exit flags and launches

  predicate Active(pc: Pc) {
    !pc.Unlaunched? && !pc.Gone? && !pc.LaunchFailed?
  }

  /** The first worker whose thread has not been started yet. */
  function Frontier(s: Pool): nat {
    match s.main
    case Launching(i) => i
    case Starting(i) => i
    case _ => |s.workers|
  }

  ghost predicate Flagged(c: Config, s: Pool) {
    && |s.exited| == |s.workers| == WorkerCount(c)
    && Frontier(s) <= |s.workers|
    && (s.main.Starting? ==> s.main.next < |s.workers| && !s.exited[s.main.next])
    && (forall w :: 0 <= w < |s.workers| ==> (s.workers[w].Unlaunched? <==> Frontier(s) <= w))
    && (forall w :: 0 <= w < |s.workers| && s.exited[w] ==> !Active(s.workers[w]))
    && (s.lastError.Ok? ==> forall w :: 0 <= w < |s.workers| ==> !s.workers[w].LaunchFailed?)
  }

  /** Only a launched worker moves, and it stops being active exactly when it sets its exit flag. */
  lemma MoveActive(c: Config, s: Pool, w: nat, reply: Status)
    requires w < |s.workers|
    ensures var pc, next := s.workers[w], NextPc(c, s, w, reply);
            && (Active(next) <==> Active(pc) && !pc.Leaving?)
            && (Active(pc) || next == pc)
            && (next.Unlaunched? <==> pc.Unlaunched?)
            && (next.LaunchFailed? <==> pc.LaunchFailed?)
  {
  }

  lemma WorkerFlagged(c: Config, s: Pool, w: nat, reply: Status)
    requires w < |s.workers| && Flagged(c, s)
    ensures Flagged(c, WorkerStep(c, s, w, reply))
  {
    MoveActive(c, s, w, reply);
  }

  lemma MainFlagged(c: Config, s: Pool, reply: Status, timeout: bool)
    requires Flagged(c, s)
    ensures Flagged(c, MainStep(c, s, reply, timeout))
  {
    if s.main.Starting? {
      StartFlagged(c, s, reply, timeout);
    } else if s.main.Launching? {
      LaunchFlagged(c, s, reply, timeout);
    } else {
      assert MainStep(c, s, reply, timeout) == s.(main := NextMain(c, s, reply, timeout));
    }
  }

  lemma LaunchFlagged(c: Config, s: Pool, reply: Status, timeout: bool)
    requires Flagged(c, s) && s.main.Launching?
    ensures Flagged(c, MainStep(c, s, reply, timeout))
  {
  }

  lemma StartFlagged(c: Config, s: Pool, reply: Status, timeout: bool)
    requires Flagged(c, s) && s.main.Starting?
    ensures Flagged(c, MainStep(c, s, reply, timeout))
  {
  }

  lemma {:induction false} ExecFlagged(c: Config, acts: seq<Action>)
    ensures Flagged(c, Exec(c, acts))
  {
    if acts != [] {
      ExecFlagged(c, acts[..|acts| - 1]);
      var s := Exec(c, acts[..|acts| - 1]);
      match acts[|acts| - 1]
      case Work(w, reply) => if w < |s.workers| { WorkerFlagged(c, s, w, reply); }
      case Supervise(reply, timeout) => MainFlagged(c, s, reply, timeout);
    }
  }

  lemma MainKeepsTallies(c: Config, s: Pool, reply: Status, timeout: bool, r: nat, sel: Item -> bool)
    requires Flagged(c, s)
    ensures var t := MainStep(c, s, reply, timeout);
            t.log == s.log && t.stack == s.stack && Held(t.workers, r, sel) == Held(s.workers, r, sel)
  {
    var t := MainStep(c, s, reply, timeout);
    if s.main.Starting? {
      HeldUpdate(s.workers, s.main.next, t.workers[s.main.next], r, sel);
    }
  }

  lemma {:induction false} ExecAccounted(c: Config, acts: seq<Action>, r: nat, sel: Item -> bool)
    requires r <= 2
    ensures Accounted(Exec(c, acts), r, sel)
  {
    if acts == [] {
      HeldNothing(Start(c).workers, r, sel);
    } else {
      var s, a := Exec(c, acts[..|acts| - 1]), acts[|acts| - 1];
      ExecAccounted(c, acts[..|acts| - 1], r, sel);
      ExecFlagged(c, acts[..|acts| - 1]);
      ApplyAccounted(c, s, a, r, sel);
    }
  }

  lemma ApplyAccounted(c: Config, s: Pool, a: Action, r: nat, sel: Item -> bool)
    requires r <= 2 && Flagged(c, s) && Accounted(s, r, sel)
    ensures Accounted(Apply(c, s, a), r, sel)
  {
    match a
    case Work(w, reply) => if w < |s.workers| { StepAccounted(c, s, w, reply, r, sel); }
    case Supervise(reply, timeout) => MainKeepsTallies(c, s, reply, timeout, r, sel);
  }

  // ----- order of the pops

  lemma {:induction false} ReverseSnoc(s: seq<Item>)
    requires s != []
    ensures Reverse(s) == [s[|s| - 1]] + Reverse(s[..|s| - 1])
  {
    if |s| > 1 {
      ReverseSnoc(s[1..]);
      assert s[1..][..|s| - 2] == s[..|s| - 1][1..];
    }
  }

  lemma {:induction false} ReverseTwice(s: seq<Item>)
    ensures Reverse(Reverse(s)) == s
  {
    if s != [] {
      var r := Reverse(s);
      ReverseSnoc(r);
      assert r[..|r| - 1] == Reverse(s[1..]);
      ReverseTwice(s[1..]);
    }
  }

  /** The pops so far, followed by what is still stacked, is the input in its order. */
  ghost predicate Ordered(c: Config, s: Pool) {
    Pops(s.log) + Reverse(s.stack) == c.items
  }

  function PopOf(news: seq<Event>): seq<Item> {
    if news != [] && news[0].Reached? && news[0].stage == Taken then [news[0].item] else []
  }

  lemma AppendPops(log: seq<Event>, news: seq<Event>)
    requires |news| <= 1
    ensures Pops(log + news) == Pops(log) + PopOf(news)
  {
    if news == [] {
      assert log + news == log;
    } else {
      AppendOrder(log, news[0]);
      assert news == [news[0]];
    }
  }

  lemma NewsPops(s: Pool, w: nat, reply: Status)
    requires w < |s.workers|
    ensures PopOf(News(s, w, reply)) == if s.workers[w].Popping? && s.stack != [] then [s.stack[|s.stack| - 1]] else []
  {
  }

  /** Only a pop from a non-empty stack puts an item on the record of pops. */
  lemma MovePops(s: Pool, w: nat, reply: Status)
    requires w < |s.workers|
    ensures Pops(s.log + News(s, w, reply))
         == Pops(s.log) + if s.workers[w].Popping? && s.stack != [] then [s.stack[|s.stack| - 1]] else []
  {
    AppendPops(s.log, News(s, w, reply));
    NewsPops(s, w, reply);
  }

  lemma StepOrdered(c: Config, s: Pool, w: nat, reply: Status)
    requires w < |s.workers| && w < |s.exited|
    requires Ordered(c, s)
    ensures Ordered(c, WorkerStep(c, s, w, reply))
  {
    MovePops(s, w, reply);
    if s.workers[w].Popping? && s.stack != [] {
      var n := |s.stack| - 1;
      ReverseSnoc(s.stack);
      OrderedMoves(c, s, WorkerStep(c, s, w, reply), [s.stack[n]]);
    } else {
      OrderedMoves(c, s, WorkerStep(c, s, w, reply), []);
    }
  }

  lemma OrderedMoves(c: Config, s: Pool, t: Pool, popped: seq<Item>)
    requires Ordered(c, s)
    requires Pops(t.log) == Pops(s.log) + popped && Reverse(s.stack) == popped + Reverse(t.stack)
    ensures Ordered(c, t)
  {
    Regroup(Pops(s.log), popped, Reverse(t.stack));
  }

  lemma {:induction false} ExecOrdered(c: Config, acts: seq<Action>)
    ensures Ordered(c, Exec(c, acts))
  {
    if acts == [] {
      ReverseTwice(c.items);
    } else {
      var s, a := Exec(c, acts[..|acts| - 1]), acts[|acts| - 1];
      ExecOrdered(c, acts[..|acts| - 1]);
      ApplyOrdered(c, s, a);
    }
  }

  lemma ApplyOrdered(c: Config, s: Pool, a: Action)
    requires Ordered(c, s)
    ensures Ordered(c, Apply(c, s, a))
  {
    match a
    case Work(w, reply) => if w < |s.workers| && w < |s.exited| { StepOrdered(c, s, w, reply); }
    case Supervise(reply, timeout) =>
      MainKeepsStack(c, s, reply, timeout);
      OrderedKept(c, s, MainStep(c, s, reply, timeout));
  }

  lemma MainKeepsStack(c: Config, s: Pool, reply: Status, timeout: bool)
    ensures var t := MainStep(c, s, reply, timeout); t.log == s.log && t.stack == s.stack
  {
  }

  lemma OrderedKept(c: Config, s: Pool, t: Pool)
    requires Ordered(c, s) && t.log == s.log && t.stack == s.stack
    ensures Ordered(c, t)
  {
  }

  // ----- the stop flag and the recorded error

  function Any(): Item -> bool { _ => true }

  function Only(x: Item): Item -> bool { y => y == x }

  /** The stop flag has a cause on record, and the error follows it before its worker leaves. */
  ghost predicate Explained(s: Pool) {
    && (s.stop && s.lastError.Ok? ==> exists w :: 0 <= w < |s.workers| && s.workers[w].Recording?)
    && (s.stop ==> Dropped(s.log, Any()) > 0)
    && (forall w :: 0 <= w < |s.workers| && s.workers[w].Raising? ==> Dropped(s.log, Any()) > 0)
  }

  /** Dropping an item is what sends a worker to raise the flag. */
  lemma MoveDrops(c: Config, s: Pool, w: nat, reply: Status)
    requires w < |s.workers|
    ensures var d := Dropped(s.log + News(s, w, reply), Any());
            && d >= Dropped(s.log, Any())
            && (Drops(News(s, w, reply)) ==> d > 0)
    ensures NextPc(c, s, w, reply).Raising? ==> Drops(News(s, w, reply))
    ensures NextPc(c, s, w, reply).Recording? <==> s.workers[w].Raising?
    ensures Completed(s.log + News(s, w, reply), Any())
         == Completed(s.log, Any()) + if s.workers[w].Skipping? || s.workers[w].Counting? then 1 else 0
  {
    NewsDrop(s.log, News(s, w, reply));
    MoveEnds(c, s, w, reply);
  }

  predicate Drops(news: seq<Event>) {
    |news| == 1 && news[0].Ended? && !news[0].counted
  }

  predicate Completes(news: seq<Event>) {
    |news| == 1 && news[0].Ended? && news[0].counted
  }

  lemma MoveEnds(c: Config, s: Pool, w: nat, reply: Status)
    requires w < |s.workers|
    ensures NextPc(c, s, w, reply).Raising? ==> Drops(News(s, w, reply))
    ensures NextPc(c, s, w, reply).Recording? <==> s.workers[w].Raising?
    ensures Completes(News(s, w, reply)) <==> s.workers[w].Skipping? || s.workers[w].Counting?
  {
  }

  lemma NewsDrop(log: seq<Event>, news: seq<Event>)
    requires |news| <= 1
    ensures Dropped(log + news, Any()) == Dropped(log, Any()) + if Drops(news) then 1 else 0
    ensures Completed(log + news, Any()) == Completed(log, Any()) + if Completes(news) then 1 else 0
  {
    if news == [] {
      assert log + news == log;
    } else {
      AppendTallies(log, news[0], 0, Any());
      assert news == [news[0]];
    }
  }

  lemma WorkerExplained(c: Config, s: Pool, w: nat, reply: Status)
    requires w < |s.workers| && w < |s.exited| && Explained(s)
    ensures Explained(WorkerStep(c, s, w, reply))
  {
    var t := WorkerStep(c, s, w, reply);
    MoveDrops(c, s, w, reply);
    assert t.workers == s.workers[w := NextPc(c, s, w, reply)] && t.log == s.log + News(s, w, reply);
    ErrorFollows(s, t, w);
    CauseFollows(s, t, w);
  }

  /** The worker that raised the flag is the one that is about to record. */
  lemma ErrorFollows(s: Pool, t: Pool, w: nat)
    requires s.stop && s.lastError.Ok? ==> exists v :: 0 <= v < |s.workers| && s.workers[v].Recording?
    requires w < |s.workers| == |t.workers| && t.workers == s.workers[w := t.workers[w]]
    requires t.stop == (s.stop || s.workers[w].Raising?) && (s.workers[w].Raising? ==> t.workers[w].Recording?)
    requires t.lastError == if s.workers[w].Recording? then Error(s.workers[w].err) else s.lastError
    ensures t.stop && t.lastError.Ok? ==> exists v :: 0 <= v < |t.workers| && t.workers[v].Recording?
  {
    if t.stop && t.lastError.Ok? {
      if s.workers[w].Raising? {
        assert t.workers[w].Recording?;
      } else {
        var v :| 0 <= v < |s.workers| && s.workers[v].Recording?;
        assert t.workers[v].Recording?;
      }
    }
  }

  lemma CauseFollows(s: Pool, t: Pool, w: nat)
    requires s.stop ==> Dropped(s.log, Any()) > 0
    requires forall v :: 0 <= v < |s.workers| && s.workers[v].Raising? ==> Dropped(s.log, Any()) > 0
    requires w < |s.workers| == |t.workers| && t.workers == s.workers[w := t.workers[w]]
    requires t.stop == (s.stop || s.workers[w].Raising?)
    requires Dropped(t.log, Any()) >= Dropped(s.log, Any()) && (t.workers[w].Raising? ==> Dropped(t.log, Any()) > 0)
    ensures t.stop ==> Dropped(t.log, Any()) > 0
    ensures forall v :: 0 <= v < |t.workers| && t.workers[v].Raising? ==> Dropped(t.log, Any()) > 0
  {
  }

  lemma MainExplained(c: Config, s: Pool, reply: Status, timeout: bool)
    requires Flagged(c, s) && Explained(s)
    ensures Explained(MainStep(c, s, reply, timeout))
  {
    var t := MainStep(c, s, reply, timeout);
    if t.stop && t.lastError.Ok? {
      var v :| 0 <= v < |s.workers| && s.workers[v].Recording?;
      assert t.workers[v].Recording?;
    }
  }

  /** What the supervisor knows: why it stopped polling, and what its answer stands for. */
  ghost predicate Answered(c: Config, s: Pool) {
    && s.counter == Completed(s.log, Any())
    && (s.main.WaitExit? || s.main.Deciding? ==> s.stop || s.counter >= |c.items| || !s.lastError.Ok?)
    && ((s.main.Deciding? || s.main.Returned?) && !s.main.timedOut ==>
          forall w :: 0 <= w < |s.workers| ==> !Active(s.workers[w]))
    && (s.main.Returned? && s.main.result.Ok? ==> s.counter >= |c.items| || s.stop)
    && (s.main.Returned? && s.main.result.Ok? && !s.main.timedOut ==> !s.stop)
  }

  lemma WorkerAnswered(c: Config, s: Pool, w: nat, reply: Status)
    requires w < |s.workers| && Flagged(c, s) && Answered(c, s)
    ensures Answered(c, WorkerStep(c, s, w, reply))
  {
    MoveActive(c, s, w, reply);
    MoveDrops(c, s, w, reply);
  }

  lemma MainAnswered(c: Config, s: Pool, reply: Status, timeout: bool)
    requires Flagged(c, s) && Explained(s) && Answered(c, s)
    ensures Answered(c, MainStep(c, s, reply, timeout))
  {
    if s.main.Launching? || s.main.Starting? {
      LaunchAnswered(c, s, reply, timeout);
    } else {
      var next := NextMain(c, s, reply, timeout);
      assert MainStep(c, s, reply, timeout) == s.(main := next);
      PollAnswered(c, s, reply, timeout);
    }
  }

  lemma LaunchAnswered(c: Config, s: Pool, reply: Status, timeout: bool)
    requires Answered(c, s) && (s.main.Launching? || s.main.Starting?)
    ensures Answered(c, MainStep(c, s, reply, timeout))
  {
    MainKeepsStack(c, s, reply, timeout);
  }

  lemma PollAnswered(c: Config, s: Pool, reply: Status, timeout: bool)
    requires Flagged(c, s) && Explained(s) && Answered(c, s) && !s.main.Launching? && !s.main.Starting?
    ensures Answered(c, s.(main := NextMain(c, s, reply, timeout)))
  {
    match s.main {
      case WaitExit => NobodyActive(s);
      case Deciding(_) => NobodyRecords(s);
      case _ =>
    }
  }

  lemma NobodyActive(s: Pool)
    requires |s.exited| == |s.workers|
    requires forall w :: 0 <= w < |s.workers| && s.exited[w] ==> !Active(s.workers[w])
    ensures (forall w :: 0 <= w < |s.exited| ==> s.exited[w]) ==> forall w :: 0 <= w < |s.workers| ==> !Active(s.workers[w])
  {
  }

  lemma NobodyRecords(s: Pool)
    requires Explained(s)
    ensures (forall w :: 0 <= w < |s.workers| ==> !Active(s.workers[w])) && s.lastError.Ok? ==> !s.stop
  {
    if s.stop && s.lastError.Ok? {
      var v :| 0 <= v < |s.workers| && s.workers[v].Recording?;
      assert Active(s.workers[v]);
    }
  }

  lemma {:induction false} ExecAnswered(c: Config, acts: seq<Action>)
    ensures Explained(Exec(c, acts)) && Answered(c, Exec(c, acts))
  {
    if acts != [] {
      var s := Exec(c, acts[..|acts| - 1]);
      ExecAnswered(c, acts[..|acts| - 1]);
      ExecFlagged(c, acts[..|acts| - 1]);
      match acts[|acts| - 1]
      case Work(w, reply) =>
        if w < |s.workers| {
          WorkerExplained(c, s, w, reply);
          WorkerAnswered(c, s, w, reply);
        }
      case Supervise(reply, timeout) =>
        MainExplained(c, s, reply, timeout);
        MainAnswered(c, s, reply, timeout);
    }
  }

  // ----- requests that begin after the stop flag went up

  ghost predicate Lately(s: Pool) {
    var raisers, late := Raisers(s.log), LateSenders(s.log);
    && (s.stop <==> raisers != [])
    && (late != [] ==> s.stop)
    && (forall i :: 0 <= i < |late| ==> late[i] < |s.workers| && !s.workers[late[i]].Sending?)
    && (forall i, j :: 0 <= i < j < |late| ==> late[i] != late[j])
    && (s.stop ==> raisers[0] < |s.workers| && !s.workers[raisers[0]].Sending? && raisers[0] !in late)
  }

  /** With the flag up no worker gets ready to send. */
  lemma MoveReady(c: Config, s: Pool, w: nat, reply: Status)
    requires w < |s.workers|
    ensures NextPc(c, s, w, reply).Sending? ==> !s.stop
    ensures s.workers[w].Sending? ==> !NextPc(c, s, w, reply).Sending?
    ensures s.workers[w].Raising? ==> !NextPc(c, s, w, reply).Sending?
  {
  }

  predicate IsSend(e: Event) {
    e.Reached? && e.stage == Sent
  }

  /** Only a worker that raises the flag tells so, and only one that sends a request does. */
  lemma NewsOfMove(s: Pool, w: nat, reply: Status)
    requires w < |s.workers|
    ensures forall e :: e in News(s, w, reply) ==> e.worker == w
    ensures (exists e :: e in News(s, w, reply) && e.Raised?) <==> s.workers[w].Raising?
    ensures (exists e :: e in News(s, w, reply) && IsSend(e)) <==> s.workers[w].Sending?
  {
    if s.workers[w].Raising? {
      assert Raised(w) in News(s, w, reply);
    }
    if s.workers[w].Sending? {
      assert Reached(w, s.workers[w].item, Sent) in News(s, w, reply);
    }
  }

  lemma AppendNews(log: seq<Event>, news: seq<Event>, w: nat, raises: bool, sends: bool)
    requires |news| <= 1 && forall e :: e in news ==> e.worker == w
    requires (exists e :: e in news && e.Raised?) <==> raises
    requires (exists e :: e in news && IsSend(e)) <==> sends
    ensures Raisers(log + news) == Raisers(log) + if raises then [w] else []
    ensures LateSenders(log + news) == LateSenders(log) + if sends && Raisers(log) != [] then [w] else []
  {
    if news == [] {
      assert log + news == log;
    } else {
      assert news[0] in news;
      AppendOrder(log, news[0]);
      assert news == [news[0]];
    }
  }

  lemma MoveSends(s: Pool, w: nat, reply: Status)
    requires w < |s.workers|
    ensures Raisers(s.log + News(s, w, reply)) == Raisers(s.log) + if s.workers[w].Raising? then [w] else []
    ensures LateSenders(s.log + News(s, w, reply))
         == LateSenders(s.log) + if s.workers[w].Sending? && Raisers(s.log) != [] then [w] else []
  {
    NewsOfMove(s, w, reply);
    AppendNews(s.log, News(s, w, reply), w, s.workers[w].Raising?, s.workers[w].Sending?);
  }

  lemma WorkerLately(c: Config, s: Pool, w: nat, reply: Status)
    requires w < |s.workers| && w < |s.exited| && Lately(s)
    ensures Lately(WorkerStep(c, s, w, reply))
  {
    var t := WorkerStep(c, s, w, reply);
    MoveReady(c, s, w, reply);
    MoveSends(s, w, reply);
    assert t.workers == s.workers[w := NextPc(c, s, w, reply)] && t.log == s.log + News(s, w, reply);
    LatelyMoves(s, t, w);
  }

  lemma LatelyMoves(s: Pool, t: Pool, w: nat)
    requires Lately(s)
    requires w < |s.workers| == |t.workers| && t.workers == s.workers[w := t.workers[w]]
    requires t.stop == (s.stop || s.workers[w].Raising?)
    requires t.workers[w].Sending? ==> !s.stop && !s.workers[w].Raising?
    requires s.workers[w].Sending? ==> !t.workers[w].Sending?
    requires Raisers(t.log) == Raisers(s.log) + if s.workers[w].Raising? then [w] else []
    requires LateSenders(t.log)
          == LateSenders(s.log) + if s.workers[w].Sending? && Raisers(s.log) != [] then [w] else []
    ensures Lately(t)
  {
  }

  lemma MainQuiet(c: Config, s: Pool, reply: Status, timeout: bool)
    ensures var t := MainStep(c, s, reply, timeout);
            && t.log == s.log && t.stop == s.stop && |t.workers| == |s.workers|
            && forall w :: 0 <= w < |s.workers| && t.workers[w].Sending? ==> s.workers[w].Sending?
  {
  }

  lemma LatelyKept(s: Pool, t: Pool)
    requires Lately(s)
    requires t.log == s.log && t.stop == s.stop && |t.workers| == |s.workers|
    requires forall w :: 0 <= w < |s.workers| && t.workers[w].Sending? ==> s.workers[w].Sending?
    ensures Lately(t)
  {
  }

  lemma {:induction false} ExecLately(c: Config, acts: seq<Action>)
    ensures Lately(Exec(c, acts))
  {
    if acts != [] {
      var s := Exec(c, acts[..|acts| - 1]);
      ExecLately(c, acts[..|acts| - 1]);
      match acts[|acts| - 1]
      case Work(w, reply) => if w < |s.workers| && w < |s.exited| { WorkerLately(c, s, w, reply); }
      case Supervise(reply, timeout) =>
        MainQuiet(c, s, reply, timeout);
        LatelyKept(s, MainStep(c, s, reply, timeout));
    }
  }
}