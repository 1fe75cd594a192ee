/** The data phase of a backup: one worker for the store, the index and the document regions, and the `Run` that
    starts and watches them.  (`BackupSqlData` and `BackupSdkData` have the same one.)

    Each worker walks its own list and stops when the shared stop flag is up.  `Run` polls the flag and the three
    counters, then waits for the three exit flags, which live on its own stack, and finally looks at the stop
    flag again.  As in `WorkerPool`, every load and store is a step and `Exec` runs any schedule. */
module BackupWorkers {
  import opened Status
  import opened Entities

  /** One list of region ids per worker, and whether there are nodes to back it up from. */
  datatype Config = Config(lists: seq<seq<Id>>, present: seq<bool>)

  predicate WellFormed(c: Config) {
    |c.present| == |c.lists|
  }

  datatype Pc =
    | Unlaunched
    | Absent
    | Ready                        // about to lower its exit flag
    | Check(i: nat)
    | Sending(i: nat)
    | Waiting(i: nat)
    | Saving(i: nat, group: Group)
    | Counting(i: nat)
    | Raising(err: Errno)
    | Exiting(status: Status)      // about to raise its exit flag
    | Recording(status: Status)
    | Dead

  datatype MainPc =
    | Launching(next: nat)
    | PollStop
    | PollCount(next: nat, sum: nat)
    | WaitFlag(next: nat)
    | FinalCheck
    | ReadError
    | Returned(stopped: bool, result: Status)
    | Aborted(next: nat)           // the launch of worker `next` failed

  datatype Event =
    | Asked(worker: nat, id: Id)
    | Granted(worker: nat, id: Id, group: Group)
    | Noted(worker: nat, status: Status)   // `last_error_` is overwritten

  datatype State = State(
    stop: bool,
    counters: seq<nat>,
    saved: seq<map<Id, Group>>,
    exited: seq<bool>,
    lastError: Status,
    workers: seq<Pc>,
    main: MainPc,
    log: seq<Event>)

  datatype Reply = Refuse(err: Errno) | Grant(group: Group)

  /** `launched` is whether the thread starts, in a step that starts one. */
  datatype Action = Work(worker: nat, reply: Reply) | Supervise(launched: bool)

  function Zeros(n: nat): (s: seq<nat>)
    ensures |s| == n && forall i :: 0 <= i < n ==> s[i] == 0
  {
    seq(n, _ => 0)
  }

  function Start(c: Config): State {
    var n := |c.lists|;
    State(false, Zeros(n), seq(n, _ => map[]), seq(n, _ => false), Ok, seq(n, _ => Unlaunched), Launching(0), [])
  }

  predicate Shaped(c: Config, s: State) {
    |c.lists| == |c.present| == |s.counters| == |s.saved| == |s.exited| == |s.workers|
  }

  function NextPc(c: Config, s: State, w: nat, reply: Reply): Pc
    requires Shaped(c, s) && w < |c.lists|
  {
    match s.workers[w]
    case Unlaunched => Unlaunched
    case Absent => Absent
    case Ready => Check(0)
    case Check(i) => if i >= |c.lists[w]| || s.stop then Exiting(Ok) else Sending(i)
    case Sending(i) => Waiting(i)
    case Waiting(i) =>
      (match reply
       case Refuse(err) => Raising(err)
       case Grant(group) => Saving(i, group))
    case Saving(i, _) => Counting(i)
    case Counting(i) => Check(i + 1)
    case Raising(err) => Exiting(Error(err))
    case Exiting(status) => Recording(status)
    case Recording(_) => Dead
    case Dead => Dead
  }

  function News(c: Config, s: State, w: nat, reply: Reply): (news: seq<Event>)
    requires Shaped(c, s) && w < |c.lists|
    ensures |news| <= 1
  {
    var pc := s.workers[w];
    if pc.Sending? && pc.i < |c.lists[w]| then [Asked(w, c.lists[w][pc.i])]
    else if pc.Waiting? && pc.i < |c.lists[w]| && reply.Grant? then [Granted(w, c.lists[w][pc.i], reply.group)]
    else if pc.Recording? then [Noted(w, pc.status)]
    else []
  }

  /** `save_region_map->insert`, done only for a non-empty answer; a key that is there stays as it is. */
  function Save(m: map<Id, Group>, id: Id, group: Group): map<Id, Group> {
    if group != [] && id !in m then m[id := group] else m
  }

  function WorkerStep(c: Config, s: State, w: nat, reply: Reply): State
    requires Shaped(c, s) && w < |c.lists|
  {
    var pc := s.workers[w];
    State(
      s.stop || pc.Raising?,
      if pc.Counting? then s.counters[w := s.counters[w] + 1] else s.counters,
      if pc.Saving? && pc.i < |c.lists[w]| then s.saved[w := Save(s.saved[w], c.lists[w][pc.i], pc.group)] else s.saved,
      if pc.Ready? then s.exited[w := false] else if pc.Exiting? then s.exited[w := true] else s.exited,
      if pc.Recording? then pc.status else s.lastError,
      s.workers[w := NextPc(c, s, w, reply)],
      s.main,
      s.log + News(c, s, w, reply))
  }

  function Total(lists: seq<seq<Id>>): nat {
    if lists == [] then 0 else Total(lists[..|lists| - 1]) + |lists[|lists| - 1]|
  }

  /** The loop that waits for the exit flags also compares two timestamps, but never takes the second one again, so
      it has no timeout. */
  function NextMain(c: Config, s: State, launched: bool): MainPc
    requires Shaped(c, s)
  {
    match s.main
    case Launching(w) =>
      if w >= |c.lists| then PollStop
      else if c.present[w] && !launched then Aborted(w)
      else Launching(w + 1)
    case PollStop => if s.stop then WaitFlag(0) else PollCount(0, 0)
    case PollCount(w, sum) =>
      if w < |c.lists| then PollCount(w + 1, sum + s.counters[w])
      else if sum >= Total(c.lists) then WaitFlag(0) else PollStop
    case WaitFlag(w) =>
      if w >= |c.lists| then FinalCheck else if s.exited[w] then WaitFlag(w + 1) else WaitFlag(0)
    case FinalCheck => if s.stop then ReadError else Returned(false, Ok)
    case ReadError => Returned(true, s.lastError)
    case Returned(stopped, result) => Returned(stopped, result)
    case Aborted(w) => Aborted(w)
  }

  function MainStep(c: Config, s: State, launched: bool): State
    requires Shaped(c, s)
  {
    var next := NextMain(c, s, launched);
    if s.main.Launching? && s.main.next < |c.lists| then
      var w := s.main.next;
      if !c.present[w] then s.(main := next, workers := s.workers[w := Absent], exited := s.exited[w := true])
      else if launched then s.(main := next, workers := s.workers[w := Ready])
      else s.(main := next)
    else s.(main := next)
  }

  function Apply(c: Config, s: State, a: Action): State
    requires Shaped(c, s)
  {
    match a
    case Work(w, reply) => if w < |c.lists| then WorkerStep(c, s, w, reply) else s
    case Supervise(launched) => MainStep(c, s, launched)
  }

  function ExecFrom(c: Config, s: State, acts: seq<Action>): (t: State)
    requires Shaped(c, s)
    ensures Shaped(c, t)
  {
    if acts == [] then s else Apply(c, ExecFrom(c, s, acts[..|acts| - 1]), acts[|acts| - 1])
  }

  function Exec(c: Config, acts: seq<Action>): (s: State)
    requires WellFormed(c)
    ensures Shaped(c, s)
  {
    ExecFrom(c, Start(c), acts)
  }

  // ----- what a worker has done

  datatype Answer = Answer(id: Id, group: Group)

  /** The accepted requests of worker `w`, in order. */
  function Grants(log: seq<Event>, w: nat): seq<Answer> {
    if log == [] then []
    else
      var e := log[|log| - 1];
      Grants(log[..|log| - 1], w) + if e.Granted? && e.worker == w then [Answer(e.id, e.group)] else []
  }

  function Ids(answers: seq<Answer>): (ids: seq<Id>)
    ensures |ids| == |answers|
    ensures forall i :: 0 <= i < |ids| ==> ids[i] == answers[i].id
  {
    seq(|answers|, i requires 0 <= i < |answers| => answers[i].id)
  }

  function SavedBy(answers: seq<Answer>): map<Id, Group> {
    if answers == [] then map[]
    else Save(SavedBy(answers[..|answers| - 1]), answers[|answers| - 1].id, answers[|answers| - 1].group)
  }

  /** How many accepted answers worker `w` has saved and how many it has counted. */
  function Settled(pc: Pc, granted: nat): int {
    if pc.Saving? || pc.Counting? then granted - 1 else granted
  }

  /** What worker `w` owes to its list: the answers are those to a prefix of the list, in order. */
  ghost predicate Tracks(list: seq<Id>, pc: Pc, counter: nat, saved: map<Id, Group>, answers: seq<Answer>) {
    && Ids(answers) <= list
    && counter == Settled(pc, |answers|)
    && (pc.Check? || pc.Sending? || pc.Waiting? ==> pc.i == |answers|)
    && (pc.Sending? || pc.Waiting? ==> pc.i < |list|)
    && (pc.Saving? ==> answers != [] && pc.i == |answers| - 1 && answers[pc.i] == Answer(list[pc.i], pc.group))
    && (pc.Counting? ==> answers != [] && pc.i == |answers| - 1)
    && (pc.Unlaunched? || pc.Absent? || pc.Ready? ==> answers == [])
    && saved == SavedBy(if pc.Saving? && answers != [] then answers[..|answers| - 1] else answers)
  }

  ghost predicate TracksAll(c: Config, s: State) {
    && Shaped(c, s)
    && forall w :: 0 <= w < |c.lists| ==>
         Tracks(c.lists[w], s.workers[w], s.counters[w], s.saved[w], Grants(s.log, w))
  }

  lemma GrantsAppend(log: seq<Event>, e: Event, w: nat)
    ensures Grants(log + [e], w) == Grants(log, w) + if e.Granted? && e.worker == w then [Answer(e.id, e.group)] else []
  {
    assert (log + [e])[..|log|] == log;
  }

  lemma GrantsGrow(c: Config, s: State, v: nat, reply: Reply, w: nat)
    requires Shaped(c, s) && v < |c.lists|
    ensures Grants(s.log + News(c, s, v, reply), w)
         == Grants(s.log, w)
            + if v == w && s.workers[v].Waiting? && s.workers[v].i < |c.lists[v]| && reply.Grant?
              then [Answer(c.lists[v][s.workers[v].i], reply.group)] else []
  {
    var news := News(c, s, v, reply);
    if news == [] {
      assert s.log + news == s.log;
    } else {
      GrantsAppend(s.log, news[0], w);
      assert news == [news[0]];
    }
  }

  lemma GrantTracks(list: seq<Id>, i: nat, counter: nat, saved: map<Id, Group>, answers: seq<Answer>, group: Group)
    requires Tracks(list, Waiting(i), counter, saved, answers)
    ensures Tracks(list, Saving(i, group), counter, saved, answers + [Answer(list[i], group)])
  {
    var more := answers + [Answer(list[i], group)];
    assert more[..|more| - 1] == answers;
    assert Ids(more) == Ids(answers) + [list[i]];
  }

  lemma SaveTracks(list: seq<Id>, i: nat, counter: nat, saved: map<Id, Group>, answers: seq<Answer>, group: Group)
    requires Tracks(list, Saving(i, group), counter, saved, answers)
    ensures i < |list| && Tracks(list, Counting(i), counter, Save(saved, list[i], group), answers)
  {
  }

  /** Every other move leaves the answers alone. */
  lemma MoveTracks(c: Config, s: State, w: nat, reply: Reply)
    requires Shaped(c, s) && w < |c.lists|
    requires Tracks(c.lists[w], s.workers[w], s.counters[w], s.saved[w], Grants(s.log, w))
    requires !s.workers[w].Saving? && !(s.workers[w].Waiting? && reply.Grant?)
    ensures Tracks(c.lists[w], NextPc(c, s, w, reply),
                   if s.workers[w].Counting? then s.counters[w] + 1 else s.counters[w], s.saved[w], Grants(s.log, w))
  {
  }

  lemma WorkerTracks(c: Config, s: State, w: nat, reply: Reply)
    requires TracksAll(c, s) && w < |c.lists|
    ensures var t := WorkerStep(c, s, w, reply);
            Tracks(c.lists[w], t.workers[w], t.counters[w], t.saved[w], Grants(t.log, w))
  {
    GrantsGrow(c, s, w, reply, w);
    var pc := s.workers[w];
    if pc.Waiting? && reply.Grant? {
      GrantTracks(c.lists[w], pc.i, s.counters[w], s.saved[w], Grants(s.log, w), reply.group);
    } else {
      assert Grants(s.log + News(c, s, w, reply), w) == Grants(s.log, w);
      if pc.Saving? {
        SaveTracks(c.lists[w], pc.i, s.counters[w], s.saved[w], Grants(s.log, w), pc.group);
      } else {
        MoveTracks(c, s, w, reply);
      }
    }
  }

  lemma WorkerTracksAll(c: Config, s: State, w: nat, reply: Reply)
    requires TracksAll(c, s) && w < |c.lists|
    ensures TracksAll(c, WorkerStep(c, s, w, reply))
  {
    var t := WorkerStep(c, s, w, reply);
    forall v | 0 <= v < |c.lists|
      ensures Tracks(c.lists[v], t.workers[v], t.counters[v], t.saved[v], Grants(t.log, v))
    {
      if v == w {
        WorkerTracks(c, s, w, reply);
      } else {
        GrantsGrow(c, s, w, reply, v);
        assert Grants(t.log, v) == Grants(s.log, v);
      }
    }
  }

  // ----- flags, counters and the supervisor

  function Sum(s: seq<nat>): nat {
    if s == [] then 0 else Sum(s[..|s| - 1]) + s[|s| - 1]
  }

  lemma {:induction false} SumBump(s: seq<nat>, w: nat)
    requires w < |s|
    ensures Sum(s[w := s[w] + 1]) == Sum(s) + 1
  {
    var n := |s| - 1;
    if w == n {
      assert s[w := s[w] + 1][..n] == s[..n];
    } else {
      SumBump(s[..n], w);
      assert s[w := s[w] + 1][..n] == s[..n][w := s[w] + 1];
    }
  }

  lemma SumPrefixGrows(s: seq<nat>, w: nat, k: nat)
    requires w < |s| && k <= |s|
    ensures Sum(s[..k]) <= Sum(s[w := s[w] + 1][..k])
  {
    if w < k {
      SumBump(s[..k], w);
      assert s[w := s[w] + 1][..k] == s[..k][w := s[w] + 1];
    } else {
      assert s[w := s[w] + 1][..k] == s[..k];
    }
  }

  lemma {:induction false} SumTight(counters: seq<nat>, lists: seq<seq<Id>>, w: nat)
    requires |counters| == |lists| && w < |lists|
    requires forall v :: 0 <= v < |lists| ==> counters[v] <= |lists[v]|
    requires Sum(counters) >= Total(lists)
    ensures counters[w] == |lists[w]|
  {
    var n := |lists| - 1;
    SumBelow(counters[..n], lists[..n]);
    if w < n {
      SumTight(counters[..n], lists[..n], w);
    }
  }

  lemma {:induction false} SumBelow(counters: seq<nat>, lists: seq<seq<Id>>)
    requires |counters| == |lists|
    requires forall v :: 0 <= v < |lists| ==> counters[v] <= |lists[v]|
    ensures Sum(counters) <= Total(lists)
  {
    if lists != [] {
      SumBelow(counters[..|lists| - 1], lists[..|lists| - 1]);
    }
  }

  /** A worker that will not touch its exit flag any more. */
  predicate Quiet(pc: Pc) {
    pc.Absent? || pc.Recording? || pc.Dead?
  }

  ghost predicate Flagged(c: Config, s: State) {
    && Shaped(c, s)
    && (s.main.Launching? ==> s.main.next <= |c.lists|)
    && (s.main.Aborted? ==> s.main.next < |c.lists|)
    && (forall v :: 0 <= v < |c.lists| ==>
          (s.workers[v].Unlaunched? <==> (s.main.Launching? || s.main.Aborted?) && s.main.next <= v))
    && (forall v :: 0 <= v < |c.lists| && s.exited[v] ==> Quiet(s.workers[v]))
    && (s.main.WaitFlag? ==> s.main.next <= |c.lists| && forall v :: 0 <= v < s.main.next ==> s.exited[v])
    && (s.main.FinalCheck? || s.main.ReadError? || s.main.Returned? ==> forall v :: 0 <= v < |c.lists| ==> s.exited[v])
  }

  /** What the supervisor has read is at most what the counters say now. */
  ghost predicate Summed(c: Config, s: State) {
    && Shaped(c, s)
    && (s.main.PollCount? ==> s.main.next <= |c.lists| && s.main.sum <= Sum(s.counters[..s.main.next]))
    && (s.main.WaitFlag? || s.main.FinalCheck? ==> s.stop || Sum(s.counters) >= Total(c.lists))
    && (s.main.Returned? && !s.main.stopped ==> Sum(s.counters) >= Total(c.lists))
  }

  lemma MoveQuiet(c: Config, s: State, w: nat, reply: Reply)
    requires Shaped(c, s) && w < |c.lists|
    ensures var pc, next := s.workers[w], NextPc(c, s, w, reply);
            && (Quiet(next) <==> Quiet(pc) || pc.Exiting?)
            && (next.Unlaunched? <==> pc.Unlaunched?)
  {
  }

  lemma WorkerFlagged(c: Config, s: State, w: nat, reply: Reply)
    requires Flagged(c, s) && w < |c.lists|
    ensures Flagged(c, WorkerStep(c, s, w, reply))
  {
    MoveQuiet(c, s, w, reply);
  }

  lemma WorkerSummed(c: Config, s: State, w: nat, reply: Reply)
    requires Summed(c, s) && w < |c.lists|
    ensures Summed(c, WorkerStep(c, s, w, reply))
  {
    SummedMoves(c, s, WorkerStep(c, s, w, reply), w);
  }

  lemma SummedMoves(c: Config, s: State, t: State, w: nat)
    requires Summed(c, s) && Shaped(c, t) && w < |s.counters|
    requires t.main == s.main && (s.stop ==> t.stop)
    requires t.counters == s.counters || t.counters == s.counters[w := s.counters[w] + 1]
    ensures Summed(c, t)
  {
    SumBump(s.counters, w);
    if s.main.PollCount? {
      SumPrefixGrows(s.counters, w, s.main.next);
    }
  }

  lemma MainFlagged(c: Config, s: State, launched: bool)
    requires Flagged(c, s)
    ensures Flagged(c, MainStep(c, s, launched))
  {
    if s.main.Launching? {
      LaunchFlagged(c, s, launched);
    } else {
      assert MainStep(c, s, launched) == s.(main := NextMain(c, s, launched));
      if s.main.WaitFlag? {
        WaitFlagged(c, s, launched);
      }
    }
  }

  lemma LaunchFlagged(c: Config, s: State, launched: bool)
    requires Flagged(c, s) && s.main.Launching?
    ensures Flagged(c, MainStep(c, s, launched))
  {
  }

  lemma WaitFlagged(c: Config, s: State, launched: bool)
    requires Flagged(c, s) && s.main.WaitFlag?
    ensures Flagged(c, s.(main := NextMain(c, s, launched)))
  {
  }

  lemma MainSummed(c: Config, s: State, launched: bool)
    requires Summed(c, s)
    ensures Summed(c, MainStep(c, s, launched))
  {
    if s.main.PollCount? {
      var w := s.main.next;
      if w < |c.lists| {
        assert s.counters[..w + 1][..w] == s.counters[..w];
      } else {
        assert s.counters[..w] == s.counters;
      }
    }
  }

  lemma LaunchTracks(list: seq<Id>, pc: Pc, counter: nat, saved: map<Id, Group>, answers: seq<Answer>)
    requires Tracks(list, Unlaunched, counter, saved, answers) && (pc.Ready? || pc.Absent?)
    ensures Tracks(list, pc, counter, saved, answers)
  {
  }

  lemma MainTracksAll(c: Config, s: State, launched: bool)
    requires Flagged(c, s) && TracksAll(c, s)
    ensures TracksAll(c, MainStep(c, s, launched))
  {
    var t := MainStep(c, s, launched);
    forall w | 0 <= w < |c.lists|
      ensures Tracks(c.lists[w], t.workers[w], t.counters[w], t.saved[w], Grants(t.log, w))
    {
      assert Tracks(c.lists[w], s.workers[w], s.counters[w], s.saved[w], Grants(s.log, w));
      if t.workers[w] != s.workers[w] {
        LaunchTracks(c.lists[w], t.workers[w], s.counters[w], s.saved[w], Grants(s.log, w));
      }
    }
  }

  lemma {:induction false} ExecTracks(c: Config, acts: seq<Action>)
    requires WellFormed(c)
    ensures TracksAll(c, Exec(c, acts)) && Flagged(c, Exec(c, acts)) && Summed(c, Exec(c, acts))
  {
    if acts != [] {
      var s := Exec(c, acts[..|acts| - 1]);
      ExecTracks(c, acts[..|acts| - 1]);
      match acts[|acts| - 1]
      case Work(w, reply) =>
        if w < |c.lists| {
          WorkerTracksAll(c, s, w, reply);
          WorkerFlagged(c, s, w, reply);
          WorkerSummed(c, s, w, reply);
        }
      case Supervise(launched) =>
        MainTracksAll(c, s, launched);
        MainFlagged(c, s, launched);
        MainSummed(c, s, launched);
    }
  }

  // ----- what the stop flag stands for

  predicate Over(pc: Pc) {
    pc.Raising? || pc.Exiting? || pc.Recording? || pc.Dead?
  }

  /** Worker `w` has given up before the end of its list. */
  ghost predicate Short(c: Config, s: State, w: nat)
    requires Shaped(c, s)
  {
    w < |c.lists| && Over(s.workers[w]) && |Grants(s.log, w)| < |c.lists[w]|
  }

  ghost predicate Blamed(c: Config, s: State) {
    && Shaped(c, s)
    && (s.stop ==> exists w :: Short(c, s, w))
    && (forall w :: 0 <= w < |c.lists| && s.workers[w].Raising? ==> Short(c, s, w))
    && (s.main.ReadError? || (s.main.Returned? && s.main.stopped) ==> s.stop)
  }

  lemma OverStays(c: Config, s: State, w: nat, reply: Reply)
    requires Shaped(c, s) && w < |c.lists| && Over(s.workers[w])
    ensures Over(NextPc(c, s, w, reply)) && !s.workers[w].Waiting?
  {
  }

  lemma NoNewGrant(c: Config, s: State, v: nat, reply: Reply, w: nat)
    requires Shaped(c, s) && v < |c.lists| && (v == w ==> !s.workers[v].Waiting?)
    ensures |Grants(s.log + News(c, s, v, reply), w)| == |Grants(s.log, w)|
  {
    GrantsGrow(c, s, v, reply, w);
  }

  lemma ShortMoves(c: Config, s: State, t: State, w: nat)
    requires Shaped(c, s) && Shaped(c, t) && Short(c, s, w)
    requires Over(t.workers[w]) && |Grants(t.log, w)| == |Grants(s.log, w)|
    ensures Short(c, t, w)
  {
  }

  /** Nobody who has given up goes on. */
  lemma ShortStays(c: Config, s: State, v: nat, reply: Reply, w: nat)
    requires Shaped(c, s) && v < |c.lists| && Short(c, s, w)
    ensures Short(c, WorkerStep(c, s, v, reply), w)
  {
    OverStays(c, s, w, reply);
    NoNewGrant(c, s, v, reply, w);
    ShortMoves(c, s, WorkerStep(c, s, v, reply), w);
  }

  /** Only a refusal sends a worker to raise the flag, and then its list is not finished. */
  lemma RefusedIsShort(c: Config, s: State, w: nat, reply: Reply)
    requires TracksAll(c, s) && w < |c.lists| && s.workers[w].Waiting? && reply.Refuse?
    ensures Short(c, WorkerStep(c, s, w, reply), w)
  {
    assert Tracks(c.lists[w], s.workers[w], s.counters[w], s.saved[w], Grants(s.log, w));
    GrantsGrow(c, s, w, reply, w);
  }

  lemma WorkerBlamed(c: Config, s: State, v: nat, reply: Reply)
    requires TracksAll(c, s) && Blamed(c, s) && v < |c.lists|
    ensures Blamed(c, WorkerStep(c, s, v, reply))
  {
    var t := WorkerStep(c, s, v, reply);
    forall w | 0 <= w < |c.lists| && t.workers[w].Raising?
      ensures Short(c, t, w)
    {
      if s.workers[w].Raising? {
        ShortStays(c, s, v, reply, w);
      } else {
        RefusedIsShort(c, s, w, reply);
      }
    }
    if t.stop {
      var w :| Short(c, s, w);
      ShortStays(c, s, v, reply, w);
    }
  }

  lemma MainBlamed(c: Config, s: State, launched: bool)
    requires Blamed(c, s) && Flagged(c, s)
    ensures Blamed(c, MainStep(c, s, launched))
  {
    var t := MainStep(c, s, launched);
    forall w | Short(c, s, w)
      ensures Short(c, t, w)
    {
    }
  }

  lemma {:induction false} ExecBlamed(c: Config, acts: seq<Action>)
    requires WellFormed(c)
    ensures Blamed(c, Exec(c, acts))
  {
    if acts != [] {
      var s := Exec(c, acts[..|acts| - 1]);
      ExecBlamed(c, acts[..|acts| - 1]);
      ExecTracks(c, acts[..|acts| - 1]);
      match acts[|acts| - 1]
      case Work(w, reply) => if w < |c.lists| { WorkerBlamed(c, s, w, reply); }
      case Supervise(launched) => MainBlamed(c, s, launched);
    }
  }

  // ----- the promises of `Run`

  /** If `Run` returns and found the stop flag down, then every region of every list got exactly one accepted
      answer, in list order, and each save map is what these answers amount to. */
  lemma RunComplete(c: Config, acts: seq<Action>, w: nat)
    requires WellFormed(c) && w < |c.lists|
    requires Exec(c, acts).main.Returned? && !Exec(c, acts).main.stopped
    ensures var s := Exec(c, acts);
            && Ids(Grants(s.log, w)) == c.lists[w]
            && s.counters[w] == |c.lists[w]|
            && s.saved[w] == SavedBy(Grants(s.log, w))
  {
    var s := Exec(c, acts);
    ExecTracks(c, acts);
    forall v | 0 <= v < |c.lists|
      ensures s.counters[v] <= |c.lists[v]|
    {
      assert Tracks(c.lists[v], s.workers[v], s.counters[v], s.saved[v], Grants(s.log, v));
    }
    SumTight(s.counters, c.lists, w);
    assert Tracks(c.lists[w], s.workers[w], s.counters[w], s.saved[w], Grants(s.log, w));
  }

  /** So `Run` finds the flag down exactly if every list was worked through to its end. */
  lemma RunCompleteExactly(c: Config, acts: seq<Action>)
    requires WellFormed(c) && Exec(c, acts).main.Returned?
    ensures !Exec(c, acts).main.stopped <==>
      forall w :: 0 <= w < |c.lists| ==> Ids(Grants(Exec(c, acts).log, w)) == c.lists[w]
  {
    var s := Exec(c, acts);
    if s.main.stopped {
      ExecBlamed(c, acts);
      var w: nat :| Short(c, s, w);
      assert |Ids(Grants(s.log, w))| < |c.lists[w]|;
    } else {
      forall w | 0 <= w < |c.lists|
        ensures Ids(Grants(s.log, w)) == c.lists[w]
      {
        RunComplete(c, acts, w);
      }
    }
  }

  /** What the answers amount to when no region is listed twice: exactly the non-empty ones. */
  lemma {:induction false} SavedExactly(answers: seq<Answer>)
    requires forall i, j :: 0 <= i < j < |answers| ==> answers[i].id != answers[j].id
    ensures forall i :: 0 <= i < |answers| ==>
              if answers[i].group == [] then answers[i].id !in SavedBy(answers)
              else answers[i].id in SavedBy(answers) && SavedBy(answers)[answers[i].id] == answers[i].group
    ensures forall id :: id in SavedBy(answers) ==> id in Ids(answers)
  {
    if answers != [] {
      var n := |answers| - 1;
      SavedExactly(answers[..n]);
      assert answers == answers[..n] + [answers[n]];
      assert Ids(answers) == Ids(answers[..n]) + [answers[n].id];
      assert answers[n].id !in Ids(answers[..n]);
    }
  }

  /** `Run` never returns while a worker can still write to the exit flag on its stack: from then on, whatever
      the detached threads do, no worker is before or at one of its two writes. */
  lemma {:induction false} FlagsOutliveWorkers(c: Config, acts: seq<Action>, more: seq<Action>, w: nat)
    requires WellFormed(c) && w < |c.lists|
    requires Exec(c, acts).main.Returned?
    ensures var t := ExecFrom(c, Exec(c, acts), more);
            Quiet(t.workers[w]) && t.main.Returned? && t.exited == Exec(c, acts).exited
  {
    if more == [] {
      ExecTracks(c, acts);
    } else {
      var t := ExecFrom(c, Exec(c, acts), more[..|more| - 1]);
      FlagsOutliveWorkers(c, acts, more[..|more| - 1], w);
      match more[|more| - 1]
      case Work(v, reply) =>
        if v < |c.lists| {
          FlagsOutliveWorkers(c, acts, more[..|more| - 1], v);
          MoveQuiet(c, t, v, reply);
        }
      case Supervise(_) =>
    }
  }

  // ----- the exit flags

  /** About to write to its exit flag. */
  predicate AtWrite(pc: Pc) {
    pc.Ready? || pc.Exiting?
  }

  predicate Harmless(pc: Pc) {
    Quiet(pc) || pc.Unlaunched?
  }

  /** Steps of a worker before it is at a write. */
  function Ahead(pc: Pc): nat {
    match pc
    case Saving(_, _) => 6
    case Counting(_) => 5
    case Check(_) => 4
    case Sending(_) => 3
    case Waiting(_) => 2
    case Raising(_) => 1
    case _ => 0
  }

  /** Any worker that is under way can be brought to a write. */
  lemma {:induction false} CanWrite(c: Config, s: State, w: nat) returns (more: seq<Action>)
    requires Shaped(c, s) && w < |c.lists| && !Harmless(s.workers[w])
    ensures AtWrite(ExecFrom(c, s, more).workers[w])
    decreases Ahead(s.workers[w])
  {
    if AtWrite(s.workers[w]) {
      more := [];
    } else {
      var go := Work(w, Refuse(EINTERNAL));
      var rest := CanWrite(c, WorkerStep(c, s, w, Refuse(EINTERNAL)), w);
      more := [go] + rest;
      FirstThen(c, s, go, rest);
    }
  }

  lemma {:induction false} FirstThen(c: Config, s: State, a: Action, rest: seq<Action>)
    requires Shaped(c, s)
    ensures ExecFrom(c, s, [a] + rest) == ExecFrom(c, Apply(c, s, a), rest)
  {
    if rest == [] {
      assert [a] + rest == [a] && [a][..0] == [];
      assert ExecFrom(c, s, []) == s;
    } else {
      var n := |rest| - 1;
      FirstThen(c, s, a, rest[..n]);
      assert ([a] + rest)[..n + 1] == [a] + rest[..n];
    }
  }

  lemma {:induction false} HarmlessStays(c: Config, s: State, more: seq<Action>, w: nat)
    requires Shaped(c, s) && (s.main.Returned? || s.main.Aborted?) && w < |c.lists| && Harmless(s.workers[w])
    ensures var t := ExecFrom(c, s, more); t.main == s.main && Harmless(t.workers[w])
  {
    if more != [] {
      HarmlessStays(c, s, more[..|more| - 1], w);
    }
  }

  /** Whether anybody can still write to an exit flag after `Run` has returned. */
  ghost predicate Dangling(c: Config, s: State, more: seq<Action>, w: nat)
    requires Shaped(c, s)
  {
    w < |c.lists| && AtWrite(ExecFrom(c, s, more).workers[w])
  }

  /** The flags are safe after `Run` exactly if every worker that was started has raised its own.  That is always so
      unless the launch of a later worker failed. */
  lemma FlagsSafeExactly(c: Config, acts: seq<Action>)
    requires WellFormed(c) && (Exec(c, acts).main.Returned? || Exec(c, acts).main.Aborted?)
    ensures (exists more, w :: Dangling(c, Exec(c, acts), more, w)) <==>
              exists w :: 0 <= w < |c.lists| && !Harmless(Exec(c, acts).workers[w])
    ensures Exec(c, acts).main.Returned? ==> forall w :: 0 <= w < |c.lists| ==> Quiet(Exec(c, acts).workers[w])
  {
    var s := Exec(c, acts);
    ExecTracks(c, acts);
    if w: int :| 0 <= w < |c.lists| && !Harmless(s.workers[w]) {
      var more := CanWrite(c, s, w);
      assert Dangling(c, s, more, w);
    } else {
      forall more, w: nat
        ensures !Dangling(c, s, more, w)
      {
        if w < |c.lists| {
          HarmlessStays(c, s, more, w);
        }
      }
    }
  }

  // ----- the returned status

  /** What `last_error_` was last overwritten with. */
  function LastNoted(log: seq<Event>): Status {
    if log == [] then Ok
    else if log[|log| - 1].Noted? then log[|log| - 1].status
    else LastNoted(log[..|log| - 1])
  }

  lemma NotedAppend(log: seq<Event>, news: seq<Event>)
    requires |news| <= 1
    ensures LastNoted(log + news) == if |news| == 1 && news[0].Noted? then news[0].status else LastNoted(log)
  {
    if news == [] {
      assert log + news == log;
    } else {
      assert (log + news)[..|log|] == log;
    }
  }

  lemma {:induction false} ExecNoted(c: Config, acts: seq<Action>)
    requires WellFormed(c)
    ensures Exec(c, acts).lastError == LastNoted(Exec(c, acts).log)
  {
    if acts != [] {
      var s := Exec(c, acts[..|acts| - 1]);
      ExecNoted(c, acts[..|acts| - 1]);
      match acts[|acts| - 1]
      case Work(w, reply) =>
        if w < |c.lists| {
          NotedAppend(s.log, News(c, s, w, reply));
        }
      case Supervise(_) =>
    }
  }

  /** The moment at which `Run` makes up its answer. */
  ghost predicate AnswersAt(c: Config, acts: seq<Action>, k: nat)
    requires WellFormed(c)
  {
    k < |acts| && !Exec(c, acts[..k]).main.Returned? && Exec(c, acts[..k + 1]).main == Exec(c, acts).main
  }

  lemma {:induction false} AnswerMoment(c: Config, acts: seq<Action>) returns (k: nat)
    requires WellFormed(c) && Exec(c, acts).main.Returned?
    ensures AnswersAt(c, acts, k)
  {
    var n := |acts| - 1;
    if Exec(c, acts[..n]).main.Returned? {
      k := AnswerMoment(c, acts[..n]);
      assert acts[..n][..k] == acts[..k] && acts[..n][..k + 1] == acts[..k + 1];
    } else {
      k := n;
      assert acts[..n + 1] == acts;
    }
  }

  /** The answer is an error if and only if `Run` saw the stop flag up and the status noted last at that moment is an
      error. */
  lemma StatusExactly(c: Config, acts: seq<Action>, k: nat)
    requires WellFormed(c) && Exec(c, acts).main.Returned? && AnswersAt(c, acts, k)
    ensures Exec(c, acts).main.result.Error? <==>
              Exec(c, acts).main.stopped && LastNoted(Exec(c, acts[..k]).log).Error?
    ensures Exec(c, acts).main.stopped ==> Exec(c, acts).main.result == LastNoted(Exec(c, acts[..k]).log)
  {
    assert acts[..k + 1][..k] == acts[..k];
    ExecNoted(c, acts[..k]);
  }

  // ----- what is saved

  lemma {:induction false} SavedIds(answers: seq<Answer>, id: Id)
    requires id in SavedBy(answers)
    ensures id in Ids(answers)
  {
    var n := |answers| - 1;
    assert Ids(answers) == Ids(answers[..n]) + [answers[n].id];
    if id in SavedBy(answers[..n]) {
      SavedIds(answers[..n], id);
    }
  }

  /** At any time, only regions of its list are in a save map. */
  lemma SavedWithin(c: Config, acts: seq<Action>, w: nat, id: Id)
    requires WellFormed(c) && w < |c.lists| && id in Exec(c, acts).saved[w]
    ensures id in c.lists[w]
  {
    var s := Exec(c, acts);
    ExecTracks(c, acts);
    var answers := Grants(s.log, w);
    assert Tracks(c.lists[w], s.workers[w], s.counters[w], s.saved[w], answers);
    if s.workers[w].Saving? {
      var n := |answers| - 1;
      SavedIds(answers[..n], id);
      assert Ids(answers[..n]) == Ids(answers)[..n];
    } else {
      SavedIds(answers, id);
    }
  }
}
