/** Schedules of the data phase of a backup that show where it goes wrong. */
module BackupWorkerCases {
  import opened Status
  import opened Entities
  import opened BackupWorkers

  lemma Then(c: Config, acts: seq<Action>, a: Action)
    requires WellFormed(c)
    ensures Exec(c, acts + [a]) == Apply(c, Exec(c, acts), a)
  {
    assert (acts + [a])[..|acts|] == acts;
  }

  /** Three workers, nothing counted or saved. */
  function At(stop: bool, exited: seq<bool>, err: Status, workers: seq<Pc>, main: MainPc, log: seq<Event>): State {
    State(stop, [0, 0, 0], [map[], map[], map[]], exited, err, workers, main, log)
  }

  /** Store regions, index regions, and no document nodes. */
  function Two(id: Id, other: Id): Config {
    Config([[id], [other], []], [true, true, false])
  }

  const TICK := Supervise(true)

  lemma Launched(id: Id, other: Id) returns (acts: seq<Action>)
    ensures Exec(Two(id, other), acts) == At(false, [false, false, true], Ok, [Ready, Ready, Absent], PollStop, [])
  {
    var c := Two(id, other);
    assert Start(c) == At(false, [false, false, false], Ok, [Unlaunched, Unlaunched, Unlaunched], Launching(0), []);
    Then(c, [], TICK);
    Then(c, [TICK], TICK);
    acts := [TICK] + [TICK];
    assert Exec(c, acts) == At(false, [false, false, false], Ok, [Ready, Ready, Unlaunched], Launching(2), []);
    Then(c, acts, TICK);
    Then(c, acts + [TICK], TICK);
    acts := acts + [TICK] + [TICK];
  }

  /** The store worker has sent its request. */
  lemma FirstAsked(id: Id, other: Id, err: Errno) returns (acts: seq<Action>)
    ensures Exec(Two(id, other), acts)
         == At(false, [false, false, true], Ok, [Waiting(0), Ready, Absent], PollStop, [Asked(0, id)])
  {
    var c, go := Two(id, other), Work(0, Refuse(err));
    acts := Launched(id, other);
    Then(c, acts, go);
    Then(c, acts + [go], go);
    Then(c, acts + [go] + [go], go);
    acts := acts + [go] + [go] + [go];
  }

  /** It is refused, raises the stop flag and is about to leave. */
  lemma FirstRefused(id: Id, other: Id, err: Errno) returns (acts: seq<Action>)
    ensures Exec(Two(id, other), acts)
         == At(true, [false, false, true], Ok, [Exiting(Error(err)), Ready, Absent], PollStop, [Asked(0, id)])
  {
    var c, go := Two(id, other), Work(0, Refuse(err));
    acts := FirstAsked(id, other, err);
    Then(c, acts, go);
    Then(c, acts + [go], go);
    acts := acts + [go] + [go];
  }

  /** The index worker sees the stop flag and is about to leave without having asked for anything. */
  lemma SecondLeaving(id: Id, other: Id, err: Errno) returns (acts: seq<Action>)
    ensures Exec(Two(id, other), acts)
         == At(true, [false, false, true], Ok, [Exiting(Error(err)), Exiting(Ok), Absent], PollStop, [Asked(0, id)])
  {
    var c, go := Two(id, other), Work(1, Refuse(err));
    acts := FirstRefused(id, other, err);
    Then(c, acts, go);
    Then(c, acts + [go], go);
    acts := acts + [go] + [go];
  }

  lemma BothFlagged(id: Id, other: Id, err: Errno) returns (acts: seq<Action>)
    ensures Exec(Two(id, other), acts)
         == At(true, [true, true, true], Ok, [Recording(Error(err)), Recording(Ok), Absent], PollStop, [Asked(0, id)])
  {
    var c, first, second := Two(id, other), Work(0, Refuse(err)), Work(1, Refuse(err));
    acts := SecondLeaving(id, other, err);
    Then(c, acts, first);
    Then(c, acts + [first], second);
    acts := acts + [first] + [second];
  }

  /** With all exit flags up, `Run` comes to its last look at the error. */
  lemma ReadsError(c: Config, acts: seq<Action>, err: Status, workers: seq<Pc>, log: seq<Event>)
    returns (more: seq<Action>)
    requires WellFormed(c) && |c.lists| == 3
    requires Exec(c, acts) == At(true, [true, true, true], err, workers, PollStop, log)
    ensures Exec(c, more) == At(true, [true, true, true], err, workers, Returned(true, err), log)
  {
    more := Waited(c, acts, err, workers, log);
    Then(c, more, TICK);
    Then(c, more + [TICK], TICK);
    Then(c, more + [TICK] + [TICK], TICK);
    more := more + [TICK] + [TICK] + [TICK];
  }

  lemma Waited(c: Config, acts: seq<Action>, err: Status, workers: seq<Pc>, log: seq<Event>)
    returns (more: seq<Action>)
    requires WellFormed(c) && |c.lists| == 3
    requires Exec(c, acts) == At(true, [true, true, true], err, workers, PollStop, log)
    ensures Exec(c, more) == At(true, [true, true, true], err, workers, WaitFlag(3), log)
  {
    Then(c, acts, TICK);
    Then(c, acts + [TICK], TICK);
    more := acts + [TICK] + [TICK];
    assert Exec(c, more) == At(true, [true, true, true], err, workers, WaitFlag(1), log);
    Then(c, more, TICK);
    Then(c, more + [TICK], TICK);
    more := more + [TICK] + [TICK];
  }

  /** A worker raises its exit flag before it notes its error, so `Run` can look too early: a region is refused and the
      answer is OK. */
  lemma FailureReturnsOk(id: Id, other: Id, err: Errno) returns (acts: seq<Action>)
    ensures Exec(Two(id, other), acts).main == Returned(true, Ok)
    ensures Grants(Exec(Two(id, other), acts).log, 0) == []
  {
    acts := BothFlagged(id, other, err);
    acts := ReadsError(Two(id, other), acts, Ok, [Recording(Error(err)), Recording(Ok), Absent], [Asked(0, id)]);
    GrantsAppend([], Asked(0, id), 0);
    assert [Asked(0, id)] == [] + [Asked(0, id)];
  }

  lemma BothNoted(id: Id, other: Id, err: Errno) returns (acts: seq<Action>)
    ensures Exec(Two(id, other), acts)
         == At(true, [true, true, true], Ok, [Dead, Dead, Absent], PollStop,
               [Asked(0, id), Noted(0, Error(err)), Noted(1, Ok)])
  {
    var c, first, second := Two(id, other), Work(0, Refuse(err)), Work(1, Refuse(err));
    acts := BothFlagged(id, other, err);
    Then(c, acts, first);
    Then(c, acts + [first], second);
    acts := acts + [first] + [second];
    assert [Asked(0, id)] + [Noted(0, Error(err))] + [Noted(1, Ok)]
        == [Asked(0, id), Noted(0, Error(err)), Noted(1, Ok)];
  }

  /** And a worker that leaves without an error of its own overwrites the one that was noted: again a region is refused,
      the error is on record, and the answer is OK. */
  lemma ErrorOverwritten(id: Id, other: Id, err: Errno) returns (acts: seq<Action>)
    ensures Exec(Two(id, other), acts).main == Returned(true, Ok)
    ensures Noted(0, Error(err)) in Exec(Two(id, other), acts).log
  {
    acts := BothNoted(id, other, err);
    acts := ReadsError(Two(id, other), acts, Ok, [Dead, Dead, Absent],
                       [Asked(0, id), Noted(0, Error(err)), Noted(1, Ok)]);
    assert [Asked(0, id), Noted(0, Error(err)), Noted(1, Ok)][1] == Noted(0, Error(err));
  }

  /** The launch of the index worker fails: `Run` is over, and the store worker is about to write to its exit flag. */
  lemma LaunchFailureDangles(id: Id, other: Id) returns (acts: seq<Action>)
    ensures Exec(Two(id, other), acts).main.Aborted? && AtWrite(Exec(Two(id, other), acts).workers[0])
  {
    var c := Two(id, other);
    assert Start(c) == At(false, [false, false, false], Ok, [Unlaunched, Unlaunched, Unlaunched], Launching(0), []);
    Then(c, [], TICK);
    Then(c, [TICK], Supervise(false));
    acts := [TICK] + [Supervise(false)];
  }
}
