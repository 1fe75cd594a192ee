/** The heartbeat of a backup or restore task, and the handshake that ends it.

    The main thread registers the task, may start a detached heartbeat thread that keeps re-registering it,
    and finally raises the stop flag, waits for the thread's exit flag and unregisters.  The exit flag starts
    out true and is lowered only by the thread's first step, so the wait can be over before the thread has
    done anything.  Every load and store of the two sequentially consistent flags is one step, and so is every
    single RPC of a broadcast; `Exec` runs any interleaving. */
module Heartbeat {
  import opened Status

  /** `retries` is the retry flag of the task; `rpcs` bounds the calls that one broadcast makes. */
  datatype Config = Config(retries: nat, rpcs: nat)

  datatype Rpc = Register | Unregister

  datatype BeatPc =
    | Absent                               // not started
    | Entering                             // about to lower the exit flag
    | OuterCheck
    | Broadcasting(retries: nat, rpcs: nat)
    | InnerCheck(retries: nat, err: Errno)
    | ErrorCheck(err: Errno)
    | Raising(err: Errno)
    | Recording(err: Errno)
    | Exiting                              // about to raise the exit flag
    | Dead

  datatype MainPc =
    | Registering(rpcs: nat)
    | Working(started: bool)
    | FinishCheck
    | FinishRaise
    | FinishWait
    | Unregistering(rpcs: nat)
    | Finished

  datatype State = State(stop: bool, exited: bool, beat: BeatPc, main: MainPc, lastError: Status, log: seq<Rpc>)

  /** The environment of a step: a broadcast makes one more call, or it is over with `status`. */
  datatype Choice = Again | Over(status: Status)

  datatype Action =
    | Beat(choice: Choice)
    | Main(choice: Choice, start: bool)

  function Start(c: Config): State {
    State(false, true, Absent, Registering(c.rpcs), Ok, [])
  }

  function NextBeat(c: Config, s: State, choice: Choice): BeatPc {
    match s.beat
    case Absent => Absent
    case Entering => OuterCheck
    case OuterCheck => if s.stop then Exiting else Broadcasting(c.retries, c.rpcs)
    case Broadcasting(retries, rpcs) =>
      (match choice
       case Again => if rpcs > 0 then Broadcasting(retries, rpcs - 1) else Broadcasting(retries, rpcs)
       case Over(Ok) => OuterCheck
       case Over(Error(e)) => InnerCheck(retries, e))
    case InnerCheck(retries, e) =>
      if s.stop || retries == 0 then ErrorCheck(e) else Broadcasting(retries - 1, c.rpcs)
    case ErrorCheck(e) => if s.stop then Recording(e) else Raising(e)
    case Raising(e) => Recording(e)
    case Recording(_) => Exiting
    case Exiting => Dead
    case Dead => Dead
  }

  /** One step of `DoRegister...ToCoordinatorInternal`. */
  function BeatStep(c: Config, s: State, choice: Choice): State {
    State(
      s.stop || s.beat.Raising?,
      if s.beat.Entering? then false else if s.beat.Exiting? then true else s.exited,
      NextBeat(c, s, choice),
      s.main,
      if s.beat.Recording? then Error(s.beat.err) else s.lastError,
      s.log + if s.beat.Broadcasting? && choice.Again? && s.beat.rpcs > 0 then [Register] else [])
  }

  function NextMain(c: Config, s: State, choice: Choice, start: bool): MainPc {
    match s.main
    case Registering(rpcs) =>
      (match choice
       case Again => if rpcs > 0 then Registering(rpcs - 1) else Registering(rpcs)
       case Over(Ok) => Working(false)
       case Over(Error(_)) => Finished)    // `DoFinish` of a task that never registered
    case Working(started) => if start && !started then Working(true) else FinishCheck
    case FinishCheck => if s.stop then FinishWait else FinishRaise
    case FinishRaise => FinishWait
    case FinishWait => if s.exited then Unregistering(c.rpcs) else FinishWait
    case Unregistering(rpcs) =>
      (match choice
       case Again => if rpcs > 0 then Unregistering(rpcs - 1) else Unregistering(rpcs)
       case Over(_) => Finished)
    case Finished => Finished
  }

  /** One step of the main thread: the first registration, the start of the heartbeat, and `DoFinish`. */
  function MainStep(c: Config, s: State, choice: Choice, start: bool): State {
    State(
      s.stop || s.main.FinishRaise?,
      s.exited,
      if s.main.Working? && start && !s.main.started then Entering else s.beat,
      NextMain(c, s, choice, start),
      s.lastError,
      s.log
      + (if s.main.Registering? && choice.Again? && s.main.rpcs > 0 then [Register] else [])
      + (if s.main.Unregistering? && choice.Again? && s.main.rpcs > 0 then [Unregister] else []))
  }

  function Apply(c: Config, s: State, a: Action): State {
    match a
    case Beat(choice) => BeatStep(c, s, choice)
    case Main(choice, start) => MainStep(c, s, choice, start)
  }

  function ExecFrom(c: Config, s: State, acts: seq<Action>): State {
    if acts == [] then s else Apply(c, ExecFrom(c, s, acts[..|acts| - 1]), acts[|acts| - 1])
  }

  function Exec(c: Config, acts: seq<Action>): State {
    ExecFrom(c, Start(c), acts)
  }

  // ----- safety

  /** The heartbeat is not inside a registration, and with the stop flag up it will not enter one. */
  predicate Silent(beat: BeatPc) {
    beat.Absent? || beat.Entering? || beat.OuterCheck? || beat.Exiting? || beat.Dead?
  }

  ghost predicate Inv(s: State) {
    && (s.exited <==> s.beat.Absent? || s.beat.Entering? || s.beat.Dead?)
    && (s.main.Registering? || s.main == Working(false) ==> s.beat.Absent?)
    && (s.main.FinishWait? || s.main.Unregistering? ==> s.stop)
    && (s.main.Unregistering? || s.main.Finished? ==> Silent(s.beat) && (s.stop || s.beat.Absent?))
    && (Unregister in s.log ==> s.main.Unregistering? || s.main.Finished?)
    && (forall i, j :: 0 <= i < j < |s.log| && s.log[i] == Unregister ==> s.log[j] == Unregister)
  }

  lemma BeatKeeps(c: Config, s: State, choice: Choice)
    requires Inv(s)
    ensures Inv(BeatStep(c, s, choice))
  {
  }

  lemma MainKeeps(c: Config, s: State, choice: Choice, start: bool)
    requires Inv(s)
    ensures Inv(MainStep(c, s, choice, start))
  {
  }

  lemma {:induction false} ExecInv(c: Config, acts: seq<Action>)
    ensures Inv(Exec(c, acts))
  {
    if acts != [] {
      var s := Exec(c, acts[..|acts| - 1]);
      ExecInv(c, acts[..|acts| - 1]);
      match acts[|acts| - 1]
      case Beat(choice) => BeatKeeps(c, s, choice);
      case Main(choice, start) => MainKeeps(c, s, choice, start);
    }
  }

  /** In every interleaving: once an `UnRegister` call has been made, no `Register` call follows it. */
  lemma NoRegisterAfterUnregister(c: Config, acts: seq<Action>, i: nat, j: nat)
    requires i < j < |Exec(c, acts).log| && Exec(c, acts).log[i] == Unregister
    ensures Exec(c, acts).log[j] == Unregister
  {
    ExecInv(c, acts);
  }

  /** The handshake leaves nothing running that could still register: when `DoFinish` is over, every further
      schedule of the heartbeat leaves the log as it is. */
  lemma {:induction false} SilentForever(c: Config, acts: seq<Action>, more: seq<Action>)
    requires Exec(c, acts).main.Finished?
    ensures ExecFrom(c, Exec(c, acts), more).log == Exec(c, acts).log
    ensures var s := ExecFrom(c, Exec(c, acts), more);
            s.main.Finished? && Silent(s.beat) && (s.stop || s.beat.Absent?)
  {
    ExecInv(c, acts);
    if more != [] {
      SilentForever(c, acts, more[..|more| - 1]);
    }
  }

  // ----- the wait ends

  /** How many steps the heartbeat still has once the stop flag is up. */
  function Remaining(beat: BeatPc): nat {
    match beat
    case Absent => 0
    case Entering => 3
    case OuterCheck => 2
    case Broadcasting(_, rpcs) => 6 + rpcs
    case InnerCheck(_, _) => 5
    case ErrorCheck(_) => 4
    case Raising(_) => 3
    case Recording(_) => 2
    case Exiting => 1
    case Dead => 0
  }

  /** The heartbeat steps of a schedule that moved the thread. */
  function Beats(c: Config, s: State, acts: seq<Action>): nat {
    if acts == [] then 0
    else
      var before, a := ExecFrom(c, s, acts[..|acts| - 1]), acts[|acts| - 1];
      Beats(c, s, acts[..|acts| - 1]) + if a.Beat? && BeatStep(c, before, a.choice).beat != before.beat then 1 else 0
  }

  function Registers(log: seq<Rpc>): nat {
    if log == [] then 0 else Registers(log[..|log| - 1]) + if log[|log| - 1] == Register then 1 else 0
  }

  lemma RegistersAppend(log: seq<Rpc>, rpc: Rpc)
    ensures Registers(log + [rpc]) == Registers(log) + if rpc == Register then 1 else 0
  {
    assert (log + [rpc])[..|log|] == log;
  }

  lemma BeatDrains(c: Config, s: State, choice: Choice)
    requires s.stop
    ensures var t := BeatStep(c, s, choice);
            && Remaining(t.beat) + (if t.beat != s.beat then 1 else 0) <= Remaining(s.beat)
            && Registers(t.log) + Remaining(t.beat) <= Registers(s.log) + Remaining(s.beat)
  {
    if s.beat.Broadcasting? && choice.Again? && s.beat.rpcs > 0 {
      RegistersAppend(s.log, Register);
    } else {
      assert s.log + [] == s.log;
    }
  }

  lemma MainDrains(c: Config, s: State, choice: Choice, start: bool)
    requires Finishing(s)
    ensures var t := MainStep(c, s, choice, start);
            Finishing(t) && t.beat == s.beat && Registers(t.log) == Registers(s.log)
  {
    var tail := if s.main.Unregistering? && choice.Again? && s.main.rpcs > 0 then [Unregister] else [];
    assert MainStep(c, s, choice, start).log == s.log + [] + tail;
    NoRegister(s.log, tail);
  }

  lemma NoRegister(log: seq<Rpc>, tail: seq<Rpc>)
    requires tail == [] || tail == [Unregister]
    ensures Registers(log + [] + tail) == Registers(log)
  {
    assert log + [] == log;
    if tail == [] {
      assert log + tail == log;
    } else {
      RegistersAppend(log, Unregister);
    }
  }

  lemma {:induction false} WaitStays(c: Config, s: State, more: seq<Action>)
    requires Finishing(s)
    ensures Finishing(ExecFrom(c, s, more))
  {
    if more != [] {
      WaitStays(c, s, more[..|more| - 1]);
      Drains(c, ExecFrom(c, s, more[..|more| - 1]), more[|more| - 1]);
    }
  }

  lemma {:induction false} WaitSteps(c: Config, s: State, more: seq<Action>)
    requires Finishing(s)
    ensures Beats(c, s, more) + Remaining(ExecFrom(c, s, more).beat) <= Remaining(s.beat)
  {
    if more != [] {
      WaitSteps(c, s, more[..|more| - 1]);
      WaitStays(c, s, more[..|more| - 1]);
      Drains(c, ExecFrom(c, s, more[..|more| - 1]), more[|more| - 1]);
    }
  }

  lemma {:induction false} WaitCalls(c: Config, s: State, more: seq<Action>)
    requires Finishing(s)
    ensures var t := ExecFrom(c, s, more);
            Registers(t.log) + Remaining(t.beat) <= Registers(s.log) + Remaining(s.beat)
  {
    if more != [] {
      WaitCalls(c, s, more[..|more| - 1]);
      WaitStays(c, s, more[..|more| - 1]);
      Drains(c, ExecFrom(c, s, more[..|more| - 1]), more[|more| - 1]);
    }
  }

  /** With no steps left, a heartbeat has raised its exit flag. */
  lemma DrainedExited(s: State)
    requires Inv(s) && Finishing(s) && Remaining(s.beat) == 0
    ensures s.exited
  {
  }

  /** From the moment `DoFinish` waits, in every schedule: the heartbeat takes a bounded number of steps and
      makes a bounded number of calls (at most those of the broadcast it was in), and when its steps are used
      up the exit flag is set, so the wait ends. */
  lemma WaitEnds(c: Config, acts: seq<Action>, more: seq<Action>)
    requires Exec(c, acts).main.FinishWait?
    ensures var s, t := Exec(c, acts), ExecFrom(c, Exec(c, acts), more);
            && Finishing(t)
            && Beats(c, s, more) + Remaining(t.beat) <= Remaining(s.beat)
            && Registers(t.log) + Remaining(t.beat) <= Registers(s.log) + Remaining(s.beat)
            && (Remaining(t.beat) == 0 ==> t.exited)
  {
    var s := Exec(c, acts);
    ExecInv(c, acts);
    WaitStays(c, s, more);
    WaitSteps(c, s, more);
    WaitCalls(c, s, more);
    Concat(c, acts, more);
    ExecInv(c, acts + more);
    if Remaining(ExecFrom(c, s, more).beat) == 0 {
      DrainedExited(ExecFrom(c, s, more));
    }
  }

  ghost predicate Finishing(s: State) {
    s.stop && (s.main.FinishWait? || s.main.Unregistering? || s.main.Finished?)
  }

  lemma Drains(c: Config, s: State, a: Action)
    requires Finishing(s)
    ensures var t := Apply(c, s, a);
            && Finishing(t)
            && Remaining(t.beat) + (if a.Beat? && t.beat != s.beat then 1 else 0) <= Remaining(s.beat)
            && Registers(t.log) + Remaining(t.beat) <= Registers(s.log) + Remaining(s.beat)
  {
    match a
    case Beat(choice) => BeatDrains(c, s, choice);
    case Main(choice, start) => MainDrains(c, s, choice, start);
  }

  lemma {:induction false} Concat(c: Config, acts: seq<Action>, more: seq<Action>)
    ensures Exec(c, acts + more) == ExecFrom(c, Exec(c, acts), more)
  {
    if more == [] {
      assert acts + more == acts;
    } else {
      Concat(c, acts, more[..|more| - 1]);
      assert (acts + more)[..|acts + more| - 1] == acts + more[..|more| - 1];
    }
  }
}
