/** The worker pool shared by `RestoreRegionMetaManager` and `RestoreRegionDataManager`.

    `Run` starts detached workers over one locked stack.  The shared state is the stack, an atomic stop
    flag, an atomic counter, `last_error_` and one exit flag per worker.  Here every atomic load or store and
    every locked section is one step of a thread, RPC answers and timeouts are chosen by the schedule, and
    `Exec` runs an arbitrary schedule.  A step that is not enabled leaves the pool as it is, so every
    sequence of actions is a schedule and every interleaving is one of them.

    The two managers run the same loop.  The data manager additionally skips groups without files and looks
    the region up in an immutable map, which has no effect when the region is there. */
module WorkerPool {
  import opened Status

  datatype Kind = Meta | Data

  /** One stack entry: the region to create, or the sst group to load (`empty` when it lists no file). */
  datatype Item = Item(id: int, empty: bool)

  datatype Config = Config(kind: Kind, items: seq<Item>, concurrency: nat)

  /** How far a worker got with an item: popped, request sent, request accepted. */
  datatype Stage = Taken | Sent | Accepted

  function Rank(stage: Stage): nat {
    match stage
    case Taken => 0
    case Sent => 1
    case Accepted => 2
  }

  datatype Pc =
    | Unlaunched
    | Top
    | Popping
    | Skipping(item: Item)
    | CheckInit(item: Item)
    | Initing(item: Item)
    | CheckRun(item: Item)
    | Sending(item: Item)        // the stop flag was read as false, the request is not sent yet
    | Waiting(item: Item)
    | CheckFinish(item: Item)
    | Finishing(item: Item)
    | Counting(item: Item)
    | Raising(err: Errno)
    | Recording(err: Errno)
    | Leaving
    | Gone
    | LaunchFailed

  datatype MainPc =
    | Launching(next: nat)
    | Starting(next: nat)
    | PollStop
    | PollCounter
    | PollError
    | WaitExit
    | Deciding(timedOut: bool)
    | Returned(result: Status, timedOut: bool)

  /** History of the run. `Ended` is the last event of an item: counted, or dropped by its worker. */
  datatype Event =
    | Reached(worker: nat, item: Item, stage: Stage)
    | Ended(worker: nat, item: Item, stage: Stage, counted: bool)
    | Raised(worker: nat)

  datatype Pool = Pool(
    stack: seq<Item>,
    stop: bool,
    counter: nat,
    lastError: Status,
    exited: seq<bool>,
    workers: seq<Pc>,
    main: MainPc,
    log: seq<Event>)

  datatype Action =
    | Work(worker: nat, reply: Status)
    | Supervise(reply: Status, timeout: bool)

  function Reverse(s: seq<Item>): (r: seq<Item>)
    ensures |r| == |s|
  {
    if s == [] then [] else Reverse(s[1..]) + [s[0]]
  }

  function WorkerCount(c: Config): nat {
    if c.concurrency < |c.items| then c.concurrency else |c.items|
  }

  predicate Skips(c: Config, item: Item) {
    c.kind.Data? && item.empty
  }

  function Start(c: Config): Pool {
    Pool(Reverse(c.items), false, 0, Ok, seq(WorkerCount(c), _ => true), seq(WorkerCount(c), _ => Unlaunched),
         Launching(0), [])
  }

  /** Where worker `w` goes next; `reply` is the outcome of the call it is waiting for, if it is. */
  function NextPc(c: Config, s: Pool, w: nat, reply: Status): Pc
    requires w < |s.workers|
  {
    match s.workers[w]
    case Unlaunched => Unlaunched
    case Top => if s.stop then Leaving else Popping
    case Popping =>
      if s.stack == [] then Leaving
      else
        var item := s.stack[|s.stack| - 1];
        if Skips(c, item) then Skipping(item) else CheckInit(item)
    case Skipping(_) => Top
    case CheckInit(item) => if s.stop then Leaving else Initing(item)
    case Initing(item) => if reply.Ok? then CheckRun(item) else Raising(reply.code)
    case CheckRun(item) => if s.stop then Leaving else Sending(item)
    case Sending(item) => Waiting(item)
    case Waiting(item) => if reply.Ok? then CheckFinish(item) else Raising(reply.code)
    case CheckFinish(item) => if s.stop then Leaving else Finishing(item)
    case Finishing(item) => if reply.Ok? then Counting(item) else Raising(reply.code)
    case Counting(_) => Top
    case Raising(err) => Recording(err)
    case Recording(_) => Leaving
    case Leaving => Gone
    case Gone => Gone
    case LaunchFailed => LaunchFailed
  }

  /** What that step adds to the history: at most one event. */
  function News(s: Pool, w: nat, reply: Status): (news: seq<Event>)
    requires w < |s.workers|
    ensures |news| <= 1
  {
    match s.workers[w]
    case Popping => if s.stack == [] then [] else [Reached(w, s.stack[|s.stack| - 1], Taken)]
    case Skipping(item) => [Ended(w, item, Taken, true)]
    case CheckInit(item) => if s.stop then [Ended(w, item, Taken, false)] else []
    case Initing(item) => if reply.Ok? then [] else [Ended(w, item, Taken, false)]
    case CheckRun(item) => if s.stop then [Ended(w, item, Taken, false)] else []
    case Sending(item) => [Reached(w, item, Sent)]
    case Waiting(item) => [if reply.Ok? then Reached(w, item, Accepted) else Ended(w, item, Sent, false)]
    case CheckFinish(item) => if s.stop then [Ended(w, item, Accepted, false)] else []
    case Finishing(item) => if reply.Ok? then [] else [Ended(w, item, Accepted, false)]
    case Counting(item) => [Ended(w, item, Accepted, true)]
    case Raising(_) => [Raised(w)]
    case _ => []
  }

  /** One step of worker `w`: its move, and what it does to the shared state. */
  function WorkerStep(c: Config, s: Pool, w: nat, reply: Status): Pool
    requires w < |s.workers| && w < |s.exited|
  {
    var pc := s.workers[w];
    Pool(if pc.Popping? && s.stack != [] then s.stack[..|s.stack| - 1] else s.stack,
         s.stop || pc.Raising?,
         s.counter + if pc.Skipping? || pc.Counting? then 1 else 0,
         if pc.Recording? then Error(pc.err) else s.lastError,
         if pc.Leaving? then s.exited[w := true] else s.exited,
         s.workers[w := NextPc(c, s, w, reply)],
         s.main,
         s.log + News(s, w, reply))
  }

  /** Where the supervising thread goes next.  In `WaitExit` it scans the exit flags under the lock. */
  function NextMain(c: Config, s: Pool, reply: Status, timeout: bool): MainPc {
    match s.main
    case Launching(i) => if i < |s.exited| then Starting(i) else PollStop
    case Starting(i) => Launching(i + 1)
    case PollStop => if s.stop then WaitExit else PollCounter
    case PollCounter => if s.counter >= |c.items| then WaitExit else PollError
    case PollError => if s.lastError.Ok? then PollStop else WaitExit
    case WaitExit =>
      if timeout then Deciding(true)
      else if forall i :: 0 <= i < |s.exited| ==> s.exited[i] then Deciding(false)
      else WaitExit
    case Deciding(t) =>
      // The meta manager goes on to wait for its regions; `reply` is what that wait returns.
      Returned(if s.lastError.Ok? && c.kind.Meta? then reply else s.lastError, t)
    case Returned(result, t) => Returned(result, t)
  }

  /** One step of the supervising thread in `Run`; only the launches touch what the workers see. */
  function MainStep(c: Config, s: Pool, reply: Status, timeout: bool): Pool {
    var next := NextMain(c, s, reply, timeout);
    if s.main.Launching? && s.main.next < |s.exited| then
      s.(main := next, exited := s.exited[s.main.next := false])
    else if s.main.Starting? && s.main.next < |s.exited| && s.main.next < |s.workers| then
      Launch(s, s.main.next, reply).(main := next)
    else
      s.(main := next)
  }

  /** Thread `i` starts, or its launch fails and is recorded in the same locked section as its exit flag. */
  function Launch(s: Pool, i: nat, reply: Status): Pool
    requires i < |s.workers| && i < |s.exited|
  {
    if reply.Ok? then s.(workers := s.workers[i := Top])
    else s.(workers := s.workers[i := LaunchFailed], lastError := reply, exited := s.exited[i := true])
  }

  function Apply(c: Config, s: Pool, a: Action): Pool {
    match a
    case Work(w, reply) => if w < |s.workers| && w < |s.exited| then WorkerStep(c, s, w, reply) else s
    case Supervise(reply, timeout) => MainStep(c, s, reply, timeout)
  }

  /** The pool after an arbitrary schedule. */
  function Exec(c: Config, acts: seq<Action>): Pool {
    if acts == [] then Start(c)
    else Apply(c, Exec(c, acts[..|acts| - 1]), acts[|acts| - 1])
  }

  // ----- what the history says; every tally counts the items that `sel` selects

  function Pick(item: Item, sel: Item -> bool): nat {
    if sel(item) then 1 else 0
  }

  function Tally(items: seq<Item>, sel: Item -> bool): nat {
    if items == [] then 0 else Tally(items[..|items| - 1], sel) + Pick(items[|items| - 1], sel)
  }

  /** Items whose request reached exactly the stage of rank `r`. */
  function ReachedAt(log: seq<Event>, r: nat, sel: Item -> bool): nat {
    if log == [] then 0
    else
      var e := log[|log| - 1];
      ReachedAt(log[..|log| - 1], r, sel) + if e.Reached? && Rank(e.stage) == r then Pick(e.item, sel) else 0
  }

  /** Items that ended at stage rank `r` or later. */
  function EndedAt(log: seq<Event>, r: nat, sel: Item -> bool): nat {
    if log == [] then 0
    else
      var e := log[|log| - 1];
      EndedAt(log[..|log| - 1], r, sel) + if e.Ended? && Rank(e.stage) >= r then Pick(e.item, sel) else 0
  }

  /** Items that were counted. */
  function Completed(log: seq<Event>, sel: Item -> bool): nat {
    if log == [] then 0
    else
      var e := log[|log| - 1];
      Completed(log[..|log| - 1], sel) + if e.Ended? && e.counted then Pick(e.item, sel) else 0
  }

  /** Items that a worker dropped without counting them. */
  function Dropped(log: seq<Event>, sel: Item -> bool): nat {
    if log == [] then 0
    else
      var e := log[|log| - 1];
      Dropped(log[..|log| - 1], sel) + if e.Ended? && !e.counted then Pick(e.item, sel) else 0
  }

  /** The popped items, in the order of the pops. */
  function Pops(log: seq<Event>): seq<Item> {
    if log == [] then []
    else
      var e := log[|log| - 1];
      Pops(log[..|log| - 1]) + if e.Reached? && e.stage == Taken then [e.item] else []
  }

  /** The workers that raised the stop flag, in order. */
  function Raisers(log: seq<Event>): seq<nat> {
    if log == [] then []
    else
      var e := log[|log| - 1];
      Raisers(log[..|log| - 1]) + if e.Raised? then [e.worker] else []
  }

  /** The workers of the requests that began after the stop flag first went up, in order. */
  function LateSenders(log: seq<Event>): seq<nat> {
    if log == [] then []
    else
      var e := log[|log| - 1];
      var before := log[..|log| - 1];
      LateSenders(before) + if e.Reached? && e.stage == Sent && Raisers(before) != [] then [e.worker] else []
  }

  /** The stage rank at which a worker holds an item, plus one; 0 when it holds none. */
  function Grip(pc: Pc): nat {
    match pc
    case Skipping(_) => 1
    case CheckInit(_) => 1
    case Initing(_) => 1
    case CheckRun(_) => 1
    case Sending(_) => 1
    case Waiting(_) => 2
    case CheckFinish(_) => 3
    case Finishing(_) => 3
    case Counting(_) => 3
    case _ => 0
  }

  /** Items held by a worker at stage rank `r` or later. */
  function HeldBy(pc: Pc, r: nat, sel: Item -> bool): nat {
    if Grip(pc) > r then Pick(pc.item, sel) else 0
  }

  function Held(workers: seq<Pc>, r: nat, sel: Item -> bool): nat {
    if workers == [] then 0
    else Held(workers[..|workers| - 1], r, sel) + HeldBy(workers[|workers| - 1], r, sel)
  }
}
