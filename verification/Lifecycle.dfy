/** The lifecycle of a backup and of a restore: `Init`, `Run` and `Finish` as the program runs them, with every
    step that can fail.  Which steps fail is a parameter; the question is what the cluster and the registration
    look like afterwards.  (`Heartbeat` has the handshake inside `DoFinish`.) */
module Lifecycle {
  import opened Status
  import opened GcSafePoint
  import opened ClusterControl

  /** The switches of the cluster at one moment. */
  datatype World = World(gcStopped: bool, coordinators: seq<Node>, stores: seq<Node>, indexes: seq<Node>)

  ghost function WorldOf(c: Control): World
    reads c
  {
    World(c.gcStopped, c.coordinators, c.stores, c.indexes)
  }

  // ----- what a run does to the switches

  /** What is remembered of turning split and merge off: both groups share the flags. */
  predicate SplitKeeps(w: World, r: Reach) {
    KeepsFirst(w.stores, r.storeOff) || KeepsFirst(w.indexes, After(w.stores, r.storeOff, r.indexOff))
  }

  predicate MergeKeeps(w: World, r: Reach) {
    KeepsSecond(w.stores, r.storeOff) || KeepsSecond(w.indexes, After(w.stores, r.storeOff, r.indexOff))
  }

  function StoresAfter(w: World, r: Reach): seq<Node> {
    Cycled(w.stores, r.storeOff, r.storeOn, SplitKeeps(w, r), MergeKeeps(w, r))
  }

  function IndexesAfter(w: World, r: Reach): seq<Node> {
    Cycled(w.indexes, After(w.stores, r.storeOff, r.indexOff), After(w.stores, r.storeOn, r.indexOn),
           SplitKeeps(w, r), MergeKeeps(w, r))
  }

  /** The run gets from the coordinators to the other nodes. */
  predicate GetsAcross(w: World, r: Reach, between: bool) {
    Through(w.coordinators, r.balanceOff) && between
  }

  /** Whether garbage collection is off after a run that had it off: a restore does not start it again. */
  predicate GcAfter(w: World, r: Reach, startGc: bool) {
    w.gcStopped || !startGc || !r.gcStart
  }

  /** All switches after a run that turned them off as far as it got and then finished.  `gc` says that the run found
      or put garbage collection off and went on. */
  function CycledWorld(w: World, r: Reach, gc: bool, between: bool, startGc: bool): World {
    if !gc then w
    else
      var coordinators := BalanceAfter(w.coordinators, r.balanceOff, r.balanceOn);
      if !GetsAcross(w, r, between) then World(GcAfter(w, r, startGc), coordinators, w.stores, w.indexes)
      else World(GcAfter(w, r, startGc), coordinators, StoresAfter(w, r), IndexesAfter(w, r))
  }

  /** All switches after a run that turned everything off and never finished. */
  function AbandonedWorld(w: World, r: Reach): World {
    World(true, Off(w.coordinators, r.balanceOff), Off(w.stores, r.storeOff), Off(w.indexes, r.indexOff))
  }

  predicate BalanceKept(w: World, r: Reach) {
    Kept(w.coordinators, r.balanceOff, r.balanceOn,
         KeepsFirst(w.coordinators, r.balanceOff), KeepsSecond(w.coordinators, r.balanceOff))
  }

  predicate SplitKept(w: World, r: Reach) {
    && Kept(w.stores, r.storeOff, r.storeOn, SplitKeeps(w, r), MergeKeeps(w, r))
    && Kept(w.indexes, After(w.stores, r.storeOff, r.indexOff), After(w.stores, r.storeOn, r.indexOn),
            SplitKeeps(w, r), MergeKeeps(w, r))
  }

  /** The exact condition for a run that finishes, wherever its control calls get. */
  lemma CycledWorldExactly(w: World, r: Reach, between: bool, startGc: bool)
    ensures CycledWorld(w, r, true, between, startGc) == w
       <==> && (w.gcStopped || (startGc && r.gcStart))
            && BalanceKept(w, r)
            && (GetsAcross(w, r, between) ==> SplitKept(w, r))
  {
    CycledExactly(w.coordinators, r.balanceOff, r.balanceOn,
                  KeepsFirst(w.coordinators, r.balanceOff), KeepsSecond(w.coordinators, r.balanceOff));
    CycledExactly(w.stores, r.storeOff, r.storeOn, SplitKeeps(w, r), MergeKeeps(w, r));
    CycledExactly(w.indexes, After(w.stores, r.storeOff, r.indexOff), After(w.stores, r.storeOn, r.indexOn),
                  SplitKeeps(w, r), MergeKeeps(w, r));
  }

  /** All control calls get through to everybody, and each turn-off ends with a node that was not asked before. */
  predicate AllClean(w: World, r: Reach) {
    && r.gcStop && r.gcStart
    && Clean(w.coordinators, r.balanceOff) && Complete(w.coordinators, r.balanceOn)
    && Clean(w.stores, r.storeOff) && Complete(w.stores, r.storeOn)
    && Clean(w.indexes, r.indexOff) && Complete(w.indexes, r.indexOn)
  }

  /** Then the condition is that the nodes agreed. */
  lemma CleanKept(w: World, r: Reach)
    requires AllClean(w, r)
    ensures BalanceKept(w, r) <==> Uniform(w.coordinators)
    ensures SplitKept(w, r) <==> Uniform(w.stores + w.indexes)
  {
    BalanceRestored(w.coordinators, r.balanceOff, r.balanceOn);
    CycledExactly(w.coordinators, r.balanceOff, r.balanceOn,
                  KeepsFirst(w.coordinators, r.balanceOff), KeepsSecond(w.coordinators, r.balanceOff));
    SplitRestored(w.stores, w.indexes, r.storeOff, r.indexOff, r.storeOn, r.indexOn);
    CycledExactly(w.stores, r.storeOff, r.storeOn, SplitKeeps(w, r), MergeKeeps(w, r));
    CycledExactly(w.indexes, r.indexOff, r.indexOn, SplitKeeps(w, r), MergeKeeps(w, r));
  }

  // ----- turning off and turning back on

  /** The tool's flags describe what the turn-off changed in world `w`. */
  ghost predicate Remembers(c: Control, w: World, r: Reach, gc: bool, between: bool)
    reads c
  {
    var across := gc && GetsAcross(w, r, between);
    && c.gcStopped == (gc || w.gcStopped)
    && c.gcAfterFinish == (gc && !w.gcStopped)
    && c.coordinators == (if gc then Off(w.coordinators, r.balanceOff) else w.coordinators)
    && c.stores == (if across then Off(w.stores, r.storeOff) else w.stores)
    && c.indexes == (if across then Off(w.indexes, After(w.stores, r.storeOff, r.indexOff)) else w.indexes)
    && c.leaderAfterFinish == (gc && KeepsFirst(w.coordinators, r.balanceOff))
    && c.regionAfterFinish == (gc && KeepsSecond(w.coordinators, r.balanceOff))
    && c.splitAfterFinish == (across && SplitKeeps(w, r))
    && c.mergeAfterFinish == (across && MergeKeeps(w, r))
  }

  /** The part of both `Init`s that turns garbage collection, balancing, split and merge off. */
  method TurnOff(c: Control, r: Reach, between: bool) returns (status: Status)
    requires c.isGcStop == c.gcStopped && !c.gcAfterFinish
    requires !c.leaderAfterFinish && !c.regionAfterFinish && !c.splitAfterFinish && !c.mergeAfterFinish
    modifies c
    ensures var w, gc := old(WorldOf(c)), old(c.gcStopped) || r.gcStop;
            && Remembers(c, w, r, gc, between)
            && (status.Ok? <==> gc && TurnedOff(w, r, between))
  {
    if !c.isGcStop {
      status := c.SetGcStop(r.gcStop);
      if !status.Ok? {
        return;
      }
    }
    status := c.DisableBalance(r.balanceOff);
    if !status.Ok? {
      return;
    }
    if !between {
      return Error(EINTERNAL);
    }
    status := c.DisableSplitAndMerge(r.storeOff, r.indexOff);
  }

  /** All three broadcasts report success. */
  predicate TurnedOff(w: World, r: Reach, between: bool) {
    GetsAcross(w, r, between) && Through(w.stores, r.storeOff) && Through(w.indexes, r.indexOff)
  }

  /** The part of both `DoFinish`es that turns things back on; a restore leaves garbage collection alone.  A failing
      call is logged and the next one is made. */
  method PutBack(c: Control, r: Reach, startGc: bool)
    modifies c
    ensures c.gcStopped == (old(c.gcStopped) && !(startGc && old(c.gcAfterFinish) && r.gcStart))
    ensures c.coordinators == On(old(c.coordinators), r.balanceOn, old(c.leaderAfterFinish), old(c.regionAfterFinish))
    ensures c.stores == On(old(c.stores), r.storeOn, old(c.splitAfterFinish), old(c.mergeAfterFinish))
    ensures c.indexes == On(old(c.indexes), After(old(c.stores), r.storeOn, r.indexOn),
                            old(c.splitAfterFinish), old(c.mergeAfterFinish))
  {
    if startGc && c.gcAfterFinish {
      var _ := c.SetGcStart(r.gcStart);
    }
    ghost var stores, indexes, split, merge := c.stores, c.indexes, c.splitAfterFinish, c.mergeAfterFinish;
    var _ := c.EnableBalance(r.balanceOn);
    assert c.stores == stores && c.indexes == indexes && c.splitAfterFinish == split && c.mergeAfterFinish == merge;
    var _ := c.EnableSplitAndMerge(r.storeOn, r.indexOn);
    assert c.stores == On(stores, r.storeOn, split, merge);
    assert c.indexes == On(indexes, After(stores, r.storeOn, r.indexOn), split, merge);
  }

  method TurnOn(c: Control, r: Reach, startGc: bool, ghost w: World, ghost gc: bool, ghost between: bool)
    requires Remembers(c, w, r, gc, between)
    modifies c
    ensures WorldOf(c) == CycledWorld(w, r, gc, between, startGc)
  {
    PutBack(c, r, startGc);
    SameSize(w, r);
  }

  lemma SameSize(w: World, r: Reach)
    ensures After(Off(w.stores, r.storeOff), r.storeOn, r.indexOn) == After(w.stores, r.storeOn, r.indexOn)
  {
    assert |Off(w.stores, r.storeOff)| == |w.stores|;
  }

  // ----- the registration at the coordinators

  function Members(t: Trail): set<nat> {
    set i | 0 <= i < |t.visits| :: t.visits[i]
  }

  predicate Enrolled(w: World, r: Reach) {
    Through(w.coordinators, r.enroll)
  }

  /** Who still has the task after a run: a first registration that fails is not taken back. */
  function StillRegistered(w: World, r: Reach, beats: set<nat>, finished: bool): set<nat> {
    if Enrolled(w, r) && finished then Members(r.enroll) + beats - Members(r.dismiss) else Members(r.enroll) + beats
  }

  /** The node numbers that occur in a run are those of coordinators, and nobody misses the unregistration. */
  predicate AllDismissed(w: World, r: Reach, beats: set<nat>) {
    && (forall i :: i in r.enroll.visits ==> i < |w.coordinators|) && (forall i :: i in beats ==> i < |w.coordinators|)
    && Complete(w.coordinators, r.dismiss)
  }

  lemma StillRegisteredAt(w: World, r: Reach, beats: set<nat>, finished: bool, i: nat)
    ensures i in StillRegistered(w, r, beats, finished) <==>
      && (i in r.enroll.visits || i in beats)
      && !(Enrolled(w, r) && finished && i in r.dismiss.visits)
  {
  }

  /** Even so the task stays at coordinators exactly if the run never unregisters: its first registration failed half
      way, or it was abandoned. */
  lemma NobodyLeftExactly(w: World, r: Reach, beats: set<nat>, finished: bool)
    requires AllDismissed(w, r, beats)
    ensures StillRegistered(w, r, beats, finished) == {} <==>
      || (Enrolled(w, r) && finished)
      || (r.enroll.visits == [] && beats == {})
  {
    var still := StillRegistered(w, r, beats, finished);
    forall i: nat
      ensures i in still <==> (i in r.enroll.visits || i in beats) && !(Enrolled(w, r) && finished)
    {
      StillRegisteredAt(w, r, beats, finished, i);
    }
    if r.enroll.visits != [] {
      assert r.enroll.visits[0] in r.enroll.visits;
    }
    if beats != {} {
      var i :| i in beats;
      assert i in still <==> !(Enrolled(w, r) && finished);
    }
  }

  // ----- backup

  /** The outcome of every step of a backup; a false entry is a failing step.  `beats` are the coordinators at which
      the heartbeat has registered the task again. */
  datatype BackupScript = BackupScript(
    params: bool, version: bool, safePoints: bool, points: SafePoints, ts: int, jobs: bool,
    directory: bool, lockFile: bool,
    interaction: bool, data: bool, idEpochs: bool, increments: bool, write: bool,
    beats: set<nat>, reach: Reach)
  {
    /** The checks that `Init` makes before it installs its exit guard. */
    predicate Guarded() {
      params && version && safePoints && Admitted(ts, points) && jobs
    }

    /** The first registration goes well. */
    predicate Enlisted(w: World) {
      Guarded() && Enrolled(w, reach)
    }

    /** `Init` gets to the first switch that is turned off. */
    predicate TurnsOff(w: World) {
      Enlisted(w) && (w.gcStopped || reach.gcStop)
    }

    predicate InitOk(w: World) {
      TurnsOff(w) && TurnedOff(w, reach, true) && directory && lockFile
    }

    /** `DoRun` gives OK, also when reading the id epochs or the increments failed. */
    predicate RunOk() {
      interaction && data && (!idEpochs || !increments || write)
    }
  }

  class Backup {
    const control: Control
    var isAlreadyRegister: bool
    var registered: set<nat>       // the coordinators that have the task
    var unregistrations: nat
    var finishes: nat
    var manifest: bool
    var lastError: Status

    constructor (control: Control)
      ensures this.control == control && Initial()
    {
      this.control := control;
      isAlreadyRegister, registered, unregistrations, finishes, manifest := false, {}, 0, 0, false;
      lastError := Ok;
    }

    ghost predicate Initial()
      reads this
    {
      !isAlreadyRegister && registered == {} && unregistrations == finishes == 0 && !manifest
    }

    /** Stop the heartbeat and unregister if the task had registered; put every switch back. */
    method DoFinish(r: Reach, ghost w: World, ghost gc: bool)
      requires Remembers(control, w, r, gc, true)
      modifies this, control
      ensures finishes == old(finishes) + 1
      ensures unregistrations == old(unregistrations) + if isAlreadyRegister then 1 else 0
      ensures registered == if isAlreadyRegister then old(registered) - Members(r.dismiss) else old(registered)
      ensures unchanged(this`isAlreadyRegister, this`manifest)
      ensures WorldOf(control) == CycledWorld(w, r, gc, true, true)
    {
      if isAlreadyRegister {
        registered := registered - Members(r.dismiss);
        unregistrations := unregistrations + 1;
      }
      TurnOn(control, r, true, w, gc, true);
      finishes := finishes + 1;
    }

    /** The part of `Init` under the exit guard. */
    method Enlist(s: BackupScript) returns (status: Status)
      requires !isAlreadyRegister && control.isGcStop == control.gcStopped && !control.gcAfterFinish
      requires !control.leaderAfterFinish && !control.regionAfterFinish
      requires !control.splitAfterFinish && !control.mergeAfterFinish
      modifies this`isAlreadyRegister, this`registered, control
      ensures isAlreadyRegister == Enrolled(old(WorldOf(control)), s.reach)
      ensures registered == old(registered) + Members(s.reach.enroll)
      ensures var w := old(WorldOf(control));
              if Enrolled(w, s.reach)
              then Remembers(control, w, s.reach, w.gcStopped || s.reach.gcStop, true)
              else unchanged(control)
      ensures s.Guarded() ==> (status.Ok? <==> s.InitOk(old(WorldOf(control))))
    {
      registered := registered + Members(s.reach.enroll);
      if !Through(control.coordinators, s.reach.enroll) {
        return Error(EINTERNAL);
      }
      isAlreadyRegister := true;
      status := TurnOff(control, s.reach, true);
      if !status.Ok? {
        return;
      }
      if !s.directory || !s.lockFile {
        return Error(EINTERNAL);
      }
    }

    method Init(s: BackupScript) returns (status: Status)
      requires Initial() && control.Fresh()
      modifies this, control
      ensures !manifest
      ensures status.Ok? <==> s.InitOk(old(WorldOf(control)))
      ensures status.Ok? ==>
                && finishes == 0 && isAlreadyRegister && registered == Members(s.reach.enroll) && unregistrations == 0
                && Remembers(control, old(WorldOf(control)), s.reach, true, true)
      ensures !status.Ok? ==>
                && finishes == (if s.Guarded() then 1 else 0)
                && unregistrations == (if s.Enlisted(old(WorldOf(control))) then 1 else 0)
                && registered == RegisteredAfterBackup(old(WorldOf(control)), s)
      ensures !status.Ok? ==> WorldOf(control) == AfterBackup(old(WorldOf(control)), s)
    {
      ghost var w := WorldOf(control);
      if !s.params || !s.version || !s.safePoints {
        return Error(EINTERNAL);
      }
      var admitted := Admit(s.ts, s.points);
      if !admitted {
        return Error(EINTERNAL);
      }
      if control.gcStopped {
        control.isGcStop, control.gcAfterFinish := true, false;
      }
      if !s.jobs {
        return Error(EINTERNAL);
      }
      status := Enlist(s);
      if !status.Ok? {
        DoFinish(s.reach, w, Enrolled(w, s.reach) && (w.gcStopped || s.reach.gcStop));
        lastError := status;
      }
    }

    /** Everything between the start of the heartbeat and the manifest.  A failure to read the id epochs or the
        increments is returned as the still-OK status of the step before. */
    method DoRun(s: BackupScript) returns (status: Status)
      modifies this`manifest
      ensures status.Ok? <==> s.data && (!s.idEpochs || !s.increments || s.write)
      ensures manifest == (old(manifest) || (s.data && s.idEpochs && s.increments && s.write))
    {
      if !s.data {
        return Error(EINTERNAL);
      }
      status := Ok;
      if !s.idEpochs {
        return status;
      }
      if !s.increments {
        return status;
      }
      if !s.write {
        return Error(EINTERNAL);
      }
      manifest := true;
      return Ok;
    }

    method Run(s: BackupScript, ghost w: World) returns (status: Status)
      requires Remembers(control, w, s.reach, true, true)
      modifies this, control
      ensures status.Ok? <==> s.RunOk()
      ensures manifest == (old(manifest) || (s.interaction && s.data && s.idEpochs && s.increments && s.write))
      ensures unchanged(this`isAlreadyRegister)
      ensures status.Ok? ==> unchanged(control) && unchanged(this`finishes, this`unregistrations)
      ensures status.Ok? ==> registered == old(registered) + s.beats
      ensures !status.Ok? ==>
                && finishes == old(finishes) + 1
                && unregistrations == old(unregistrations) + (if isAlreadyRegister then 1 else 0)
                && registered == old(registered) + (if s.interaction then s.beats else {})
                                 - (if isAlreadyRegister then Members(s.reach.dismiss) else {})
                && WorldOf(control) == CycledWorld(w, s.reach, true, true, true)
    {
      if !s.interaction {
        status := Error(EINTERNAL);
      } else {
        registered := registered + s.beats;
        status := DoRun(s);
      }
      if !status.Ok? {
        DoFinish(s.reach, w, true);
        lastError := status;
      }
    }

    /** The program: `Init`, `Run` and `Finish`, stopping at the first failure. */
    method Perform(s: BackupScript) returns (code: int)
      requires Initial() && control.Fresh()
      modifies this, control
      ensures finishes == if s.Guarded() then 1 else 0
      ensures unregistrations == if s.Enlisted(old(WorldOf(control))) then 1 else 0
      ensures registered == RegisteredAfterBackup(old(WorldOf(control)), s)
      ensures WorldOf(control) == AfterBackup(old(WorldOf(control)), s)
      ensures code == 0 <==> s.InitOk(old(WorldOf(control))) && s.RunOk()
      ensures manifest <==> s.InitOk(old(WorldOf(control))) && s.interaction && s.data
                            && s.idEpochs && s.increments && s.write
      ensures code == 0 ==> (manifest <==> s.idEpochs && s.increments)
    {
      ghost var w := WorldOf(control);
      var status := Init(s);
      if !status.Ok? {
        return -1;
      }
      status := Run(s, w);
      if !status.Ok? {
        return -1;
      }
      DoFinish(s.reach, w, true);
      return 0;
    }
  }

  /** The switches after a backup. */
  function AfterBackup(w: World, s: BackupScript): World {
    if !s.Enlisted(w) then w
    else CycledWorld(w, s.reach, w.gcStopped || s.reach.gcStop, true, true)
  }

  /** The coordinators that have the task after a backup. */
  function RegisteredAfterBackup(w: World, s: BackupScript): set<nat> {
    if !s.Guarded() then {}
    else StillRegistered(w, s.reach, if s.InitOk(w) && s.interaction then s.beats else {}, true)
  }

  /** Whatever step of a backup fails and wherever its control calls get: garbage collection, balancing, split and
      merge end as they began exactly if the backup never got to them, or each of them is put back. */
  lemma BackupNeutral(w: World, s: BackupScript)
    ensures AfterBackup(w, s) == w
       <==> || !s.Enlisted(w) || !(w.gcStopped || s.reach.gcStop)
            || (&& (w.gcStopped || s.reach.gcStart)
                && BalanceKept(w, s.reach)
                && (Through(w.coordinators, s.reach.balanceOff) ==> SplitKept(w, s.reach)))
    ensures AfterBackup(w, s).gcStopped == w.gcStopped <==>
              w.gcStopped || s.reach.gcStart || !s.Enlisted(w) || !s.reach.gcStop
  {
    CycledWorldExactly(w, s.reach, true, true);
  }

  /** If everybody hears the unregistration, a backup leaves the task at a coordinator exactly if its first
      registration was accepted by some and failed for another. */
  lemma BackupUnregistered(w: World, s: BackupScript)
    requires AllDismissed(w, s.reach, s.beats)
    ensures RegisteredAfterBackup(w, s) == {} <==> !s.Guarded() || s.Enlisted(w) || s.reach.enroll.visits == []
  {
    NobodyLeftExactly(w, s.reach, if s.InitOk(w) && s.interaction then s.beats else {}, true);
  }

  /** Two coordinators, the first one has accepted: the backup gives up, and the task stays there. */
  lemma HalfRegistered(w: World, s: BackupScript)
    requires s.Guarded() && |w.coordinators| == 2 && s.reach.enroll == Trail([0], false)
    ensures AfterBackup(w, s) == w && RegisteredAfterBackup(w, s) == {0}
  {
    assert s.reach.enroll.visits[0] in Members(s.reach.enroll);
    assert Members(s.reach.enroll) == {0};
  }

  /** With clean control calls: exactly if the backup never got to the switches or the nodes agreed. */
  lemma BackupNeutralClean(w: World, s: BackupScript)
    requires AllClean(w, s.reach)
    ensures AfterBackup(w, s) == w
       <==> !s.Enlisted(w) || (Uniform(w.coordinators) && Uniform(w.stores + w.indexes))
    ensures AfterBackup(w, s).gcStopped == w.gcStopped
  {
    BackupNeutral(w, s);
    CleanKept(w, s.reach);
  }

  /** A turn-off that ends with a node it had asked before leaves balancing off on everybody it reached, although
      every step of the backup reports success. */
  lemma BackupForgets(w: World, s: BackupScript)
    requires s.InitOk(w) && s.RunOk() && w.coordinators != []
    requires !EndsNew(w.coordinators, s.reach.balanceOff.visits)
    ensures AfterBackup(w, s).coordinators == Off(w.coordinators, s.reach.balanceOff)
    ensures AfterBackup(w, s) == w ==> ReachedOff(w.coordinators, s.reach.balanceOff)
  {
    BalanceForgotten(w.coordinators, s.reach.balanceOff, s.reach.balanceOn);
  }

  /** Nodes that disagree: two coordinators, one with leader balancing off before, both on afterwards. */
  lemma DisagreementLost(s: BackupScript)
    requires s.Guarded() && s.reach.enroll.ok
    requires s.reach.balanceOff == s.reach.balanceOn == Trail([0, 1], true)
    ensures var w := World(true, [Node(false, true), Node(true, true)], [], []);
            AfterBackup(w, s).coordinators == [Node(true, true), Node(true, true)]
  {
  }

  /** A backup whose id epochs cannot be read: it exits with 0 and there is no manifest. */
  method SuccessWithoutManifest(s: BackupScript, w: World) returns (code: int, written: bool)
    requires s.InitOk(w) && s.interaction && s.data && !s.idEpochs
    ensures code == 0 && !written
  {
    var control := new Control(w.gcStopped, w.coordinators, w.stores, w.indexes);
    var backup := new Backup(control);
    code := backup.Perform(s);
    written := backup.manifest;
  }

  // ----- restore

  datatype RestoreScript = RestoreScript(
    checks: bool, noBackup: bool, between: bool, interaction: bool, run: bool, beats: set<nat>, reach: Reach)
  {
    predicate Enlisted(w: World) {
      checks && noBackup && Enrolled(w, reach)
    }

    predicate InitOk(w: World) {
      Enlisted(w) && (w.gcStopped || reach.gcStop) && TurnedOff(w, reach, between)
    }

    /** The data phase failed: `Run` returns that error without storing it where its exit guard looks. */
    predicate Abandoned(w: World) {
      InitOk(w) && interaction && !run
    }
  }

  /** The switches after a restore. */
  function AfterRestore(w: World, s: RestoreScript): World {
    if !s.Enlisted(w) then w
    else if s.Abandoned(w) then AbandonedWorld(w, s.reach)
    else CycledWorld(w, s.reach, w.gcStopped || s.reach.gcStop, s.between, false)
  }

  /** The coordinators that have the task after a restore. */
  function RegisteredAfterRestore(w: World, s: RestoreScript): set<nat> {
    if !s.checks || !s.noBackup then {}
    else StillRegistered(w, s.reach, if s.InitOk(w) && s.interaction then s.beats else {}, !s.Abandoned(w))
  }

  class Restore {
    const control: Control
    var isAlreadyRegister: bool
    var registered: set<nat>
    var unregistrations: nat
    var finishes: nat
    var lastError: Status

    constructor (control: Control)
      ensures this.control == control && Initial()
    {
      this.control := control;
      isAlreadyRegister, registered, unregistrations, finishes := false, {}, 0, 0;
      lastError := Ok;
    }

    ghost predicate Initial()
      reads this
    {
      !isAlreadyRegister && registered == {} && unregistrations == finishes == 0
    }

    /** As for a backup, except that garbage collection is not started again. */
    method DoFinish(r: Reach, ghost w: World, ghost gc: bool, ghost between: bool)
      requires Remembers(control, w, r, gc, between)
      modifies this, control
      ensures finishes == old(finishes) + 1
      ensures unregistrations == old(unregistrations) + if isAlreadyRegister then 1 else 0
      ensures registered == if isAlreadyRegister then old(registered) - Members(r.dismiss) else old(registered)
      ensures unchanged(this`isAlreadyRegister)
      ensures WorldOf(control) == CycledWorld(w, r, gc, between, false)
    {
      if isAlreadyRegister {
        registered := registered - Members(r.dismiss);
        unregistrations := unregistrations + 1;
      }
      TurnOn(control, r, false, w, gc, between);
      finishes := finishes + 1;
    }

    method Init(s: RestoreScript) returns (status: Status)
      requires Initial() && control.Fresh()
      modifies this, control
      ensures status.Ok? <==> s.InitOk(old(WorldOf(control)))
      ensures status.Ok? ==>
                && finishes == 0 && isAlreadyRegister && registered == Members(s.reach.enroll) && unregistrations == 0
                && Remembers(control, old(WorldOf(control)), s.reach, true, true)
      ensures !status.Ok? ==>
                && finishes == (if s.checks then 1 else 0)
                && unregistrations == (if s.Enlisted(old(WorldOf(control))) then 1 else 0)
                && registered == RegisteredAfterRestore(old(WorldOf(control)), s)
                && WorldOf(control) == AfterRestore(old(WorldOf(control)), s)
    {
      ghost var w := WorldOf(control);
      if !s.checks {
        return Error(EINTERNAL);
      }
      if control.gcStopped {
        control.isGcStop, control.gcAfterFinish := true, false;
      }
      if !s.noBackup {
        status := Error(EINTERNAL);
      } else {
        registered := registered + Members(s.reach.enroll);
        if !Through(control.coordinators, s.reach.enroll) {
          status := Error(EINTERNAL);
        } else {
          isAlreadyRegister := true;
          status := TurnOff(control, s.reach, s.between);
        }
      }
      if !status.Ok? {
        DoFinish(s.reach, w, s.Enlisted(w) && (w.gcStopped || s.reach.gcStop), s.between);
        lastError := status;
      }
    }

    /** The exit guard watches the local status, and the result of the data phase never gets there. */
    method Run(s: RestoreScript, ghost w: World) returns (result: Status)
      requires Remembers(control, w, s.reach, true, true)
      modifies this, control
      ensures result.Ok? <==> s.interaction && s.run
      ensures unchanged(this`isAlreadyRegister)
      ensures s.interaction ==> unchanged(control) && unchanged(this`finishes, this`unregistrations)
      ensures s.interaction ==> registered == old(registered) + s.beats
      ensures !s.interaction ==>
                && finishes == old(finishes) + 1
                && unregistrations == old(unregistrations) + (if isAlreadyRegister then 1 else 0)
                && registered == old(registered) - (if isAlreadyRegister then Members(s.reach.dismiss) else {})
                && WorldOf(control) == CycledWorld(w, s.reach, true, true, false)
    {
      var status := Ok;
      if !s.interaction {
        status := Error(EINTERNAL);
        result := status;
      } else {
        registered := registered + s.beats;
        result := if s.run then Ok else Error(EINTERNAL);
      }
      if !status.Ok? {
        DoFinish(s.reach, w, true, true);
        lastError := status;
      }
    }

    method Perform(s: RestoreScript) returns (code: int)
      requires Initial() && control.Fresh()
      modifies this, control
      ensures var w := old(WorldOf(control));
              && finishes == (if s.checks && !s.Abandoned(w) then 1 else 0)
              && unregistrations == (if s.Enlisted(w) && !s.Abandoned(w) then 1 else 0)
              && registered == RegisteredAfterRestore(w, s)
      ensures WorldOf(control) == AfterRestore(old(WorldOf(control)), s)
      ensures code == 0 <==> s.InitOk(old(WorldOf(control))) && s.interaction && s.run
    {
      ghost var w := WorldOf(control);
      var status := Init(s);
      if !status.Ok? {
        return -1;
      }
      status := Run(s, w);
      if !status.Ok? {
        return -1;
      }
      DoFinish(s.reach, w, true, true);
      return 0;
    }
  }

  /** A restore leaves the cluster as it found it exactly if it never got to the switches, or garbage collection was
      off before and every other switch is put back; a restore that is abandoned puts nothing back. */
  lemma RestoreNeutral(w: World, s: RestoreScript)
    ensures AfterRestore(w, s) == w
       <==> || !s.Enlisted(w) || !(w.gcStopped || s.reach.gcStop)
            || (w.gcStopped && if s.Abandoned(w)
                               then && ReachedOff(w.coordinators, s.reach.balanceOff)
                                    && ReachedOff(w.stores, s.reach.storeOff)
                                    && ReachedOff(w.indexes, s.reach.indexOff)
                               else && BalanceKept(w, s.reach)
                                    && (GetsAcross(w, s.reach, s.between) ==> SplitKept(w, s.reach)))
  {
    CycledWorldExactly(w, s.reach, s.between, false);
    OffExactly(w.coordinators, s.reach.balanceOff);
    OffExactly(w.stores, s.reach.storeOff);
    OffExactly(w.indexes, s.reach.indexOff);
  }

  /** As for a backup; and an abandoned restore leaves the task wherever it was registered. */
  lemma RestoreUnregistered(w: World, s: RestoreScript)
    requires AllDismissed(w, s.reach, s.beats)
    ensures RegisteredAfterRestore(w, s) == {} <==>
      || !s.checks || !s.noBackup
      || (Enrolled(w, s.reach) && !s.Abandoned(w))
      || (s.reach.enroll.visits == [] && (s.Abandoned(w) ==> s.beats == {}))
  {
    NobodyLeftExactly(w, s.reach, if s.InitOk(w) && s.interaction then s.beats else {}, !s.Abandoned(w));
  }

  /** With clean control calls, for each of the three ways a restore can go. */
  lemma RestoreNeutralClean(w: World, s: RestoreScript)
    requires AllClean(w, s.reach)
    ensures AfterRestore(w, s) == w
       <==> || !s.Enlisted(w)
            || (w.gcStopped && if s.Abandoned(w)
                               then AllOff(w.coordinators) && AllOff(w.stores) && AllOff(w.indexes)
                               else Uniform(w.coordinators) && (s.between ==> Uniform(w.stores + w.indexes)))
  {
    RestoreNeutral(w, s);
    CleanKept(w, s.reach);
  }

  /** A restore whose data phase fails: any switch that was on is off afterwards. */
  lemma AbandonedStaysOff(w: World, s: RestoreScript, i: nat)
    requires AllClean(w, s.reach) && s.Abandoned(w) && i < |w.coordinators|
    ensures AfterRestore(w, s).coordinators[i] == Node(false, false) && AfterRestore(w, s).gcStopped
  {
  }
}
