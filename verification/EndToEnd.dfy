/** From the regions of the cluster, through filters, workers, files, manifest and root, to what a restore reads. */
module EndToEnd {
  import opened Options
  import opened Entities
  import opened FileSlots
  import opened BackupFiles
  import opened ManifestCheck
  import opened ManifestTheorems
  import opened BackupRoot
  import opened RootTheorems
  import opened RegionFilter
  import BackupWorkers

  /** One schedule of the three workers of a source, and for which kinds of region there are nodes to ask. */
  datatype Phase = Phase(present: seq<bool>, acts: seq<BackupWorkers.Action>)

  predicate ThreeKinds(p: Phase) {
    |p.present| == 3
  }

  function BinFor(source: Source, kind: Kind): Bin {
    if source == Sql then SqlData(kind) else SdkData(kind)
  }

  predicate IsData(f: Config, r: Region) {
    BinOf(f, r).SqlData? || BinOf(f, r).SdkData?
  }

  predicate IdsDistinct(regions: seq<Region>) {
    forall i, j :: 0 <= i < j < |regions| ==> regions[i].id != regions[j].id
  }

  function ConfigFor(stores: seq<Region>, indexes: seq<Region>, documents: seq<Region>, p: Phase): BackupWorkers.Config {
    BackupWorkers.Config([IdsInOrder(stores), IdsInOrder(indexes), IdsInOrder(documents)], p.present)
  }

  /** What a source has to save once its workers have run. */
  function Collected(stores: seq<Region>, indexes: seq<Region>, documents: seq<Region>, p: Phase): Contents
    requires ThreeKinds(p)
  {
    var saved := BackupWorkers.Exec(ConfigFor(stores, indexes, documents, p), p.acts).saved;
    Contents(stores, indexes, documents, saved[0], saved[1], saved[2])
  }

  lemma CollectedLeft(stores: seq<Region>, indexes: seq<Region>, documents: seq<Region>, p: Phase)
    requires ThreeKinds(p)
    ensures LeftBy(Collected(stores, indexes, documents, p), ConfigFor(stores, indexes, documents, p), p.acts)
  {
  }

  function ConfigOf(f: Config, regions: seq<Region>, source: Source, p: Phase): BackupWorkers.Config {
    ConfigFor(Select(f, BinFor(source, Store), regions), Select(f, BinFor(source, Index), regions),
              Select(f, BinFor(source, Document), regions), p)
  }

  function SideOf(f: Config, regions: seq<Region>, source: Source, p: Phase): Contents
    requires ThreeKinds(p)
  {
    Collected(Select(f, BinFor(source, Store), regions), Select(f, BinFor(source, Index), regions),
              Select(f, BinFor(source, Document), regions), p)
  }

  function Final(f: Config, regions: seq<Region>, source: Source, p: Phase): BackupWorkers.State
    requires ThreeKinds(p)
  {
    BackupWorkers.Exec(ConfigOf(f, regions, source, p), p.acts)
  }

  /** `Run` has returned, and with OK. */
  predicate Succeeds(stores: seq<Region>, indexes: seq<Region>, documents: seq<Region>, p: Phase)
    requires ThreeKinds(p)
  {
    var main := BackupWorkers.Exec(ConfigFor(stores, indexes, documents, p), p.acts).main;
    main.Returned? && main.result.Ok?
  }

  predicate Succeeded(f: Config, regions: seq<Region>, source: Source, p: Phase)
    requires ThreeKinds(p)
  {
    Succeeds(Select(f, BinFor(source, Store), regions), Select(f, BinFor(source, Index), regions),
             Select(f, BinFor(source, Document), regions), p)
  }

  /** `Run` has returned and found the stop flag down. */
  predicate Completed(f: Config, regions: seq<Region>, source: Source, p: Phase)
    requires ThreeKinds(p)
  {
    var main := Final(f, regions, source, p).main;
    main.Returned? && !main.stopped
  }

  function AnswersOf(f: Config, regions: seq<Region>, source: Source, p: Phase, kind: Kind): seq<BackupWorkers.Answer>
    requires ThreeKinds(p)
  {
    BackupWorkers.Grants(Final(f, regions, source, p).log, WorkerOf(kind))
  }

  lemma {:induction false} Selected(f: Config, b: Bin, regions: seq<Region>, r: Region)
    ensures r in Select(f, b, regions) <==> r in regions && BinOf(f, r) == b
  {
    SelectCount(f, b, regions, r);
    assert r in Select(f, b, regions) <==> multiset(Select(f, b, regions))[r] > 0;
    assert r in regions <==> multiset(regions)[r] > 0;
  }

  // ----- what comes back

  predicate Has(extracted: map<Slot, map<Id, Blob>>, s: Slot, id: Id) {
    s in extracted && id in extracted[s]
  }

  /** A region came back as it was, and with it the files of the one answer to its request, if there were any. */
  ghost predicate CameBack(extracted: map<Slot, map<Id, Blob>>, source: Source, kind: Kind, r: Region,
                           answers: seq<BackupWorkers.Answer>) {
    var list, files := Slot(source, kind, Regions), Slot(source, kind, Groups);
    && Has(extracted, list, r.id) && extracted[list][r.id] == RegionBlob(r)
    && exists group ::
         && BackupWorkers.Answer(r.id, group) in answers
         && (forall other :: BackupWorkers.Answer(r.id, other) in answers ==> other == group)
         && (Has(extracted, files, r.id) <==> group != [])
         && (group != [] ==> extracted[files][r.id] == GroupBlob(group))
  }

  ghost predicate ReadBack(extracted: map<Slot, map<Id, Blob>>, w: Whole) {
    && (forall s :: s in extracted <==> Expected(w, s) != map[])
    && (forall s :: s in extracted ==> extracted[s] == Expected(w, s))
  }

  lemma ReadBackAt(extracted: map<Slot, map<Id, Blob>>, w: Whole, s: Slot, id: Id)
    requires ReadBack(extracted, w)
    ensures Has(extracted, s, id) <==> id in Expected(w, s)
    ensures Has(extracted, s, id) ==> extracted[s][id] == Expected(w, s)[id]
  {
    if id in Expected(w, s) {
      assert Expected(w, s) != map[];
    }
  }

  lemma RegionKept(regions: seq<Region>, r: Region)
    requires IdsDistinct(regions) && r in regions
    ensures r.id in First(regions) && First(regions)[r.id] == RegionBlob(r)
  {
    var k: nat :| k < |regions| && regions[k] == r;
    FirstKeepsAll(regions, k);
  }

  ghost predicate AnswersTo(answers: seq<BackupWorkers.Answer>, list: seq<Region>) {
    BackupWorkers.Ids(answers) == IdsInOrder(list)
  }

  /** Each listed region has one answer, which is saved exactly if it is not empty. */
  lemma AnswerKept(answers: seq<BackupWorkers.Answer>, list: seq<Region>, r: Region) returns (group: Group)
    requires AnswersTo(answers, list) && IdsDistinct(list) && r in list
    ensures BackupWorkers.Answer(r.id, group) in answers
    ensures forall other :: BackupWorkers.Answer(r.id, other) in answers ==> other == group
    ensures r.id in BackupWorkers.SavedBy(answers) <==> group != []
    ensures group != [] ==> BackupWorkers.SavedBy(answers)[r.id] == group
  {
    assert |answers| == |list| by {
      assert |BackupWorkers.Ids(answers)| == |IdsInOrder(list)|;
    }
    forall i | 0 <= i < |list|
      ensures answers[i].id == list[i].id
    {
      assert BackupWorkers.Ids(answers)[i] == IdsInOrder(list)[i];
    }
    var k: nat :| k < |list| && list[k] == r;
    BackupWorkers.SavedExactly(answers);
    group := answers[k].group;
    assert answers[k] == BackupWorkers.Answer(r.id, group);
  }

  lemma KindCameBack(extracted: map<Slot, map<Id, Blob>>, w: Whole, source: Source, kind: Kind,
                     answers: seq<BackupWorkers.Answer>, r: Region)
    requires ReadBack(extracted, w)
    requires IdsDistinct(RegionsOf(Side(w, source), kind)) && r in RegionsOf(Side(w, source), kind)
    requires AnswersTo(answers, RegionsOf(Side(w, source), kind))
    requires GroupsOf(Side(w, source), kind) == BackupWorkers.SavedBy(answers)
    ensures CameBack(extracted, source, kind, r, answers)
  {
    var group := AnswerKept(answers, RegionsOf(Side(w, source), kind), r);
    RegionKept(RegionsOf(Side(w, source), kind), r);
    ReadBackAt(extracted, w, Slot(source, kind, Regions), r.id);
    ReadBackAt(extracted, w, Slot(source, kind, Groups), r.id);
  }

  /** A completed phase has asked for every region of its lists, and saved what the answers amount to. */
  lemma PhaseAnswers(f: Config, regions: seq<Region>, source: Source, p: Phase, kind: Kind)
    requires ThreeKinds(p) && Completed(f, regions, source, p)
    ensures AnswersTo(AnswersOf(f, regions, source, p, kind), Select(f, BinFor(source, kind), regions))
    ensures GroupsOf(SideOf(f, regions, source, p), kind) ==
      BackupWorkers.SavedBy(AnswersOf(f, regions, source, p, kind))
  {
    BackupWorkers.RunComplete(ConfigOf(f, regions, source, p), p.acts, WorkerOf(kind));
  }

  function WholeOf(f: Config, regions: seq<Region>, sql: Phase, sdk: Phase): Whole
    requires ThreeKinds(sql) && ThreeKinds(sdk)
  {
    Whole(SideOf(f, regions, Sql, sql), SideOf(f, regions, Sdk, sdk))
  }

  function PhaseOf(source: Source, sql: Phase, sdk: Phase): Phase {
    if source == Sql then sql else sdk
  }

  lemma RegionCameBack(f: Config, regions: seq<Region>, sql: Phase, sdk: Phase, extracted: map<Slot, map<Id, Blob>>,
                       source: Source, kind: Kind, r: Region)
    requires ThreeKinds(sql) && ThreeKinds(sdk)
    requires IdsDistinct(regions) && Completed(f, regions, source, PhaseOf(source, sql, sdk))
    requires ReadBack(extracted, WholeOf(f, regions, sql, sdk))
    requires r in regions && BinOf(f, r) == BinFor(source, kind)
    ensures CameBack(extracted, source, kind, r, AnswersOf(f, regions, source, PhaseOf(source, sql, sdk), kind))
  {
    var p := PhaseOf(source, sql, sdk);
    var w := WholeOf(f, regions, sql, sdk);
    assert RegionsOf(Side(w, source), kind) == Select(f, BinFor(source, kind), regions);
    SelectDistinct(f, BinFor(source, kind), regions);
    Selected(f, BinFor(source, kind), regions, r);
    PhaseAnswers(f, regions, source, p, kind);
    KindCameBack(extracted, w, source, kind, AnswersOf(f, regions, source, p, kind), r);
  }

  lemma RegionListed(list: seq<Region>, id: Id)
    requires id in First(list)
    ensures id in IdsInOrder(list)
  {
    FirstIds(list);
    var k: nat :| k < |list| && list[k].id == id;
    assert IdsInOrder(list)[k] == id;
  }

  lemma GroupListed(f: Config, regions: seq<Region>, source: Source, p: Phase, kind: Kind, id: Id)
    requires ThreeKinds(p) && id in GroupsOf(SideOf(f, regions, source, p), kind)
    ensures id in IdsInOrder(Select(f, BinFor(source, kind), regions))
  {
    BackupWorkers.SavedWithin(ConfigOf(f, regions, source, p), p.acts, WorkerOf(kind), id);
  }

  lemma OfRegion(f: Config, b: Bin, regions: seq<Region>, id: Id) returns (r: Region)
    requires id in IdsInOrder(Select(f, b, regions))
    ensures r in regions && BinOf(f, r) == b && r.id == id
  {
    var list := Select(f, b, regions);
    var k: nat :| k < |list| && IdsInOrder(list)[k] == id;
    r := list[k];
    Selected(f, b, regions, r);
  }

  lemma ExpectedListed(f: Config, regions: seq<Region>, sql: Phase, sdk: Phase, s: Slot, id: Id)
    requires ThreeKinds(sql) && ThreeKinds(sdk) && id in Expected(WholeOf(f, regions, sql, sdk), s)
    ensures id in IdsInOrder(Select(f, BinFor(s.source, s.kind), regions))
  {
    if s.part == Regions {
      RegionListed(Select(f, BinFor(s.source, s.kind), regions), id);
    } else {
      GroupListed(f, regions, s.source, PhaseOf(s.source, sql, sdk), s.kind, id);
    }
  }

  /** Nothing comes back that was not a data region of the cluster, whatever the schedules. */
  lemma OnlyData(f: Config, regions: seq<Region>, sql: Phase, sdk: Phase, extracted: map<Slot, map<Id, Blob>>,
                 s: Slot, id: Id) returns (r: Region)
    requires ThreeKinds(sql) && ThreeKinds(sdk)
    requires ReadBack(extracted, WholeOf(f, regions, sql, sdk)) && Has(extracted, s, id)
    ensures r in regions && BinOf(f, r) == BinFor(s.source, s.kind) && r.id == id
  {
    ReadBackAt(extracted, WholeOf(f, regions, sql, sdk), s, id);
    ExpectedListed(f, regions, sql, sdk, s, id);
    r := OfRegion(f, BinFor(s.source, s.kind), regions, id);
  }

  // ----- when a restore goes ahead

  function SourceOf(f: Config, r: Region): Source {
    if BinOf(f, r).SqlData? then Sql else Sdk
  }

  lemma DataBin(f: Config, r: Region)
    requires IsData(f, r)
    ensures r.regionType.Typed? && BinOf(f, r) == BinFor(SourceOf(f, r), r.regionType.kind)
  {
  }

  predicate Reachable(f: Config, r: Region, nodes: set<Kind>) {
    IsData(f, r) ==> r.regionType.kind in nodes
  }

  lemma ServedExactly(f: Config, regions: seq<Region>, sql: Phase, sdk: Phase, nodes: set<Kind>)
    requires ThreeKinds(sql) && ThreeKinds(sdk)
    ensures AllServed(WholeOf(f, regions, sql, sdk), nodes) <==> forall r :: r in regions ==> Reachable(f, r, nodes)
  {
    var w := WholeOf(f, regions, sql, sdk);
    if AllServed(w, nodes) {
      forall r | r in regions && IsData(f, r)
        ensures r.regionType.kind in nodes
      {
        DataBin(f, r);
        Selected(f, BinOf(f, r), regions, r);
        assert Served(Side(w, SourceOf(f, r)), r.regionType.kind, nodes);
      }
    }
    if forall r :: r in regions ==> Reachable(f, r, nodes) {
      forall source: Source, kind: Kind
        ensures Served(Side(w, source), kind, nodes)
      {
        ListServed(f, regions, source, kind, nodes);
      }
    }
  }

  lemma ListServed(f: Config, regions: seq<Region>, source: Source, kind: Kind, nodes: set<Kind>)
    requires forall r :: r in regions ==> Reachable(f, r, nodes)
    ensures Select(f, BinFor(source, kind), regions) != [] ==> kind in nodes
  {
    var list := Select(f, BinFor(source, kind), regions);
    if list != [] {
      Selected(f, BinFor(source, kind), regions, list[0]);
      DataBin(f, list[0]);
    }
  }

  ghost predicate AnyData(f: Config, regions: seq<Region>) {
    exists r :: r in regions && IsData(f, r)
  }

  lemma AnythingExactly(f: Config, regions: seq<Region>, sql: Phase, sdk: Phase)
    requires ThreeKinds(sql) && ThreeKinds(sdk)
    ensures (exists s :: Expected(WholeOf(f, regions, sql, sdk), s) != map[]) <==> AnyData(f, regions)
  {
    var w := WholeOf(f, regions, sql, sdk);
    if AnyData(f, regions) {
      var r :| r in regions && IsData(f, r);
      DataBin(f, r);
      Selected(f, BinOf(f, r), regions, r);
      var s := Slot(SourceOf(f, r), r.regionType.kind, Regions);
      FirstOfNone(RegionsOf(Side(w, s.source), s.kind));
      assert Expected(w, s) != map[];
    }
    if s :| Expected(w, s) != map[] {
      SlotHasData(f, regions, sql, sdk, s);
    }
  }

  lemma SlotHasData(f: Config, regions: seq<Region>, sql: Phase, sdk: Phase, s: Slot)
    requires ThreeKinds(sql) && ThreeKinds(sdk) && Expected(WholeOf(f, regions, sql, sdk), s) != map[]
    ensures AnyData(f, regions)
  {
    WorkersSupported(f, regions, sql, sdk);
    var w := WholeOf(f, regions, sql, sdk);
    var list := RegionsOf(Side(w, s.source), s.kind);
    assert Supported(Side(w, s.source), s.kind);
    FirstOfNone(list);
    BlobsOfNone(GroupsOf(Side(w, s.source), s.kind));
    Selected(f, BinFor(s.source, s.kind), regions, list[0]);
  }

  lemma WorkersSupported(f: Config, regions: seq<Region>, sql: Phase, sdk: Phase)
    requires ThreeKinds(sql) && ThreeKinds(sdk)
    ensures AllSupported(WholeOf(f, regions, sql, sdk))
  {
    CollectedLeft(Select(f, BinFor(Sql, Store), regions), Select(f, BinFor(Sql, Index), regions),
                  Select(f, BinFor(Sql, Document), regions), sql);
    CollectedLeft(Select(f, BinFor(Sdk, Store), regions), Select(f, BinFor(Sdk, Index), regions),
                  Select(f, BinFor(Sdk, Document), regions), sdk);
    RunsSupported(WholeOf(f, regions, sql, sdk), ConfigOf(f, regions, Sql, sql), sql.acts,
                  ConfigOf(f, regions, Sdk, sdk), sdk.acts);
  }

  /** The data regions of the cluster that came back whole. */
  ghost predicate AllCameBack(f: Config, regions: seq<Region>, sql: Phase, sdk: Phase,
                              extracted: map<Slot, map<Id, Blob>>, source: Source)
    requires ThreeKinds(sql) && ThreeKinds(sdk)
  {
    forall r, kind :: r in regions && BinOf(f, r) == BinFor(source, kind) ==>
      CameBack(extracted, source, kind, r, AnswersOf(f, regions, source, PhaseOf(source, sql, sdk), kind))
  }

  ghost predicate FromData(f: Config, regions: seq<Region>, s: Slot, id: Id) {
    exists r :: r in regions && BinOf(f, r) == BinFor(s.source, s.kind) && r.id == id
  }

  /** If `Run` found the stop flag up, some region of its lists got no answer at all. */
  lemma Unanswered(f: Config, regions: seq<Region>, source: Source, p: Phase) returns (r: Region, kind: Kind)
    requires ThreeKinds(p) && IdsDistinct(regions)
    requires Final(f, regions, source, p).main.Returned? && !Completed(f, regions, source, p)
    ensures r in Select(f, BinFor(source, kind), regions)
    ensures forall a :: a in AnswersOf(f, regions, source, p, kind) ==> a.id != r.id
  {
    var c, t := ConfigOf(f, regions, source, p), Final(f, regions, source, p);
    BackupWorkers.ExecBlamed(c, p.acts);
    var w: nat :| BackupWorkers.Short(c, t, w);
    kind := if w == 0 then Store else if w == 1 then Index else Document;
    BackupWorkers.ExecTracks(c, p.acts);
    var answers := AnswersOf(f, regions, source, p, kind);
    assert BackupWorkers.Tracks(c.lists[w], t.workers[w], t.counters[w], t.saved[w], answers);
    SelectDistinct(f, BinFor(source, kind), regions);
    r := NextOfPrefix(answers, Select(f, BinFor(source, kind), regions));
  }

  lemma NextOfPrefix(answers: seq<BackupWorkers.Answer>, list: seq<Region>) returns (r: Region)
    requires BackupWorkers.Ids(answers) <= IdsInOrder(list) && |answers| < |list| && IdsDistinct(list)
    ensures r in list && forall a :: a in answers ==> a.id != r.id
  {
    r := list[|answers|];
    forall i | 0 <= i < |answers|
      ensures answers[i].id != r.id
    {
      assert BackupWorkers.Ids(answers)[i] == IdsInOrder(list)[i];
      assert list[i].id == answers[i].id;
    }
  }

  lemma OneMissing(f: Config, regions: seq<Region>, sql: Phase, sdk: Phase, extracted: map<Slot, map<Id, Blob>>,
                   source: Source)
    requires ThreeKinds(sql) && ThreeKinds(sdk) && IdsDistinct(regions)
    requires Final(f, regions, source, PhaseOf(source, sql, sdk)).main.Returned?
    requires !Completed(f, regions, source, PhaseOf(source, sql, sdk))
    ensures !AllCameBack(f, regions, sql, sdk, extracted, source)
  {
    var p := PhaseOf(source, sql, sdk);
    var r, kind := Unanswered(f, regions, source, p);
    Selected(f, BinFor(source, kind), regions, r);
    assert !CameBack(extracted, source, kind, r, AnswersOf(f, regions, source, p, kind));
  }

  lemma SideCameBack(f: Config, regions: seq<Region>, sql: Phase, sdk: Phase, extracted: map<Slot, map<Id, Blob>>,
                     source: Source)
    requires ThreeKinds(sql) && ThreeKinds(sdk)
    requires IdsDistinct(regions) && Completed(f, regions, source, PhaseOf(source, sql, sdk))
    requires ReadBack(extracted, WholeOf(f, regions, sql, sdk))
    ensures AllCameBack(f, regions, sql, sdk, extracted, source)
  {
    forall r, kind | r in regions && BinOf(f, r) == BinFor(source, kind)
      ensures CameBack(extracted, source, kind, r, AnswersOf(f, regions, source, PhaseOf(source, sql, sdk), kind))
    {
      RegionCameBack(f, regions, sql, sdk, extracted, source, kind, r);
    }
  }

  lemma WholeExactly(f: Config, regions: seq<Region>, sql: Phase, sdk: Phase, extracted: map<Slot, map<Id, Blob>>,
                     source: Source)
    requires ThreeKinds(sql) && ThreeKinds(sdk) && IdsDistinct(regions)
    requires ReadBack(extracted, WholeOf(f, regions, sql, sdk))
    requires Final(f, regions, source, PhaseOf(source, sql, sdk)).main.Returned?
    ensures AllCameBack(f, regions, sql, sdk, extracted, source) <==>
      Completed(f, regions, source, PhaseOf(source, sql, sdk))
  {
    if Completed(f, regions, source, PhaseOf(source, sql, sdk)) {
      SideCameBack(f, regions, sql, sdk, extracted, source);
    } else {
      OneMissing(f, regions, sql, sdk, extracted, source);
    }
  }

  lemma Outcome(f: Config, regions: seq<Region>, sql: Phase, sdk: Phase, extracted: map<Slot, map<Id, Blob>>)
    requires ThreeKinds(sql) && ThreeKinds(sdk) && ReadBack(extracted, WholeOf(f, regions, sql, sdk))
    requires Final(f, regions, Sql, sql).main.Returned? && Final(f, regions, Sdk, sdk).main.Returned?
    ensures forall s, id :: Has(extracted, s, id) ==> FromData(f, regions, s, id)
    ensures IdsDistinct(regions) ==>
      && (AllCameBack(f, regions, sql, sdk, extracted, Sql) <==> Completed(f, regions, Sql, sql))
      && (AllCameBack(f, regions, sql, sdk, extracted, Sdk) <==> Completed(f, regions, Sdk, sdk))
  {
    forall s, id | Has(extracted, s, id)
      ensures FromData(f, regions, s, id)
    {
      var r := OnlyData(f, regions, sql, sdk, extracted, s, id);
    }
    if IdsDistinct(regions) {
      WholeExactly(f, regions, sql, sdk, extracted, Sql);
      WholeExactly(f, regions, sql, sdk, extracted, Sdk);
    }
  }

  lemma GoesAhead(f: Config, regions: seq<Region>, sql: Phase, sdk: Phase, nodes: set<Kind>)
    requires ThreeKinds(sql) && ThreeKinds(sdk)
    ensures var w := WholeOf(f, regions, sql, sdk);
      && AllSupported(w)
      && (AllServed(w, nodes) <==> forall r :: r in regions ==> Reachable(f, r, nodes))
      && ((exists s :: Expected(w, s) != map[]) <==> AnyData(f, regions))
  {
    WorkersSupported(f, regions, sql, sdk);
    ServedExactly(f, regions, sql, sdk, nodes);
    AnythingExactly(f, regions, sql, sdk);
  }

  /** A backup of a cluster to an empty directory that works, under any schedule of the workers, and a restore of it.
      The restore goes ahead exactly if there are nodes for every data region and data comes with some of the meta
      entries; what it reads are data regions of the cluster and nothing else; and, if the cluster has no region id
      twice, a source comes back whole exactly if its `Run` found the stop flag down.  (OK alone is not enough, see
      `BackupWorkerCases`.) */
  method BackupAndRestore(me: Measure, f: Config, regions: seq<Region>, sql: Phase, sdk: Phase, p: Parts, debug: string,
                          nodes: set<Kind>)
    returns (saved: bool, v: Verdict, extracted: map<Slot, map<Id, Blob>>)
    requires ThreeKinds(sql) && ThreeKinds(sdk)
    ensures saved <==> Succeeded(f, regions, Sql, sql) && Succeeded(f, regions, Sdk, sdk)
    ensures saved ==>
      (v.Fine? <==>
        && (forall r :: r in regions ==> Reachable(f, r, nodes))
        && (AnyData(f, regions) ==> p.schema.Some? || p.epochs.Some? || p.increments.Some?))
    ensures saved && v.Fine? ==> forall s, id :: Has(extracted, s, id) ==> FromData(f, regions, s, id)
    ensures saved && v.Fine? && IdsDistinct(regions) ==>
      && (AllCameBack(f, regions, sql, sdk, extracted, Sql) <==> Completed(f, regions, Sql, sql))
      && (AllCameBack(f, regions, sql, sdk, extracted, Sdk) <==> Completed(f, regions, Sdk, sdk))
  {
    v, extracted := Fine, map[];
    var stores, indexes, documents := FilterSqlData(f, regions);
    saved := Succeeds(stores, indexes, documents, sql);
    if !saved { return; }
    var sqlSide := Collected(stores, indexes, documents, sql);
    stores, indexes, documents := FilterSdkData(f, regions);
    saved := Succeeds(stores, indexes, documents, sdk);
    if !saved { return; }
    var sdkSide := Collected(stores, indexes, documents, sdk);
    var w := Whole(sqlSide, sdkSide);
    assert w == WholeOf(f, regions, sql, sdk);
    GoesAhead(f, regions, sql, sdk, nodes);
    var withData;
    v, extracted, withData := SaveAndOpen(me, w, p, debug, nodes);
    if v.Fine? {
      Outcome(f, regions, sql, sdk, extracted);
    }
  }
}
