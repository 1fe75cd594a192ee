/** A backup can be restored, what comes back is what went in, and changes below the root are refused. */
module ManifestTheorems {
  import opened Options
  import opened Decimal
  import opened Entities
  import opened IdKeys
  import opened FileSlots
  import opened BackupFiles
  import opened Manifest
  import opened ManifestCheck
  import opened RestoreFiles
  import BackupWorkers

  /** No SST groups without a region list. */
  predicate Supported(c: Contents, kind: Kind) {
    GroupsOf(c, kind) != map[] ==> RegionsOf(c, kind) != []
  }

  ghost predicate AllSupported(w: Whole) {
    forall source, kind :: Supported(Side(w, source), kind)
  }

  /** The region workers only save groups of regions on their lists. */
  lemma GroupsOfListed(c: Contents, kind: Kind)
    requires GroupsOf(c, kind).Keys <= Ids(RegionsOf(c, kind))
    ensures Supported(c, kind)
  {
    if RegionsOf(c, kind) == [] {
      assert GroupsOf(c, kind).Keys == {};
    }
  }

  /** The list on which the workers of a backup work through a kind of region. */
  function WorkerOf(kind: Kind): nat {
    match kind
    case Store => 0
    case Index => 1
    case Document => 2
  }

  /** `c` is what a schedule of the three workers has left behind. */
  ghost predicate LeftBy(c: Contents, config: BackupWorkers.Config, acts: seq<BackupWorkers.Action>) {
    && BackupWorkers.WellFormed(config) && |config.lists| == 3
    && forall kind ::
         && config.lists[WorkerOf(kind)] == IdsInOrder(RegionsOf(c, kind))
         && BackupWorkers.Exec(config, acts).saved[WorkerOf(kind)] == GroupsOf(c, kind)
  }

  function IdsInOrder(regions: seq<Region>): seq<Id> {
    seq(|regions|, i requires 0 <= i < |regions| => regions[i].id)
  }

  lemma RunSupported(c: Contents, config: BackupWorkers.Config, acts: seq<BackupWorkers.Action>, kind: Kind)
    requires LeftBy(c, config, acts)
    ensures Supported(c, kind)
  {
    forall id | id in GroupsOf(c, kind)
      ensures id in Ids(RegionsOf(c, kind))
    {
      BackupWorkers.SavedWithin(config, acts, WorkerOf(kind), id);
      var i :| 0 <= i < |RegionsOf(c, kind)| && IdsInOrder(RegionsOf(c, kind))[i] == id;
      assert RegionsOf(c, kind)[i].id == id;
    }
    GroupsOfListed(c, kind);
  }

  /** Whatever the workers of a backup leave behind, in any schedule and at any time, can be saved and restored. */
  lemma RunsSupported(w: Whole, sql: BackupWorkers.Config, sqlActs: seq<BackupWorkers.Action>,
                      sdk: BackupWorkers.Config, sdkActs: seq<BackupWorkers.Action>)
    requires LeftBy(w.sql, sql, sqlActs) && LeftBy(w.sdk, sdk, sdkActs)
    ensures AllSupported(w)
  {
    forall source, kind
      ensures Supported(Side(w, source), kind)
    {
      if source == Sql {
        RunSupported(w.sql, sql, sqlActs, kind);
      } else {
        RunSupported(w.sdk, sdk, sdkActs, kind);
      }
    }
  }

  lemma {:induction false} FirstFits(regions: seq<Region>, id: Id)
    requires id in First(regions)
    ensures First(regions)[id].RegionBlob?
  {
    var n := |regions| - 1;
    if id in First(regions[..n]) {
      FirstFits(regions[..n], id);
    }
  }

  lemma ExpectedReadable(w: Whole, s: Slot)
    ensures Readable(Encode(Expected(w, s)), s.part)
  {
    var m := Expected(w, s);
    var f := Encode(m);
    forall k | k in f
      ensures ReadableAt(f, s.part, k)
    {
      assert k in Keys(m.Keys);
      var id: Id := Stoll(k).value;
      assert f[k] == m[id];
      if s.part == Regions {
        FirstFits(RegionsOf(Side(w, s.source), s.kind), id);
      }
    }
  }

  lemma ListedExactly(me: Measure, index: File, w: Whole, s: Slot)
    requires Lists(me, index, w)
    ensures FileName(s) in index <==> Expected(w, s) != map[]
  {
    if FileName(s) in index {
      var t :| Expected(w, t) != map[] && FileName(s) == FileName(t);
      NamesDistinct(s, t);
    }
  }

  lemma PairedExactly(me: Measure, index: File, w: Whole, source: Source, kind: Kind)
    requires Lists(me, index, w)
    ensures Paired(index, source, kind) <==> Supported(Side(w, source), kind)
  {
    ListedExactly(me, index, w, Slot(source, kind, Regions));
    ListedExactly(me, index, w, Slot(source, kind, Groups));
    FirstOfNone(RegionsOf(Side(w, source), kind));
    BlobsOfNone(GroupsOf(Side(w, source), kind));
  }

  lemma SavedSlotFine(me: Measure, files: Dir, w: Whole, s: Slot)
    requires FilesHold(files, w, AllSlots()) && DATAFILE in files && Lists(me, files[DATAFILE], w)
    ensures SlotFine(me, files, files[DATAFILE], s)
  {
    ListedExactly(me, files[DATAFILE], w, s);
    EverySlot(s);
    ExpectedReadable(w, s);
  }

  /** A finished backup passes every check of the restore, if and only if no kind of region has groups but no list. */
  lemma BackupRestorable(me: Measure, files: Dir, meta: Option<BackupMeta>, w: Whole)
    requires Saved(me, files, meta, w)
    ensures Restorable(me, files, meta) <==> AllSupported(w)
  {
    if meta.Some? {
      AllPairedExactly(me, files[DATAFILE], w);
      forall s
        ensures SlotFine(me, files, files[DATAFILE], s)
      {
        SavedSlotFine(me, files, w, s);
      }
    } else {
      NothingSupported(w);
    }
  }

  lemma AllPairedExactly(me: Measure, index: File, w: Whole)
    requires Lists(me, index, w)
    ensures AllPaired(index) <==> AllSupported(w)
  {
    forall source, kind
      ensures Paired(index, source, kind) <==> Supported(Side(w, source), kind)
    {
      PairedExactly(me, index, w, source, kind);
    }
  }

  lemma NothingSupported(w: Whole)
    requires forall s :: Expected(w, s) == map[]
    ensures AllSupported(w)
  {
    forall source, kind
      ensures Supported(Side(w, source), kind)
    {
      assert Expected(w, Slot(source, kind, Groups)) == map[];
      BlobsOfNone(GroupsOf(Side(w, source), kind));
    }
  }

  /** What the restore reads is what the backup was given: every slot with something in it, nothing else, unchanged. */
  lemma RoundTripAll(me: Measure, files: Dir, meta: Option<BackupMeta>, w: Whole, extracted: map<Slot, map<Id, Blob>>)
    requires Saved(me, files, meta, w)
    requires Loaded(files, Listed(files, meta), extracted)
    ensures forall s :: s in extracted <==> Expected(w, s) != map[]
    ensures forall s :: s in extracted ==> extracted[s] == Expected(w, s)
  {
    forall s
      ensures s in extracted <==> Expected(w, s) != map[]
      ensures s in extracted ==> extracted[s] == Expected(w, s)
    {
      EverySlot(s);
      if meta.Some? {
        ListedExactly(me, files[DATAFILE], w, s);
        if s in extracted {
          DecodeInverts(Expected(w, s), extracted[s]);
        }
      }
    }
  }

  /** The file of that name is another one now, with the same size and the same SHA-1 code. */
  ghost predicate Collides(me: Measure, files: Dir, other: Dir, name: string) {
    && name in files && name in other && files[name] != other[name]
    && me.size(files[name]) == me.size(other[name]) && me.digest(files[name]) == me.digest(other[name])
  }

  ghost predicate SlotCollides(me: Measure, files: Dir, other: Dir, w: Whole, s: Slot) {
    Expected(w, s) != map[] && Collides(me, files, other, FileName(s))
  }

  lemma SlotUnchanged(me: Measure, files: Dir, other: Dir, index: File, w: Whole, s: Slot)
    requires FilesHold(files, w, AllSlots()) && Lists(me, index, w) && Expected(w, s) != map[]
    requires SlotFine(me, other, index, s)
    ensures FileName(s) in other
    ensures other[FileName(s)] == Encode(Expected(w, s)) || SlotCollides(me, files, other, w, s)
  {
    EverySlot(s);
  }

  /** Given the description of the manifest, and whatever happened to the directory: it is refused, or it still is that
      backup, or one of the files below the root has been replaced by another one of the same size with the same SHA-1
      code. */
  lemma TamperingRefused(me: Measure, files: Dir, meta: Option<BackupMeta>, w: Whole, other: Dir)
    requires Saved(me, files, meta, w)
    ensures || !Restorable(me, other, meta)
            || Saved(me, other, meta, w)
            || Collides(me, files, other, DATAFILE)
            || exists s :: SlotCollides(me, files, other, w, s)
  {
    if meta.Some? && Restorable(me, other, meta) && !Collides(me, files, other, DATAFILE) {
      var index := files[DATAFILE];
      assert other[DATAFILE] == index;
      if !(exists s :: SlotCollides(me, files, other, w, s)) {
        forall s | s in AllSlots() && Expected(w, s) != map[]
          ensures FileName(s) in other && other[FileName(s)] == Encode(Expected(w, s))
        {
          SlotUnchanged(me, files, other, index, w, s);
        }
        assert FilesHold(other, w, AllSlots());
      }
    }
  }

  /** Regions of a kind need a node of that kind. */
  predicate Served(c: Contents, kind: Kind, nodes: set<Kind>) {
    RegionsOf(c, kind) != [] ==> kind in nodes
  }

  ghost predicate AllServed(w: Whole, nodes: set<Kind>) {
    forall source, kind :: Served(Side(w, source), kind, nodes)
  }

  lemma RegionsListed(me: Measure, files: Dir, meta: Option<BackupMeta>, w: Whole, source: Source, kind: Kind)
    requires Saved(me, files, meta, w)
    ensures Slot(source, kind, Regions) in Listed(files, meta) <==> RegionsOf(Side(w, source), kind) != []
  {
    var s := Slot(source, kind, Regions);
    EverySlot(s);
    FirstOfNone(RegionsOf(Side(w, source), kind));
    assert Expected(w, s) == First(RegionsOf(Side(w, source), kind));
    if meta.Some? {
      ListedExactly(me, files[DATAFILE], w, s);
    }
  }

  lemma StaffedExactly(me: Measure, files: Dir, meta: Option<BackupMeta>, w: Whole, nodes: set<Kind>)
    requires Saved(me, files, meta, w)
    ensures Staffed(files, meta, nodes) <==> AllServed(w, nodes)
  {
    var listed := Listed(files, meta);
    forall source, kind
      ensures KindStaffed(listed, source, kind, nodes) <==> Served(Side(w, source), kind, nodes)
    {
      RegionsListed(me, files, meta, w, source, kind);
    }
    SameForAll(listed, w, nodes);
  }

  lemma SameForAll(listed: set<Slot>, w: Whole, nodes: set<Kind>)
    requires forall source, kind :: KindStaffed(listed, source, kind, nodes) <==> Served(Side(w, source), kind, nodes)
    ensures (forall source, kind :: KindStaffed(listed, source, kind, nodes)) <==> AllServed(w, nodes)
  {
  }

  /** Written to an empty directory that can be written to and read again, in one go. */
  method BackupThenRestore(me: Measure, w: Whole, nodes: set<Kind>)
    returns (v: Verdict, extracted: map<Slot, map<Id, Blob>>)
    ensures v.Fine? <==> AllSupported(w) && AllServed(w, nodes)
    ensures v.Fine? ==> forall s :: s in extracted <==> Expected(w, s) != map[]
    ensures v.Fine? ==> forall s :: s in extracted ==> extracted[s] == Expected(w, s)
  {
    var storage := new Storage({}, {});
    var backup := new BackupData(storage, me, w);
    var ok := backup.Save(w);
    ok := backup.Finish(w);
    BackupRestorable(me, storage.files, backup.meta, w);
    var restore := new RestoreData(me, storage.files, backup.meta, nodes);
    StaffedExactly(me, storage.files, backup.meta, w, nodes);
    v := restore.Init();
    extracted := restore.extracted;
    if v.Fine? {
      RoundTripAll(me, storage.files, backup.meta, w, extracted);
    }
  }
}
