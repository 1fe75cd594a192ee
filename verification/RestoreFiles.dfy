/** Opening a backup for restore: the manifest, then the files it lists. */
module RestoreFiles {
  import opened Options
  import opened Entities
  import opened FileSlots
  import opened BackupFiles
  import opened Manifest
  import opened ManifestCheck

  /** SST groups may only be listed next to their region list. */
  predicate Paired(index: File, source: Source, kind: Kind) {
    FileName(Slot(source, kind, Groups)) in index ==> FileName(Slot(source, kind, Regions)) in index
  }

  ghost predicate AllPaired(index: File) {
    forall source, kind :: Paired(index, source, kind)
  }

  predicate Parses(index: File, s: Slot) {
    FileName(s) in index ==> index[FileName(s)].MetaBlob?
  }

  ghost predicate AllParse(index: File, slots: set<Slot>) {
    forall s :: s in slots ==> Parses(index, s)
  }

  ghost predicate Parsed(index: File, done: set<Slot>, ssts: map<Slot, BackupMeta>) {
    && (forall s :: s in ssts ==> s in done && FileName(s) in index && index[FileName(s)] == MetaBlob(ssts[s]))
    && (forall s :: s in done && FileName(s) in index ==> s in ssts)
  }

  ghost predicate SlotFine(me: Measure, files: Dir, index: File, s: Slot) {
    FileName(s) in index ==>
      && index[FileName(s)].MetaBlob?
      && Described(me, files, index[FileName(s)].meta, s)
      && Readable(files[FileName(s)], s.part)
  }

  ghost predicate IndexFine(me: Measure, files: Dir, index: File) {
    AllPaired(index) && forall s :: SlotFine(me, files, index, s)
  }

  predicate HeadFine(me: Measure, files: Dir, meta: BackupMeta) {
    DATAFILE in files && meta == Describe(me, DATAFILE, "backup", files[DATAFILE])
  }

  /** Everything the restore checks before it touches the cluster. */
  ghost predicate Restorable(me: Measure, files: Dir, meta: Option<BackupMeta>) {
    meta.Some? ==> HeadFine(me, files, meta.value) && IndexFine(me, files, files[DATAFILE])
  }

  ghost function Listed(files: Dir, meta: Option<BackupMeta>): set<Slot> {
    if meta.None? || DATAFILE !in files then {} else set s | s in AllSlots() && FileName(s) in files[DATAFILE]
  }

  /** There is a node for every kind of region that is listed. */
  ghost predicate Staffed(files: Dir, meta: Option<BackupMeta>, nodes: set<Kind>) {
    forall source, kind :: KindStaffed(Listed(files, meta), source, kind, nodes)
  }

  predicate KindStaffed(listed: set<Slot>, source: Source, kind: Kind, nodes: set<Kind>) {
    Slot(source, kind, Regions) in listed ==> kind in nodes
  }

  lemma SixPairs(index: File)
    ensures AllPaired(index) <==>
      && Paired(index, Sql, Store) && Paired(index, Sql, Index) && Paired(index, Sql, Document)
      && Paired(index, Sdk, Store) && Paired(index, Sdk, Index) && Paired(index, Sdk, Document)
  {
    if Paired(index, Sql, Store) && Paired(index, Sql, Index) && Paired(index, Sql, Document)
      && Paired(index, Sdk, Store) && Paired(index, Sdk, Index) && Paired(index, Sdk, Document)
    {
      forall source: Source, kind: Kind
        ensures Paired(index, source, kind)
      {
        assert source == Sql || source == Sdk;
        assert kind == Store || kind == Index || kind == Document;
      }
    }
  }

  lemma NoOrphan(index: File, ssts: map<Slot, BackupMeta>, source: Source, kind: Kind)
    requires Parsed(index, AllSlots(), ssts) && Paired(index, source, kind)
    ensures Slot(source, kind, Groups) in ssts ==> Slot(source, kind, Regions) in ssts
  {
    EverySlot(Slot(source, kind, Regions));
  }

  /** With the manifest parsed, the sides' demands are the manifest's. */
  lemma SidesAgree(me: Measure, files: Dir, index: File, ssts: map<Slot, BackupMeta>)
    requires Parsed(index, AllSlots(), ssts) && AllParse(index, AllSlots())
    ensures AllSound(me, files, ssts, SideSlots(Sql)) && AllSound(me, files, ssts, SideSlots(Sdk)) <==>
      forall s :: SlotFine(me, files, index, s)
  {
    forall s
      ensures SlotFine(me, files, index, s) <==> Sound(me, files, ssts, s)
      ensures s in SideSlots(Sql) || s in SideSlots(Sdk)
    {
      EverySlot(s);
    }
  }

  lemma Unparsed(me: Measure, files: Dir, meta: BackupMeta)
    requires DATAFILE in files && !AllParse(files[DATAFILE], AllSlots())
    ensures !Restorable(me, files, Some(meta))
  {
    var s :| s in AllSlots() && !Parses(files[DATAFILE], s);
    assert !SlotFine(me, files, files[DATAFILE], s);
  }

  lemma UpToSides(me: Measure, files: Dir, meta: BackupMeta, ssts: map<Slot, BackupMeta>)
    requires HeadFine(me, files, meta) && AllPaired(files[DATAFILE])
    requires AllParse(files[DATAFILE], AllSlots()) && Parsed(files[DATAFILE], AllSlots(), ssts)
    ensures Restorable(me, files, Some(meta)) <==>
      AllSound(me, files, ssts, SideSlots(Sql)) && AllSound(me, files, ssts, SideSlots(Sdk))
    ensures Listed(files, Some(meta)) == AllSlots() * ssts.Keys
  {
    SidesAgree(me, files, files[DATAFILE], ssts);
  }

  lemma SideStaffed(index: File, ssts: map<Slot, BackupMeta>, source: Source, nodes: set<Kind>)
    requires AllPaired(index) && Parsed(index, AllSlots(), ssts)
    ensures Servable(source, SideSlots(source) * ssts.Keys, nodes) <==>
      forall kind :: KindStaffed(AllSlots() * ssts.Keys, source, kind, nodes)
  {
    forall kind
      ensures KindServable(source, kind, SideSlots(source) * ssts.Keys, nodes) <==>
        KindStaffed(AllSlots() * ssts.Keys, source, kind, nodes)
    {
      EverySlot(Slot(source, kind, Regions));
      assert Paired(index, source, kind);
      NoOrphan(index, ssts, source, kind);
    }
  }

  /** After the pairs, what is left to ask of the sides is a node for every kind. */
  lemma StaffAgree(files: Dir, meta: BackupMeta, ssts: map<Slot, BackupMeta>, nodes: set<Kind>)
    requires DATAFILE in files && AllPaired(files[DATAFILE]) && Parsed(files[DATAFILE], AllSlots(), ssts)
    requires Listed(files, Some(meta)) == AllSlots() * ssts.Keys
    ensures Staffed(files, Some(meta), nodes) <==>
      Servable(Sql, SideSlots(Sql) * ssts.Keys, nodes) && Servable(Sdk, SideSlots(Sdk) * ssts.Keys, nodes)
  {
    var listed := AllSlots() * ssts.Keys;
    SideStaffed(files[DATAFILE], ssts, Sql, nodes);
    SideStaffed(files[DATAFILE], ssts, Sdk, nodes);
    if (forall kind :: KindStaffed(listed, Sql, kind, nodes)) && (forall kind :: KindStaffed(listed, Sdk, kind, nodes)) {
      forall source: Source, kind: Kind
        ensures KindStaffed(listed, source, kind, nodes)
      {
        assert source == Sql || source == Sdk;
      }
    }
  }

  class RestoreData {
    const measure: Measure
    const files: Dir
    const meta: Option<BackupMeta>
    const nodes: set<Kind>
    var ssts: map<Slot, BackupMeta>
    var extracted: map<Slot, map<Id, Blob>>

    constructor (measure: Measure, files: Dir, meta: Option<BackupMeta>, nodes: set<Kind>)
      ensures this.measure == measure && this.files == files && this.meta == meta && this.nodes == nodes
      ensures ssts == map[] && extracted == map[]
    {
      this.measure := measure;
      this.files := files;
      this.meta := meta;
      this.nodes := nodes;
      ssts := map[];
      extracted := map[];
    }

    method CheckBackupMeta() returns (v: Verdict)
      ensures v.Fine? <==> (meta.Some? ==> HeadFine(measure, files, meta.value))
    {
      v := Fine;
      if meta.Some? {
        if DATAFILE !in files {
          return Missing;
        }
        OnlyDescription(measure, meta.value, files[DATAFILE], DATAFILE, "backup");
        v := CheckMeta(measure, meta.value, files[DATAFILE], DATAFILE, "", "backup");
      }
    }

    method CheckDatafileKvs(index: File) returns (v: Verdict)
      ensures v == if AllPaired(index) then Fine else KeyNotFound
    {
      SixPairs(index);
      if !Paired(index, Sql, Store) { return KeyNotFound; }
      if !Paired(index, Sql, Index) { return KeyNotFound; }
      if !Paired(index, Sql, Document) { return KeyNotFound; }
      if !Paired(index, Sdk, Store) { return KeyNotFound; }
      if !Paired(index, Sdk, Index) { return KeyNotFound; }
      if !Paired(index, Sdk, Document) { return KeyNotFound; }
      v := Fine;
    }

    method ParseSst(index: File, s: Slot, ghost done: set<Slot>) returns (v: Verdict)
      requires Parsed(index, done, ssts)
      modifies `ssts
      ensures v == if Parses(index, s) then Fine else ParseFailed
      ensures v.Fine? ==> Parsed(index, done + {s}, ssts)
    {
      v := Fine;
      if FileName(s) in index {
        if !index[FileName(s)].MetaBlob? {
          return ParseFailed;
        }
        ssts := ssts[s := index[FileName(s)].meta];
      }
    }

    method ParseKind(index: File, source: Source, kind: Kind, ghost done: set<Slot>) returns (v: Verdict)
      requires Parsed(index, done, ssts)
      modifies `ssts
      ensures v == if AllParse(index, KindSlots(source, kind)) then Fine else ParseFailed
      ensures v.Fine? ==> Parsed(index, done + KindSlots(source, kind), ssts)
    {
      ghost var a, b := Slot(source, kind, Regions), Slot(source, kind, Groups);
      v := ParseSst(index, Slot(source, kind, Regions), done);
      if !v.Fine? { return; }
      v := ParseSst(index, Slot(source, kind, Groups), done + {a});
      assert done + {a} + {b} == done + {a, b};
    }

    method ParseSide(index: File, source: Source, ghost done: set<Slot>) returns (v: Verdict)
      requires Parsed(index, done, ssts)
      modifies `ssts
      ensures v == if AllParse(index, SideSlots(source)) then Fine else ParseFailed
      ensures v.Fine? ==> Parsed(index, done + SideSlots(source), ssts)
    {
      KindsCover(source);
      ghost var a, b, c := KindSlots(source, Store), KindSlots(source, Index), KindSlots(source, Document);
      v := ParseKind(index, source, Store, done);
      if !v.Fine? { return; }
      v := ParseKind(index, source, Index, done + a);
      if !v.Fine? { return; }
      v := ParseKind(index, source, Document, done + a + b);
      assert done + a + b + c == done + SideSlots(source);
    }

    method ExtractFromBackupMeta() returns (v: Verdict)
      requires meta.Some? ==> HeadFine(measure, files, meta.value)
      requires ssts == map[]
      modifies `ssts
      ensures v.Fine? <==> (meta.Some? ==> AllPaired(files[DATAFILE]) && AllParse(files[DATAFILE], AllSlots()))
      ensures v.Fine? ==> if meta.Some? then Parsed(files[DATAFILE], AllSlots(), ssts) else ssts == map[]
    {
      v := Fine;
      if meta.Some? {
        var index := files[meta.value.fileName];
        v := CheckDatafileKvs(index);
        if !v.Fine? { return; }
        v := ParseSide(index, Sql, {});
        if !v.Fine? { return; }
        v := ParseSide(index, Sdk, {} + SideSlots(Sql));
        assert {} + SideSlots(Sql) + SideSlots(Sdk) == AllSlots();
      }
    }

    predicate Orphaned(source: Source, kind: Kind)
      reads this
    {
      Slot(source, kind, Regions) !in ssts && Slot(source, kind, Groups) in ssts
    }

    /** The second look at the pairs, which the first has made unnecessary. */
    method DoubleCheck() returns (v: Verdict)
      requires meta.Some? ==> DATAFILE in files && AllPaired(files[DATAFILE]) && Parsed(files[DATAFILE], AllSlots(), ssts)
      requires meta.None? ==> ssts == map[]
      ensures v.Fine?
    {
      if meta.Some? {
        forall source, kind
          ensures !Orphaned(source, kind)
        {
          NoOrphan(files[DATAFILE], ssts, source, kind);
        }
      }
      if Orphaned(Sql, Store) || Orphaned(Sql, Index) || Orphaned(Sql, Document) { return RegionMetaNotFound; }
      if Orphaned(Sdk, Store) || Orphaned(Sdk, Index) || Orphaned(Sdk, Document) { return RegionMetaNotFound; }
      v := Fine;
    }

    /** A source none of whose files is listed is left alone. */
    method InitSide(source: Source) returns (v: Verdict)
      modifies `extracted
      ensures v.Fine? <==>
                AllSound(measure, files, ssts, SideSlots(source)) && Servable(source, SideSlots(source) * ssts.Keys, nodes)
      ensures v.Fine? ==> exists side: map<Slot, map<Id, Blob>> ::
        Loaded(files, SideSlots(source) * ssts.Keys, side) && extracted == old(extracted) + side
    {
      v := Fine;
      if SideSlots(source) * ssts.Keys != {} {
        var side := new RestoreDataBase(source, measure, files, ssts, nodes);
        v := side.Init();
        if v.Fine? {
          extracted := extracted + side.extracted;
        }
      } else {
        assert Loaded(files, {}, map[]);
        assert extracted == extracted + map[];
      }
    }

    method Init() returns (v: Verdict)
      requires ssts == map[] && extracted == map[]
      modifies this
      ensures v.Fine? <==> Restorable(measure, files, meta) && Staffed(files, meta, nodes)
      ensures v.Fine? ==> Loaded(files, Listed(files, meta), extracted)
    {
      v := CheckBackupMeta();
      if !v.Fine? { return; }
      v := ExtractFromBackupMeta();
      if !v.Fine? {
        if AllPaired(files[DATAFILE]) {
          Unparsed(measure, files, meta.value);
        }
        return;
      }
      v := DoubleCheck();
      if !v.Fine? { return; }
      if meta.Some? {
        UpToSides(measure, files, meta.value, ssts);
        StaffAgree(files, meta.value, ssts, nodes);
      }
      v := InitSides();
    }

    method InitSides() returns (v: Verdict)
      requires extracted == map[]
      modifies `extracted
      ensures v.Fine? <==>
                && AllSound(measure, files, ssts, SideSlots(Sql)) && AllSound(measure, files, ssts, SideSlots(Sdk))
                && Servable(Sql, SideSlots(Sql) * ssts.Keys, nodes) && Servable(Sdk, SideSlots(Sdk) * ssts.Keys, nodes)
      ensures v.Fine? ==> Loaded(files, AllSlots() * ssts.Keys, extracted)
    {
      v := InitSide(Sql);
      if !v.Fine? { return; }
      v := InitSide(Sdk);
      assert AllSlots() * ssts.Keys == SideSlots(Sql) * ssts.Keys + SideSlots(Sdk) * ssts.Keys;
    }
  }
}
