/** Writing a backup's data files and the manifest that describes them. */
module BackupFiles {
  import opened NonEmpty
  import opened Decimal
  import opened Entities
  import opened IdKeys
  import opened FileSlots

  /** What one source (sql or sdk) has to save. */
  datatype Contents = Contents(
    stores: seq<Region>, indexes: seq<Region>, documents: seq<Region>,
    storeGroups: map<Id, Group>, indexGroups: map<Id, Group>, documentGroups: map<Id, Group>)

  function RegionsOf(c: Contents, kind: Kind): seq<Region> {
    match kind
    case Store => c.stores
    case Index => c.indexes
    case Document => c.documents
  }

  function GroupsOf(c: Contents, kind: Kind): map<Id, Group> {
    match kind
    case Store => c.storeGroups
    case Index => c.indexGroups
    case Document => c.documentGroups
  }

  /** The first region of each id. */
  function First(regions: seq<Region>): map<Id, Blob> {
    if regions == [] then map[] else
      var last := regions[|regions| - 1];
      var before := First(regions[..|regions| - 1]);
      if last.id in before then before else before[last.id := RegionBlob(last)]
  }

  function Ids(regions: seq<Region>): set<Id> {
    set i | 0 <= i < |regions| :: regions[i].id
  }

  lemma {:induction false} FirstIds(regions: seq<Region>)
    ensures First(regions).Keys == Ids(regions)
  {
    if regions != [] {
      var n := |regions| - 1;
      FirstIds(regions[..n]);
      assert forall i :: 0 <= i < n ==> regions[..n][i] == regions[i];
      assert Ids(regions) == Ids(regions[..n]) + {regions[n].id};
    }
  }

  /** With distinct ids no region is lost. */
  lemma {:induction false} FirstKeepsAll(regions: seq<Region>, k: nat)
    requires forall i, j :: 0 <= i < j < |regions| ==> regions[i].id != regions[j].id
    requires k < |regions|
    ensures regions[k].id in First(regions) && First(regions)[regions[k].id] == RegionBlob(regions[k])
  {
    var n := |regions| - 1;
    FirstIds(regions[..n]);
    if k < n {
      FirstKeepsAll(regions[..n], k);
    }
  }

  lemma {:induction false} FirstOfNone(regions: seq<Region>)
    ensures First(regions) == map[] <==> regions == []
  {
    if regions != [] {
      FirstOfNone(regions[..|regions| - 1]);
      assert regions[|regions| - 1].id in First(regions);
    }
  }

  function Blobs(groups: map<Id, Group>): map<Id, Blob> {
    map id | id in groups :: GroupBlob(groups[id])
  }

  lemma BlobsOfNone(groups: map<Id, Group>)
    ensures Blobs(groups) == map[] <==> groups == map[]
  {
    assert Blobs(groups).Keys == groups.Keys;
  }

  lemma FirstStep(regions: seq<Region>, i: nat)
    requires i < |regions|
    ensures var before := First(regions[..i]);
      First(regions[..i + 1]) ==
        if regions[i].id in before then before else before[regions[i].id := RegionBlob(regions[i])]
  {
    assert regions[..i + 1][..i] == regions[..i];
  }

  method RegionKvs(regions: seq<Region>) returns (kvs: File)
    ensures kvs == Encode(First(regions))
  {
    kvs := map[];
    for i := 0 to |regions|
      invariant kvs == Encode(First(regions[..i]))
    {
      var key := ToString(regions[i].id);
      FirstStep(regions, i);
      KeyOf(First(regions[..i]), regions[i].id);
      if key !in kvs {
        EncodeAdd(First(regions[..i]), regions[i].id, RegionBlob(regions[i]));
        kvs := kvs[key := RegionBlob(regions[i])];
      }
    }
    assert regions[..|regions|] == regions;
  }

  lemma BlobsStep(groups: map<Id, Group>, rest: set<Id>, id: Id)
    requires id in rest && rest <= groups.Keys
    ensures id !in Blobs(groups - rest)
    ensures Blobs(groups - (rest - {id})) == Blobs(groups - rest)[id := GroupBlob(groups[id])]
  {
  }

  method GroupKvs(groups: map<Id, Group>) returns (kvs: File)
    ensures kvs == Encode(Blobs(groups))
  {
    kvs := map[];
    var rest := groups.Keys;
    while rest != {}
      invariant rest <= groups.Keys
      invariant kvs == Encode(Blobs(groups - rest))
    {
      SomeInt(rest);
      var id :| id in rest;
      BlobsStep(groups, rest, id);
      EncodeAdd(Blobs(groups - rest), id, GroupBlob(groups[id]));
      kvs := kvs[ToString(id) := GroupBlob(groups[id])];
      rest := rest - {id};
    }
    assert groups - {} == groups;
  }

  datatype Whole = Whole(sql: Contents, sdk: Contents)

  function Side(w: Whole, source: Source): Contents {
    if source == Sql then w.sql else w.sdk
  }

  /** What the file of a slot is to hold, by region id. */
  function Expected(w: Whole, s: Slot): map<Id, Blob> {
    if s.part == Regions then First(RegionsOf(Side(w, s.source), s.kind))
    else Blobs(GroupsOf(Side(w, s.source), s.kind))
  }

  function Describe(me: Measure, name: string, node: string, f: File): BackupMeta {
    BackupMeta(name, "", node, me.size(f), me.digest(f))
  }

  function MetaOf(me: Measure, w: Whole, s: Slot): BackupMeta {
    Describe(me, FileName(s), ExecNode(s), Encode(Expected(w, s)))
  }

  /** The files of the slots in `done` are in the directory. Empty slots have no file. */
  ghost predicate FilesHold(files: Dir, w: Whole, done: set<Slot>) {
    forall s :: s in done && Expected(w, s) != map[] ==>
      FileName(s) in files && files[FileName(s)] == Encode(Expected(w, s))
  }

  /** The descriptions are those of the non-empty slots in `done`. */
  ghost predicate MetasHold(me: Measure, metas: seq<BackupMeta>, w: Whole, done: set<Slot>) {
    && (forall s :: s in done && Expected(w, s) != map[] ==> MetaOf(me, w, s) in metas)
    && (forall m :: m in metas ==> exists s :: s in done && Expected(w, s) != map[] && m == MetaOf(me, w, s))
  }

  lemma FilesGrow(files: Dir, w: Whole, done: set<Slot>, s: Slot, after: Dir)
    requires FilesHold(files, w, done)
    requires after == if Expected(w, s) == map[] then files else files[FileName(s) := Encode(Expected(w, s))]
    ensures FilesHold(after, w, done + {s})
  {
    forall t | t in done + {s} && Expected(w, t) != map[]
      ensures FileName(t) in after && after[FileName(t)] == Encode(Expected(w, t))
    {
      NamesDistinct(s, t);
    }
  }

  lemma MetasGrow(me: Measure, metas: seq<BackupMeta>, w: Whole, done: set<Slot>, s: Slot, after: seq<BackupMeta>)
    requires MetasHold(me, metas, w, done)
    requires after == if Expected(w, s) == map[] then metas else metas + [MetaOf(me, w, s)]
    ensures MetasHold(me, after, w, done + {s})
  {
    forall m | m in after
      ensures exists t :: t in done + {s} && Expected(w, t) != map[] && m == MetaOf(me, w, t)
    {
      if m in metas {
        var t :| t in done && Expected(w, t) != map[] && m == MetaOf(me, w, t);
        assert t in done + {s};
      } else {
        assert s in done + {s};
      }
    }
  }

  lemma OneByOne(done: set<Slot>, a: Slot, b: Slot, c: Slot)
    ensures done + {a} + {b} + {c} == done + {a, b, c}
  {
  }

  /** The directory of the backup; `broken` are the files that cannot be written, `unreadable` those whose SHA-1 code
      cannot be computed afterwards. */
  class Storage {
    var files: Dir
    var texts: map<string, string>
    const broken: set<string>
    const unreadable: set<string>

    constructor (broken: set<string>, unreadable: set<string>)
      ensures files == map[] && texts == map[] && this.broken == broken && this.unreadable == unreadable
    {
      files, texts := map[], map[];
      this.broken := broken;
      this.unreadable := unreadable;
    }

    predicate Works(name: string) {
      name !in broken && name !in unreadable
    }

    /** Writes a plain text file. */
    method CreateFile(name: string, text: string) returns (ok: bool)
      modifies `texts
      ensures ok <==> name !in broken
      ensures texts == if ok then old(texts)[name := text] else old(texts)
    {
      ok := name !in broken;
      if ok {
        texts := texts[name := text];
      }
    }

    method SaveFile(kvs: File, name: string) returns (ok: bool)
      modifies `files
      ensures ok <==> name !in broken
      ensures files == if ok then old(files)[name := kvs] else old(files)
    {
      ok := name !in broken;
      if ok {
        files := files[name := kvs];
      }
    }
  }

  /** The half of a backup that saves one source. */
  class BackupDataBase {
    const source: Source
    const contents: Contents
    const measure: Measure
    const storage: Storage
    var metas: seq<BackupMeta>

    constructor (source: Source, contents: Contents, measure: Measure, storage: Storage)
      ensures this.source == source && this.contents == contents
      ensures this.measure == measure && this.storage == storage && metas == []
    {
      this.source := source;
      this.contents := contents;
      this.measure := measure;
      this.storage := storage;
      metas := [];
    }

    method DoBackupRegion(regions: seq<Region>, name: string) returns (ok: bool)
      modifies this, storage
      ensures ok <==> regions == [] || storage.Works(name)
      ensures storage.files == if regions == [] || name in storage.broken then old(storage.files)
                               else old(storage.files)[name := Encode(First(regions))]
      ensures metas == if regions == [] || !ok then old(metas)
                       else old(metas) + [Describe(measure, name, "coordinator", Encode(First(regions)))]
    {
      if regions == [] {
        return true;
      }
      var kvs := RegionKvs(regions);
      ok := storage.SaveFile(kvs, name);
      if !ok { return; }
      if name in storage.unreadable {
        return false;
      }
      metas := metas + [Describe(measure, name, "coordinator", kvs)];
    }

    method DoBackupCfSstMeta(groups: map<Id, Group>, name: string, node: string) returns (ok: bool)
      modifies this, storage
      ensures ok <==> groups == map[] || storage.Works(name)
      ensures storage.files == if groups == map[] || name in storage.broken then old(storage.files)
                               else old(storage.files)[name := Encode(Blobs(groups))]
      ensures metas == if groups == map[] || !ok then old(metas)
                       else old(metas) + [Describe(measure, name, node, Encode(Blobs(groups)))]
    {
      if groups == map[] {
        return true;
      }
      var kvs := GroupKvs(groups);
      ok := storage.SaveFile(kvs, name);
      if !ok { return; }
      if name in storage.unreadable {
        return false;
      }
      metas := metas + [Describe(measure, name, node, kvs)];
    }

    method Save(s: Slot, ghost w: Whole, ghost done: set<Slot>, ghost mine: set<Slot>) returns (ok: bool)
      requires s.source == source && contents == Side(w, source)
      requires FilesHold(storage.files, w, done) && MetasHold(measure, metas, w, mine)
      modifies this, storage
      ensures storage.Works(FileName(s)) ==> ok
      ensures ok ==> FilesHold(storage.files, w, done + {s}) && MetasHold(measure, metas, w, mine + {s})
    {
      FirstOfNone(RegionsOf(contents, s.kind));
      if s.part == Regions {
        ok := DoBackupRegion(RegionsOf(contents, s.kind), FileName(s));
      } else {
        BlobsOfNone(GroupsOf(contents, s.kind));
        ok := DoBackupCfSstMeta(GroupsOf(contents, s.kind), FileName(s), ExecNode(s));
      }
      if ok {
        FilesGrow(old(storage.files), w, done, s, storage.files);
        MetasGrow(measure, old(metas), w, mine, s, metas);
      }
    }

    /** The three files of one part, one region kind after the other. */
    method SaveAll(part: Part, ghost w: Whole, ghost done: set<Slot>, ghost mine: set<Slot>) returns (ok: bool)
      requires contents == Side(w, source)
      requires FilesHold(storage.files, w, done) && MetasHold(measure, metas, w, mine)
      modifies this, storage
      ensures (forall s :: s in SlotsOf(source, part) ==> storage.Works(FileName(s))) ==> ok
      ensures ok ==> FilesHold(storage.files, w, done + SlotsOf(source, part))
      ensures ok ==> MetasHold(measure, metas, w, mine + SlotsOf(source, part))
    {
      ghost var a, b, c := Slot(source, Store, part), Slot(source, Index, part), Slot(source, Document, part);
      ok := Save(Slot(source, Store, part), w, done, mine);
      if !ok { return; }
      ok := Save(Slot(source, Index, part), w, done + {a}, mine + {a});
      if !ok { return; }
      ok := Save(Slot(source, Document, part), w, done + {a} + {b}, mine + {a} + {b});
      OneByOne(done, a, b, c);
      OneByOne(mine, a, b, c);
    }

    /** The region lists, then the SST groups. */
    method Backup(ghost w: Whole, ghost done: set<Slot>) returns (ok: bool)
      requires contents == Side(w, source)
      requires FilesHold(storage.files, w, done) && metas == []
      modifies this, storage
      ensures storage.broken == storage.unreadable == {} ==> ok
      ensures ok ==> FilesHold(storage.files, w, done + SideSlots(source))
      ensures ok ==> MetasHold(measure, metas, w, SideSlots(source))
    {
      ok := SaveAll(Regions, w, done, {});
      if !ok { return; }
      ok := SaveAll(Groups, w, done + SlotsOf(source, Regions), {} + SlotsOf(source, Regions));
      assert done + SlotsOf(source, Regions) + SlotsOf(source, Groups) == done + SideSlots(source);
      assert {} + SlotsOf(source, Regions) + SlotsOf(source, Groups) == SideSlots(source);
    }
  }
}
