/** The manifest of a backup's data files: how a backup writes it, how a restore checks it, and what it guarantees. */
module Manifest {
  import opened Options
  import opened Entities
  import opened FileSlots
  import opened BackupFiles

  /** The manifest of a list of descriptions: by file name, the first one wins. */
  function Manifested(metas: seq<BackupMeta>): File {
    if metas == [] then map[] else
      var last := metas[|metas| - 1];
      var before := Manifested(metas[..|metas| - 1]);
      if last.fileName in before then before else before[last.fileName := MetaBlob(last)]
  }

  ghost predicate NamedApart(metas: seq<BackupMeta>) {
    forall i, j :: 0 <= i < |metas| && 0 <= j < |metas| && metas[i].fileName == metas[j].fileName ==> metas[i] == metas[j]
  }

  lemma {:induction false} NameListed(metas: seq<BackupMeta>, i: nat)
    requires i < |metas|
    ensures metas[i].fileName in Manifested(metas)
  {
    var n := |metas| - 1;
    if i < n {
      NameListed(metas[..n], i);
    }
  }

  ghost predicate From(metas: seq<BackupMeta>, k: string, b: Blob) {
    exists i :: 0 <= i < |metas| && k == metas[i].fileName && b == MetaBlob(metas[i])
  }

  lemma {:induction false} ListedFrom(metas: seq<BackupMeta>, k: string)
    requires k in Manifested(metas)
    ensures From(metas, k, Manifested(metas)[k])
  {
    var n := |metas| - 1;
    if k in Manifested(metas[..n]) {
      ListedFrom(metas[..n], k);
      var i :| 0 <= i < n && k == metas[..n][i].fileName && Manifested(metas[..n])[k] == MetaBlob(metas[..n][i]);
      assert metas[..n][i] == metas[i];
    } else {
      assert k == metas[n].fileName;
    }
  }

  /** `index` lists exactly the non-empty slots, each with the description of its file. */
  ghost predicate Lists(me: Measure, index: File, w: Whole) {
    && (forall s :: Expected(w, s) != map[] ==>
         FileName(s) in index && index[FileName(s)] == MetaBlob(MetaOf(me, w, s)))
    && (forall k :: k in index ==> exists s :: Expected(w, s) != map[] && k == FileName(s))
  }

  lemma HeldApart(me: Measure, metas: seq<BackupMeta>, w: Whole, done: set<Slot>)
    requires MetasHold(me, metas, w, done)
    ensures NamedApart(metas)
  {
    forall i, j | 0 <= i < |metas| && 0 <= j < |metas| && metas[i].fileName == metas[j].fileName
      ensures metas[i] == metas[j]
    {
      assert metas[i] in metas && metas[j] in metas;
      var s :| s in done && Expected(w, s) != map[] && metas[i] == MetaOf(me, w, s);
      var t :| t in done && Expected(w, t) != map[] && metas[j] == MetaOf(me, w, t);
      NamesDistinct(s, t);
    }
  }

  lemma ManifestLists(me: Measure, metas: seq<BackupMeta>, w: Whole)
    requires MetasHold(me, metas, w, AllSlots())
    ensures Lists(me, Manifested(metas), w)
  {
    var index := Manifested(metas);
    HeldApart(me, metas, w, AllSlots());
    forall s | Expected(w, s) != map[]
      ensures FileName(s) in index && index[FileName(s)] == MetaBlob(MetaOf(me, w, s))
    {
      EverySlot(s);
      var i :| 0 <= i < |metas| && metas[i] == MetaOf(me, w, s);
      NameListed(metas, i);
      ListedFrom(metas, FileName(s));
    }
    forall k | k in index
      ensures exists s :: Expected(w, s) != map[] && k == FileName(s)
    {
      ListedFrom(metas, k);
      var i :| 0 <= i < |metas| && k == metas[i].fileName && index[k] == MetaBlob(metas[i]);
      assert metas[i] in metas;
      var s :| s in AllSlots() && Expected(w, s) != map[] && metas[i] == MetaOf(me, w, s);
    }
  }

  lemma MetasJoin(me: Measure, a: seq<BackupMeta>, b: seq<BackupMeta>, w: Whole, da: set<Slot>, db: set<Slot>)
    requires MetasHold(me, a, w, da) && MetasHold(me, b, w, db)
    ensures MetasHold(me, a + b, w, da + db)
  {
    forall m | m in a + b
      ensures exists s :: s in da + db && Expected(w, s) != map[] && m == MetaOf(me, w, s)
    {
      if m in a {
        var s :| s in da && Expected(w, s) != map[] && m == MetaOf(me, w, s);
        assert s in da + db;
      } else {
        var s :| s in db && Expected(w, s) != map[] && m == MetaOf(me, w, s);
        assert s in da + db;
      }
    }
  }

  /** A finished backup: the directory, and the description of the manifest if there is one. */
  ghost predicate Saved(me: Measure, files: Dir, meta: Option<BackupMeta>, w: Whole) {
    && FilesHold(files, w, AllSlots())
    && (meta.Some? <==> exists s :: Expected(w, s) != map[])
    && (meta.Some? ==>
         && DATAFILE in files
         && Lists(me, files[DATAFILE], w)
         && meta.value == Describe(me, DATAFILE, "backup", files[DATAFILE]))
  }

  class BackupData {
    const storage: Storage
    const measure: Measure
    const sql: BackupDataBase
    const sdk: BackupDataBase
    var meta: Option<BackupMeta>

    constructor (storage: Storage, measure: Measure, w: Whole)
      ensures this.storage == storage && this.measure == measure
      ensures Valid(w) && fresh(sql) && fresh(sdk) && sql.metas == sdk.metas == [] && meta == None
    {
      this.storage := storage;
      this.measure := measure;
      sql := new BackupDataBase(Sql, w.sql, measure, storage);
      sdk := new BackupDataBase(Sdk, w.sdk, measure, storage);
      meta := None;
    }

    ghost predicate Valid(w: Whole) {
      && sql != sdk && sql.storage == sdk.storage == storage && sql.measure == sdk.measure == measure
      && sql.source == Sql && sdk.source == Sdk
      && sql.contents == w.sql && sdk.contents == w.sdk
    }

    /** The part of `Run` after the region workers are done: save one source, then the other. */
    method Save(ghost w: Whole) returns (ok: bool)
      requires Valid(w) && sql.metas == sdk.metas == []
      modifies sql, sdk, storage
      ensures storage.broken == storage.unreadable == {} ==> ok
      ensures ok ==> FilesHold(storage.files, w, AllSlots())
      ensures ok ==> MetasHold(measure, sql.metas + sdk.metas, w, AllSlots())
    {
      ok := sql.Backup(w, {});
      if !ok { return; }
      ok := sdk.Backup(w, {} + SideSlots(Sql));
      if ok {
        MetasJoin(measure, sql.metas, sdk.metas, w, SideSlots(Sql), SideSlots(Sdk));
        assert {} + SideSlots(Sql) + SideSlots(Sdk) == AllSlots();
      }
    }

    method Finish(ghost w: Whole) returns (ok: bool)
      requires Valid(w) && meta == None
      requires FilesHold(storage.files, w, AllSlots())
      requires MetasHold(measure, sql.metas + sdk.metas, w, AllSlots())
      modifies this, storage
      ensures storage.Works(DATAFILE) ==> ok
      ensures ok ==> Saved(measure, storage.files, meta, w)
    {
      var kvs := Collect(measure, sql.metas, sdk.metas, w);
      ok := WriteDatafile(kvs);
      if ok {
        SavedEither(measure, old(storage.files), kvs, w, storage.files, meta);
      }
    }

    method WriteDatafile(kvs: File) returns (ok: bool)
      modifies this, storage
      ensures ok <==> kvs == map[] || storage.Works(DATAFILE)
      ensures storage.files == if kvs == map[] || DATAFILE in storage.broken then old(storage.files)
                               else old(storage.files)[DATAFILE := kvs]
      ensures meta == if kvs == map[] || !ok then old(meta) else Some(Describe(measure, DATAFILE, "backup", kvs))
    {
      ok := true;
      if kvs != map[] {
        ok := storage.SaveFile(kvs, DATAFILE);
        if !ok { return; }
        if DATAFILE in storage.unreadable {
          return false;
        }
        meta := Some(Describe(measure, DATAFILE, "backup", kvs));
      }
    }
  }

  lemma SavedEither(me: Measure, files: Dir, index: File, w: Whole, after: Dir, meta: Option<BackupMeta>)
    requires FilesHold(files, w, AllSlots()) && Lists(me, index, w)
    requires after == if index != map[] then files[DATAFILE := index] else files
    requires meta == if index != map[] then Some(Describe(me, DATAFILE, "backup", index)) else None
    ensures Saved(me, after, meta, w)
  {
    if index != map[] {
      SavedWith(me, files, index, w);
    } else {
      SavedWithout(me, files, index, w);
    }
  }

  lemma SavedWith(me: Measure, files: Dir, index: File, w: Whole)
    requires FilesHold(files, w, AllSlots()) && Lists(me, index, w) && index != map[]
    ensures Saved(me, files[DATAFILE := index], Some(Describe(me, DATAFILE, "backup", index)), w)
  {
    DatafileApart(files, w, index);
    var k :| k in index;
  }

  lemma SavedWithout(me: Measure, files: Dir, index: File, w: Whole)
    requires FilesHold(files, w, AllSlots()) && Lists(me, index, w) && index == map[]
    ensures Saved(me, files, None, w)
  {
  }

  lemma DatafileApart(files: Dir, w: Whole, f: File)
    requires FilesHold(files, w, AllSlots())
    ensures FilesHold(files[DATAFILE := f], w, AllSlots())
  {
    forall s
      ensures FileName(s) != DATAFILE
    {
      NamesDistinct(s, s);
    }
  }

  lemma ManifestedMore(metas: seq<BackupMeta>, m: BackupMeta)
    ensures Manifested(metas + [m]) ==
      if m.fileName in Manifested(metas) then Manifested(metas) else Manifested(metas)[m.fileName := MetaBlob(m)]
  {
    assert (metas + [m])[..|metas|] == metas;
  }

  /** Adds a list of descriptions to what the manifest already holds. */
  method Emplace(start: File, ghost before: seq<BackupMeta>, metas: seq<BackupMeta>) returns (kvs: File)
    requires start == Manifested(before)
    ensures kvs == Manifested(before + metas)
  {
    kvs := start;
    assert before + metas[..0] == before;
    for i := 0 to |metas|
      invariant kvs == Manifested(before + metas[..i])
    {
      assert before + metas[..i + 1] == before + metas[..i] + [metas[i]];
      ManifestedMore(before + metas[..i], metas[i]);
      if metas[i].fileName !in kvs {
        kvs := kvs[metas[i].fileName := MetaBlob(metas[i])];
      }
    }
    assert before + metas[..|metas|] == before + metas;
  }

  method Collect(ghost me: Measure, sql: seq<BackupMeta>, sdk: seq<BackupMeta>, ghost w: Whole) returns (kvs: File)
    requires MetasHold(me, sql + sdk, w, AllSlots())
    ensures kvs == Manifested(sql + sdk) && Lists(me, kvs, w)
  {
    kvs := Emplace(map[], [], sql);
    assert [] + sql == sql;
    kvs := Emplace(kvs, sql, sdk);
    ManifestLists(me, sql + sdk, w);
  }
}
