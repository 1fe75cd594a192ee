/** The root of a backup: the file `backupmeta`, which holds the description of the manifest, and beside it a text file
    with the SHA-1 code of `backupmeta`. */
module BackupRoot {
  import opened Options
  import opened Decimal
  import opened Entities
  import opened FileSlots
  import opened BackupFiles
  import opened Manifest
  import opened ManifestCheck
  import opened RestoreFiles

  const ROOT := "backupmeta"
  const CODE := "backupmeta.encryption"
  const DEBUG := "backupmeta.debug"

  const SCHEMA := "backupmeta.schema"
  const EPOCHS := "dingodb::pb::meta::IdEpochTypeAndValue"
  const INCREMENTS := "dingodb::pb::meta::TableIncrementGroup"
  const VERSION := "pb::common::VersionInfo"
  const PARAM := "pb::common::BackupParam"

  type SchemaMeta = m: BackupMeta | m.fileName == SCHEMA witness BackupMeta(SCHEMA, "", "", 0, "")

  /** What the root holds besides the description of the manifest. */
  datatype Parts = Parts(
    schema: Option<SchemaMeta>, epochs: Option<string>, increments: Option<string>, version: string, param: string)

  function Emplaced(f: File, k: string, b: Blob): File {
    if k in f then f else f[k := b]
  }

  function EmplacedIf(f: File, k: string, t: Option<string>): File {
    if t.Some? then Emplaced(f, k, TextBlob(t.value)) else f
  }

  function RootFile(meta: Option<BackupMeta>, p: Parts): File {
    var f0: File := if p.schema.Some? then Emplaced(map[], p.schema.value.fileName, MetaBlob(p.schema.value)) else map[];
    var f1 := if meta.Some? then Emplaced(f0, meta.value.fileName, MetaBlob(meta.value)) else f0;
    var f2 := EmplacedIf(f1, EPOCHS, p.epochs);
    var f3 := EmplacedIf(f2, INCREMENTS, p.increments);
    Emplaced(Emplaced(f3, VERSION, TextBlob(p.version)), PARAM, TextBlob(p.param))
  }

  lemma KeysDiffer()
    ensures SCHEMA != DATAFILE && SCHEMA != EPOCHS && SCHEMA != INCREMENTS && SCHEMA != VERSION && SCHEMA != PARAM
    ensures DATAFILE != EPOCHS && DATAFILE != INCREMENTS && DATAFILE != VERSION && DATAFILE != PARAM
    ensures EPOCHS != INCREMENTS && EPOCHS != VERSION && EPOCHS != PARAM
    ensures INCREMENTS != VERSION && INCREMENTS != PARAM && VERSION != PARAM
  {
    assert |SCHEMA| == 17 && |DATAFILE| == 19 && |EPOCHS| == 38 && |INCREMENTS| == 38;
    assert |VERSION| == 23 && |PARAM| == 23;
    assert EPOCHS[19] == 'I' && INCREMENTS[19] == 'T' && VERSION[12] == 'V' && PARAM[12] == 'B';
  }

  predicate HasText(root: File, k: string) {
    k in root && root[k].TextBlob?
  }

  /** What a restore needs to find in the root: the parameters and the version; the other entries may be missing but
      have to parse; and data is not restored without any of the meta entries. */
  predicate RootReadable(root: File) {
    && HasText(root, PARAM) && HasText(root, VERSION)
    && (SCHEMA in root ==> root[SCHEMA].MetaBlob?)
    && (EPOCHS in root ==> root[EPOCHS].TextBlob?)
    && (INCREMENTS in root ==> root[INCREMENTS].TextBlob?)
    && (DATAFILE in root ==> root[DATAFILE].MetaBlob?)
    && (DATAFILE in root ==> SCHEMA in root || EPOCHS in root || INCREMENTS in root)
  }

  function MetaIn(root: File): Option<BackupMeta> {
    if DATAFILE in root && root[DATAFILE].MetaBlob? then Some(root[DATAFILE].meta) else None
  }

  /** Data comes with some of the meta entries. */
  predicate Accompanied(meta: Option<BackupMeta>, p: Parts) {
    meta.Some? ==> p.schema.Some? || p.epochs.Some? || p.increments.Some?
  }

  /** The root gives back the description that was put into it, and it can be read exactly if data is accompanied. */
  lemma RootHolds(meta: Option<BackupMeta>, p: Parts)
    requires meta.Some? ==> meta.value.fileName == DATAFILE
    ensures MetaIn(RootFile(meta, p)) == meta
    ensures RootReadable(RootFile(meta, p)) <==> Accompanied(meta, p)
  {
    KeysDiffer();
  }

  /** Writes the root, its code and the debug file. */
  method WriteRoot(storage: Storage, me: Measure, meta: Option<BackupMeta>, p: Parts, debug: string) returns (ok: bool)
    modifies storage
    ensures ok <==> storage.Works(ROOT) && CODE !in storage.broken && DEBUG !in storage.broken
    ensures storage.files ==
      if ROOT in storage.broken then old(storage.files) else old(storage.files)[ROOT := RootFile(meta, p)]
    ensures ok ==> CODE in storage.texts && storage.texts[CODE] == me.digest(RootFile(meta, p))
  {
    var kvs := CollectRoot(meta, p);
    ok := storage.SaveFile(kvs, ROOT);
    if !ok { return; }
    if ROOT in storage.unreadable {
      return false;
    }
    ok := storage.CreateFile(CODE, me.digest(kvs));
    if !ok { return; }
    NamesApart();
    ok := storage.CreateFile(DEBUG, debug);
  }

  method CollectRoot(meta: Option<BackupMeta>, p: Parts) returns (kvs: File)
    ensures kvs == RootFile(meta, p)
  {
    kvs := map[];
    if p.schema.Some? {
      kvs := Emplaced(kvs, p.schema.value.fileName, MetaBlob(p.schema.value));
    }
    if meta.Some? {
      kvs := Emplaced(kvs, meta.value.fileName, MetaBlob(meta.value));
    }
    kvs := EmplacedIf(kvs, EPOCHS, p.epochs);
    kvs := EmplacedIf(kvs, INCREMENTS, p.increments);
    kvs := Emplaced(kvs, VERSION, TextBlob(p.version));
    kvs := Emplaced(kvs, PARAM, TextBlob(p.param));
  }

  lemma NamesApart()
    ensures CODE != DEBUG && ROOT != DATAFILE
  {
    assert |CODE| == 21 && |DEBUG| == 16 && |ROOT| == 10 && |DATAFILE| == 19;
  }

  // ----- reading the root

  /** What `>>` reads into a string: the first word. */
  function FirstWord(s: string): string {
    var t := SkipSpace(s);
    Word(t)
  }

  function Word(s: string): string {
    if s == [] || IsSpace(s[0]) then [] else [s[0]] + Word(s[1..])
  }

  lemma {:induction false} WordOfWord(s: string)
    requires forall i :: 0 <= i < |s| ==> !IsSpace(s[i])
    ensures Word(s) == s
  {
    if s != [] {
      WordOfWord(s[1..]);
    }
  }

  lemma CodeReadBack(c: Code)
    ensures FirstWord(c) == c
  {
    assert !IsSpace(c[0]);
    WordOfWord(c);
  }

  predicate CodeFine(me: Measure, files: Dir, texts: map<string, string>) {
    CODE in texts && ROOT in files && FirstWord(texts[CODE]) == me.digest(files[ROOT])
  }

  /** The place where the existence of `backupmeta` should be looked at asks for the code file once more; a missing
      `backupmeta` is noticed when its code cannot be computed. */
  method CheckRoot(me: Measure, files: Dir, texts: map<string, string>) returns (v: Verdict, kvs: File)
    ensures v.Fine? <==> CodeFine(me, files, texts)
    ensures v.Fine? ==> kvs == files[ROOT]
  {
    kvs := map[];
    if CODE !in texts {
      return Missing, kvs;
    }
    var code := FirstWord(texts[CODE]);
    if ROOT !in files {
      return Missing, kvs;
    }
    if code != me.digest(files[ROOT]) {
      return ChecksumMismatch, kvs;
    }
    return Fine, files[ROOT];
  }

  method ReadRoot(root: File) returns (v: Verdict, meta: Option<BackupMeta>)
    ensures v.Fine? <==> RootReadable(root)
    ensures v.Fine? ==> meta == MetaIn(root)
  {
    meta := None;
    if PARAM !in root { return KeyNotFound, meta; }
    if !root[PARAM].TextBlob? { return ParseFailed, meta; }
    if VERSION !in root { return KeyNotFound, meta; }
    if !root[VERSION].TextBlob? { return ParseFailed, meta; }
    if SCHEMA in root && !root[SCHEMA].MetaBlob? { return ParseFailed, meta; }
    if EPOCHS in root && !root[EPOCHS].TextBlob? { return ParseFailed, meta; }
    if INCREMENTS in root && !root[INCREMENTS].TextBlob? { return ParseFailed, meta; }
    var withMeta := SCHEMA in root || EPOCHS in root || INCREMENTS in root;
    if DATAFILE in root {
      if !root[DATAFILE].MetaBlob? { return ParseFailed, meta; }
      meta := Some(root[DATAFILE].meta);
      if !withMeta { return RegionMetaNotFound, meta; }
    }
    v := Fine;
  }

  /** Everything a restore checks of a directory. */
  ghost predicate Accepts(me: Measure, files: Dir, texts: map<string, string>, nodes: set<Kind>) {
    && CodeFine(me, files, texts)
    && RootReadable(files[ROOT])
    && Restorable(me, files, MetaIn(files[ROOT]))
    && Staffed(files, MetaIn(files[ROOT]), nodes)
  }

  method Open(me: Measure, files: Dir, texts: map<string, string>, nodes: set<Kind>)
    returns (v: Verdict, extracted: map<Slot, map<Id, Blob>>)
    ensures v.Fine? <==> Accepts(me, files, texts, nodes)
    ensures v.Fine? ==> Loaded(files, Listed(files, MetaIn(files[ROOT])), extracted)
  {
    extracted := map[];
    var root, meta;
    v, root := CheckRoot(me, files, texts);
    if !v.Fine? { return; }
    v, meta := ReadRoot(root);
    if !v.Fine? { return; }
    var restore := new RestoreData(me, files, meta, nodes);
    v := restore.Init();
    extracted := restore.extracted;
  }
}
