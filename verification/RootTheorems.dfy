/** What the root of a backup guarantees, and what it cannot. */
module RootTheorems {
  import opened Options
  import opened Entities
  import opened FileSlots
  import opened BackupFiles
  import opened Manifest
  import opened ManifestCheck
  import opened RestoreFiles
  import opened ManifestTheorems
  import opened BackupRoot

  /** A directory that holds a whole backup: data files, manifest, root, and the code of the root. */
  ghost predicate WholeBackup(
    me: Measure, files: Dir, texts: map<string, string>, meta: Option<BackupMeta>, w: Whole, p: Parts)
  {
    && Saved(me, files, meta, w)
    && ROOT in files && files[ROOT] == RootFile(meta, p)
    && CODE in texts && FirstWord(texts[CODE]) == me.digest(files[ROOT])
  }

  /** A whole backup is accepted exactly if no kind of region has groups but no list, every kind has a node, and data
      comes with some of the meta entries. */
  lemma WholeAccepted(me: Measure, files: Dir, texts: map<string, string>, meta: Option<BackupMeta>, w: Whole, p: Parts,
                      nodes: set<Kind>)
    requires WholeBackup(me, files, texts, meta, w, p)
    ensures Accepts(me, files, texts, nodes) <==> AllSupported(w) && AllServed(w, nodes) && Accompanied(meta, p)
  {
    RootHolds(meta, p);
    BackupRestorable(me, files, meta, w);
    StaffedExactly(me, files, meta, w, nodes);
  }

  /** And gives back what was saved. */
  lemma WholeRoundTrip(me: Measure, files: Dir, texts: map<string, string>, meta: Option<BackupMeta>, w: Whole, p: Parts,
                       extracted: map<Slot, map<Id, Blob>>)
    requires WholeBackup(me, files, texts, meta, w, p)
    requires Loaded(files, Listed(files, MetaIn(files[ROOT])), extracted)
    ensures forall s :: s in extracted <==> Expected(w, s) != map[]
    ensures forall s :: s in extracted ==> extracted[s] == Expected(w, s)
  {
    RootHolds(meta, p);
    RoundTripAll(me, files, meta, w, extracted);
  }

  /** The root has been replaced by another one with the same SHA-1 code; its size is not compared. */
  ghost predicate RootCollides(me: Measure, files: Dir, other: Dir) {
    && ROOT in files && ROOT in other && files[ROOT] != other[ROOT]
    && me.digest(files[ROOT]) == me.digest(other[ROOT])
  }

  /** Whatever happened to the directory, as long as the code file still says the same: the directory is refused, or it
      still holds that backup, or on one of the three levels a file has been replaced by another one with the same code
      (and, below the root, the same size). */
  lemma TamperingRefusedFromRoot(me: Measure, files: Dir, texts: map<string, string>, meta: Option<BackupMeta>, w: Whole,
                                 p: Parts, other: Dir, otherTexts: map<string, string>, nodes: set<Kind>)
    requires WholeBackup(me, files, texts, meta, w, p)
    requires CODE in otherTexts ==> FirstWord(otherTexts[CODE]) == FirstWord(texts[CODE])
    ensures || !Accepts(me, other, otherTexts, nodes)
            || WholeBackup(me, other, otherTexts, meta, w, p)
            || RootCollides(me, files, other)
            || Collides(me, files, other, DATAFILE)
            || exists s :: SlotCollides(me, files, other, w, s)
  {
    if Accepts(me, other, otherTexts, nodes) && !RootCollides(me, files, other) {
      assert other[ROOT] == files[ROOT];
      RootHolds(meta, p);
      TamperingRefused(me, files, meta, w, other);
    }
  }

  /** The code file is the only anchor: with it replaced as well, any other backup that could be restored is accepted in
      the place of this one, and what is restored is the other one. */
  lemma ReplacedAccepted(me: Measure, other: Dir, otherTexts: map<string, string>, meta: Option<BackupMeta>, w: Whole,
                         p: Parts, nodes: set<Kind>, extracted: map<Slot, map<Id, Blob>>)
    requires WholeBackup(me, other, otherTexts, meta, w, p)
    requires AllSupported(w) && AllServed(w, nodes) && Accompanied(meta, p)
    requires Loaded(other, Listed(other, MetaIn(other[ROOT])), extracted)
    ensures Accepts(me, other, otherTexts, nodes)
    ensures forall s :: Expected(w, s) != map[] ==> s in extracted && extracted[s] == Expected(w, s)
  {
    WholeAccepted(me, other, otherTexts, meta, w, p, nodes);
    WholeRoundTrip(me, other, otherTexts, meta, w, p, extracted);
  }

  /** So a backup that was put in the place of another one is noticed exactly if the code file does not fit its root. */
  lemma NoticedExactly(me: Measure, other: Dir, otherTexts: map<string, string>, code: string, meta: Option<BackupMeta>,
                       w: Whole, p: Parts, nodes: set<Kind>)
    requires WholeBackup(me, other, otherTexts, meta, w, p)
    requires AllSupported(w) && AllServed(w, nodes) && Accompanied(meta, p)
    ensures Accepts(me, other, otherTexts[CODE := code], nodes) <==> FirstWord(code) == me.digest(other[ROOT])
  {
    WholeAccepted(me, other, otherTexts, meta, w, p, nodes);
  }

  lemma RootApart(s: Slot)
    ensures FileName(s) != ROOT
  {
    NameShape(s);
    assert |ROOT| == 10;
  }

  ghost predicate NoSlot(name: string) {
    name != DATAFILE && forall s :: FileName(s) != name
  }

  lemma RootIsNoSlot()
    ensures NoSlot(ROOT)
  {
    NamesApart();
    forall s
      ensures FileName(s) != ROOT
    {
      RootApart(s);
    }
  }

  /** A file of another name changes nothing. */
  lemma OtherKeepsFiles(files: Dir, w: Whole, name: string, f: File)
    requires FilesHold(files, w, AllSlots()) && NoSlot(name)
    ensures FilesHold(files[name := f], w, AllSlots())
  {
  }

  lemma OtherKeepsSaved(me: Measure, files: Dir, meta: Option<BackupMeta>, w: Whole, name: string, f: File)
    requires Saved(me, files, meta, w) && NoSlot(name)
    ensures Saved(me, files[name := f], meta, w)
  {
    OtherKeepsFiles(files, w, name, f);
  }

  /** Saving a backup with its root and opening it again, in one go. */
  method SaveAndOpen(me: Measure, w: Whole, p: Parts, debug: string, nodes: set<Kind>)
    returns (v: Verdict, extracted: map<Slot, map<Id, Blob>>, withData: bool)
    ensures withData <==> exists s :: Expected(w, s) != map[]
    ensures v.Fine? <==> && AllSupported(w) && AllServed(w, nodes)
                         && (withData ==> p.schema.Some? || p.epochs.Some? || p.increments.Some?)
    ensures v.Fine? ==> forall s :: s in extracted <==> Expected(w, s) != map[]
    ensures v.Fine? ==> forall s :: s in extracted ==> extracted[s] == Expected(w, s)
  {
    var storage := new Storage({}, {});
    var backup := new BackupData(storage, me, w);
    var ok := backup.Save(w);
    ok := backup.Finish(w);
    RootIsNoSlot();
    OtherKeepsSaved(me, storage.files, backup.meta, w, ROOT, RootFile(backup.meta, p));
    ok := WriteRoot(storage, me, backup.meta, p, debug);
    CodeReadBack(me.digest(RootFile(backup.meta, p)));
    withData := backup.meta.Some?;
    WholeAccepted(me, storage.files, storage.texts, backup.meta, w, p, nodes);
    v, extracted := Open(me, storage.files, storage.texts, nodes);
    if v.Fine? {
      WholeRoundTrip(me, storage.files, storage.texts, backup.meta, w, p, extracted);
    }
  }
}
