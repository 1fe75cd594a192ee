/** Checking a backup's files against its manifest before a restore, and reading them. */
module ManifestCheck {
  import opened Options
  import opened StringOrder
  import opened Decimal
  import opened Entities
  import opened IdKeys
  import opened FileSlots
  import opened BackupFiles

  datatype Verdict =
    | Fine | Missing | FieldMismatch | ChecksumMismatch | KeyNotFound | RegionMetaNotFound | ParseFailed | Thrown
    | NodeNotExist

  /** Compares a description with the file it is for. */
  function CheckMeta(me: Measure, meta: BackupMeta, f: File, name: string, dir: string, node: string): Verdict {
    if meta.fileName != name then FieldMismatch
    else if meta.dirName != dir then FieldMismatch
    else if meta.execNode != node then FieldMismatch
    else if meta.fileSize != me.size(f) then FieldMismatch
    else if meta.encryption != me.digest(f) then ChecksumMismatch
    else Fine
  }

  /** The comparison succeeds on one description only, the one a backup writes for that file. */
  lemma OnlyDescription(me: Measure, meta: BackupMeta, f: File, name: string, node: string)
    ensures CheckMeta(me, meta, f, name, "", node).Fine? <==> meta == Describe(me, name, node, f)
  {
  }

  predicate Fits(part: Part, b: Blob) {
    if part == Regions then b.RegionBlob? else b.GroupBlob?
  }

  predicate ReadableAt(f: File, part: Part, k: string) {
    k in f && Fits(part, f[k]) && Stoll(k).Some?
  }

  ghost predicate Readable(f: File, part: Part) {
    forall k :: k in f ==> ReadableAt(f, part, k)
  }

  lemma StollInRange(k: string)
    ensures Stoll(k).Some? ==> IsInt64(Stoll(k).value)
  {
  }

  /** The first entry that cannot be read, if there is one. */
  ghost predicate FirstBad(f: File, part: Part, k: string) {
    k in f && !ReadableAt(f, part, k) && forall j :: j in f && !ReadableAt(f, part, j) ==> j == k || Less(k, j)
  }

  /** Every key that is still to come is behind every key that has been read. */
  ghost predicate Behind(seen: set<string>, rest: set<string>) {
    forall i, j :: i in seen && j in rest ==> Less(i, j)
  }

  lemma BehindStep(keys: set<string>, rest: set<string>, k: string)
    requires rest <= keys && IsLeast(k, rest) && Behind(keys - rest, rest)
    ensures Behind(keys - (rest - {k}), rest - {k})
  {
    forall i, j | i in keys - (rest - {k}) && j in rest - {k}
      ensures Less(i, j)
    {
      if i == k {
        assert Less(k, j);
      } else {
        assert i in keys - rest;
      }
    }
  }

  /** Reads the pairs in the order of their keys; a second key for the same id is ignored. */
  method Extract(f: File, part: Part) returns (v: Verdict, m: map<Id, Blob>)
    ensures v.Fine? <==> Readable(f, part)
    ensures v.Fine? ==> Decodes(f, m)
    ensures !v.Fine? ==> exists k :: FirstBad(f, part, k) && v == if Fits(part, f[k]) then Thrown else ParseFailed
  {
    m := map[];
    var rest := f.Keys;
    assert f - rest == map[];
    while rest != {}
      invariant rest <= f.Keys && Behind(f.Keys - rest, rest)
      invariant forall k :: k in f && k !in rest ==> ReadableAt(f, part, k)
      invariant Decodes(f - rest, m)
    {
      LeastExists(rest);
      var k :| IsLeast(k, rest);
      if !Fits(part, f[k]) {
        assert FirstBad(f, part, k);
        return ParseFailed, map[];
      }
      if Stoll(k).None? {
        assert FirstBad(f, part, k);
        return Thrown, map[];
      }
      m := ReadPair(f, rest, k, m);
      BehindStep(f.Keys, rest, k);
      rest := rest - {k};
    }
    assert f - {} == f;
    v := Fine;
  }

  lemma Uncovered(f: File, rest: set<string>, k: string)
    requires rest <= f.Keys && k in rest
    ensures k !in f - rest && (f - rest)[k := f[k]] == f - (rest - {k})
  {
  }

  lemma PairRead(f: File, rest: set<string>, k: string, m: map<Id, Blob>, id: Id)
    requires rest <= f.Keys && k in rest && Behind(f.Keys - rest, rest)
    requires Stoll(k) == Some(id) && Decodes(f - rest, m)
    ensures Decodes(f - (rest - {k}), Added(m, id, f[k]))
  {
    Uncovered(f, rest, k);
    assert forall i :: i in f - rest ==> i in f.Keys - rest;
    DecodesAdd(f - rest, m, k, f[k], id);
  }

  method ReadPair(f: File, ghost rest: set<string>, k: string, m: map<Id, Blob>) returns (n: map<Id, Blob>)
    requires rest <= f.Keys && k in rest && Behind(f.Keys - rest, rest)
    requires Stoll(k).Some? && Decodes(f - rest, m)
    ensures Decodes(f - (rest - {k}), n)
  {
    StollInRange(k);
    var id: Id := Stoll(k).value;
    PairRead(f, rest, k, m, id);
    n := m;
    if id !in n {
      n := n[id := f[k]];
    }
  }

  predicate Described(me: Measure, files: Dir, meta: BackupMeta, s: Slot) {
    FileName(s) in files && meta == Describe(me, FileName(s), ExecNode(s), files[FileName(s)])
  }

  ghost predicate Loaded(files: Dir, done: set<Slot>, extracted: map<Slot, map<Id, Blob>>) {
    && extracted.Keys == done
    && forall s :: s in done ==> FileName(s) in files && Decodes(files[FileName(s)], extracted[s])
  }

  /** What one source needs in order to be restored. */
  ghost predicate Sound(me: Measure, files: Dir, ssts: map<Slot, BackupMeta>, s: Slot) {
    s in ssts ==> Described(me, files, ssts[s], s) && Readable(files[FileName(s)], s.part)
  }

  ghost predicate AllDescribed(me: Measure, files: Dir, ssts: map<Slot, BackupMeta>, slots: set<Slot>) {
    forall s :: s in slots && s in ssts ==> Described(me, files, ssts[s], s)
  }

  ghost predicate AllSound(me: Measure, files: Dir, ssts: map<Slot, BackupMeta>, slots: set<Slot>) {
    forall s :: s in slots ==> Sound(me, files, ssts, s)
  }

  lemma PairSound(me: Measure, files: Dir, ssts: map<Slot, BackupMeta>, a: Slot, b: Slot)
    ensures AllSound(me, files, ssts, {a, b}) <==> Sound(me, files, ssts, a) && Sound(me, files, ssts, b)
  {
  }

  lemma Joined(done: set<Slot>, a: Slot, b: Slot, keys: set<Slot>)
    ensures done + ({a} * keys) + ({b} * keys) == done + ({a, b} * keys)
  {
  }

  lemma JoinedSets(a: set<Slot>, b: set<Slot>, c: set<Slot>, keys: set<Slot>)
    ensures {} + (a * keys) + (b * keys) + (c * keys) == (a + b + c) * keys
  {
  }

  lemma UnionSound(me: Measure, files: Dir, ssts: map<Slot, BackupMeta>, a: set<Slot>, b: set<Slot>, c: set<Slot>)
    ensures AllSound(me, files, ssts, a + b + c) <==>
      AllSound(me, files, ssts, a) && AllSound(me, files, ssts, b) && AllSound(me, files, ssts, c)
  {
  }

  /** A kind of region can be restored: groups come with their regions, and regions need a node of their kind. */
  predicate KindServable(source: Source, kind: Kind, listed: set<Slot>, nodes: set<Kind>) {
    && (Slot(source, kind, Groups) in listed ==> Slot(source, kind, Regions) in listed)
    && (Slot(source, kind, Regions) in listed ==> kind in nodes)
  }

  ghost predicate Servable(source: Source, listed: set<Slot>, nodes: set<Kind>) {
    forall kind :: KindServable(source, kind, listed, nodes)
  }

  lemma ThreeServable(source: Source, listed: set<Slot>, nodes: set<Kind>)
    ensures Servable(source, listed, nodes) <==>
      && KindServable(source, Store, listed, nodes) && KindServable(source, Index, listed, nodes)
      && KindServable(source, Document, listed, nodes)
  {
    if KindServable(source, Store, listed, nodes) && KindServable(source, Index, listed, nodes)
      && KindServable(source, Document, listed, nodes)
    {
      forall kind: Kind
        ensures KindServable(source, kind, listed, nodes)
      {
        assert kind == Store || kind == Index || kind == Document;
      }
    }
  }

  /** Restores one source: first checks all six files, then reads them. */
  class RestoreDataBase {
    const source: Source
    const measure: Measure
    const files: Dir
    const ssts: map<Slot, BackupMeta>
    const nodes: set<Kind>
    var extracted: map<Slot, map<Id, Blob>>

    constructor (source: Source, measure: Measure, files: Dir, ssts: map<Slot, BackupMeta>, nodes: set<Kind>)
      ensures this.source == source && this.measure == measure && this.files == files && this.ssts == ssts
      ensures this.nodes == nodes && extracted == map[]
    {
      this.source := source;
      this.measure := measure;
      this.files := files;
      this.ssts := ssts;
      this.nodes := nodes;
      extracted := map[];
    }

    method CheckSst(s: Slot) returns (v: Verdict)
      ensures v.Fine? <==> (s in ssts ==> Described(measure, files, ssts[s], s))
    {
      v := Fine;
      if s in ssts {
        if FileName(s) !in files {
          return Missing;
        }
        OnlyDescription(measure, ssts[s], files[FileName(s)], FileName(s), ExecNode(s));
        v := CheckMeta(measure, ssts[s], files[FileName(s)], FileName(s), "", ExecNode(s));
      }
    }

    method CheckKind(kind: Kind) returns (v: Verdict)
      ensures v.Fine? <==> AllDescribed(measure, files, ssts, KindSlots(source, kind))
    {
      v := CheckSst(Slot(source, kind, Regions));
      if v.Fine? {
        v := CheckSst(Slot(source, kind, Groups));
      }
    }

    method CheckAll() returns (v: Verdict)
      ensures v.Fine? <==> AllDescribed(measure, files, ssts, SideSlots(source))
    {
      KindsCover(source);
      v := CheckKind(Store);
      if !v.Fine? { return; }
      v := CheckKind(Index);
      if !v.Fine? { return; }
      v := CheckKind(Document);
    }

    method ExtractSst(s: Slot, ghost done: set<Slot>) returns (v: Verdict)
      requires s in ssts ==> Described(measure, files, ssts[s], s)
      requires Loaded(files, done, extracted)
      modifies this
      ensures v.Fine? <==> Sound(measure, files, ssts, s)
      ensures v.Fine? ==> Loaded(files, done + ({s} * ssts.Keys), extracted)
    {
      v := Fine;
      if s in ssts {
        var m;
        v, m := Extract(files[ssts[s].fileName], s.part);
        if v.Fine? {
          extracted := extracted[s := m];
        }
      }
    }

    method ExtractKind(kind: Kind, ghost done: set<Slot>) returns (v: Verdict)
      requires AllDescribed(measure, files, ssts, KindSlots(source, kind))
      requires Loaded(files, done, extracted)
      modifies this
      ensures v.Fine? <==> AllSound(measure, files, ssts, KindSlots(source, kind))
      ensures v.Fine? ==> Loaded(files, done + (KindSlots(source, kind) * ssts.Keys), extracted)
    {
      ghost var a, b := Slot(source, kind, Regions), Slot(source, kind, Groups);
      PairSound(measure, files, ssts, a, b);
      v := ExtractSst(Slot(source, kind, Regions), done);
      if !v.Fine? { return; }
      v := ExtractSst(Slot(source, kind, Groups), done + ({a} * ssts.Keys));
      Joined(done, a, b, ssts.Keys);
    }

    method ExtractAll() returns (v: Verdict)
      requires AllDescribed(measure, files, ssts, SideSlots(source)) && extracted == map[]
      modifies this
      ensures v.Fine? <==> AllSound(measure, files, ssts, SideSlots(source))
      ensures v.Fine? ==> Loaded(files, SideSlots(source) * ssts.Keys, extracted)
    {
      KindsCover(source);
      ghost var a, b, c := KindSlots(source, Store), KindSlots(source, Index), KindSlots(source, Document);
      UnionSound(measure, files, ssts, a, b, c);
      v := ExtractKind(Store, {});
      if !v.Fine? { return; }
      v := ExtractKind(Index, {} + (a * ssts.Keys));
      if !v.Fine? { return; }
      v := ExtractKind(Document, {} + (a * ssts.Keys) + (b * ssts.Keys));
      JoinedSets(a, b, c, ssts.Keys);
    }

    /** What was read is matched up, kind by kind, and then the nodes for it are looked for. */
    method MatchUp() returns (v: Verdict)
      ensures v.Fine? <==> Servable(source, extracted.Keys, nodes)
    {
      ThreeServable(source, extracted.Keys, nodes);
      if Unmatched(Store) { return RegionMetaNotFound; }
      if Unmatched(Index) { return RegionMetaNotFound; }
      if Unmatched(Document) { return RegionMetaNotFound; }
      if Unserved(Store) { return NodeNotExist; }
      if Unserved(Index) { return NodeNotExist; }
      if Unserved(Document) { return NodeNotExist; }
      v := Fine;
    }

    predicate Unmatched(kind: Kind)
      reads this
    {
      Slot(source, kind, Groups) in extracted && Slot(source, kind, Regions) !in extracted
    }

    predicate Unserved(kind: Kind)
      reads this
    {
      Slot(source, kind, Regions) in extracted && kind !in nodes
    }

    method Init() returns (v: Verdict)
      requires extracted == map[]
      modifies this
      ensures v.Fine? <==>
                AllSound(measure, files, ssts, SideSlots(source)) && Servable(source, SideSlots(source) * ssts.Keys, nodes)
      ensures v.Fine? ==> Loaded(files, SideSlots(source) * ssts.Keys, extracted)
    {
      v := CheckAll();
      if !v.Fine? { return; }
      v := ExtractAll();
      if !v.Fine? { return; }
      v := MatchUp();
    }
  }
}
