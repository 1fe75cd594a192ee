/** The twelve data files of a backup: two sources, three region kinds, a region list and its SST groups each. */
module FileSlots {
  import opened Entities

  datatype Source = Sql | Sdk

  datatype Part = Regions | Groups

  datatype Slot = Slot(source: Source, kind: Kind, part: Part)

  const DATAFILE := "backupmeta.datafile"

  function RegionFileName(source: Source, kind: Kind): string {
    match (source, kind)
    case (Sql, Store) => "store_region_sql_data.sst"
    case (Sql, Index) => "index_region_sql_data.sst"
    case (Sql, Document) => "document_region_sql_data.sst"
    case (Sdk, Store) => "store_region_sdk_data.sst"
    case (Sdk, Index) => "index_region_sdk_data.sst"
    case (Sdk, Document) => "document_region_sdk_data.sst"
  }

  function GroupFileName(source: Source, kind: Kind): string {
    match (source, kind)
    case (Sql, Store) => "store_cf_sst_meta_sql_data.sst"
    case (Sql, Index) => "index_cf_sst_meta_sql_data.sst"
    case (Sql, Document) => "document_cf_sst_meta_sql_data.sst"
    case (Sdk, Store) => "store_cf_sst_meta_sdk_data.sst"
    case (Sdk, Index) => "index_cf_sst_meta_sdk_data.sst"
    case (Sdk, Document) => "document_cf_sst_meta_sdk_data.sst"
  }

  function FileName(s: Slot): string {
    if s.part == Regions then RegionFileName(s.source, s.kind) else GroupFileName(s.source, s.kind)
  }

  function KindName(kind: Kind): string {
    match kind
    case Store => "store"
    case Index => "index"
    case Document => "document"
  }

  /** The node a file's description must name. */
  function ExecNode(s: Slot): string {
    if s.part == Regions then "coordinator" else KindName(s.kind)
  }

  lemma NameShape(s: Slot)
    ensures |FileName(s)| == (if s.kind == Document then 28 else 25) + (if s.part == Groups then 5 else 0)
    ensures FileName(s)[0] == (match s.kind case Store => 's' case Index => 'i' case Document => 'd')
    ensures FileName(s)[|FileName(s)| - 11] == (if s.source == Sql then 'q' else 'd')
  {
  }

  /** No two files share a name. */
  lemma NamesDistinct(s: Slot, t: Slot)
    ensures FileName(s) == FileName(t) <==> s == t
    ensures FileName(s) != DATAFILE
  {
    NameShape(s);
    NameShape(t);
    assert DATAFILE[0] == 'b';
  }

  function SlotsOf(source: Source, part: Part): set<Slot> {
    {Slot(source, Store, part), Slot(source, Index, part), Slot(source, Document, part)}
  }

  function SideSlots(source: Source): set<Slot> {
    SlotsOf(source, Regions) + SlotsOf(source, Groups)
  }

  function AllSlots(): set<Slot> {
    SideSlots(Sql) + SideSlots(Sdk)
  }

  lemma EverySlot(s: Slot)
    ensures s in SideSlots(s.source) && s in AllSlots()
  {
    match s {
      case Slot(_, Store, Regions) =>
      case Slot(_, Index, Regions) =>
      case Slot(_, Document, Regions) =>
      case Slot(_, Store, Groups) =>
      case Slot(_, Index, Groups) =>
      case Slot(_, Document, Groups) =>
    }
    assert s.source == Sql || s.source == Sdk;
  }

  function KindSlots(source: Source, kind: Kind): set<Slot> {
    {Slot(source, kind, Regions), Slot(source, kind, Groups)}
  }

  lemma KindsCover(source: Source)
    ensures SideSlots(source) == KindSlots(source, Store) + KindSlots(source, Index) + KindSlots(source, Document)
  {
  }
}
