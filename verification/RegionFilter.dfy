/** Sorting the cluster's regions into the lists that the backup works through. */
module RegionFilter {
  import opened Entities

  const EXECUTOR_TXN := 't'
  const CLIENT_RAW := 'w'
  const CLIENT_TXN := 'x'

  /** `listed` are the sql meta regions; `withClientTxn` is the flag for transactional sdk regions. */
  datatype Config = Config(listed: seq<Id>, withClientTxn: bool)

  datatype Bin = SqlMeta | SqlData(kind: Kind) | SdkData(kind: Kind) | Omitted

  predicate HasPrefix(key: string, prefix: char) {
    if key == [] then false else key[0] == prefix
  }

  /** Where a region belongs. */
  function BinOf(c: Config, r: Region): Bin {
    if r.startKey == [] || r.regionType.OtherType? then Omitted
    else if r.startKey[0] == EXECUTOR_TXN then
      if r.id !in c.listed then SqlData(r.regionType.kind)
      else if r.regionType.kind == Store then SqlMeta
      else Omitted
    else if r.startKey[0] == CLIENT_RAW || (r.startKey[0] == CLIENT_TXN && c.withClientTxn) then SdkData(r.regionType.kind)
    else Omitted
  }

  /** The regions of a bin, in their order. */
  function Select(c: Config, b: Bin, regions: seq<Region>): seq<Region> {
    if regions == [] then [] else
      var rest := Select(c, b, regions[..|regions| - 1]);
      var last := regions[|regions| - 1];
      if BinOf(c, last) == b then rest + [last] else rest
  }

  lemma SelectStep(c: Config, b: Bin, regions: seq<Region>, i: nat)
    requires i < |regions|
    ensures Select(c, b, regions[..i + 1]) ==
      Select(c, b, regions[..i]) + (if BinOf(c, regions[i]) == b then [regions[i]] else [])
  {
    assert regions[..i + 1][..i] == regions[..i];
  }

  method FilterSqlData(c: Config, regions: seq<Region>)
    returns (stores: seq<Region>, indexes: seq<Region>, documents: seq<Region>)
    ensures stores == Select(c, SqlData(Store), regions)
    ensures indexes == Select(c, SqlData(Index), regions)
    ensures documents == Select(c, SqlData(Document), regions)
  {
    stores, indexes, documents := [], [], [];
    for i := 0 to |regions|
      invariant stores == Select(c, SqlData(Store), regions[..i])
      invariant indexes == Select(c, SqlData(Index), regions[..i])
      invariant documents == Select(c, SqlData(Document), regions[..i])
    {
      var region := regions[i];
      SelectStep(c, SqlData(Store), regions, i);
      SelectStep(c, SqlData(Index), regions, i);
      SelectStep(c, SqlData(Document), regions, i);
      if HasPrefix(region.startKey, EXECUTOR_TXN) {
        if region.id !in c.listed {
          if region.regionType == Typed(Store) {
            stores := stores + [region];
          } else if region.regionType == Typed(Index) {
            indexes := indexes + [region];
          } else if region.regionType == Typed(Document) {
            documents := documents + [region];
          }
        }
      }
    }
    assert regions[..|regions|] == regions;
  }

  method FilterSdkData(c: Config, regions: seq<Region>)
    returns (stores: seq<Region>, indexes: seq<Region>, documents: seq<Region>)
    ensures stores == Select(c, SdkData(Store), regions)
    ensures indexes == Select(c, SdkData(Index), regions)
    ensures documents == Select(c, SdkData(Document), regions)
  {
    stores, indexes, documents := [], [], [];
    for i := 0 to |regions|
      invariant stores == Select(c, SdkData(Store), regions[..i])
      invariant indexes == Select(c, SdkData(Index), regions[..i])
      invariant documents == Select(c, SdkData(Document), regions[..i])
    {
      var region := regions[i];
      SelectStep(c, SdkData(Store), regions, i);
      SelectStep(c, SdkData(Index), regions, i);
      SelectStep(c, SdkData(Document), regions, i);
      if HasPrefix(region.startKey, CLIENT_RAW) {
        if region.regionType == Typed(Store) {
          stores := stores + [region];
        } else if region.regionType == Typed(Index) {
          indexes := indexes + [region];
        } else if region.regionType == Typed(Document) {
          documents := documents + [region];
        }
      }
      if c.withClientTxn {
        if HasPrefix(region.startKey, CLIENT_TXN) {
          if region.regionType == Typed(Store) {
            stores := stores + [region];
          } else if region.regionType == Typed(Index) {
            indexes := indexes + [region];
          } else if region.regionType == Typed(Document) {
            documents := documents + [region];
          }
        }
      }
    }
    assert regions[..|regions|] == regions;
  }

  method FilterSqlMeta(c: Config, regions: seq<Region>) returns (stores: seq<Region>)
    ensures stores == Select(c, SqlMeta, regions)
  {
    stores := [];
    for i := 0 to |regions|
      invariant stores == Select(c, SqlMeta, regions[..i])
    {
      var region := regions[i];
      SelectStep(c, SqlMeta, regions, i);
      if HasPrefix(region.startKey, EXECUTOR_TXN) {
        if region.id in c.listed {
          if region.regionType == Typed(Store) {
            stores := stores + [region];
          }
        }
      }
    }
    assert regions[..|regions|] == regions;
  }

  /** Everything the seven lists hold, with repetitions. */
  function InLists(c: Config, regions: seq<Region>): multiset<Region> {
    multiset(Select(c, SqlMeta, regions))
    + multiset(Select(c, SqlData(Store), regions)) + multiset(Select(c, SqlData(Index), regions))
    + multiset(Select(c, SqlData(Document), regions))
    + multiset(Select(c, SdkData(Store), regions)) + multiset(Select(c, SdkData(Index), regions))
    + multiset(Select(c, SdkData(Document), regions))
  }

  lemma {:induction false} SelectCount(c: Config, b: Bin, regions: seq<Region>, r: Region)
    ensures multiset(Select(c, b, regions))[r] == if BinOf(c, r) == b then multiset(regions)[r] else 0
  {
    if regions != [] {
      var n := |regions| - 1;
      SelectCount(c, b, regions[..n], r);
      assert regions == regions[..n] + [regions[n]];
    }
  }

  /** The lists share nothing and lose nothing: every region is in exactly one list, as often as the cluster reports
      it, unless it is omitted. */
  lemma Partition(c: Config, regions: seq<Region>, r: Region)
    ensures InLists(c, regions)[r] == if BinOf(c, r) == Omitted then 0 else multiset(regions)[r]
  {
    SelectCount(c, SqlMeta, regions, r);
    SelectCount(c, SqlData(Store), regions, r);
    SelectCount(c, SqlData(Index), regions, r);
    SelectCount(c, SqlData(Document), regions, r);
    SelectCount(c, SdkData(Store), regions, r);
    SelectCount(c, SdkData(Index), regions, r);
    SelectCount(c, SdkData(Document), regions, r);
    match BinOf(c, r) {
      case SqlMeta =>
      case SqlData(kind) => assert kind == Store || kind == Index || kind == Document;
      case SdkData(kind) => assert kind == Store || kind == Index || kind == Document;
      case Omitted =>
    }
  }

  /** A region is left out exactly if its key has another prefix (or is a client transaction key and those are not
      asked for), its type is unknown, or it is a listed meta region that is no store region. */
  lemma OmittedExactly(c: Config, regions: seq<Region>, r: Region)
    requires r in regions
    ensures r !in InLists(c, regions) <==>
      || r.regionType.OtherType?
      || !(HasPrefix(r.startKey, EXECUTOR_TXN) || HasPrefix(r.startKey, CLIENT_RAW) || HasPrefix(r.startKey, CLIENT_TXN))
      || (HasPrefix(r.startKey, CLIENT_TXN) && !c.withClientTxn)
      || (HasPrefix(r.startKey, EXECUTOR_TXN) && r.id in c.listed && r.regionType != Typed(Store))
  {
    Partition(c, regions, r);
    assert multiset(regions)[r] > 0;
  }

  /** Regions with distinct ids stay distinct in each list, which is what the files keyed by id rely on. */
  lemma {:induction false} SelectDistinct(c: Config, b: Bin, regions: seq<Region>)
    requires forall i, j :: 0 <= i < j < |regions| ==> regions[i].id != regions[j].id
    ensures forall i, j :: 0 <= i < j < |Select(c, b, regions)| ==> Select(c, b, regions)[i].id != Select(c, b, regions)[j].id
    ensures forall r :: r in Select(c, b, regions) ==> r in regions
  {
    if regions != [] {
      var n := |regions| - 1;
      SelectDistinct(c, b, regions[..n]);
      assert forall r :: r in Select(c, b, regions[..n]) ==> r in regions[..n];
      assert forall r :: r in regions[..n] ==> r.id != regions[n].id;
    }
  }
}
