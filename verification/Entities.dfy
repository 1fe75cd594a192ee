/** The records that travel from a backup to a restore. */
module Entities {
  import opened Decimal

  type Id = n: int | IsInt64(n)

  datatype Kind = Store | Index | Document

  datatype RegionType = Typed(kind: Kind) | OtherType

  /** `body` stands for the fields nobody here looks at. */
  datatype Region = Region(id: Id, startKey: string, regionType: RegionType, body: string)

  /** One SST file of one column family of one region (`BackupDataFileValueSstMeta`). */
  datatype SstMeta = SstMeta(
    cf: string, regionId: Id, dirName: string, fileSize: int, encryption: string, fileName: string)

  type Group = seq<SstMeta>

  /** The description of one file of a backup. */
  datatype BackupMeta = BackupMeta(
    fileName: string, dirName: string, execNode: string, fileSize: nat, encryption: string)

  /** The bytes of one value, by what they parse as; `TextBlob` stands for the messages nobody here looks into. */
  datatype Blob =
    | RegionBlob(region: Region) | GroupBlob(group: Group) | MetaBlob(meta: BackupMeta)
    | TextBlob(text: string) | Junk(raw: string)

  /** An SST file: the key/value pairs it holds. */
  type File = map<string, Blob>

  type Dir = map<string, File>

  /** A SHA-1 code in hexadecimal digits: one word. */
  type Code = s: string | s != [] && forall i :: 0 <= i < |s| ==> !IsSpace(s[i]) witness "0"

  /** How a file is measured: its SHA-1 code and its size. */
  datatype Measure = Measure(digest: File -> Code, size: File -> nat)
}
