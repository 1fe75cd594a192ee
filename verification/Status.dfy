/** The status values that the backup and restore tool passes around (`butil::Status` with a
    `dingodb::pb::error` code).  Only the codes that a branch of the modelled code tests are named. */
module Status {

  datatype Errno =
    | EINTERNAL
    | ERAFT_NOTLEADER
    | EREGION_NOT_FOUND
    | EREGION_VERSION
    | EHOSTDOWN             // transport error 112
    | EOTHER(code: int)

  datatype Status = Ok | Error(code: Errno)
}
