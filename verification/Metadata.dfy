/** The records of the `files` table and the small vocabulary every other module shares. */
module Metadata {

  datatype Option<+T> = None | Some(value: T)

  // Instants are integers on one shared clock; durations are their differences.
  type Time = int

  type Bytes = seq<bv8>

  datatype FileRecord = FileRecord(
    id: string,
    originalName: string,
    contentType: string,
    sizeBytes: int,
    checksum: string,
    objectKey: string,
    cdnUrl: string,
    uploaderIpHash: string,
    deleteTokenHash: string,
    createdAt: Time,
    expiresAt: Time)
  {
    // Strict, unlike the SQL predicates: at the instant `expiresAt` itself the row is
    // sweepable but not yet "expired" for the file service.
    predicate IsExpired(now: Time) {
      now > expiresAt
    }
  }
}
