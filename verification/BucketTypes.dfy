/** bucket.go: buckets, of users and of the system. */
module BucketTypes {
  import opened Ids

  const SYSTEM_TYPE := 1
  const USER_TYPE := 0

  datatype Bucket = Bucket(id: ID, org: ID, kind: int, name: string, description: string, policy: string, period: int) {
    predicate System() {
      kind == SYSTEM_TYPE
    }
  }
}
