/** The upgrade messages both ends exchange: internal/pb. */
module UpgradeMessages {
  import opened ByteStrings

  datatype Offer = Offer(
    taskID: string, version: string, platform: string, size: int, sha256: string, chunkSize: nat, signature: string)

  datatype Chunk = Chunk(taskID: string, offset: int, data: Bytes, sha256: string, eof: bool)

  datatype Status = Status(taskID: string, state: string, offset: int, error: string)

  /** SHA256Hex. Only its injectivity is ever assumed, and only where a lemma says so. */
  type Digest = Bytes -> string

  ghost predicate LowerCaseDigests(sha: Digest) {
    forall data: Bytes :: Lower(sha(data)) == sha(data)
  }

  /** strings.ToLower on the letters a digest may hold. */
  function Lower(s: string): string {
    if s == [] then []
    else [if 'A' <= s[0] <= 'Z' then (s[0] as int + 32) as char else s[0]] + Lower(s[1..])
  }
}
