/** The responses a server sends on a job's main connection. */
module Messages {
  import FastCrawler
  import opened Wrappers

  datatype Transfer = Transfer(sha256: int, bytes: int, id: nat)

  datatype PullObject = PullObject(number: nat, path: string, kind: FastCrawler.Kind, transfer: Option<Transfer>)

  datatype Response =
    | Started(job: string)
    | Object(pull: PullObject)
    | Finished(total: nat)
    | Error

  /** A value stored in an int32 field. */
  function Int32(n: int): int {
    var m := n % 0x1_0000_0000;
    if m < 0x8000_0000 then m else m - 0x1_0000_0000
  }

  /** It is in range, and the value modulo 2^32. */
  lemma Int32IsResidue(n: int)
    ensures -0x8000_0000 <= Int32(n) < 0x8000_0000 && (n - Int32(n)) % 0x1_0000_0000 == 0
  {}

  /** An int32 converted for a comparison with a uint64. */
  function AsUint64(n: int): nat {
    n % 0x1_0000_0000_0000_0000
  }
}
