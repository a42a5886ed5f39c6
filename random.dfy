/** `crypto/rand.Reader` as a finite stream of random bytes, read with
    `io.ReadFull`. */
module Random {
  import opened Wrappers
  import opened Strings

  class Reader {
    /** the bytes the reader will still deliver */
    var pool: Bytes

    constructor (pool: Bytes)
      ensures this.pool == pool
    {
      this.pool := pool;
    }

    /** `io.ReadFull(rand.Reader, buf)` with `len(buf) == n`: exactly `n`
        bytes, or an error after the reader ran dry. */
    method ReadFull(n: nat) returns (r: Option<Bytes>)
      modifies this
      ensures |old(pool)| >= n ==> r == Some(old(pool)[..n]) && pool == old(pool)[n..]
      ensures |old(pool)| < n ==> r == None && pool == []
    {
      if |pool| >= n {
        r := Some(pool[..n]);
        pool := pool[n..];
      } else {
        r := None;
        pool := [];
      }
    }
  }
}
