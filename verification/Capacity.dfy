/** GetWorkerCapacity: how many connections one worker may hold under the descriptor limit. */
module Capacity {

  /** C division: truncation toward zero. */
  function TruncDiv(a: int, b: int): int
    requires b > 0
  {
    if a >= 0 then a / b else -((-a) / b)
  }

  /** The quotient is rounded toward zero. */
  lemma TruncDivIs(a: int, b: int, c: int)
    requires b > 0
    ensures a >= 0 ==> (c <= TruncDiv(a, b) <==> b * c <= a)
    ensures a < 0 ==> TruncDiv(a, b) == -TruncDiv(-a, b)
  {
    if a >= 0 {
      DivisionBound(b, c, a);
    }
  }

  function GetWorkerCapacity(limit: int, threads: int): int
    requires threads > 0
  {
    TruncDiv(TruncDiv(limit - (3 + 1 + threads), 2), threads)
  }

  /** stdin, stdout, stderr and the listening socket, one epoll per worker, two descriptors per connection. */
  predicate Fits(limit: int, threads: int, connections: int) {
    4 + threads + 2 * connections <= limit
  }

  /**
   `c` connections on every worker fit exactly up to the capacity; and if the limit does not even
   cover the fixed descriptors, no number fits and the capacity is not positive.
   */
  lemma CapacityIsLargest(limit: int, threads: int, c: int)
    requires threads > 0
    ensures limit >= 4 + threads ==> GetWorkerCapacity(limit, threads) >= 0
    ensures limit >= 4 + threads ==> (Fits(limit, threads, threads * c) <==> c <= GetWorkerCapacity(limit, threads))
    ensures limit < 4 + threads ==> GetWorkerCapacity(limit, threads) <= 0 && (c >= 0 ==> !Fits(limit, threads, c))
  {
    if limit >= 4 + threads {
      DivisionBound(threads, c, (limit - (4 + threads)) / 2);
    }
  }

  lemma DivisionBound(n: int, c: int, x: nat)
    requires n > 0
    ensures n * c <= x <==> c <= x / n
  {
    var q := x / n;
    assert x == n * q + x % n;
    if c <= q {
      assert n * c <= n * q;
    } else {
      assert n * c >= n * (q + 1);
      assert n * (q + 1) == n * q + n;
    }
  }
}
