/** The recycled payload pool of the benchmark (`RandomGenerator`): a fixed
    buffer of compressible bytes and a cursor; each request is served as a
    window of the buffer, restarting at offset 0 when the window would run
    past the end. */
module PayloadPool {
  import opened Arith

  newtype byte = x: int | 0 <= x < 256

  /** The constructor appends fragments until the buffer holds at least this many bytes. */
  const MinPoolSize: nat := 1048576

  /** data_ and pos_. */
  datatype RandomGenerator = RandomGenerator(data: seq<byte>, pos: nat) {

    /** The cursor never leaves the buffer. */
    predicate Valid() {
      pos <= |data|
    }
  }

  /** A generator over a freshly built pool, cursor at the start. The pool's
      contents come from the compressible-string generator, outside this model. */
  function New(pool: seq<byte>): (g: RandomGenerator)
    requires |pool| >= MinPoolSize
    ensures g.Valid() && g.pos == 0 && g.data == pool
  {
    RandomGenerator(pool, 0)
  }

  /** What Generate asserts: a request that forces a restart must be
      shorter than the whole pool. */
  predicate CanServe(g: RandomGenerator, len: nat) {
    g.pos + len <= |g.data| || len < |g.data|
  }

  /** The generator after a request, and the window it handed out. */
  datatype Served = Served(gen: RandomGenerator, bytes: seq<byte>)

  /** Generate(len): a window of exactly len bytes that lies wholly inside the
      pool and ends at the new cursor. If it fits after the cursor it starts
      there; otherwise the cursor restarts at 0 and the window starts there. */
  function Generate(g: RandomGenerator, len: nat): (r: Served)
    requires g.Valid() && CanServe(g, len)
    ensures r.gen.Valid() && r.gen.data == g.data
    ensures |r.bytes| == len
    ensures len <= r.gen.pos && r.bytes == g.data[r.gen.pos - len .. r.gen.pos]
    ensures g.pos + len <= |g.data| ==> r.gen.pos == g.pos + len
    ensures g.pos + len > |g.data| ==> r.gen.pos == len
  {
    var start := if g.pos + len > |g.data| then 0 else g.pos;
    Served(g.(pos := start + len), g.data[start .. start + len])
  }

  /** The generator after k requests of len bytes each. */
  function Repeat(g: RandomGenerator, len: nat, k: nat): (g': RandomGenerator)
    requires g.Valid() && len < |g.data|
    ensures g'.Valid() && g'.data == g.data
  {
    if k == 0 then g else Generate(Repeat(g, len, k - 1), len).gen
  }

  /** Where the window of the k-th request (counting from 0) of len bytes
      starts, for a generator that began at offset 0 of a pool of `size`
      bytes: right after the previous window when it fits there, else at 0. */
  function Slot(size: nat, len: nat, k: nat): nat {
    if k == 0 then 0
    else if Slot(size, len, k - 1) + 2 * len <= size then Slot(size, len, k - 1) + len
    else 0
  }

  /** Every window lies wholly inside the pool. */
  lemma {:induction false} SlotInPool(size: nat, len: nat, k: nat)
    requires len <= size
    ensures Slot(size, len, k) + len <= size
  {
    if k > 0 {
      SlotInPool(size, len, k - 1);
    }
  }

  /** size / len whole windows fit in the pool, and one more does not. */
  lemma WindowsInPool(size: nat, len: nat)
    requires 0 < len < size
    ensures 1 <= size / len
    ensures (size / len) * len <= size < (size / len + 1) * len
  {
    var m := size / len;
    assert size == m * len + size % len;
  }

  /** The windows are used round-robin: the pool holds size / len whole
      windows, and the k-th request gets window number k modulo that count. */
  lemma {:induction false} SlotRoundRobin(size: nat, len: nat, k: nat)
    requires 0 < len < size
    ensures Slot(size, len, k) == (k % (size / len)) * len
  {
    if k > 0 {
      SlotRoundRobin(size, len, k - 1);
      var m := size / len;
      WindowsInPool(size, len);
      var j := (k - 1) % m;
      ModNext(k - 1, m);
      NextWindowFits(size, len, j);
      if j + 1 == m {
        assert k % m == 0;
      }
    }
  }

  /** After window number j, window j + 1 fits exactly when j + 1 is still
      below the number of whole windows. */
  lemma NextWindowFits(size: nat, len: nat, j: nat)
    requires 0 < len < size && j < size / len
    ensures (j + 1) * len == j * len + len
    ensures j * len + 2 * len <= size <==> j + 1 < size / len
  {
    var m := size / len;
    WindowsInPool(size, len);
    MulSucc(j, len);
    MulSucc(j + 1, len);
    if j + 1 < m {
      MulMonotone(j + 2, m, len);
    } else {
      assert (j + 2) * len == (m + 1) * len;
    }
  }

  /** The cursor after k requests of len bytes from offset 0 is the end of the
      (k-1)-th window; it is not the running total modulo the pool size. */
  lemma {:induction false} RepeatCursor(g: RandomGenerator, len: nat, k: nat)
    requires g.Valid() && g.pos == 0 && len < |g.data|
    ensures Repeat(g, len, k).pos == if k == 0 then 0 else Slot(|g.data|, len, k - 1) + len
  {
    if k > 1 {
      RepeatCursor(g, len, k - 1);
    }
  }

  /** The k-th window of the round-robin of len-byte windows over the pool. */
  function RoundRobinWindow(pool: seq<byte>, len: nat, k: nat): (w: seq<byte>)
    requires len < |pool|
    ensures |w| == len
  {
    SlotInPool(|pool|, len, k);
    pool[Slot(|pool|, len, k) .. Slot(|pool|, len, k) + len]
  }

  /** The k-th request of len bytes, counting from 0 on a fresh generator,
      is served the k-th window of the round-robin. */
  lemma KthWindow(g: RandomGenerator, len: nat, k: nat)
    requires g.Valid() && g.pos == 0 && len < |g.data|
    ensures Generate(Repeat(g, len, k), len).bytes == RoundRobinWindow(g.data, len, k)
  {
    ServedAt(g, len, k);
    SlotInPool(|g.data|, len, k);
    var before := Repeat(g, len, k);
    WindowStart(before, len, if before.pos + len > |g.data| then 0 else before.pos);
  }

  /** The window Generate hands out starts at p: at the cursor when the
      request fits after it, else at 0. */
  lemma WindowStart(g: RandomGenerator, len: nat, p: nat)
    requires g.Valid() && CanServe(g, len)
    requires p == if g.pos + len > |g.data| then 0 else g.pos
    ensures p + len <= |g.data| && Generate(g, len).bytes == g.data[p .. p + len]
  {
  }

  /** The k-th request leaves the cursor at the end of the k-th window. */
  lemma ServedAt(g: RandomGenerator, len: nat, k: nat)
    requires g.Valid() && g.pos == 0 && len < |g.data|
    ensures Generate(Repeat(g, len, k), len).gen.pos == Slot(|g.data|, len, k) + len
  {
    assert Repeat(g, len, k + 1) == Generate(Repeat(g, len, k), len).gen;
    RepeatCursor(g, len, k + 1);
  }

  /** A request that would cross the end restarts the cursor at 0: one byte
      before the end, a 2-byte request leaves the cursor at 2, where a
      modular cursor would be at 1. */
  lemma WrapIsReset(g: RandomGenerator)
    requires g.Valid() && 3 <= |g.data| && g.pos == |g.data| - 1
    ensures Generate(g, 2).gen.pos == 2
    ensures (g.pos + 2) % |g.data| == 1
  {
  }

  /** Requests served without a restart hand out consecutive stretches of the pool. */
  lemma ConsecutiveWindows(g: RandomGenerator, a: nat, b: nat)
    requires g.Valid() && g.pos + a + b <= |g.data|
    ensures Generate(g, a).bytes + Generate(Generate(g, a).gen, b).bytes
         == g.data[g.pos .. g.pos + a + b]
  {
  }
}
