/** Fixed-capacity numeric windows fed to the indicator layer.  A push
    shifts the array in place: every element moves one place toward index 0,
    the oldest falls off and the new value lands last.  Buffers start as
    zeros; a separate count of pushes gates the trading logic until it
    reaches the capacity. */
module ShiftBuffer {

  function Push<T>(buf: seq<T>, v: T): (r: seq<T>)
    requires |buf| > 0
    ensures |r| == |buf|
    ensures r[|r| - 1] == v
    ensures forall i :: 0 <= i < |buf| - 1 ==> r[i] == buf[i + 1]
  {
    buf[1..] + [v]
  }

  function Zeros(n: nat): (z: seq<real>)
    ensures |z| == n
    ensures forall i :: 0 <= i < n ==> z[i] == 0.0
  {
    seq(n, i => 0.0)
  }

  /** Push every value of `vs`, in order. */
  function PushAll<T>(buf: seq<T>, vs: seq<T>): (r: seq<T>)
    requires |buf| > 0
    ensures |r| == |buf|
    decreases |vs|
  {
    if |vs| == 0 then buf else Push(PushAll(buf, vs[..|vs| - 1]), vs[|vs| - 1])
  }

  lemma PushAllSnoc<T>(buf: seq<T>, vs: seq<T>, v: T)
    requires |buf| > 0
    ensures PushAll(buf, vs + [v]) == Push(PushAll(buf, vs), v)
  {
    assert (vs + [v])[..|vs|] == vs;
  }

  /** A buffer always holds the last |buf| values of its history followed by
      everything pushed since. */
  lemma {:induction false} PushAllIsSuffix<T>(buf: seq<T>, vs: seq<T>)
    requires |buf| > 0
    ensures PushAll(buf, vs) == (buf + vs)[|vs|..]
    decreases |vs|
  {
    if |vs| > 0 {
      var init := vs[..|vs| - 1];
      PushAllIsSuffix(buf, init);
      assert buf + vs == (buf + init) + [vs[|vs| - 1]];
    }
  }

  /** Counting from the end, the j-th element of a buffer is the j-th value
      pushed from the end, as long as that many values have been pushed. */
  lemma PushAllFromEnd<T>(buf: seq<T>, vs: seq<T>, j: nat)
    requires j < |buf| && j < |vs|
    ensures PushAll(buf, vs)[|buf| - 1 - j] == vs[|vs| - 1 - j]
  {
    PushAllIsSuffix(buf, vs);
    assert (buf + vs)[|vs|..][|buf| - 1 - j] == (buf + vs)[|vs| + |buf| - 1 - j];
  }

  lemma ZerosDrop(n: nat, k: nat)
    requires k <= n
    ensures Zeros(n)[k..] == Zeros(n - k)
  {
  }

  lemma DropAppendShort<T>(a: seq<T>, b: seq<T>, k: nat)
    requires k <= |a|
    ensures (a + b)[k..] == a[k..] + b
  {
  }

  lemma DropAppendLong<T>(a: seq<T>, b: seq<T>, k: nat)
    requires |a| <= k <= |a| + |b|
    ensures (a + b)[k..] == b[k - |a|..]
  {
  }

  /** From zeros, while fewer than C values have been pushed: the window is
      (C - k) zeros followed by the k values. */
  lemma WindowWarming(capacity: nat, vs: seq<real>)
    requires |vs| < capacity
    ensures PushAll(Zeros(capacity), vs) == Zeros(capacity - |vs|) + vs
  {
    PushAllIsSuffix(Zeros(capacity), vs);
    DropAppendShort(Zeros(capacity), vs, |vs|);
    ZerosDrop(capacity, |vs|);
  }

  /** Once C or more values have been pushed the window is exactly the last
      C of them, in push order. */
  lemma WindowFull(capacity: nat, vs: seq<real>)
    requires 0 < capacity <= |vs|
    ensures PushAll(Zeros(capacity), vs) == vs[|vs| - capacity..]
  {
    PushAllIsSuffix(Zeros(capacity), vs);
    DropAppendLong(Zeros(capacity), vs, |vs|);
  }

  /** The last k elements: what `array[-k:]` reads. */
  function Tail<T>(buf: seq<T>, k: nat): (r: seq<T>)
    requires k <= |buf|
    ensures |r| == k
    ensures forall i :: 0 <= i < k ==> r[i] == buf[|buf| - k + i]
  {
    buf[|buf| - k..]
  }

  /** The five bar series every 5-minute handler shifts together. */
  datatype PriceBuffers = PriceBuffers(close: seq<real>, high: seq<real>, low: seq<real>,
                                       volume: seq<real>, openInterest: seq<real>)

  predicate HasCapacity(p: PriceBuffers, n: nat)
  {
    |p.close| == n && |p.high| == n && |p.low| == n && |p.volume| == n && |p.openInterest| == n
  }

  function ZeroBuffers(n: nat): (p: PriceBuffers)
    ensures HasCapacity(p, n)
  {
    PriceBuffers(Zeros(n), Zeros(n), Zeros(n), Zeros(n), Zeros(n))
  }

  /** Shift all five series and write one bar's values last. */
  function PushBar(p: PriceBuffers, close: real, high: real, low: real, volume: int,
                   openInterest: int): (r: PriceBuffers)
    requires |p.close| > 0 && |p.high| > 0 && |p.low| > 0 && |p.volume| > 0
    requires |p.openInterest| > 0
    ensures |r.close| == |p.close| && |r.high| == |p.high| && |r.low| == |p.low|
    ensures |r.volume| == |p.volume| && |r.openInterest| == |p.openInterest|
    ensures r.close[|r.close| - 1] == close && r.high[|r.high| - 1] == high
    ensures r.low[|r.low| - 1] == low && r.volume[|r.volume| - 1] == volume as real
    ensures r.openInterest[|r.openInterest| - 1] == openInterest as real
    // every series shifts: older values move one place toward index 0
    ensures r.close == Push(p.close, close) && r.high == Push(p.high, high)
    ensures r.low == Push(p.low, low) && r.volume == Push(p.volume, volume as real)
    ensures r.openInterest == Push(p.openInterest, openInterest as real)
  {
    PriceBuffers(Push(p.close, close), Push(p.high, high), Push(p.low, low),
                 Push(p.volume, volume as real), Push(p.openInterest, openInterest as real))
  }
}
