/** The float-array cache (Pooling/Arrays/FloatArray.cs): one scratch array
    per requested length, built zero-filled on first request and handed out
    again, the same object, on every later request of that length.

    Arrays are objects the callers write into, so the model keeps a heap of
    array contents addressed by handles; the cache maps a length to the
    handle of its array. */
module FloatArrays {

  /** `slots` is the cache (length to array handle); `heap` holds the
      contents of every array built so far; `next` is the next unused handle. */
  datatype Pool = Pool(slots: map<int, nat>, heap: map<nat, seq<real>>, next: nat)

  /** An empty cache, as the class is constructed. */
  function NewPool(): (p: Pool)
    ensures Valid(p) && p.slots == map[]
  {
    Pool(map[], map[], 0)
  }

  /** Every cached array exists and has the length it is cached under, no
      array is cached under two lengths, and `next` is above every handle. */
  ghost predicate Valid(p: Pool) {
    (forall n :: n in p.slots ==> p.slots[n] in p.heap && |p.heap[p.slots[n]]| == n)
    && (forall n, m :: n in p.slots && m in p.slots && p.slots[n] == p.slots[m] ==> n == m)
    && (forall h :: h in p.heap ==> h < p.next)
  }

  /** `getInitializedArray`: a new array of the given length, all zeros. */
  function Zeros(n: nat): (r: seq<real>)
    ensures |r| == n
    ensures forall i :: 0 <= i < n ==> r[i] == 0.0
  {
    seq(n, _ => 0.0)
  }

  /** `get`: the array cached for `n`, building and caching a zero-filled
      one first when there is none. The length must be positive. */
  function Get(p: Pool, n: int): (r: (Pool, nat))
    requires Valid(p) && n > 0
    ensures Valid(r.0)
    ensures r.1 in r.0.heap && |r.0.heap[r.1]| == n
    ensures n in r.0.slots && r.0.slots[n] == r.1
    ensures n in p.slots ==> r.0 == p && r.1 == p.slots[n]
    ensures n !in p.slots ==> r.1 !in p.heap && r.0.heap == p.heap[r.1 := Zeros(n)]
    ensures n !in p.slots ==> r.0.slots == p.slots[n := r.1]
  {
    if n in p.slots then (p, p.slots[n])
    else
      var h := p.next;
      (Pool(p.slots[n := h], p.heap[h := Zeros(n)], h + 1), h)
  }

  /** A caller writing into an array it was handed. */
  function Store(p: Pool, h: nat, i: nat, x: real): (r: Pool)
    requires h in p.heap && i < |p.heap[h]|
    ensures r.slots == p.slots && r.next == p.next
    ensures r.heap.Keys == p.heap.Keys
    ensures |r.heap[h]| == |p.heap[h]| && r.heap[h][i] == x
    ensures forall j :: 0 <= j < |p.heap[h]| && j != i ==> r.heap[h][j] == p.heap[h][j]
    ensures forall g :: g in p.heap && g != h ==> r.heap[g] == p.heap[g]
    ensures Valid(p) ==> Valid(r)
  {
    p.(heap := p.heap[h := p.heap[h][i := x]])
  }

  /** Asking twice for the same length: the second call returns the same
      array and leaves the cache as the first call left it. */
  lemma GetIsIdempotent(p: Pool, n: int)
    requires Valid(p) && n > 0
    ensures Get(Get(p, n).0, n) == Get(p, n)
  {
  }

  /** Entries are only added: every array cached before a call is still
      cached under the same length, with the same contents. */
  lemma GetOnlyAdds(p: Pool, n: int, m: int)
    requires Valid(p) && n > 0 && m in p.slots
    ensures m in Get(p, n).0.slots && Get(p, n).0.slots[m] == p.slots[m]
    ensures Get(p, n).0.heap[p.slots[m]] == p.heap[p.slots[m]]
  {
  }

  /** The first request for a length hands out zeros. */
  lemma FirstGetIsZero(p: Pool, n: int, i: int)
    requires Valid(p) && n > 0 && n !in p.slots && 0 <= i < n
    ensures Get(p, n).0.heap[Get(p, n).1][i] == 0.0
  {
  }

  /** The cache never clears an array: what a caller wrote into the array
      for one length is what the next caller of that length finds, whatever
      other lengths were asked for in between. */
  lemma ReuseSeesEarlierWrites(p: Pool, n: int, i: nat, x: real, m: int)
    requires Valid(p) && n > 0 && m > 0 && i < n
    ensures var (p1, h) := Get(p, n);
            var p2 := Get(Store(p1, h, i, x), m).0;
            Get(p2, n).1 == h && p2.heap[h][i] == x
  {
    var (p1, h) := Get(p, n);
    GetOnlyAdds(Store(p1, h, i, x), m, n);
  }

  /** Arrays for different lengths are different objects. */
  lemma DistinctLengthsDistinctArrays(p: Pool, n: int, m: int)
    requires Valid(p) && n > 0 && m > 0 && n != m
    ensures var (p1, h) := Get(p, n);
            Get(p1, m).1 != h
  {
  }
}
