/**
 * How ParSPICE splits `n` tasks over `w` workers: worker `i` gets an almost
 * equal share, the remainder going one apiece to the first workers, and the
 * shares are laid out contiguously in worker order by a running sum. Worker
 * `i` listens on port `minPort + 2i` for inputs and `minPort + 2i + 1` for
 * outputs.
 */
module Partition {
  import opened JavaInt
  import opened Seqs

  /** `subset(numIterations, numWorkers, i)`, with Java's truncating
      division and remainder. */
  function Subset(n: int, w: int, i: int): int
    requires w != 0
  {
    JavaDiv(n, w) + (if i < JavaRem(n, w) then 1 else 0)
  }

  function Min(a: int, b: int): int {
    if a <= b then a else b
  }

  /** The running sum of the shares of workers `0 .. i-1`: the first task
      index of worker `i`. */
  function Start(n: int, w: int, i: int): int
    requires w >= 1 && 0 <= i <= w
  {
    if i == 0 then 0 else Start(n, w, i - 1) + Subset(n, w, i - 1)
  }

  /** The running sum has the closed form `i * (n / w) + min(i, n % w)`. */
  lemma {:induction false} StartClosedForm(n: int, w: int, i: int)
    requires n >= 0 && w >= 1 && 0 <= i <= w
    ensures Start(n, w, i) == i * (n / w) + Min(i, n % w)
  {
    if i > 0 {
      StartClosedForm(n, w, i - 1);
      assert (i - 1) * (n / w) + n / w == i * (n / w);
    }
  }

  /** Every share is `n / w` or one more, and it is one more exactly for
      the first `n % w` workers. */
  lemma SubsetBalanced(n: int, w: int, i: int)
    requires n >= 0 && w >= 1 && 0 <= i < w
    ensures Subset(n, w, i) == n / w || Subset(n, w, i) == n / w + 1
    ensures Subset(n, w, i) == n / w + 1 <==> i < n % w
  {
  }

  /** A negative task count gives no worker any task. */
  lemma SubsetOfNegative(n: int, w: int, i: int)
    requires n < 0 && w >= 1 && 0 <= i
    ensures Subset(n, w, i) <= 0
  {
  }

  /** Shares never grow with the worker index and differ by at most one. */
  lemma SubsetNonIncreasing(n: int, w: int, i: int, j: int)
    requires n >= 0 && w >= 1 && 0 <= i <= j < w
    ensures Subset(n, w, j) <= Subset(n, w, i) <= Subset(n, w, j) + 1
  {
  }

  /** The shares add up to the number of tasks. */
  lemma SharesSumToTotal(n: int, w: int)
    requires n >= 0 && w >= 1
    ensures Start(n, w, w) == n
  {
    StartClosedForm(n, w, w);
  }

  /** The first task index never decreases with the worker index. */
  lemma {:induction false} StartMonotone(n: int, w: int, i: int, j: int)
    requires n >= 0 && w >= 1 && 0 <= i <= j <= w
    ensures Start(n, w, i) <= Start(n, w, j)
    decreases j - i
  {
    if i < j {
      StartMonotone(n, w, i, j - 1);
      assert Subset(n, w, j - 1) >= 0;
    }
  }

  /** Every first task index lies in `[0, n]`. */
  lemma StartBounds(n: int, w: int, i: int)
    requires n >= 0 && w >= 1 && 0 <= i <= w
    ensures 0 <= Start(n, w, i) <= n
  {
    StartMonotone(n, w, 0, i);
    StartMonotone(n, w, i, w);
    SharesSumToTotal(n, w);
  }

  /** Worker `i` runs the tasks `[Start(i), Start(i) + Subset(i))`; the
      ranges of two different workers do not overlap, the earlier worker's
      range lying wholly before the later one's. */
  lemma RangesDisjoint(n: int, w: int, i: int, j: int)
    requires n >= 0 && w >= 1 && 0 <= i < j < w
    ensures Start(n, w, i) + Subset(n, w, i) <= Start(n, w, j)
  {
    StartMonotone(n, w, i + 1, j);
  }

  /** The worker whose range holds task `k`, searching from worker `i` on. */
  function OwnerFrom(n: int, w: int, k: int, i: int): (o: int)
    requires n >= 0 && w >= 1 && 0 <= i < w
    requires Start(n, w, i) <= k < n
    ensures i <= o < w
    ensures Start(n, w, o) <= k < Start(n, w, o) + Subset(n, w, o)
    decreases w - i
  {
    if k < Start(n, w, i) + Subset(n, w, i) then i
    else
      SharesSumToTotal(n, w);
      OwnerFrom(n, w, k, i + 1)
  }

  /** The worker that runs task `k`. */
  function Owner(n: int, w: int, k: int): (o: int)
    requires n >= 0 && w >= 1 && 0 <= k < n
    ensures 0 <= o < w
    ensures Start(n, w, o) <= k < Start(n, w, o) + Subset(n, w, o)
  {
    OwnerFrom(n, w, k, 0)
  }

  /** The ranges cover `[0, n)` with no task run twice: every task lies in
      the range of exactly one worker. */
  lemma OwnerUnique(n: int, w: int, k: int, i: int)
    requires n >= 0 && w >= 1 && 0 <= k < n && 0 <= i < w
    ensures Start(n, w, i) <= k < Start(n, w, i) + Subset(n, w, i) <==> i == Owner(n, w, k)
  {
    var o := Owner(n, w, k);
    if i < o {
      RangesDisjoint(n, w, i, o);
    } else if o < i {
      RangesDisjoint(n, w, o, i);
    }
  }

  /** Worker `i`'s slice of the inputs: `inputs.subList(start, start + subset)`. */
  function Sublist<T>(inputs: seq<T>, w: int, i: int): (part: seq<T>)
    requires w >= 1 && 0 <= i < w
    ensures |part| == Subset(|inputs|, w, i)
    ensures 0 <= Start(|inputs|, w, i) && Start(|inputs|, w, i) + |part| <= |inputs|
    ensures forall k :: 0 <= k < |part| ==> part[k] == inputs[Start(|inputs|, w, i) + k]
  {
    StartMonotone(|inputs|, w, i, i + 1);
    StartBounds(|inputs|, w, i);
    StartBounds(|inputs|, w, i + 1);
    inputs[Start(|inputs|, w, i)..Start(|inputs|, w, i + 1)]
  }

  /** Every worker's slice, in worker order. */
  function Sublists<T>(inputs: seq<T>, w: int): (parts: seq<seq<T>>)
    requires w >= 1
    ensures |parts| == w
    ensures forall i :: 0 <= i < w ==> parts[i] == Sublist(inputs, w, i)
  {
    seq(w, i requires 0 <= i < w => Sublist(inputs, w, i))
  }

  /** The slices of the first `m` workers, joined, are the inputs up to
      worker `m`'s first task. */
  lemma {:induction false} SublistsPrefix<T>(inputs: seq<T>, w: int, m: int)
    requires w >= 1 && 0 <= m <= w
    ensures 0 <= Start(|inputs|, w, m) <= |inputs|
    ensures Concat(Sublists(inputs, w)[..m]) == inputs[..Start(|inputs|, w, m)]
  {
    StartBounds(|inputs|, w, m);
    if m > 0 {
      SublistsPrefix(inputs, w, m - 1);
      assert Sublists(inputs, w)[..m][..m - 1] == Sublists(inputs, w)[..m - 1];
      StartMonotone(|inputs|, w, m - 1, m);
      var a := Start(|inputs|, w, m - 1);
      var b := Start(|inputs|, w, m);
      assert inputs[..b] == inputs[..a] + inputs[a..b];
    }
  }

  /** Joining every worker's slice in worker order gives back the inputs. */
  lemma SublistsConcat<T>(inputs: seq<T>, w: int)
    requires w >= 1
    ensures Concat(Sublists(inputs, w)) == inputs
  {
    SublistsPrefix(inputs, w, w);
    SharesSumToTotal(|inputs|, w);
    assert Sublists(inputs, w)[..w] == Sublists(inputs, w);
  }

  /** The task indices `[0, n)`. */
  function Indices(n: nat): (ix: seq<int>)
    ensures |ix| == n
    ensures forall k :: 0 <= k < n ==> ix[k] == k
  {
    seq(n, k => k)
  }

  /** Worker `i`'s task indices `[Start(i), Start(i) + Subset(i))`. */
  function WorkerIndices(n: int, w: int, i: int): (ix: seq<int>)
    requires w >= 1 && 0 <= i < w
    ensures |ix| == Max0(Subset(n, w, i))
    ensures forall k :: 0 <= k < |ix| ==> ix[k] == Start(n, w, i) + k
  {
    var c := Subset(n, w, i);
    seq(if c < 0 then 0 else c, k => Start(n, w, i) + k)
  }

  /** A worker's indices are its slice of `[0, n)`, so the index ranges
      inherit the slices' coverage. */
  lemma WorkerIndicesAreSublist(n: nat, w: int, i: int)
    requires w >= 1 && 0 <= i < w
    ensures WorkerIndices(n, w, i) == Sublist(Indices(n), w, i)
  {
    StartMonotone(n, w, i, i + 1);
    StartBounds(n, w, i + 1);
    var ix := WorkerIndices(n, w, i);
    var part := Sublist(Indices(n), w, i);
    assert Subset(n, w, i) >= 0;
    assert |ix| == |part|;
    forall k | 0 <= k < |ix| ensures ix[k] == part[k] {
    }
  }

  /** Joining every worker's index range in worker order gives `[0, n)`. */
  lemma IndicesConcat(n: nat, w: int)
    requires w >= 1
    ensures Concat(seq(w, i requires 0 <= i < w => WorkerIndices(n, w, i))) == Indices(n)
  {
    forall i | 0 <= i < w
      ensures WorkerIndices(n, w, i) == Sublist(Indices(n), w, i)
    {
      WorkerIndicesAreSublist(n, w, i);
    }
    assert seq(w, i requires 0 <= i < w => WorkerIndices(n, w, i)) == Sublists(Indices(n), w);
    SublistsConcat(Indices(n), w);
  }

  /** Worker `i`'s input port. */
  function InputPort(minPort: int, i: int): int {
    minPort + 2 * i
  }

  /** Worker `i`'s output port. */
  function OutputPort(minPort: int, i: int): int {
    minPort + 2 * i + 1
  }

  /** The `2w` ports of a run are pairwise distinct and lie in
      `[minPort, minPort + 2w)`. */
  lemma PortsDistinct(minPort: int, w: int, i: int, j: int)
    requires 0 <= i < w && 0 <= j < w
    ensures minPort <= InputPort(minPort, i) < OutputPort(minPort, i) < minPort + 2 * w
    ensures InputPort(minPort, i) != OutputPort(minPort, j)
    ensures InputPort(minPort, i) == InputPort(minPort, j) ==> i == j
    ensures OutputPort(minPort, i) == OutputPort(minPort, j) ==> i == j
  {
  }

  /** Every port in `[minPort, minPort + 2w)` is used: it is the input or
      the output port of worker `(p - minPort) / 2`. */
  lemma PortsCover(minPort: int, w: int, p: int)
    requires minPort <= p < minPort + 2 * w
    ensures 0 <= (p - minPort) / 2 < w
    ensures p == InputPort(minPort, (p - minPort) / 2) || p == OutputPort(minPort, (p - minPort) / 2)
  {
  }
}
