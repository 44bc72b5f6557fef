/** The random source. Every call of `random.randint`, `random.choice`,
    `random.sample` and `random.shuffle` is modelled as a function of
    arbitrary natural numbers drawn from a stream; since each draw is
    arbitrary, every outcome the scripts can produce is produced by some
    stream, and a property proved for all streams holds for every run. */
module Draws {
  import opened Seqs

  /** An infinite supply of draws; slot `n` is the `n`-th draw. */
  type Stream = nat -> nat

  /** `random.randint(lo, hi)`; Python raises ValueError when `lo > hi`,
      which callers must rule out. */
  function RandInt(lo: int, hi: int, r: nat): (v: int)
    requires lo <= hi
    ensures lo <= v <= hi
  {
    lo + r % (hi - lo + 1)
  }

  /** Every value of the range is the outcome of some draw. */
  lemma RandIntCovers(lo: int, hi: int, v: int)
    requires lo <= v <= hi
    ensures RandInt(lo, hi, v - lo) == v
  {
  }

  /** `random.choice(xs)` */
  function Choice<T>(xs: seq<T>, r: nat): (v: T)
    requires |xs| > 0
    ensures v in xs
  {
    xs[r % |xs|]
  }

  lemma ChoiceCovers<T>(xs: seq<T>, k: nat)
    requires k < |xs|
    ensures Choice(xs, k) == xs[k]
  {
  }

  /** `random.sample(xs, k)`: `k` elements taken from distinct positions of
      `xs`, in drawing order. Python raises ValueError for `k > len(xs)`. */
  function Sample<T>(xs: seq<T>, k: nat, s: Stream): (r: seq<T>)
    requires k <= |xs|
    ensures |r| == k
    ensures multiset(r) <= multiset(xs)
    ensures k == |xs| ==> multiset(r) == multiset(xs)
    decreases k
  {
    if k == 0 then []
    else
      var j := s(0) % |xs|;
      var rest := xs[..j] + xs[j + 1..];
      assert xs == xs[..j] + [xs[j]] + xs[j + 1..];
      assert multiset(xs) == multiset(rest) + multiset{xs[j]};
      [xs[j]] + Sample(rest, k - 1, n => s(n + 1))
  }

  /** `random.shuffle`: a sample of every element, in drawing order. */
  function Shuffle<T>(xs: seq<T>, s: Stream): (r: seq<T>)
    ensures |r| == |xs|
    ensures multiset(r) == multiset(xs)
  {
    Sample(xs, |xs|, s)
  }

  /** The draws from slot `offset` on: the segment handed to one sub-step. */
  function Shift(s: Stream, offset: nat): (t: Stream)
    ensures forall n: nat :: t(n) == s(offset + n)
  {
    n => s(offset + n)
  }

  /** The even draws and the odd draws: two independent streams for two
      consumers whose number of draws is not fixed in advance. */
  function Evens(s: Stream): (t: Stream)
    ensures forall n: nat :: t(n) == s(2 * n)
  {
    n => s(2 * n)
  }

  function Odds(s: Stream): (t: Stream)
    ensures forall n: nat :: t(n) == s(2 * n + 1)
  {
    n => s(2 * n + 1)
  }
}
