/**
 * random_cpu_choices: the opponents offered for one level. The random draw is
 * an input, a list of distinct positions of the catalog.
 */
module Pool {

  /** How many opponents a level offers: three, or the whole catalog when it is smaller. */
  function PoolSize(n: nat): nat {
    if n < 3 then n else 3
  }

  predicate InRange(picks: seq<nat>, n: nat) {
    forall i :: 0 <= i < |picks| ==> picks[i] < n
  }

  predicate Distinct(picks: seq<nat>) {
    forall i, j :: 0 <= i < j < |picks| ==> picks[i] != picks[j]
  }

  /** A draw `random.sample` can make from `n` entries: PoolSize(n) different positions, in any order. */
  predicate ValidDraw(picks: seq<nat>, n: nat) {
    |picks| == PoolSize(n) && InRange(picks, n) && Distinct(picks)
  }

  /** Some draw is always possible, whatever the size of the catalog. */
  function FirstPositions(n: nat): (picks: seq<nat>)
    ensures ValidDraw(picks, n)
  {
    seq(PoolSize(n), i requires 0 <= i < PoolSize(n) => i)
  }

  /** The entries of `xs` at the positions `picks`, in the order of `picks`. */
  function Pick<T>(xs: seq<T>, picks: seq<nat>): seq<T>
    requires InRange(picks, |xs|)
  {
    seq(|picks|, i requires 0 <= i < |picks| => xs[picks[i]])
  }

  /** `xs` without its entry at position p. */
  function Without<T>(xs: seq<T>, p: nat): (ys: seq<T>)
    requires p < |xs|
    ensures |ys| == |xs| - 1
    ensures multiset(xs) == multiset(ys) + multiset{xs[p]}
  {
    assert xs == xs[..p] + [xs[p]] + xs[p + 1..];
    xs[..p] + xs[p + 1..]
  }

  /** The positions `rest` renumbered for `Without(xs, p)`, none of them being p. */
  function Renumber(rest: seq<nat>, p: nat): seq<nat>
  {
    seq(|rest|, k requires 0 <= k < |rest| => if rest[k] <= p then rest[k] else rest[k] - 1)
  }

  /** Removing position p and renumbering the other positions picks the same entries. */
  lemma RenumberPicksSame<T>(xs: seq<T>, picks: seq<nat>)
    requires picks != [] && InRange(picks, |xs|) && Distinct(picks)
    ensures var p, rest := picks[0], picks[1..];
      && InRange(Renumber(rest, p), |Without(xs, p)|)
      && Distinct(Renumber(rest, p))
      && Pick(Without(xs, p), Renumber(rest, p)) == Pick(xs, rest)
  {
    var p, rest := picks[0], picks[1..];
    var ys, q := Without(xs, p), Renumber(rest, p);
    forall k | 0 <= k < |rest|
      ensures rest[k] != p && q[k] < |ys| && ys[q[k]] == xs[rest[k]]
    {
      assert rest[k] == picks[k + 1];
    }
    forall i, j | 0 <= i < j < |q|
      ensures q[i] != q[j]
    {
      assert rest[i] == picks[i + 1] && rest[j] == picks[j + 1];
    }
  }

  /**
   * Entries taken at different positions never take any element more often
   * than it occurs: the picked entries form a sub-multiset of `xs`.
   */
  lemma {:induction false} PickSubMultiset<T>(xs: seq<T>, picks: seq<nat>)
    requires InRange(picks, |xs|) && Distinct(picks)
    ensures multiset(Pick(xs, picks)) <= multiset(xs)
    decreases |picks|
  {
    if picks != [] {
      var p, rest := picks[0], picks[1..];
      RenumberPicksSame(xs, picks);
      PickSubMultiset(Without(xs, p), Renumber(rest, p));
      assert Pick(xs, picks) == [xs[p]] + Pick(xs, rest);
    }
  }

  /** A sub-multiset as large as the whole is the whole. */
  lemma SubMultisetOfSameSize<T>(a: multiset<T>, b: multiset<T>)
    requires a <= b && |a| == |b|
    ensures a == b
  {
    var d := b - a;
    assert b == a + d;
    assert |d| == 0;
  }

  /**
   * random_cpu_choices: PoolSize(|objects|) opponents, each from the catalog, none
   * taken more often than it occurs there; a catalog of fewer than three entries
   * is offered whole, in the order of the draw.
   */
  function RandomCpuChoices<T>(objects: seq<T>, picks: seq<nat>): (r: seq<T>)
    requires ValidDraw(picks, |objects|)
    ensures |r| == PoolSize(|objects|)
    ensures multiset(r) <= multiset(objects)
    ensures forall i :: 0 <= i < |r| ==> r[i] in objects
    ensures |objects| < 3 ==> multiset(r) == multiset(objects)
  {
    var r := Pick(objects, picks);
    PickSubMultiset(objects, picks);
    assert |objects| < 3 ==> multiset(r) == multiset(objects) by {
      if |objects| < 3 {
        SubMultisetOfSameSize(multiset(r), multiset(objects));
      }
    }
    r
  }
}
