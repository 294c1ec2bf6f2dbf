/** Scene-index arithmetic of the presentation: the fixed number of scenes,
    the wrap-around successor and predecessor that the arrow buttons, the
    autoplay timer and the swipe gesture use, and the progress-bar fraction.

    The index functions take the scene count `n` as a parameter so that the
    cycle properties are proved for every non-empty scene list; the page
    itself always passes `SceneCount`. */
module Scenes {

  /** Length of the hard-coded scene list (ids 0 to 4). */
  const SceneCount: int := 5

  /** An index of the scene list. */
  predicate ValidScene(i: int) {
    0 <= i < SceneCount
  }

  /** JavaScript's `%` on integers: the remainder of division truncated toward
      zero, which takes the sign of the dividend (Dafny's `%` is Euclidean).
      The ensures clauses characterise it completely. */
  function JsRem(a: int, n: int): (r: int)
    requires n > 0
    ensures -n < r < n
    ensures a >= 0 ==> r >= 0
    ensures a <= 0 ==> r <= 0
    ensures (a - r) % n == 0
  {
    if a >= 0 then
      ModUnique(a - a % n, a / n, 0, n);
      a % n
    else
      ModUnique(a + (-a) % n, -((-a) / n), 0, n);
      -((-a) % n)
  }

  /** Division with remainder is unique: if `a == q * n + r` with `r` in
      `[0, n)`, then `q` and `r` are Dafny's quotient and remainder. */
  lemma ModUnique(a: int, q: int, r: int, n: int)
    requires n > 0 && 0 <= r < n && a == q * n + r
    ensures a / n == q && a % n == r
  {
    var p := a / n;
    assert a == p * n + a % n;
    if q > p {
      MulAtLeast(q - p, n);
      assert false;
    } else if q < p {
      MulAtLeast(p - q, n);
      assert false;
    }
  }

  /** Adding one whole turn does not change the remainder. */
  lemma ModShift(a: int, n: int)
    requires n > 0
    ensures (a + n) % n == a % n
  {
    assert a + n == (a / n + 1) * n + a % n;
    ModUnique(a + n, a / n + 1, a % n, n);
  }

  /** A positive multiple of `n` is at least `n`. */
  lemma MulAtLeast(d: int, n: int)
    requires d >= 1 && n > 0
    ensures d * n >= n
  {
  }

  /** The state updater of `nextScene`: `(prev + 1) % n`. On a valid index it
      steps to the following scene and wraps from the last to the first. */
  function Next(prev: int, n: int): (r: int)
    requires n > 0
    ensures 0 <= prev < n ==> 0 <= r < n
    ensures 0 <= prev < n - 1 ==> r == prev + 1
    ensures prev == n - 1 ==> r == 0
  {
    JsRem(prev + 1, n)
  }

  /** The state updater of `prevScene`: `(prev - 1 + n) % n`. On a valid index
      it steps to the preceding scene and wraps from the first to the last. */
  function Prev(prev: int, n: int): (r: int)
    requires n > 0
    ensures 0 <= prev < n ==> 0 <= r < n
    ensures 0 < prev < n ==> r == prev - 1
    ensures prev == 0 ==> r == n - 1
  {
    JsRem(prev - 1 + n, n)
  }

  /** `Next` and `Prev` undo each other, in both orders, on every valid index. */
  lemma NextPrevInverse(i: int, n: int)
    requires n > 0 && 0 <= i < n
    ensures Prev(Next(i, n), n) == i
    ensures Next(Prev(i, n), n) == i
  {
  }

  /** The index reached from `i` after `k` successive `Next` steps. */
  function NextTimes(i: int, k: nat, n: int): int
    requires n > 0
    decreases k
  {
    if k == 0 then i else NextTimes(Next(i, n), k - 1, n)
  }

  /** The index reached from `i` after `k` successive `Prev` steps. */
  function PrevTimes(i: int, k: nat, n: int): int
    requires n > 0
    decreases k
  {
    if k == 0 then i else PrevTimes(Prev(i, n), k - 1, n)
  }

  /** `k` forward steps add `k` modulo the scene count. */
  lemma {:induction false} NextTimesShift(i: int, k: nat, n: int)
    requires n > 0 && 0 <= i < n
    ensures NextTimes(i, k, n) == (i + k) % n
    decreases k
  {
    if k > 0 {
      var j := Next(i, n);
      NextTimesShift(j, k - 1, n);
      if i < n - 1 {
        assert j + (k - 1) == i + k;
      } else {
        ModShift(k - 1, n);
      }
    } else {
      ModUnique(i, 0, i, n);
    }
  }

  /** `k` backward steps subtract `k` modulo the scene count. */
  lemma {:induction false} PrevTimesShift(i: int, k: nat, n: int)
    requires n > 0 && 0 <= i < n
    ensures PrevTimes(i, k, n) == (i - k) % n
    decreases k
  {
    if k > 0 {
      var j := Prev(i, n);
      PrevTimesShift(j, k - 1, n);
      if i > 0 {
        assert j - (k - 1) == i - k;
      } else {
        ModShift(i - k, n);
      }
    } else {
      ModUnique(i, 0, i, n);
    }
  }

  /** Stepping forward `n` times, or backward `n` times, returns to the
      starting scene. */
  lemma NextCycle(i: int, n: int)
    requires n > 0 && 0 <= i < n
    ensures NextTimes(i, n, n) == i
    ensures PrevTimes(i, n, n) == i
  {
    NextTimesShift(i, n, n);
    ModShift(i, n);
    PrevTimesShift(i, n, n);
    ModShift(i - n, n);
    ModUnique(i, 0, i, n);
  }

  /** A fraction kept as numerator and denominator. */
  datatype Fraction = Fraction(num: int, den: int)

  /** The progress-bar scale `(currentScene + 1) / n`. */
  function Progress(scene: int, n: int): (f: Fraction)
    requires n > 0
    ensures f.den > 0 && f.num * n == (scene + 1) * f.den
    ensures 0 <= scene < n ==> 0 < f.num <= f.den
    ensures f.num == f.den <==> scene == n - 1
  {
    Fraction(scene + 1, n)
  }

  /** The bar grows strictly from scene to scene, starts at `1/n` on the
      first scene and is full (`1`) exactly on the last. */
  lemma ProgressIncreasing(i: int, j: int, n: int)
    requires n > 0 && 0 <= i < j < n
    ensures Progress(i, n).num * Progress(j, n).den < Progress(j, n).num * Progress(i, n).den
    ensures Progress(0, n).num * n == Progress(0, n).den
    ensures Progress(n - 1, n).num == Progress(n - 1, n).den
  {
  }
}
