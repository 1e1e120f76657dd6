/** The progress values the worker emits: one after every page
    (pdf-compress.py:134-137) and one after every file (pdf-compress.py:202-203).
    Integer division here is the exact floor of the quotients the worker
    truncates with `int(...)`; both operands are never negative. */
module Progress {

  /** The per-page value may not exceed this: the rest of the file's share
      is meant for saving. */
  const PageCap: int := 95

  function Min(a: int, b: int): (m: int)
    ensures m <= a && m <= b && (m == a || m == b)
  {
    if b < a then b else a
  }

  lemma MulMonotone(d: int, x: int, y: int)
    requires d >= 0
    ensures x <= y ==> d * x <= d * y
  {
  }

  lemma DivMonotone(a: int, b: int, d: int)
    requires 0 <= a <= b && d > 0
    ensures a / d <= b / d
  {
    var qa, qb := a / d, b / d;
    MulMonotone(d, qb + 1, qa);
    assert d * (qb + 1) == d * qb + d;
  }

  lemma DivBelow(a: int, d: int, c: int)
    requires 0 <= a < c * d && d > 0
    ensures a / d < c
  {
    MulMonotone(d, c, a / d);
  }

  lemma MulDiv(c: int, d: int)
    requires d > 0
    ensures (c * d) / d == c
  {
    var q := (c * d) / d;
    MulMonotone(d, c + 1, q);
    MulMonotone(d, q + 1, c);
    assert d * (c + 1) == d * c + d;
    assert d * (q + 1) == d * q + d;
  }

  lemma FileShareBounds(i: nat, n: nat)
    requires i < n
    ensures 0 <= (i + 1) * 100 / n <= 100
    ensures i + 1 < n ==> (i + 1) * 100 / n < 100
    ensures i + 1 == n ==> (i + 1) * 100 / n == 100
  {
    DivMonotone((i + 1) * 100, 100 * n, n);
    MulDiv(100, n);
    if i + 1 < n {
      DivBelow((i + 1) * 100, n, 100);
    }
  }

  /** Page `p` of `t` pages in file `i` of `n` files. The files' half
      `floor(i*50/n)` is at most 49, the pages' half grows to 50 on the last
      page, and the sum is capped at 95. */
  function PageProgress(i: nat, n: nat, p: nat, t: nat): (r: int)
    requires i < n && p < t
    ensures 0 <= r <= PageCap
    ensures i * 50 / n <= r
    ensures i * 50 / n <= 49
  {
    DivBelow(i * 50, n, 50);
    Min(i * 50 / n + (p + 1) * 50 / t, PageCap)
  }

  /** Within one file the per-page values never go down. */
  lemma PageProgressMonotone(i: nat, n: nat, p: nat, q: nat, t: nat)
    requires i < n && p <= q < t
    ensures PageProgress(i, n, p, t) <= PageProgress(i, n, q, t)
  {
    DivMonotone((p + 1) * 50, (q + 1) * 50, t);
  }

  /** The last page of a file always reports at least half. */
  lemma LastPageReachesHalf(i: nat, n: nat, t: nat)
    requires i < n && 0 < t
    ensures PageProgress(i, n, t - 1, t) >= 50
  {
    MulDiv(50, t);
  }

  /** The value after file `i` of `n`: its share of 100, rounded down. */
  function FileProgress(i: nat, n: nat): (r: int)
    requires i < n
    ensures 0 <= r <= 100
    ensures r == 100 <==> i == n - 1
  {
    FileShareBounds(i, n);
    (i + 1) * 100 / n
  }

  /** The per-file values never go down from one file to the next. */
  lemma FileProgressMonotone(i: nat, j: nat, n: nat)
    requires i <= j < n
    ensures FileProgress(i, n) <= FileProgress(j, n)
  {
    DivMonotone((i + 1) * 100, (j + 1) * 100, n);
  }

  /** The stream as a whole is not monotone: with three files the last page
      of a one-page first file reports 50, its end-of-file value is 33, and
      the first of a hundred pages of the second file reports 16. */
  lemma ProgressDropsAtFileBoundaries()
    ensures PageProgress(0, 3, 0, 1) == 50
    ensures FileProgress(0, 3) == 33
    ensures PageProgress(1, 3, 0, 100) == 16
  {
  }
}
