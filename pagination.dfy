/**
 * splitJson (array_slice with preserved keys) and the page arithmetic shared by
 * every paginate(): clamp the page size, take the ceiling of the page count,
 * reset an out-of-range page to 1, and compute the page-aligned offset.
 */
module Pagination {
  import opened Base

  function Min(a: int, b: int): int { if a <= b then a else b }
  function Max(a: int, b: int): int { if a >= b then a else b }

  /** array_slice($a, $offset, $length, true) on an ordered array, for any integer offset and length. */
  function ArraySlice<T>(a: seq<T>, offset: int, length: int): (r: seq<T>)
    ensures |r| <= |a|
  {
    if offset > |a| then []
    else
      var start := if offset < 0 then Max(0, |a| + offset) else offset;
      var stop := if length < 0 then |a| + length else start + length;
      if stop <= start then [] else a[start..Min(stop, |a|)]
  }

  /** With a non-negative start and count, the slice is the contiguous run a[start .. min(start + nb, |a|)). */
  lemma SliceIsContiguous<T>(a: seq<T>, start: int, nb: int)
    requires 0 <= start && 0 <= nb
    ensures ArraySlice(a, start, nb) == a[Min(start, |a|)..Min(start + nb, |a|)]
  {
  }

  /** The first `nb` pages of size `nb` laid end to end. */
  function Pages<T>(a: seq<T>, nb: int, count: nat): seq<T>
    requires nb > 0
  {
    if count == 0 then [] else Pages(a, nb, count - 1) + ArraySlice(a, nb * (count - 1), nb)
  }

  lemma {:induction false} PagesArePrefix<T>(a: seq<T>, nb: int, count: nat)
    requires nb > 0
    ensures Pages(a, nb, count) == a[..Min(nb * count, |a|)]
  {
    if count > 0 {
      PagesArePrefix(a, nb, count - 1);
      SliceIsContiguous(a, nb * (count - 1), nb);
      assert nb * count == nb * (count - 1) + nb;
      var lo := Min(nb * (count - 1), |a|);
      var hi := Min(nb * count, |a|);
      assert a[..lo] + a[lo..hi] == a[..hi];
    }
  }

  /** `$nb === 0 || $nb > $total` replaces nb by the total, capped at 20 in the capped variant. */
  function Clamp(total: nat, nb: int, cap20: bool): int {
    if nb == 0 || nb > total then (if cap20 && total > 20 then 20 else total) else nb
  }

  /** ceil($total / $nb) on integers; for a negative size the quotient is non-positive. */
  function CeilDiv(a: nat, b: int): int
    requires b != 0
  {
    if b > 0 then (a + b - 1) / b else -(a / -b)
  }

  /** For a positive size, CeilDiv is the least page count whose pages cover the total. */
  lemma CeilDivIsCeiling(a: nat, b: int)
    requires b > 0
    ensures var q := CeilDiv(a, b); q >= 0 && b * q >= a && b * (q - 1) < a + (if a == 0 then b else 0)
  {
    var q := (a + b - 1) / b;
    var r := (a + b - 1) % b;
    assert a + b - 1 == b * q + r && 0 <= r < b;
    assert b * (q - 1) == b * q - b;
  }

  datatype Window = Window(nb: int, pageCount: int, page: int, offset: int)

  /** The effective page size, page count, page number and slice offset of paginate(). */
  function PageWindow(total: nat, nb: int, page: int, cap20: bool): (r: Result<Window>)
    ensures r.Err? <==> Clamp(total, nb, cap20) == 0
    ensures r.Err? ==> r.error == DivisionByZero
  {
    var n := Clamp(total, nb, cap20);
    if n == 0 then Err(DivisionByZero)
    else
      var pages := CeilDiv(total, n);
      var p := if page > pages then 1 else page;
      Ok(Window(n, pages, p, if p <= 1 then 0 else n * (p - 1)))
  }

  /** An empty dataset with a non-negative size divides by zero. */
  lemma EmptyDatasetDividesByZero(nb: int, page: int, cap20: bool)
    requires nb >= 0
    ensures PageWindow(0, nb, page, cap20) == Err(DivisionByZero)
  {
  }

  /** The clamp: 0 or an oversized request becomes the total (at most 20 when capped); any other size is kept. */
  lemma ClampRule(total: nat, nb: int, cap20: bool)
    ensures (nb == 0 || nb > total) && !cap20 ==> Clamp(total, nb, cap20) == total
    ensures (nb == 0 || nb > total) && cap20 ==> Clamp(total, nb, cap20) == Min(total, 20)
    ensures !(nb == 0 || nb > total) ==> Clamp(total, nb, cap20) == nb
    ensures total > 0 && nb >= 0 ==> 1 <= Clamp(total, nb, cap20) <= total
  {
  }

  /**
   * On a non-empty dataset with a non-negative size the window is a real page:
   * the page number does not exceed the page count, the offset is page-aligned
   * and inside the data, so the slice is never empty.
   */
  lemma WindowInRange(total: nat, nb: int, page: int, cap20: bool)
    requires total > 0 && nb >= 0
    ensures PageWindow(total, nb, page, cap20).Ok?
    ensures var w := PageWindow(total, nb, page, cap20).value;
      w.nb == Clamp(total, nb, cap20) && w.nb > 0
      && w.page <= w.pageCount
      && (page > w.pageCount ==> w.page == 1)
      && (page <= w.pageCount ==> w.page == page)
      && (w.page <= 1 ==> w.offset == 0)
      && (w.page > 1 ==> w.offset == w.nb * (w.page - 1))
      && 0 <= w.offset < total
  {
    var n := Clamp(total, nb, cap20);
    assert 1 <= n <= total;
    var q := CeilDiv(total, n);
    CeilDivIsCeiling(total, n);
    assert n * (q - 1) < total;
    var p := if page > q then 1 else page;
    if p > 1 {
      MulMonotone(n, p - 1, q - 1);
    }
  }

  lemma MulMonotone(n: int, a: int, b: int)
    requires n > 0 && 0 <= a <= b
    ensures 0 <= n * a <= n * b
  {
    assert n * b == n * a + n * (b - a);
  }

  /** Walking the pages in order visits every entry exactly once, in order. */
  lemma PagesCoverData<T>(a: seq<T>, nb: int, cap20: bool)
    requires |a| > 0 && nb >= 0
    ensures var n := Clamp(|a|, nb, cap20); Pages(a, n, CeilDiv(|a|, n)) == a
  {
    var n := Clamp(|a|, nb, cap20);
    CeilDivIsCeiling(|a|, n);
    PagesArePrefix(a, n, CeilDiv(|a|, n));
  }

  /** With a negative size nothing is paged: page 1 is the run stopping |nb| entries before the end. */
  lemma NegativeSizeTrimsTail<T>(a: seq<T>, nb: int, page: int, cap20: bool)
    requires nb < 0
    ensures PageWindow(|a|, nb, page, cap20).Ok?
    ensures var w := PageWindow(|a|, nb, page, cap20).value;
      w.offset == 0 && ArraySlice(a, w.offset, w.nb) == a[..Max(0, |a| + nb)]
  {
  }
}
