/** Axis ranges (harvest/plot_xs.py): a running maximum from 0 and a running
    minimum from 99999 over the curves' `GetMaximum()`/`GetMinimum()`, then
    `[min/2, 2*max]` on the main pad and `[0.9*min, 1.1*max]` on the ratio
    pad, the latter only when there are ratio curves. */
module Ranges {
  import opened Results
  import opened Assembly

  /** `GetMinimum()` and `GetMaximum()` of one histogram, as ROOT reports them. */
  datatype Extent = Extent(min: real, max: real)

  /** A `SetRangeUser(lo, hi)` call. */
  datatype Bounds = Bounds(lo: real, hi: real)

  /** The main pad's range, and the ratio pad's when one is set. */
  datatype PadRanges = PadRanges(main: Bounds, ratio: Option<Bounds>)

  /** Starting values of the running maximum and minimum. */
  const MaxStart: real := 0.0
  const MinStart: real := 99999.0

  /** `v` is the largest of `MaxStart` and every extent's maximum. */
  ghost predicate MaxOf(v: real, exts: seq<Extent>) {
    && v >= MaxStart
    && (forall k | 0 <= k < |exts| :: v >= exts[k].max)
    && (v == MaxStart || exists k | 0 <= k < |exts| :: v == exts[k].max)
  }

  /** `v` is the smallest of `MinStart` and every extent's minimum. */
  ghost predicate MinOf(v: real, exts: seq<Extent>) {
    && v <= MinStart
    && (forall k | 0 <= k < |exts| :: v <= exts[k].min)
    && (v == MinStart || exists k | 0 <= k < |exts| :: v == exts[k].min)
  }

  /** Python's `max(a, b)`. */
  function Max(a: real, b: real): real {
    if b > a then b else a
  }

  /** Python's `min(a, b)`. */
  function Min(a: real, b: real): real {
    if b < a then b else a
  }

  /** The running maximum of the curves' maxima and running minimum of their
      minima, taken over the curves in order; `lo` is `h_min`, `hi` is `h_max`. */
  function Aggregate(exts: seq<Extent>): (b: Bounds)
    ensures MaxOf(b.hi, exts)
    ensures MinOf(b.lo, exts)
    decreases |exts|
  {
    if exts == [] then Bounds(MinStart, MaxStart)
    else
      var n := |exts| - 1;
      var b := Aggregate(exts[..n]);
      assert forall k | 0 <= k < n :: exts[..n][k] == exts[k];
      Bounds(Min(exts[n].min, b.lo), Max(exts[n].max, b.hi))
  }

  lemma MaxOfUnique(v: real, w: real, exts: seq<Extent>)
    requires MaxOf(v, exts) && MaxOf(w, exts)
    ensures v == w
  {
  }

  lemma MinOfUnique(v: real, w: real, exts: seq<Extent>)
    requires MinOf(v, exts) && MinOf(w, exts)
    ensures v == w
  {
  }

  lemma MaxMinOfPermutation(v: real, w: real, a: seq<Extent>, b: seq<Extent>)
    requires multiset(a) == multiset(b)
    requires MaxOf(v, a) && MinOf(w, a)
    ensures MaxOf(v, b) && MinOf(w, b)
  {
    forall k | 0 <= k < |b|
      ensures v >= b[k].max && w <= b[k].min
    {
      assert b[k] in multiset(b);
      assert b[k] in a;
    }
    if v != MaxStart {
      var k :| 0 <= k < |a| && v == a[k].max;
      assert a[k] in multiset(b);
      var j :| 0 <= j < |b| && b[j] == a[k];
    }
    if w != MinStart {
      var k :| 0 <= k < |a| && w == a[k].min;
      assert a[k] in multiset(b);
      var j :| 0 <= j < |b| && b[j] == a[k];
    }
  }

  /** Both running values are independent of the order of the curves. */
  lemma AggregateOrderFree(a: seq<Extent>, b: seq<Extent>)
    requires multiset(a) == multiset(b)
    ensures Aggregate(a) == Aggregate(b)
  {
    var x, y := Aggregate(a), Aggregate(b);
    MaxMinOfPermutation(x.hi, x.lo, a, b);
    MaxOfUnique(x.hi, y.hi, b);
    MinOfUnique(x.lo, y.lo, b);
  }

  /** The pads' ranges: the main range from the curves of `hs` (there is always
      one, as a run needs a numerator), the ratio range from those of
      `h_ratios` when there are any (`h_ratios[0]` raises otherwise). */
  function DisplayRanges(mainExts: seq<Extent>, ratioExts: seq<Extent>): (r: PadRanges)
    requires |mainExts| >= 1
    ensures MinOf(r.main.lo * 2.0, mainExts) && MaxOf(r.main.hi / 2.0, mainExts)
    ensures r.ratio.Some? <==> |ratioExts| > 0
    ensures r.ratio.Some? ==>
      MinOf(r.ratio.value.lo / 0.9, ratioExts) && MaxOf(r.ratio.value.hi / 1.1, ratioExts)
  {
    var m := Aggregate(mainExts);
    var main := Bounds(m.lo / 2.0, 2.0 * m.hi);
    if |ratioExts| == 0 then PadRanges(main, None)
    else
      var q := Aggregate(ratioExts);
      PadRanges(main, Some(Bounds(0.9 * q.lo, 1.1 * q.hi)))
  }

  /** With non-negative minima, every curve fits inside its pad's range. */
  lemma CurvesFitInRanges(mainExts: seq<Extent>, ratioExts: seq<Extent>)
    requires |mainExts| >= 1
    requires forall k | 0 <= k < |mainExts| :: mainExts[k].min >= 0.0
    requires forall k | 0 <= k < |ratioExts| :: ratioExts[k].min >= 0.0
    ensures var r := DisplayRanges(mainExts, ratioExts);
      forall k | 0 <= k < |mainExts| :: r.main.lo <= mainExts[k].min && mainExts[k].max <= r.main.hi
    ensures var r := DisplayRanges(mainExts, ratioExts);
      r.ratio.Some? ==>
        forall k | 0 <= k < |ratioExts| :: r.ratio.value.lo <= ratioExts[k].min && ratioExts[k].max <= r.ratio.value.hi
  {
    var m := Aggregate(mainExts);
    assert m.lo >= 0.0 by {
      if m.lo != MinStart {
        var k :| 0 <= k < |mainExts| && m.lo == mainExts[k].min;
      }
    }
    if |ratioExts| > 0 {
      var q := Aggregate(ratioExts);
      assert q.lo >= 0.0 by {
        if q.lo != MinStart {
          var k :| 0 <= k < |ratioExts| && q.lo == ratioExts[k].min;
        }
      }
    }
  }

  /** A ratio range is set exactly when the run had a denominator. */
  lemma RatioRangeIffDenominator(den: Option<Source>, nums: seq<Source>, leg: seq<string>, title: string,
                                 mainExts: seq<Extent>, ratioExts: seq<Extent>)
    requires Assemble(den, nums, leg, title).Ok?
    requires |mainExts| == |Assemble(den, nums, leg, title).value.hs| >= 1
    requires |ratioExts| == |Assemble(den, nums, leg, title).value.ratios|
    ensures DisplayRanges(mainExts, ratioExts).ratio.Some? <==> den.Some?
  {
  }

  /** Denominator extents (0.5, 1) and one numerator (1, 2): ratios 1 and 2. */
  lemma TwoCurveExample()
    ensures DisplayRanges([Extent(0.5, 1.0), Extent(1.0, 2.0)], [Extent(1.0, 1.0), Extent(2.0, 2.0)])
         == PadRanges(Bounds(0.25, 4.0), Some(Bounds(0.9, 2.2)))
  {
  }
}
