/** The axis of each histogram (harvest/plot_xs.py): `len(m)` bins from
    `m[0]-dm/2` to `m[-1]+dm/2`, where `dm = m[1]-m[0]`. The bin width is
    taken from the first two masses only. */
module Binning {
  import opened Results

  /** The `TH1D(name, title, nbins, low, high)` axis arguments. */
  datatype Axis = Axis(nbins: nat, low: real, high: real)

  /** Spacing of the first two masses, the `dm` of the source. */
  function Spacing(m: seq<real>): real
    requires |m| >= 2
  {
    m[1] - m[0]
  }

  /** The axis built for a table with masses `m`; `None` is the `IndexError`
      of `m[1]` on a table with fewer than two rows. */
  function AxisFor(m: seq<real>): (r: Option<Axis>)
    ensures r.Some? <==> |m| >= 2
    ensures r.Some? ==> r.value.nbins == |m|
    // the first and last masses sit half a spacing inside the axis ends
    ensures r.Some? ==> r.value.low + Spacing(m) / 2.0 == m[0]
    ensures r.Some? ==> r.value.high - Spacing(m) / 2.0 == m[|m| - 1]
  {
    if |m| < 2 then None
    else
      var dm := m[1] - m[0];
      Some(Axis(|m|, m[0] - dm / 2.0, m[|m| - 1] + dm / 2.0))
  }

  /** Width of each of the axis' equal bins. */
  function Width(a: Axis): real
    requires a.nbins > 0
  {
    (a.high - a.low) / a.nbins as real
  }

  /** Lower edge of bin `k` (0-based; ROOT numbers it `k+1`). */
  function LowEdge(a: Axis, k: nat): real
    requires a.nbins > 0
  {
    a.low + k as real * Width(a)
  }

  /** Centre of bin `k` (0-based). */
  function Centre(a: Axis, k: nat): real
    requires a.nbins > 0
  {
    a.low + (k as real + 0.5) * Width(a)
  }

  /** Every mass is `m[0]` plus a whole number of spacings `dm`. */
  predicate EvenlySpaced(m: seq<real>)
    requires |m| >= 2
  {
    forall k | 0 <= k < |m| :: m[k] == m[0] + k as real * Spacing(m)
  }

  /** Every mass is the centre of its own bin. */
  predicate Centred(m: seq<real>)
    requires |m| >= 2
  {
    var a := AxisFor(m).value;
    forall k | 0 <= k < |m| :: Centre(a, k) == m[k]
  }

  lemma WidthOfEvenlySpaced(m: seq<real>)
    requires |m| >= 2 && EvenlySpaced(m)
    ensures Width(AxisFor(m).value) == Spacing(m)
  {
    var a := AxisFor(m).value;
    var n := |m| as real;
    var dm := Spacing(m);
    assert m[|m| - 1] == m[0] + (n - 1.0) * dm;
    assert a.high - a.low == n * dm;
  }

  /** For evenly spaced masses each bin is `dm` wide and mass `k` is the centre
      of bin `k`; with increasing masses it lies strictly inside that bin. */
  lemma EvenlySpacedBins(m: seq<real>)
    requires |m| >= 2 && EvenlySpaced(m)
    ensures Width(AxisFor(m).value) == Spacing(m)
    ensures Centred(m)
    ensures Spacing(m) > 0.0 ==>
      forall k | 0 <= k < |m| ::
        LowEdge(AxisFor(m).value, k) < m[k] < LowEdge(AxisFor(m).value, k + 1)
  {
    var a := AxisFor(m).value;
    var dm := Spacing(m);
    WidthOfEvenlySpaced(m);
    forall k | 0 <= k < |m|
      ensures Centre(a, k) == m[k]
      ensures dm > 0.0 ==> LowEdge(a, k) < m[k] < LowEdge(a, k + 1)
    {
      assert Centre(a, k) == m[0] - dm / 2.0 + (k as real + 0.5) * dm;
      assert LowEdge(a, k) == m[0] - dm / 2.0 + k as real * dm;
      assert LowEdge(a, k + 1) == m[0] - dm / 2.0 + (k as real + 1.0) * dm;
    }
  }

  /** Conversely, if every mass is its bin's centre the masses are evenly
      spaced: a table with uneven spacing is drawn with some mass off-centre. */
  lemma {:induction false} CentredOnlyIfEvenlySpaced(m: seq<real>)
    requires |m| >= 2 && Centred(m)
    ensures EvenlySpaced(m)
  {
    var a := AxisFor(m).value;
    var dm := Spacing(m);
    var w := Width(a);
    assert Centre(a, 0) == m[0];
    assert w == dm;
    forall k | 0 <= k < |m|
      ensures m[k] == m[0] + k as real * dm
    {
      assert Centre(a, k) == m[k];
      assert m[k] == m[0] - dm / 2.0 + (k as real + 0.5) * dm;
    }
  }

  /** Masses are bin centres exactly when they are evenly spaced. */
  lemma CentredIffEvenlySpaced(m: seq<real>)
    requires |m| >= 2
    ensures Centred(m) <==> EvenlySpaced(m)
  {
    if Centred(m) {
      CentredOnlyIfEvenlySpaced(m);
    }
    if EvenlySpaced(m) {
      EvenlySpacedBins(m);
    }
  }
}
