/** Line colours of the curves (harvest/plot_xs.py): curve `idx` of `hs`, and
    entry `idx` of `h_ratios`, get ROOT colour `idx+2` below 3 and `idx+3`
    from there on, which skips white (0), black (1) and yellow (5). */
module Styling {
  import opened Results
  import opened Assembly

  /** ROOT colour indices never handed out. */
  predicate Reserved(c: nat) {
    c == 0 || c == 1 || c == 5
  }

  /** The position whose colour is `c`; inverse of `LineColour`. */
  function Slot(c: nat): nat
    requires !Reserved(c)
  {
    if c < 5 then c - 2 else c - 3
  }

  /** The colour of position `idx`: the first three positions take colours
      2 to 4, later ones are moved up by one more to step over yellow. */
  function LineColour(idx: nat): (c: nat)
    ensures !Reserved(c)
    ensures Slot(c) == idx
  {
    if idx < 3 then idx + 2 else idx + 3
  }

  /** Later curves get higher colour indices, so no two curves share one. */
  lemma ColourIncreasing(i: nat, j: nat)
    requires i < j
    ensures LineColour(i) < LineColour(j)
  {
  }

  /** Every colour that is not reserved is handed to exactly one position. */
  lemma ColourOnto(c: nat)
    requires !Reserved(c)
    ensures LineColour(Slot(c)) == c
  {
  }

  /** The colours set on `hs`, in order. */
  function CurveColours(p: Plot): (cs: seq<nat>)
    ensures |cs| == |p.hs|
    ensures forall i | 0 <= i < |cs| :: !Reserved(cs[i])
    ensures forall i, j | 0 <= i < j < |cs| :: cs[i] < cs[j]
  {
    seq(|p.hs|, i requires 0 <= i < |p.hs| => LineColour(i))
  }

  /** The colours set on `h_ratios`, in order. */
  function RatioColours(p: Plot): (cs: seq<nat>)
    ensures |cs| == |p.ratios|
    ensures forall i | 0 <= i < |cs| :: !Reserved(cs[i])
    ensures forall i, j | 0 <= i < j < |cs| :: cs[i] < cs[j]
  {
    seq(|p.ratios|, i requires 0 <= i < |p.ratios| => LineColour(i))
  }

  /** In an assembled plot, every ratio curve is drawn in the colour of the
      curve it was divided from, and the main curves all differ in colour. */
  lemma RatioInCurveColour(den: Option<Source>, nums: seq<Source>, leg: seq<string>, title: string)
    requires Assemble(den, nums, leg, title).Ok?
    ensures var p := Assemble(den, nums, leg, title).value;
      forall i | 0 <= i < |p.ratios| ::
        i < |p.hs| && p.ratios[i].numerator == p.hs[i] && RatioColours(p)[i] == CurveColours(p)[i]
    ensures var p := Assemble(den, nums, leg, title).value;
      forall i, j | 0 <= i < j < |p.hs| :: CurveColours(p)[i] != CurveColours(p)[j]
  {
    var p := Assemble(den, nums, leg, title).value;
    forall i, j | 0 <= i < j < |p.hs|
      ensures CurveColours(p)[i] != CurveColours(p)[j]
    {
      ColourIncreasing(i, j);
    }
  }
}
