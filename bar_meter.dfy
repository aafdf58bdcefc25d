/** The bar meter (src/components/BarMeter.tsx): a column of 40 bars, drawn top to
    bottom, of which the bottom `activeBars` are lit; a lit bar is coloured by its
    position counted from the bottom. */
module BarMeter {
  import opened Numeric
  import opened Seqs
  import opened Types

  /** barCount. */
  const BarCount: nat := 40

  /** `Math.max(0, Math.min(max, value))`. */
  function NormalizedValue(value: real, max: real): (v: real)
    ensures 0.0 <= max ==> 0.0 <= v <= max
    ensures 0.0 <= value <= max ==> v == value
  {
    Clamp(value, 0.0, max)
  }

  /** `Math.round(barCount * (normalizedValue / max))`. The component's default
      maximum is 120. With a maximum of 0 the source computes 0 / 0 = NaN, and with a
      negative one 0 / max = -0; `reverseIndex < activeBars` is false for every bar
      in both cases, which is what 0 lit bars gives. */
  function ActiveBars(value: real, max: real): (n: int)
  {
    if max <= 0.0 then 0
    else RoundHalfUp(BarCount as real * (NormalizedValue(value, max) / max))
  }

  /** Between none and all of the bars are lit; a value at or above the maximum
      lights all 40 and a value at or below 0 lights none. */
  lemma ActiveBarsRange(value: real, max: real)
    ensures 0 <= ActiveBars(value, max) <= BarCount
    ensures 0.0 < max <= value ==> ActiveBars(value, max) == BarCount
    ensures value <= 0.0 || max <= 0.0 ==> ActiveBars(value, max) == 0
  {
    if max <= 0.0 {
      return;
    }
    var v := NormalizedValue(value, max);
    DivBetween(v, max, 0.0, 1.0);
    var p := v / max;
    assert 0.0 <= BarCount as real * p <= BarCount as real;
    if value >= max {
      assert v == max;
      assert p == 1.0;
    }
    if value <= 0.0 {
      assert v == 0.0;
      assert p == 0.0;
    }
  }

  /** A louder value never lights fewer bars. */
  lemma ActiveBarsMonotone(a: real, b: real, max: real)
    requires a <= b
    ensures ActiveBars(a, max) <= ActiveBars(b, max)
  {
    if max <= 0.0 {
      return;
    }
    ClampMonotone(a, b, 0.0, max);
    DivMonotone(NormalizedValue(a, max), NormalizedValue(b, max), max);
    RoundMonotone(BarCount as real * (NormalizedValue(a, max) / max),
                  BarCount as real * (NormalizedValue(b, max) / max));
  }

  /** getBarColor: by `(index + 1) / barCount`, below 0.5 accent, below 0.7 orange,
      else primary; in whole positions counted from the bottom that is 0-18 accent,
      19-26 orange and 27 upwards primary. */
  function BarColour(index: int): (c: Colour)
    ensures c == Accent <==> index <= 18
    ensures c == Orange <==> 19 <= index <= 26
    ensures c == Primary <==> 27 <= index
  {
    var barPercentage := (index + 1) as real / BarCount as real;
    if barPercentage < 0.5 then Accent
    else if barPercentage < 0.7 then Orange
    else Primary
  }

  /** How one bar is drawn: lit in a colour, or dimmed in the border colour. */
  datatype BarLook = Lit(colour: Colour) | Dim

  /** The bar at render index i (0 = top) is lit when its position from the bottom,
      `barCount - 1 - index`, is below activeBars. */
  predicate IsActive(index: int, activeBars: int)
  {
    BarCount - 1 - index < activeBars
  }

  /** The rendered column, top to bottom. */
  function Render(activeBars: int): (bars: seq<BarLook>)
    ensures |bars| == BarCount
  {
    seq(BarCount, index requires 0 <= index < BarCount =>
      if IsActive(index, activeBars) then Lit(BarColour(BarCount - 1 - index)) else Dim)
  }

  function LitCount(bars: seq<BarLook>): nat
  {
    if bars == [] then 0 else (if bars[|bars| - 1].Lit? then 1 else 0) + LitCount(bars[..|bars| - 1])
  }

  /** A column whose bars from position k downwards are lit and the rest dimmed has
      |bars| - k lit bars. */
  lemma {:induction false} LitCountSuffix(bars: seq<BarLook>, k: nat)
    requires k <= |bars|
    requires forall i :: 0 <= i < |bars| ==> (bars[i].Lit? <==> i >= k)
    ensures LitCount(bars) == |bars| - k
  {
    if |bars| > k {
      var init := bars[..|bars| - 1];
      assert forall i :: 0 <= i < |init| ==> init[i] == bars[i];
      LitCountSuffix(init, k);
    } else if bars != [] {
      LitCountNone(bars);
    }
  }

  lemma {:induction false} LitCountNone(bars: seq<BarLook>)
    requires forall i :: 0 <= i < |bars| ==> bars[i].Dim?
    ensures LitCount(bars) == 0
  {
    if bars != [] {
      var init := bars[..|bars| - 1];
      assert forall i :: 0 <= i < |init| ==> init[i] == bars[i];
      LitCountNone(init);
    }
  }

  /** For 0 <= activeBars <= 40 exactly the bottom activeBars bars are lit, so exactly
      activeBars bars are lit, and each lit bar has the colour of its position from
      the bottom. */
  lemma RenderLightsBottom(activeBars: int)
    requires 0 <= activeBars <= BarCount
    ensures forall i :: 0 <= i < BarCount ==> (Render(activeBars)[i].Lit? <==> i >= BarCount - activeBars)
    ensures forall i :: 0 <= i < BarCount && Render(activeBars)[i].Lit? ==>
      Render(activeBars)[i].colour == BarColour(BarCount - 1 - i)
    ensures LitCount(Render(activeBars)) == activeBars
  {
    LitCountSuffix(Render(activeBars), BarCount - activeBars);
  }

  /** The whole meter for a value: exactly ActiveBars(value, max) bars are lit. */
  lemma MeterLitCount(value: real, max: real)
    ensures LitCount(Render(ActiveBars(value, max))) == ActiveBars(value, max)
  {
    ActiveBarsRange(value, max);
    RenderLightsBottom(ActiveBars(value, max));
  }
}
