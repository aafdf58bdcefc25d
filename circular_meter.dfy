/** The dial (src/components/CircularMeter.tsx): the value is clamped into [min, max]
    and mapped onto a 240-degree arc from -120 to +120 degrees; 13 scale marks are
    spread evenly over the arc, every third one labelled with its rounded value; the
    needle is coloured by the clamped value's band.

    Pixel geometry (radius, the cos/sin of the needle and mark end points) is outside
    the model: a mark keeps its angle, value and whether it is a main mark. */
module CircularMeter {
  import opened Numeric
  import opened Seqs
  import opened Types

  /** The arc spans -ArcHalf .. +ArcHalf degrees. */
  const ArcHalf: real := 120.0
  /** totalMarks. */
  const TotalMarks: nat := 13

  /** `Math.max(min, Math.min(max, value))`. */
  function Normalized(value: real, min: real, max: real): (v: real)
    ensures min <= max ==> min <= v <= max
    ensures min <= value <= max ==> v == value
  {
    Clamp(value, min, max)
  }

  /** `(normalizedValue - min) / (max - min)`. The source divides 0 by 0 when
      min == max, so the two must differ; with min > max the clamp gives min and the
      percentage is 0. */
  function Percentage(value: real, min: real, max: real): real
    requires min != max
  {
    (Normalized(value, min, max) - min) / (max - min)
  }

  /** `-120 + percentage * 240`. */
  function Angle(value: real, min: real, max: real): real
    requires min != max
  {
    -ArcHalf + Percentage(value, min, max) * (2.0 * ArcHalf)
  }

  /** The percentage lies in [0, 1] and the needle on the arc [-120, 120]; at or below
      min it points to -120 and at or above max to +120. A reversed range (max < min)
      leaves the needle at -120. */
  lemma AngleRange(value: real, min: real, max: real)
    requires min != max
    ensures 0.0 <= Percentage(value, min, max) <= 1.0
    ensures -ArcHalf <= Angle(value, min, max) <= ArcHalf
    ensures value <= min || max < min ==> Angle(value, min, max) == -ArcHalf
    ensures min < max <= value ==> Angle(value, min, max) == ArcHalf
  {
    if max < min {
      ReversedRange(value, min, max);
    } else {
      ProperRange(value, min, max);
    }
  }

  lemma ReversedRange(value: real, min: real, max: real)
    requires max < min
    ensures Percentage(value, min, max) == 0.0
  {
    assert Normalized(value, min, max) - min == 0.0;
  }

  lemma ProperRange(value: real, min: real, max: real)
    requires min < max
    ensures 0.0 <= Percentage(value, min, max) <= 1.0
    ensures value <= min ==> Percentage(value, min, max) == 0.0
    ensures value >= max ==> Percentage(value, min, max) == 1.0
  {
    var v := Normalized(value, min, max);
    DivBetween(v - min, max - min, 0.0, 1.0);
    if value <= min {
      assert v - min == 0.0;
    }
    if value >= max {
      assert v - min == max - min;
      DivSelf(max - min);
    }
  }

  lemma DivSelf(d: real)
    requires d > 0.0
    ensures d / d == 1.0
  {
  }

  /** A larger value never moves the needle back. */
  lemma AngleMonotone(a: real, b: real, min: real, max: real)
    requires min != max && a <= b
    ensures Angle(a, min, max) <= Angle(b, min, max)
  {
    if max < min {
      assert Normalized(a, min, max) == min == Normalized(b, min, max);
      return;
    }
    ClampMonotone(a, b, min, max);
    DivMonotone(Normalized(a, min, max) - min, Normalized(b, min, max) - min, max - min);
  }

  /** getNeedleColor: the dB bands applied to the clamped value. */
  function NeedleColour(value: real, min: real, max: real): (c: Colour)
    ensures min <= value <= max ==> c == DbColour(value)
    ensures min <= max <= value ==> c == DbColour(max)
    ensures value <= min ==> c == DbColour(min)
  {
    DbColour(Normalized(value, min, max))
  }

  // ----------------------------------------------------------------- marks

  /** `i / (totalMarks - 1)`: how far along the arc mark i sits. */
  function MarkFraction(i: int): real
  {
    i as real / (TotalMarks - 1) as real
  }

  /** markAngle. */
  function MarkAngle(i: int): real
  {
    -ArcHalf + MarkFraction(i) * (2.0 * ArcHalf)
  }

  /** markValue. */
  function MarkValue(i: int, min: real, max: real): real
  {
    min + MarkFraction(i) * (max - min)
  }

  /** Main marks: `i % 3 === 0`. */
  predicate IsMainMark(i: int)
  {
    i % 3 == 0
  }

  /** What generateMarks pushes: a tick line per mark and, for a main mark, a text
      label carrying `Math.round(markValue)`. */
  datatype Mark =
    | Tick(index: int, angle: real, value: real, main: bool)
    | Label(index: int, angle: real, text: int)

  /** The tick line of mark i. */
  function TickAt(i: int, min: real, max: real): Mark
  {
    Tick(i, MarkAngle(i), MarkValue(i, min, max), IsMainMark(i))
  }

  /** The label of mark i. */
  function LabelAt(i: int, min: real, max: real): Mark
  {
    Label(i, MarkAngle(i), RoundHalfUp(MarkValue(i, min, max)))
  }

  /** The elements pushed in iteration i. */
  function MarksAt(i: int, min: real, max: real): seq<Mark>
  {
    [TickAt(i, min, max)] + (if IsMainMark(i) then [LabelAt(i, min, max)] else [])
  }

  /** The elements pushed by iterations 0 .. n-1, in push order. */
  function MarksUpTo(n: nat, min: real, max: real): seq<Mark>
  {
    if n == 0 then [] else MarksUpTo(n - 1, min, max) + MarksAt(n - 1, min, max)
  }

  /** generateMarks: a counted loop over the 13 marks. */
  method GenerateMarks(min: real, max: real) returns (marks: seq<Mark>)
    ensures marks == MarksUpTo(TotalMarks, min, max)
  {
    marks := [];
    for i := 0 to TotalMarks
      invariant marks == MarksUpTo(i, min, max)
    {
      var markAngle := -ArcHalf + (i as real / (TotalMarks - 1) as real) * (2.0 * ArcHalf);
      var markValue := min + (i as real / (TotalMarks - 1) as real) * (max - min);
      var isMainMark := i % 3 == 0;
      assert Tick(i, markAngle, markValue, isMainMark) == TickAt(i, min, max);
      assert Label(i, markAngle, RoundHalfUp(markValue)) == LabelAt(i, min, max);
      ghost var before := marks;
      marks := marks + [Tick(i, markAngle, markValue, isMainMark)];
      if isMainMark {
        marks := marks + [Label(i, markAngle, RoundHalfUp(markValue))];
      }
      assert marks == before + MarksAt(i, min, max);
    }
  }

  /** The ticks (tick == true) or the labels (tick == false) among the marks, in order.
      This is Seqs.Filter for the predicate `m.Tick? == tick`, kept as a separate
      definition because it peels the sequence from the back, the end generateMarks
      pushes onto, so each loop step below is one unfolding; Filter peels from the
      front and takes a closure, which makes those step proofs costlier. */
  function OfKind(marks: seq<Mark>, tick: bool): (kept: seq<Mark>)
    ensures forall i :: 0 <= i < |kept| ==> kept[i].Tick? == tick
  {
    if marks == [] then []
    else OfKind(marks[..|marks| - 1], tick) + (if marks[|marks| - 1].Tick? == tick then [marks[|marks| - 1]] else [])
  }

  function TicksOf(marks: seq<Mark>): seq<Mark>
  {
    OfKind(marks, true)
  }

  function LabelsOf(marks: seq<Mark>): seq<Mark>
  {
    OfKind(marks, false)
  }

  lemma {:induction false} OfKindAppend(a: seq<Mark>, b: seq<Mark>, tick: bool)
    ensures OfKind(a + b, tick) == OfKind(a, tick) + OfKind(b, tick)
  {
    if b != [] {
      var init := b[..|b| - 1];
      assert (a + b)[..|a + b| - 1] == a + init;
      OfKindAppend(a, init, tick);
    } else {
      assert a + b == a;
    }
  }

  /** Appending marks that contribute `added` of a kind appends `added` to that kind. */
  lemma OfKindStep(before: seq<Mark>, here: seq<Mark>, tick: bool, added: seq<Mark>)
    requires OfKind(here, tick) == added
    ensures OfKind(before + here, tick) == OfKind(before, tick) + added
  {
    OfKindAppend(before, here, tick);
  }

  /** Iteration i draws one tick and, for a main mark, one label. */
  lemma MarksAtKinds(i: int, min: real, max: real)
    ensures TicksOf(MarksAt(i, min, max)) == [TickAt(i, min, max)]
    ensures LabelsOf(MarksAt(i, min, max)) == if IsMainMark(i) then [LabelAt(i, min, max)] else []
  {
    var here := MarksAt(i, min, max);
    var t := TickAt(i, min, max);
    assert [t][..0] == [];
    assert OfKind([t], true) == [t] && OfKind([t], false) == [];
    if IsMainMark(i) {
      var l := LabelAt(i, min, max);
      assert here == [t, l];
      assert here[..1] == [t];
      assert OfKind(here, true) == OfKind([t], true);
      assert OfKind(here, false) == OfKind([t], false) + [l];
    } else {
      assert here == [t];
    }
  }

  /** Iteration i adds exactly its own tick. */
  lemma TicksStep(n: nat, min: real, max: real)
    requires n > 0
    ensures TicksOf(MarksUpTo(n, min, max)) == TicksOf(MarksUpTo(n - 1, min, max)) + [TickAt(n - 1, min, max)]
  {
    var before, here := MarksUpTo(n - 1, min, max), MarksAt(n - 1, min, max);
    MarksAtKinds(n - 1, min, max);
    OfKindStep(before, here, true, [TickAt(n - 1, min, max)]);
    assert MarksUpTo(n, min, max) == before + here;
  }

  /** Iterations 0 .. n-1 draw one tick per index, in index order. */
  lemma {:induction false} TicksLayout(n: nat, min: real, max: real)
    ensures |TicksOf(MarksUpTo(n, min, max))| == n
    ensures forall i :: 0 <= i < n ==> TicksOf(MarksUpTo(n, min, max))[i] == TickAt(i, min, max)
  {
    if n > 0 {
      TicksLayout(n - 1, min, max);
      TicksStep(n, min, max);
    }
  }

  /** Iteration i adds a label exactly when i is a multiple of 3. */
  lemma LabelsStep(n: nat, min: real, max: real)
    requires n > 0
    ensures LabelsOf(MarksUpTo(n, min, max))
         == LabelsOf(MarksUpTo(n - 1, min, max))
            + (if IsMainMark(n - 1) then [LabelAt(n - 1, min, max)] else [])
  {
    var before, here := MarksUpTo(n - 1, min, max), MarksAt(n - 1, min, max);
    MarksAtKinds(n - 1, min, max);
    OfKindStep(before, here, false, if IsMainMark(n - 1) then [LabelAt(n - 1, min, max)] else []);
    assert MarksUpTo(n, min, max) == before + here;
  }

  /** Iterations 0 .. n-1 draw one label per multiple of 3 below n. */
  lemma {:induction false} LabelsCount(n: nat, min: real, max: real)
    ensures |LabelsOf(MarksUpTo(n, min, max))| == (n + 2) / 3
  {
    if n > 0 {
      LabelsCount(n - 1, min, max);
      LabelsStep(n, min, max);
    }
  }

  /** The labels come in order: the k-th is the label of mark 3k. */
  lemma {:induction false} LabelsLayout(n: nat, min: real, max: real)
    ensures |LabelsOf(MarksUpTo(n, min, max))| == (n + 2) / 3
    ensures forall k :: 0 <= k < (n + 2) / 3 ==> LabelsOf(MarksUpTo(n, min, max))[k] == LabelAt(3 * k, min, max)
  {
    LabelsCount(n, min, max);
    if n > 0 {
      var i := n - 1;
      LabelsLayout(i, min, max);
      LabelsStep(n, min, max);
      if IsMainMark(i) {
        assert 3 * ((i + 2) / 3) == i;
      }
    }
  }

  /** The dial has 13 ticks and 5 labels, at marks 0, 3, 6, 9 and 12; the first mark
      is at min and -120 degrees, the last at max and +120 degrees. */
  lemma DialMarks(min: real, max: real)
    ensures var marks := MarksUpTo(TotalMarks, min, max);
      && |TicksOf(marks)| == 13
      && |LabelsOf(marks)| == 5
      && (forall k :: 0 <= k < 5 ==> LabelsOf(marks)[k].index == 3 * k)
      && TicksOf(marks)[0].value == min && TicksOf(marks)[0].angle == -ArcHalf
      && TicksOf(marks)[12].value == max && TicksOf(marks)[12].angle == ArcHalf
  {
    TicksLayout(TotalMarks, min, max);
    LabelsLayout(TotalMarks, min, max);
  }

  /** With the component's default range 0..120 the labels read 0, 30, 60, 90, 120. */
  lemma DefaultLabels()
    ensures var labels := LabelsOf(MarksUpTo(TotalMarks, 0.0, 120.0));
      |labels| == 5 && forall k :: 0 <= k < 5 ==> labels[k].text == 30 * k
  {
    LabelsLayout(TotalMarks, 0.0, 120.0);
    var labels := LabelsOf(MarksUpTo(TotalMarks, 0.0, 120.0));
    forall k | 0 <= k < 5
      ensures labels[k].text == 30 * k
    {
      DefaultMarkValue(k);
    }
  }

  lemma DefaultMarkValue(k: int)
    ensures RoundHalfUp(MarkValue(3 * k, 0.0, 120.0)) == 30 * k
  {
    assert MarkFraction(3 * k) == (3 * k) as real / 12.0;
    assert MarkValue(3 * k, 0.0, 120.0) == (30 * k) as real;
  }

  /** Mark values climb strictly from min to max. */
  lemma MarkValueIncreasing(i: int, j: int, min: real, max: real)
    requires i < j && min < max
    ensures MarkValue(i, min, max) < MarkValue(j, min, max)
  {
    var d := MarkFraction(j) - MarkFraction(i);
    assert d > 0.0;
    assert MarkValue(j, min, max) - MarkValue(i, min, max) == d * (max - min);
    MulPositive(d, max - min);
  }

  lemma MulPositive(a: real, b: real)
    requires a > 0.0 && b > 0.0
    ensures a * b > 0.0
  {
  }

  /** Each mark is drawn where the needle points for the mark's value: scale and
      needle agree. */
  lemma MarkOnNeedleScale(i: int, min: real, max: real)
    requires 0 <= i < TotalMarks && min < max
    ensures Angle(MarkValue(i, min, max), min, max) == MarkAngle(i)
  {
    var f, d := MarkFraction(i), max - min;
    assert 0.0 <= f <= 1.0;
    assert MarkValue(i, min, max) == min + f * d;
    MulLeftMonotone(d, f, 1.0);
    MulLeftMonotone(d, 0.0, f);
    assert min <= MarkValue(i, min, max) <= max;
    CancelFactor(f, d);
  }

  lemma CancelFactor(f: real, d: real)
    requires d > 0.0
    ensures (f * d) / d == f
  {
  }
}
