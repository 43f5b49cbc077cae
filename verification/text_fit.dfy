/** Shrink-to-fit: the font size loop both renderers run before drawing the
    date and the attendee name. The canvas's `measureText` is not modelled;
    it is an uninterpreted function from text, font weight and pixel size to
    a width. */
module TextFit {

  /** `measureText(text).width` with the font set to `weight` and `size` px. */
  type Measure = (string, int, int) -> real

  /** One fitting: font weight, starting size, floor size and maximum width. */
  datatype FitSpec = FitSpec(weight: int, start: int, floor: int, maxWidth: real)

  /** The loop always shrinks by two pixels. */
  const Step := 2

  /** The date: weight 500, from 32px down to 12px, at most 700px wide. */
  const DateFit := FitSpec(500, 32, 12, 700.0)

  /** The attendee name: weight 600, from 42px down to 16px, at most 570px wide. */
  const NameFit := FitSpec(600, 42, 16, 570.0)

  /** The loop guard `textWidth > maxWidth && fontSize > floor`. */
  predicate KeepsShrinking(m: Measure, text: string, spec: FitSpec, size: int) {
    m(text, spec.weight, size) > spec.maxWidth && size > spec.floor
  }

  /** The size the loop settles on when it is at `size`. */
  function FitFrom(m: Measure, text: string, spec: FitSpec, size: int): (r: int)
    ensures r <= size && (size - r) % Step == 0
    ensures !KeepsShrinking(m, text, spec, r)
    ensures r == size || r > spec.floor - Step
    ensures forall s | r < s <= size && (size - s) % Step == 0 :: KeepsShrinking(m, text, spec, s)
    decreases size - spec.floor
  {
    if KeepsShrinking(m, text, spec, size) then FitFrom(m, text, spec, size - Step) else size
  }

  /** The font size the shrink loop chooses for `text`. */
  function FitFontSize(m: Measure, text: string, spec: FitSpec): int {
    FitFrom(m, text, spec, spec.start)
  }

  /** The greedy policy, stated without the loop: `size` is on the grid
      start, start-2, ...; every grid size above it would have shrunk again,
      and at `size` the loop stops. */
  ghost predicate IsGreedyFit(m: Measure, text: string, spec: FitSpec, size: int) {
    && size <= spec.start
    && (spec.start - size) % Step == 0
    && !KeepsShrinking(m, text, spec, size)
    && forall s | size < s <= spec.start && (spec.start - s) % Step == 0 :: KeepsShrinking(m, text, spec, s)
  }

  /** The chosen size is exactly the one the greedy policy describes. */
  lemma FitFontSizeIsGreedyFit(m: Measure, text: string, spec: FitSpec, size: int)
    ensures IsGreedyFit(m, text, spec, size) <==> size == FitFontSize(m, text, spec)
  {
  }

  /** The `while` loop of the renderers, step for step. */
  method ShrinkToFit(m: Measure, text: string, spec: FitSpec) returns (size: int, iterations: nat)
    ensures size == FitFontSize(m, text, spec)
    ensures size == spec.start - Step * iterations
    ensures spec.start <= spec.floor ==> iterations == 0
    ensures spec.start > spec.floor ==> Step * iterations < spec.start - spec.floor + Step
  {
    size := spec.start;
    iterations := 0;
    var width := m(text, spec.weight, size);
    while width > spec.maxWidth && size > spec.floor
      invariant size == spec.start - Step * iterations
      invariant width == m(text, spec.weight, size)
      invariant FitFrom(m, text, spec, size) == FitFontSize(m, text, spec)
      invariant iterations > 0 ==> size > spec.floor - Step
      decreases size - spec.floor
    {
      size := size - Step;
      iterations := iterations + 1;
      width := m(text, spec.weight, size);
    }
  }

  /** The date size is one of 32, 30, ..., 12, reached in at most ten
      shrinks; every larger size tried overflowed 700px, and the chosen size
      fits unless it is the floor. */
  lemma DateFitBounds(m: Measure, text: string)
    ensures var size := FitFontSize(m, text, DateFit);
      && 12 <= size <= 32 && size % 2 == 0
      && (32 - size) / 2 <= 10
      && (forall s | size < s <= 32 && s % 2 == 0 :: m(text, 500, s) > 700.0)
      && (size > 12 ==> m(text, 500, size) <= 700.0)
  {
    var size := FitFontSize(m, text, DateFit);
    forall s | size < s <= 32 && s % 2 == 0
      ensures m(text, 500, s) > 700.0
    {
      assert KeepsShrinking(m, text, DateFit, s);
    }
  }

  /** The name size is one of 42, 40, ..., 16, reached in at most thirteen
      shrinks; every larger size tried overflowed 570px, and the chosen size
      fits unless it is the floor. */
  lemma NameFitBounds(m: Measure, text: string)
    ensures var size := FitFontSize(m, text, NameFit);
      && 16 <= size <= 42 && size % 2 == 0
      && (42 - size) / 2 <= 13
      && (forall s | size < s <= 42 && s % 2 == 0 :: m(text, 600, s) > 570.0)
      && (size > 16 ==> m(text, 600, size) <= 570.0)
  {
    var size := FitFontSize(m, text, NameFit);
    forall s | size < s <= 42 && s % 2 == 0
      ensures m(text, 600, s) > 570.0
    {
      assert KeepsShrinking(m, text, NameFit, s);
    }
  }

  /** A text that fits at the starting size is never shrunk. */
  lemma FitsAtStart(m: Measure, text: string, spec: FitSpec)
    requires m(text, spec.weight, spec.start) <= spec.maxWidth
    ensures FitFontSize(m, text, spec) == spec.start
  {
  }

  /** A text that overflows at every size ends at the floor. */
  lemma OverflowsEverywhere(m: Measure, text: string, spec: FitSpec)
    requires spec.floor <= spec.start && (spec.start - spec.floor) % Step == 0
    requires forall s :: m(text, spec.weight, s) > spec.maxWidth
    ensures FitFontSize(m, text, spec) == spec.floor
  {
  }
}
