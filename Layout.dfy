/**
  Geometry and the arithmetic of the caption panel's vertical stack: the
  visible labels are placed one below the other, with a padding above the
  first and below the last, a fixed gap between neighbours and a fixed left
  inset.  Points are exact reals.
 */
module Layout {

  datatype Size = Size(width: real, height: real)

  datatype Rect = Rect(x: real, y: real, width: real, height: real)

  const ZERO_RECT := Rect(0.0, 0.0, 0.0, 0.0)

  /** A size reported by measuring a label: never negative. */
  type MeasuredSize = s: Size | 0.0 <= s.width && 0.0 <= s.height witness Size(0.0, 0.0)

  const VERTICAL_PADDING: real := 10.0
  const HORIZONTAL_PADDING: real := 15.0
  const INTER_LABEL_SPACING: real := 4.0

  /** The size every label is measured against: the panel's constraint less
      the inset on both sides. */
  function LabelConstraint(constrained: Size): Size
  {
    Size(constrained.width - 2.0 * HORIZONTAL_PADDING, constrained.height)
  }

  /** Sum of the heights of `sizes`. */
  function SumHeights(sizes: seq<Size>): real
  {
    if sizes == [] then 0.0 else SumHeights(sizes[..|sizes| - 1]) + sizes[|sizes| - 1].height
  }

  /** The y origin of the k-th stacked label. */
  function Top(sizes: seq<Size>, k: nat): real
    requires k < |sizes|
  {
    if k == 0 then VERTICAL_PADDING
    else Top(sizes, k - 1) + sizes[k - 1].height + INTER_LABEL_SPACING
  }

  /** The frame given to the k-th stacked label: at the left inset, below
      the top padding, the k labels above it and the k gaps between them,
      with the label's measured size. */
  function FrameAt(sizes: seq<Size>, k: nat): (r: Rect)
    requires k < |sizes|
    ensures r.x == HORIZONTAL_PADDING
    ensures r.y == VERTICAL_PADDING + SumHeights(sizes[..k]) + INTER_LABEL_SPACING * (k as real)
    ensures r.width == sizes[k].width && r.height == sizes[k].height
  {
    TopClosedForm(sizes, k);
    Rect(HORIZONTAL_PADDING, Top(sizes, k), sizes[k].width, sizes[k].height)
  }

  /** The height of the whole stack: nothing when no label is visible,
      otherwise down to the bottom of the last label plus the padding. */
  function StackHeight(sizes: seq<Size>): real
  {
    if sizes == [] then 0.0
    else Top(sizes, |sizes| - 1) + sizes[|sizes| - 1].height + VERTICAL_PADDING
  }

  /** How far down the stack reaches once its first `i` labels are placed:
      the bottom of label i - 1, plus the closing padding after the last. */
  function OffsetAfter(sizes: seq<Size>, i: nat): real
    requires i <= |sizes|
  {
    if i == 0 then 0.0
    else if i < |sizes| then Top(sizes, i - 1) + sizes[i - 1].height
    else StackHeight(sizes)
  }

  /** Label k starts after the top padding, the k labels above it and the k
      gaps between them. */
  lemma {:induction false} TopClosedForm(sizes: seq<Size>, k: nat)
    requires k < |sizes|
    ensures Top(sizes, k) == VERTICAL_PADDING + SumHeights(sizes[..k]) + INTER_LABEL_SPACING * (k as real)
  {
    if k > 0 {
      TopClosedForm(sizes, k - 1);
      assert sizes[..k][..k - 1] == sizes[..k - 1];
    }
  }

  /** For n >= 1 labels the stack is 10 + (sum of heights) + 4 * (n - 1) + 10
      high; for none it is 0. */
  lemma StackHeightClosedForm(sizes: seq<Size>)
    ensures sizes == [] ==> StackHeight(sizes) == 0.0
    ensures sizes != [] ==>
              StackHeight(sizes) ==
              VERTICAL_PADDING + SumHeights(sizes) + INTER_LABEL_SPACING * ((|sizes| - 1) as real) + VERTICAL_PADDING
  {
    if sizes != [] {
      var n := |sizes|;
      TopClosedForm(sizes, n - 1);
      assert sizes[..n] == sizes;
    }
  }

  /** Each label lies strictly below the previous one, at least one gap
      further down than its bottom edge. */
  lemma {:induction false} StackedWithoutOverlap(sizes: seq<MeasuredSize>, j: nat, k: nat)
    requires j < k < |sizes|
    ensures Top(sizes, j) + sizes[j].height + INTER_LABEL_SPACING <= Top(sizes, k)
    ensures Top(sizes, j) < Top(sizes, k)
  {
    if j < k - 1 {
      StackedWithoutOverlap(sizes, j, k - 1);
    }
  }

  /** Every label lies inside the stack, keeping the vertical padding to its
      top and bottom edges. */
  lemma {:induction false} StackedInsidePadding(sizes: seq<MeasuredSize>, k: nat)
    requires k < |sizes|
    ensures VERTICAL_PADDING <= Top(sizes, k)
    ensures Top(sizes, k) + sizes[k].height + VERTICAL_PADDING <= StackHeight(sizes)
  {
    var last := |sizes| - 1;
    if k > 0 {
      StackedWithoutOverlap(sizes, 0, k);
    }
    if k < last {
      StackedWithoutOverlap(sizes, k, last);
    }
  }

  /** The stack has height 0 exactly when no label is visible; otherwise it
      is at least the two paddings high. */
  lemma StackHeightEmptyIff(sizes: seq<MeasuredSize>)
    ensures StackHeight(sizes) == 0.0 <==> sizes == []
    ensures sizes != [] ==> 2.0 * VERTICAL_PADDING <= StackHeight(sizes)
  {
    if sizes != [] {
      StackedInsidePadding(sizes, |sizes| - 1);
    }
  }
}
