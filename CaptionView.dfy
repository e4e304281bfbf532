/**
  The caption panel shown over a photo: three labels (title, description,
  credit), the list of labels currently visible, and the routine that stacks
  the visible labels and reports the size the panel needs.

  The three labels belong to the view one to one, so each is named by a
  `LabelId` and its state (the attributed text it shows and its frame) is
  kept by the view as one value per label.  Measuring a label's text is done by the
  platform; the methods that lay out take it as a function parameter.
 */
module Caption {
  import opened AttributedText
  import opened Layout

  datatype LabelId = Title | Description | Credit

  /** Position of a label in the panel's fixed top-to-bottom order. */
  function Rank(id: LabelId): nat
  {
    match id
    case Title => 0
    case Description => 1
    case Credit => 2
  }

  /** `labels` is a subsequence of title, description, credit: no label twice
      and none out of order. */
  predicate InDisplayOrder(labels: seq<LabelId>)
  {
    forall i, j :: 0 <= i < j < |labels| ==> Rank(labels[i]) < Rank(labels[j])
  }

  /** A label is hidden when it has no text or its text has no characters. */
  predicate IsHidden(text: Option<AttributedString>)
  {
    text.None? || Characters(text.value) == []
  }

  /** Measures a label's attributed text against a constraining size. */
  type Measure = (Option<AttributedString>, Size) -> MeasuredSize

  /** The labels that show text, in display order. */
  function SelectVisible(title: Option<AttributedString>, description: Option<AttributedString>,
                         credit: Option<AttributedString>): (r: seq<LabelId>)
    ensures InDisplayOrder(r)
    ensures Title in r <==> !IsHidden(title)
    ensures Description in r <==> !IsHidden(description)
    ensures Credit in r <==> !IsHidden(credit)
  {
    (if IsHidden(title) then [] else [Title])
    + (if IsHidden(description) then [] else [Description])
    + (if IsHidden(credit) then [] else [Credit])
  }

  /** The first label of a list in display order has the least rank of all
      its labels; every other label of the list is in its tail. */
  lemma HeadIsLeast(labels: seq<LabelId>, l: LabelId)
    requires InDisplayOrder(labels) && l in labels
    ensures Rank(labels[0]) <= Rank(l)
    ensures l in labels[1..] <==> l != labels[0]
  {
  }

  /** Display order and membership together fix the list: two lists in
      display order with the same labels are equal. */
  lemma {:induction false} DisplayOrderUnique(a: seq<LabelId>, b: seq<LabelId>)
    requires InDisplayOrder(a) && InDisplayOrder(b)
    requires forall l :: l in a <==> l in b
    ensures a == b
  {
    if a != [] || b != [] {
      var first := if a != [] then a[0] else b[0];
      assert first in a && first in b;
      HeadIsLeast(a, b[0]);
      HeadIsLeast(b, a[0]);
      assert a[0] == b[0];
      forall l | l in a[1..] || l in b[1..]
        ensures l in a[1..] <==> l in b[1..]
      {
        HeadIsLeast(a, l);
        HeadIsLeast(b, l);
      }
      DisplayOrderUnique(a[1..], b[1..]);
      assert a == [a[0]] + a[1..] && b == [b[0]] + b[1..];
    }
  }

  /** One value for each of the three labels. */
  datatype PerLabel<T> = PerLabel(title: T, description: T, credit: T)
  {
    function Get(id: LabelId): T
    {
      match id
      case Title => title
      case Description => description
      case Credit => credit
    }

    /** The same values with the one for `id` replaced. */
    function With(id: LabelId, v: T): (r: PerLabel<T>)
      ensures r.Get(id) == v
      ensures forall l :: l != id ==> r.Get(l) == Get(l)
    {
      match id
      case Title => this.(title := v)
      case Description => this.(description := v)
      case Credit => this.(credit := v)
    }
  }

  /** The sizes of `labels` showing `texts`, each measured against
      `constraint`. */
  function MeasureLabels(labels: seq<LabelId>, texts: PerLabel<Option<AttributedString>>, constraint: Size,
                         measure: Measure): (r: seq<MeasuredSize>)
    ensures |r| == |labels|
    ensures forall k :: 0 <= k < |labels| ==> r[k] == measure(texts.Get(labels[k]), constraint)
  {
    if labels == [] then []
    else [measure(texts.Get(labels[0]), constraint)] + MeasureLabels(labels[1..], texts, constraint, measure)
  }

  /** The position of the first `id` in `labels` at or after `from`, or -1
      when there is none. */
  function Position(labels: seq<LabelId>, id: LabelId, from: nat := 0): (k: int)
    requires from <= |labels|
    ensures -1 <= k < |labels|
    ensures 0 <= k ==> from <= k && labels[k] == id
    decreases |labels| - from
  {
    if from == |labels| then -1
    else if labels[from] == id then from
    else Position(labels, id, from + 1)
  }

  /** In a list in display order every label stands at exactly one place. */
  lemma {:induction false} PositionInDisplayOrder(labels: seq<LabelId>, k: nat, from: nat := 0)
    requires InDisplayOrder(labels) && from <= k < |labels|
    ensures Position(labels, labels[k], from) == k
    decreases k - from
  {
    if from < k {
      assert Rank(labels[from]) < Rank(labels[k]);
      PositionInDisplayOrder(labels, k, from + 1);
    }
  }

  /** The frame label `id` ends up with once `labels` are stacked with the
      measured `sizes`: its stacked frame if it is among them, `before`
      otherwise. */
  function LaidOut(before: Rect, id: LabelId, labels: seq<LabelId>, sizes: seq<Size>): Rect
    requires |labels| <= |sizes|
  {
    var k := Position(labels, id);
    if k < 0 then before else FrameAt(sizes, k)
  }

  /** Once every label of a list in display order is laid out, the label at
      position k has the k-th stacked frame, and a label not in the list
      keeps its frame. */
  lemma LaidOutFrame(before: Rect, id: LabelId, labels: seq<LabelId>, sizes: seq<Size>)
    requires InDisplayOrder(labels) && |labels| <= |sizes|
    ensures id !in labels ==> LaidOut(before, id, labels, sizes) == before
    ensures forall k :: 0 <= k < |labels| && labels[k] == id ==> LaidOut(before, id, labels, sizes) == FrameAt(sizes, k)
  {
    forall k | 0 <= k < |labels| && labels[k] == id
      ensures LaidOut(before, id, labels, sizes) == FrameAt(sizes, k)
    {
      PositionInDisplayOrder(labels, k);
    }
  }

  /** Laid-out labels are stacked top to bottom without overlapping: each one
      starts at least one inter-label gap below the bottom of any label above
      it, and all share the left inset. */
  lemma LaidOutWithoutOverlap(above: Rect, below: Rect, labels: seq<LabelId>, sizes: seq<MeasuredSize>, j: nat, k: nat)
    requires InDisplayOrder(labels) && |labels| <= |sizes|
    requires j < k < |labels|
    ensures LaidOut(above, labels[j], labels, sizes).x == HORIZONTAL_PADDING
    ensures LaidOut(below, labels[k], labels, sizes).x == HORIZONTAL_PADDING
    ensures LaidOut(above, labels[j], labels, sizes).y + LaidOut(above, labels[j], labels, sizes).height
            + INTER_LABEL_SPACING <= LaidOut(below, labels[k], labels, sizes).y
  {
    LaidOutFrame(above, labels[j], labels, sizes);
    LaidOutFrame(below, labels[k], labels, sizes);
    StackedWithoutOverlap(sizes, j, k);
  }

  /** The label frames once the first `count` of `labels` have been given
      their stacked frames, one after the other, starting from `before`. */
  function Placed(before: PerLabel<Rect>, labels: seq<LabelId>, sizes: seq<Size>, count: nat): PerLabel<Rect>
    requires count <= |labels| <= |sizes|
  {
    if count == 0 then before
    else Placed(before, labels, sizes, count - 1).With(labels[count - 1], FrameAt(sizes, count - 1))
  }

  /** After the first `count` labels of a list in display order are placed, a
      label has its stacked frame if it is among them and its old frame
      otherwise. */
  lemma {:induction false} PlacedPrefix(before: PerLabel<Rect>, labels: seq<LabelId>, sizes: seq<Size>, count: nat,
                                        id: LabelId)
    requires InDisplayOrder(labels) && count <= |labels| <= |sizes|
    ensures var k := Position(labels, id);
            Placed(before, labels, sizes, count).Get(id) == if 0 <= k < count then FrameAt(sizes, k) else before.Get(id)
  {
    if count > 0 {
      PlacedPrefix(before, labels, sizes, count - 1, id);
      if labels[count - 1] == id {
        PositionInDisplayOrder(labels, count - 1);
      }
    }
  }

  /** Placing every label of a list in display order lays each one out. */
  lemma PlacedAll(before: PerLabel<Rect>, labels: seq<LabelId>, sizes: seq<Size>)
    requires InDisplayOrder(labels) && |labels| <= |sizes|
    ensures forall id :: Placed(before, labels, sizes, |labels|).Get(id) == LaidOut(before.Get(id), id, labels, sizes)
  {
    forall id {
      PlacedPrefix(before, labels, sizes, |labels|, id);
    }
  }

  class CaptionView {
    /** The labels shown, top to bottom. */
    var visibleLabels: seq<LabelId>
    /** The attributed text of each label. */
    var texts: PerLabel<Option<AttributedString>>
    /** The frame of each label, in the panel's coordinates. */
    var frames: PerLabel<Rect>
    /** The panel's own frame, set by whoever hosts it. */
    var frame: Rect

    ghost predicate Valid()
      reads this
    {
      InDisplayOrder(visibleLabels)
    }

    /** A new panel lists all three labels as visible, none with text yet. */
    constructor ()
      ensures Valid()
      ensures visibleLabels == [Title, Description, Credit]
      ensures forall l: LabelId :: texts.Get(l) == None && frames.Get(l) == ZERO_RECT
      ensures frame == ZERO_RECT
    {
      visibleLabels := [Title, Description, Credit];
      texts := PerLabel(None, None, None);
      frames := PerLabel(ZERO_RECT, ZERO_RECT, ZERO_RECT);
      frame := ZERO_RECT;
    }

    /** Shows new caption texts.  Each text gets its label's default
        attributes if it carries none; the visible labels are rebuilt from the
        texts that have characters, in display order. */
    method ApplyCaptionInfo(title: Option<AttributedString>, description: Option<AttributedString>,
                            credit: Option<AttributedString>, defaults: LabelId -> Attributes)
      modifies this`visibleLabels, this`texts
      ensures Valid()
      ensures texts.Get(Title) == WithDefaults(defaults(Title), title)
      ensures texts.Get(Description) == WithDefaults(defaults(Description), description)
      ensures texts.Get(Credit) == WithDefaults(defaults(Credit), credit)
      ensures visibleLabels == SelectVisible(texts.Get(Title), texts.Get(Description), texts.Get(Credit))
      ensures visibleLabels == SelectVisible(title, description, credit)
    {
      var styledTitle := WithDefaults(defaults(Title), title);
      var styledDescription := WithDefaults(defaults(Description), description);
      var styledCredit := WithDefaults(defaults(Credit), credit);
      assert IsHidden(styledTitle) == IsHidden(title);
      assert IsHidden(styledDescription) == IsHidden(description);
      assert IsHidden(styledCredit) == IsHidden(credit);
      ghost var shown := if IsHidden(title) then [] else [Title];
      visibleLabels := [];
      ShowText(Title, styledTitle);
      assert visibleLabels == shown;
      shown := shown + if IsHidden(description) then [] else [Description];
      ShowText(Description, styledDescription);
      assert visibleLabels == shown;
      shown := shown + if IsHidden(credit) then [] else [Credit];
      ShowText(Credit, styledCredit);
      assert visibleLabels == shown;
      assert shown == SelectVisible(title, description, credit);
      assert shown == SelectVisible(styledTitle, styledDescription, styledCredit);
    }

    /** Gives one label its new text and appends it to the visible labels
        when the text has characters. */
    method ShowText(id: LabelId, styled: Option<AttributedString>)
      modifies this`visibleLabels, this`texts
      ensures texts == old(texts).With(id, styled)
      ensures visibleLabels == old(visibleLabels) + if IsHidden(styled) then [] else [id]
    {
      var isLabelHidden := IsHidden(styled);
      texts := texts.With(id, styled);
      if !isLabelHidden {
        visibleLabels := visibleLabels + [id];
      }
    }

    /** The sizes of the visible labels, each measured against the panel's
        constraint less the left and right inset. */
    ghost function VisibleSizes(constrained: Size, measure: Measure): (r: seq<MeasuredSize>)
      reads this`visibleLabels, this`texts
      ensures |r| == |visibleLabels|
    {
      MeasureLabels(visibleLabels, texts, LabelConstraint(constrained), measure)
    }

    /** Stacks the visible labels top to bottom and returns the size the panel
        needs: the constrained width and the stacked height.  Label frames are
        written only when `applyLayout` holds. */
    method ComputeSize(constrained: Size, applyLayout: bool, measure: Measure) returns (fitted: Size)
      requires Valid()
      modifies this`frames
      ensures fitted.width == constrained.width
      ensures fitted.height == StackHeight(VisibleSizes(constrained, measure))
      ensures !applyLayout ==> frames == old(frames)
      ensures applyLayout ==>
                forall l :: frames.Get(l) == LaidOut(old(frames).Get(l), l, visibleLabels, VisibleSizes(constrained, measure))
    {
      ghost var sizes := VisibleSizes(constrained, measure);
      ghost var before := frames;
      var n := |visibleLabels|;
      var yOffset := 0.0;
      var index := 0;
      while index < n
        invariant 0 <= index <= n
        invariant yOffset == OffsetAfter(sizes, index)
        invariant frames == if applyLayout then Placed(before, visibleLabels, sizes, index) else before
      {
        var id := visibleLabels[index];
        var constrainedLabelSize := Size(constrained.width - 2.0 * HORIZONTAL_PADDING, constrained.height);
        var labelSize := measure(texts.Get(id), constrainedLabelSize);
        assert labelSize == sizes[index];

        if index == 0 {
          yOffset := yOffset + VERTICAL_PADDING;
        } else {
          yOffset := yOffset + INTER_LABEL_SPACING;
        }

        var labelFrame := Rect(HORIZONTAL_PADDING, yOffset, labelSize.width, labelSize.height);
        assert labelFrame == FrameAt(sizes, index);

        yOffset := yOffset + labelFrame.height;
        if index == n - 1 {
          yOffset := yOffset + VERTICAL_PADDING;
        }

        if applyLayout {
          frames := frames.With(id, labelFrame);
        }
        index := index + 1;
      }
      PlacedAll(before, visibleLabels, sizes);
      fitted := Size(constrained.width, yOffset);
    }

    /** Reports the size the panel needs within `size`, moving nothing. */
    method SizeThatFits(size: Size, measure: Measure) returns (fitted: Size)
      requires Valid()
      modifies this`frames
      ensures frames == old(frames)
      ensures fitted.width == size.width
      ensures fitted.height == StackHeight(MeasureLabels(visibleLabels, texts, LabelConstraint(size), measure))
    {
      fitted := ComputeSize(size, false, measure);
    }

    /** Lays the visible labels out within the panel's current size. */
    method LayoutSubviews(measure: Measure)
      requires Valid()
      modifies this`frames
      ensures forall l :: frames.Get(l) ==
                          LaidOut(old(frames).Get(l), l, visibleLabels, VisibleSizes(Size(frame.width, frame.height), measure))
    {
      var _ := ComputeSize(Size(frame.width, frame.height), true, measure);
    }
  }
}
