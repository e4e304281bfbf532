# AXPhotoViewer caption view, modelled in Dafny

This project models the caption panel that AXPhotoViewer shows over a photo
(`CaptionView`). The panel has three labels: title, description and credit.
The model covers three things:

- **Choosing the visible labels.** `applyCaptionInfo` takes the three
  attributed texts (each may be nil). It gives each text its label's default
  style when the caller supplied plain text. It then rebuilds the list of
  visible labels: a label is listed exactly when its text is non-nil and has
  characters, and the list keeps the fixed order title, description, credit.
- **Default styling.** `makeAttributedStringWithDefaults` leaves nil as nil. It
  returns an already-styled string unchanged. It adds the default attributes
  over the whole range of a string in which no character carries any
  attribute.
- **Vertical stacking.** `computeSize` stacks the visible labels top to
  bottom:
  - 10 points of padding above the first label and below the last;
  - 4 points between neighbours;
  - a left inset of 15 points;
  - every label is measured against the constrained width less 30.

  It returns the constrained width and the stacked height. It writes the
  label frames only when asked to. `sizeThatFits` changes no frame, and
  `layoutSubviews` lays the labels out within the panel's own size.

The project has three modules:

- `AttributedText` (`AttributedText.dfy`) covers attributed strings and the
  default styling.
- `Layout` (`Layout.dfy`) holds the stacking arithmetic and its closed forms.
- `Caption` (`CaptionView.dfy`) holds the view itself: a class whose methods
  update its fields the way the Swift methods do.

Modelling choices:

- **Labels.** The three `UILabel` objects belong to the view one to one.
  They are named by `LabelId`, and the view keeps each label's text and
  frame as one value per label (`PerLabel`).
- **Measurement.** `label.sizeThatFits` is framework code. It becomes a
  function parameter `measure` from a label's text and a constraining size to
  a non-negative size.
- **Default attribute maps.** These come from fonts and trait collections.
  They become a parameter `defaults` from label to attribute map.
- **Arithmetic.** Points are exact reals.
- **Invariant.** The class invariant `Valid` says that the visible labels are
  in display order. The constructor and `ApplyCaptionInfo` establish it, and
  the layout methods rely on it.

## Model

| member | source | states |
|---|---|---|
| Caption.CaptionView.constructor | Source/Classes/CaptionView.swift:61-66 | a new panel lists title, description and credit as visible, in that order; no label has text yet |
| Caption.CaptionView.ApplyCaptionInfo | Source/Classes/CaptionView.swift:133-155 | each label's new text is its input with the label's defaults applied; the visible labels are exactly those whose resulting text is non-nil and non-empty, in display order; the visible list depends only on the input texts |
| Caption.CaptionView.ShowText | Source/Classes/CaptionView.swift:136-141 | one label's step: its text is replaced and nothing else's; the label is appended to the visible list exactly when its text is not hidden |
| Caption.SelectVisible | Source/Classes/CaptionView.swift:133-155 | the rebuilt list is in display order (no duplicates, title before description before credit); each label is in it iff its text is non-nil with characters, and a nil text always counts as hidden |
| Caption.DisplayOrderUnique | Source/Classes/CaptionView.swift:133-155 | two lists in display order with the same labels are equal, so the visible list is determined by which texts are shown |
| Caption.PerLabel.With | Source/Classes/CaptionView.swift:219-221 | giving one label a new frame (or text) sets that label's value and leaves the other two unchanged |
| AttributedText.AddAttributes | Source/Classes/CaptionView.swift:129 | adding attributes over the whole range leaves the characters unchanged, and each character's attributes become its old ones merged with the added ones, the added ones winning on a shared name |
| AttributedText.PlainHasNoCharacterAttributes | Source/Classes/CaptionView.swift:115-129 | when the enumeration finds no attributed run, no character carries any attribute, so adding the defaults leaves every character with exactly the defaults |
| AttributedText.ContainsAttributes | Source/Classes/CaptionView.swift:114-123 | the enumeration that stops at the first attributed run reports true iff some character carries an attribute |
| AttributedText.WithDefaults | Source/Classes/CaptionView.swift:110-131 | nil gives nil; an attributed input is returned unchanged; a plain input gets the defaults on every character; the characters are never altered |
| AttributedText.WithDefaultsIdempotent | Source/Classes/CaptionView.swift:110-131 | applying the defaults to an already defaulted text changes nothing |
| Caption.MeasureLabels | Source/Classes/CaptionView.swift:198-202 | one size per visible label, each the measure of that label's text against the same constraint |
| Layout.FrameAt | Source/Classes/CaptionView.swift:204-214 | label k's frame has origin x = 15, y = 10 + (sum of the heights of the k labels above it) + 4k, and the label's measured width and height |
| Layout.TopClosedForm | Source/Classes/CaptionView.swift:204-214 | label k starts at y = 10 + (sum of the heights of the labels above it) + 4k |
| Layout.StackHeightClosedForm | Source/Classes/CaptionView.swift:193-217 | for n >= 1 labels the stacked height is 10 + (sum of heights) + 4(n - 1) + 10; for none it is 0 |
| Layout.StackHeightEmptyIff | Source/Classes/CaptionView.swift:196-224 | the height is 0 exactly when no label is visible, and otherwise at least 20 |
| Layout.StackedWithoutOverlap | Source/Classes/CaptionView.swift:204-214 | every label starts at least 4 points below the bottom of any label above it, so frames do not overlap and are ordered top to bottom |
| Layout.StackedInsidePadding | Source/Classes/CaptionView.swift:204-217 | every label keeps at least 10 points of padding to the top and bottom of the stack |
| Caption.LaidOutFrame | Source/Classes/CaptionView.swift:198-221 | after layout, the label at position k of the visible list has the k-th stacked frame, and a label that is not visible keeps its frame |
| Caption.LaidOutWithoutOverlap | Source/Classes/CaptionView.swift:204-221 | laid-out visible labels share the left inset and each lies at least 4 points below the one above it |
| Caption.PlacedPrefix | Source/Classes/CaptionView.swift:198-222 | after the loop has written the frames of the first k visible labels, those labels have their stacked frames and every other label keeps its old frame |
| Caption.PlacedAll | Source/Classes/CaptionView.swift:198-222 | once the loop has written every visible label's frame, each label has exactly its laid-out frame |
| Caption.CaptionView.ComputeSize | Source/Classes/CaptionView.swift:193-224 | returns the constrained width and the stacked height of the visible labels, each measured against the width less 30; with layout off, no frame changes; with layout on, each visible label gets its stacked frame and the others keep theirs |
| Caption.CaptionView.SizeThatFits | Source/Classes/CaptionView.swift:163-165 | reports the constrained width and the stacked height, and changes no frame |
| Caption.CaptionView.LayoutSubviews | Source/Classes/CaptionView.swift:158-161 | lays the visible labels out within the panel's own current size |

## Left out

- The cross-dissolve animation in `transitionLabel` (CaptionView.swift:97-101)
  is not modelled: its timing is UIKit's. The new text is modelled as
  assigned at once.
- The labels' `isHidden` flag is not modelled. For a shown label it is set
  to false at once (CaptionView.swift:93-95). For a hidden label it is set to
  true when the animation completes (CaptionView.swift:102-106). The model
  records visibility only through the list of visible labels.
- The font and colour derivation behind the default attributes
  (CaptionView.swift:17-57) is a parameter. It depends on preferred font
  descriptors and trait collections.
- `makeFontAdjustedAttributedString` and the three assignments that use it
  (CaptionView.swift:168-191) are left out. They resize fonts through
  `UIFontDescriptor`.
- Caption.CaptionView.ComputeSize: measures the label texts as stored; the font
  re-sizing it performs on them first is not modelled (see above).
- Text measurement (`label.sizeThatFits`) is an uninterpreted parameter. Only
  its non-negative result is assumed.
- `init(coder:)` (CaptionView.swift:84-86) only stops the program.
- The view setup in `init` (CaptionView.swift:68-81) is pure UI
  configuration: background colour, text colour, line count, subviews.
- `super.layoutSubviews()` and the superclass initialiser are framework calls.
- CGFloat is modelled as exact reals. The layout constants are small
  integers, so no rounding is modelled.
- A failing `mutableCopy` cast is modelled only for a nil input, the one
  case in which the cast can fail.
- Attribute values are opaque tokens: the model never looks inside a font
  or a colour, so point sizes and colours are not modelled.
