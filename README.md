# Document visualisation dashboard: field validation and box overlay

The dashboard loads a table whose rows each carry a JSON `ImageMaster`
document. The document holds the fields extracted from a delivery-proof image
(courier partner, AWB number, recipient name, ...), each usually a
`{text, box_2d}` pair, plus a dict of reference values. This project models
the logic at the dashboard's core:

- **Field validation** (`validate_structured_info`, module `Validations`).
  There are nine fixed fields. For each, the value compared is the extracted
  attribute, or its `"text"` entry when the attribute is a dict that has one.
  That value is looked up against the reference dict. Both sides are put
  through `str().strip().lower()`, and the pair is classified:
  - `null` with score 0 when either side is `None`;
  - `match` with score 100 when the normal forms are equal;
  - `hallucination` with score 0 otherwise.

  The comparison is exact equality: no fuzzy ratio is computed. The
  `threshold` argument (the sidebar's "Fuzzy Match Threshold" slider) is
  accepted and never read. The model follows the code here, so the result is
  proved to depend on the structured and reference info only.
- **Box overlay** (`draw_predictions_on_image`, module `Overlay`). It runs over
  the nine attributes in declaration order. A field is drawn when its value
  is a dict with `text` and `box_2d`, and `box_2d` is a list of four numbers.
  - The corners are rescaled from the 0..1000 space: indices 0 and 2 against
    the width, 1 and 3 against the height, truncated toward zero.
  - They are swapped into order, then clamped to the image.
  - A box with no width or no height is skipped.
  - Each box drawn is outlined in the next colour of an eight-colour palette;
    the counter advances only on boxes actually drawn.
  - The box gets a label, `name: text[:15]` plus `...` when the text is
    longer. The label sits on a background whose top is never above the
    image.

  The image is a `Canvas` whose drawing calls are recorded in order. A
  non-numeric box entry or a text that cannot be sliced raises in the source.
  The model reports this as `raised`, with the calls made up to that point.
- **Overall statistics and the row cursor** (module `Dashboard`).
  - For each of eight columns (every validated field but `handwritten_notes`),
    every row is validated again and its status counted.
  - A row whose JSON is empty or unparseable is skipped. So is a row whose
    structured or reference info is missing.
  - The Previous and Next buttons move the cursor with `max(0, i-1)` and
    `min(len-1, i+1)`.

`Values` models the Python values that JSON yields, together with `str()`,
`strip()` and `lower()`. `DataModels` models the shapes of the pydantic models.

## Model

| member | source | states |
|---|---|---|
| `Values.Get` | validations.py:14 | `d.get(key)`: a missing key gives `None`; a present key gives a value the dict binds to that key |
| `Values.Repr` | validations.py:24 | `None`, `True` and `False` print as those words; a string prints quoted with its characters between the quotes; a list prints in brackets and a dict in braces; a negative int starts with `-` |
| `Values.Show` | validations.py:24 | `str()` of a string is the string itself; `None` and the booleans print as their names; a list or dict prints bracketed or braced |
| `Values.Lower` | validations.py:24 | `lower()` keeps the length, maps each character in place, leaves no capital letter, shifts each capital to its small letter and keeps every other character |
| `Values.Strip` | validations.py:24 | `strip()` yields a slice of the input with only whitespace cut from either end and no whitespace left at either end |
| `Values.StripUnique` | validations.py:24 | any slice with whitespace, and only whitespace, cut from both ends and none left is exactly `strip()`'s result, so `strip()` is fully determined |
| `Values.StripIgnoresPadding` | validations.py:24 | whitespace added around a string never changes its `strip()` |
| `Values.StripLower` | validations.py:24 | stripping then lower-casing equals lower-casing then stripping, since lower-casing never changes which characters are whitespace |
| `Values.NormaliseIgnoresCase` | validations.py:24 | lower-casing a string before normalising it never changes its normal form |
| `Values.NormaliseIdempotent` | validations.py:24 | normalising an already normalised string changes nothing, so `strip().lower()` is a canonical form |
| `DataModels.StructuredInfo.Dump` | app.py:48 | `model_dump()` lists the nine declared attributes once each, in declaration order, each with its value |
| `Validations.Compared` | validations.py:16-17 | the value compared is the one bound to `"text"` when the extracted attribute is a dict with that key, and the attribute itself otherwise |
| `Validations.ReferenceFor` | validations.py:14 | a missing or empty reference dict, or a reference dict without the field, gives `None`; otherwise the result is a value the reference dict binds to the field |
| `Validations.Classify` | validations.py:20-36 | the extracted and reference values are echoed unchanged; the status is null exactly when either side is `None`; the score is 100 for a match and 0 for anything else |
| `Validations.ValidateStructuredInfo` | validations.py:1-37 | the result has exactly the nine field names as keys; each entry is the classification of that field's compared value against its reference value; `threshold` plays no part |
| `Validations.MatchIffSameIgnoringCase` | validations.py:24-29 | two present values match exactly when their stripped string forms are equal character by character up to case; every other present pair is a hallucination |
| `Validations.ClassifySymmetric` | validations.py:21-29 | swapping the extracted and reference values gives the same status and score |
| `Validations.ClassifyReflexive` | validations.py:24-26 | any present value matches itself with score 100 |
| `Validations.PaddingIgnored` | validations.py:24 | whitespace around an extracted string never changes its status |
| `Validations.LowerCasedMatches` | validations.py:24-26 | every string matches its lower-cased form, with score 100 |
| `Validations.CaseOnlyDifferenceMatches` | validations.py:24-26 | "ABC" against "abc" is a match with score 100 |
| `Validations.NoReferenceAllNull` | validations.py:14-23 | with the reference info `None` or empty, every field is null with score 0, whatever was extracted |
| `Validations.MissingExtractionIsNull` | validations.py:13-23 | an attribute left at `None`, or a dict whose `"text"` is `None`, is null whatever the reference |
| `Overlay.Clamp` | app.py:80-83 | the clamped coordinate lies in `[0, hi]` and a coordinate already inside is unchanged |
| `Overlay.Scaled` | app.py:67-71 | the scaled coordinate is b·dim/1000 truncated toward zero: within one unit of the exact value, on the side of zero |
| `Overlay.Normalised` | app.py:67-83 | after scaling, ordering and clamping, 0 ≤ x1 ≤ x2 ≤ W and 0 ≤ y1 ≤ y2 ≤ H |
| `Overlay.NormaliseBox` | app.py:62-83 | the scale, conditional swaps and clamps, performed in the source's order, give the ordered, clamped box of the scaled corners, inside the image |
| `Overlay.PlanFor` | app.py:55-88 | a field is drawn exactly when it is a dict with `text` and `box_2d`, its `box_2d` is a list of four numbers, and the rescaled, ordered and clamped box has positive width and height; the box drawn is that box, inside the image, with the field's `text`; the field raises exactly when its `box_2d` is a list of four with an entry that is not a number; a field without `text` or `box_2d` is skipped |
| `Overlay.Label` | app.py:99 | the label starts with the field name and `": "`; a string text of at most 15 characters follows whole; a longer one is cut so that the label ends in `...`, with at most 18 characters after the name |
| `Overlay.LabelOps` | app.py:116-126 | the background is filled in the box's colour from the box's left edge x1, `width + 4` wide and `height + 2` high, with its top at `max(0, y1 - height - offset - 2)`: flush above the box (bottom at `y1 - offset`) when that fits, else at the image top; the label follows in black at x1 + 2, `offset - 1` above the background's top |
| `Overlay.Step` | app.py:52-129 | one pass of the loop: after an exception nothing changes; calls are only appended; the colour counter advances exactly when the field's box is drawn, and the first call appended then is its outline in `colors[i % 8]` of width 3; the pass raises exactly on bad coordinates or on a drawn field whose text cannot be sliced |
| `Overlay.Render` | app.py:52-129 | over the fields in order, at most one box is drawn per field and each drawn box adds at most three calls |
| `Overlay.ValidFieldIsOutlined` | app.py:55-96 | after any fields that did not raise, a field whose `box_2d` is four numbers with a non-empty rescaled box appends, first, the outline of exactly that box in the next palette colour, and advances the colour counter by one |
| `Overlay.BadCornerRaises` | app.py:61-71 | a field whose `box_2d` is a list of four with an entry that is not a number raises and adds no call |
| `Overlay.DrawBox` | app.py:90-126 | one drawn box adds its outline in the given colour, then, when the text can be sliced, the label background and the black label; otherwise only the outline, and it raises |
| `Overlay.DrawField` | app.py:55-129 | one pass of the loop over a field appends exactly the calls that one more rendering step adds, advances the colour counter as that step does, and raises exactly when it does |
| `Overlay.DrawPredictionsOnImage` | app.py:22-131 | without structured info the image is untouched; otherwise the calls appended to the image are exactly those of the fields' rendering in declaration order, and it raises exactly when that rendering does |
| `Overlay.RaisedIsFinal` | app.py:68-71 | once a field raises, no later field draws anything |
| `Overlay.StepWellDrawn` | app.py:90-126 | handling one more field keeps the log in well-formed groups of three calls |
| `Overlay.RenderWellDrawn` | app.py:49-126 | for any fields, the k-th drawn box (from 0) is an outline in `colors[k mod 8]` of width 3 inside the image with x1 < x2 and y1 < y2; its background has the same colour, the outline's left edge and a top never above 0; its label is black at x1 + 2 |
| `Overlay.SkippedFieldDrawsNothing` | app.py:55-61 | a field that is not a labelled box, whose `box_2d` is not a four-element list, or whose box is empty after clamping adds no call and leaves the colour counter where it was |
| `Overlay.ColorIndexCountsDrawnBoxes` | app.py:90-92 | when nothing raises, the colour counter ends at the number of fields whose box is drawn |
| `Overlay.ScaledWithinImage` | app.py:67-71 | a coordinate inside the 0..1000 space scales to a pixel inside the image |
| `Overlay.InRangeBoxIsNotClamped` | app.py:79-83 | for a box inside the 0..1000 space the clamp changes nothing: the result is the scaled corners, ordered |
| `Overlay.FullBoxCoversImage` | app.py:67-71 | the full box `[0, 0, 1000, 1000]` covers the whole W×H image, so indices 0 and 2 scale with the width and 1 and 3 with the height |
| `Overlay.BoxExamples` | app.py:67-83 | `[0, 0, 500, 500]` on 1000×1000 is (0, 0, 500, 500), and the reversed `[1000, 0, 500, 1000]` is swapped to (500, 0, 1000, 1000) |
| `Overlay.LabelShape` | app.py:99 | the label is the field name, ": ", and the whole text when it has at most 15 characters, else its first 15 and "..." — at most 18 characters of text |
| `Dashboard.OverallStatistics` | app.py:189-240 | one line per tallied column; each line's total is the number of rows and its counts are those of the rows' statuses for that column |
| `Dashboard.CountRows` | app.py:199-225 | for one column, the match, null and hallucination counts together never exceed the number of rows, and are all zero when no row is validated |
| `Dashboard.BucketsCountValidatedRows` | app.py:199-225 | each validated row adds to exactly one of match, null and hallucination and every other row to none, so the three counts add up to the validated rows |
| `Dashboard.TallyBounded` | app.py:192-225 | match + null + hallucination never exceeds the total count, which is the number of rows |
| `Dashboard.AllValidatedFillsTally` | app.py:192-225 | when every row is validated, match + null + hallucination equals the total count |
| `Dashboard.ColumnsAreValidatedFields` | app.py:192 | every tallied column is one of the validated fields, and `handwritten_notes` is validated but never tallied |
| `Dashboard.CursorStaysInRange` | app.py:161-166 | on a non-empty table a cursor on a row stays on a row: Previous moves one back except on the first row, Next one on except on the last; Next also brings a cursor past the end back to the last row |
| `Dashboard.Viewer.constructor` | app.py:157-158 | the cursor starts on row 0 |
| `Dashboard.Viewer.Previous` | app.py:162-163 | Previous sets the cursor to `max(0, i - 1)` and keeps a cursor that was on a row on a row |
| `Dashboard.Viewer.Next` | app.py:165-166 | Next sets the cursor to `min(len - 1, i + 1)` and keeps a cursor that was on a row on a row |
| `Dashboard.Viewer.Select` | app.py:170 | choosing a row label in the sidebar puts the cursor on that row |

## Left out

- The Streamlit page, sidebar widgets, CSV upload, sample-wise display and image-locator resolution (app.py:135-360, apart from the cursor and the overall tally): presentation and I/O.
- The HTTP image fetch, its content-type check and local file opening (app.py:311-349): network and file I/O.
- PIL drawing itself, `ImageDraw`, and the font fallback chain with `font_size` (app.py:27-45): foreign library calls. Drawing is modelled as a log of `DrawOp` calls on a `Canvas`, which stands for the copy of the image the caller passes in.
- Font metrics from `font.getbbox` (app.py:101-113): a parameter `measure` gives each label's width and height (non-negative) and top offset, or `Unmeasured` when `getbbox` raises, which the source replaces by zeros.
- Floating point. Box entries are Python ints or bools; fractional coordinates are not modelled. `b / 1000 * H` is computed exactly and then truncated toward zero, with no IEEE rounding. `str()` of a float (for instance a numeric `text_quality_score`) is not modelled.
- Percentages and their `:.2f` formatting in overall mode (app.py:227-239): float numerics and string formatting. Only the integer counts are modelled.
- JSON parsing and pydantic validation (data_models.py:26-33): a row is given already classified as `Blank` (NaN cell), `Malformed` (parse or validation error) or `Parsed`. Any exception while a row is handled in overall mode lands in `Malformed`, since `validate_structured_info` itself cannot raise.
- `Values.Lower`: ASCII letters only; Python's Unicode case mapping (which can also change a string's length) is not modelled.
- `Values.Repr`: strings nested in a list or dict print in single quotes without Python's quote selection or escaping.
- Dicts with duplicate keys: a `Dict` is an ordered list of entries with distinct keys, as a Python dict is. The model does not enforce it, and a lookup takes the first binding.
- Logging of skipped fields and row errors (app.py:41, 45, 87, 110, 113, 129, 224): diagnostics only.
- A label text that is neither a string nor a list raises (app.py:99), and is modelled as `raised` after the outline. A list text is labelled with the `str()` of its first 15 items.
- On an empty table the Next button sets the cursor to `min(-1, i + 1)`, that is -1. `CursorStaysInRange` therefore assumes a non-empty table.
