/** `draw_predictions_on_image`: draws each labelled field of the structured
    info onto the image as an outlined box with a coloured label above it.
    The image is a `Canvas` that records the drawing calls made on it. */
module Overlay {
  import opened Values
  import opened DataModels

  /** Box coordinates arrive in a 0..1000 space. */
  const Scale := 1000
  const Palette: seq<string> := ["red", "green", "blue", "yellow", "purple", "orange", "cyan", "magenta"]
  const OutlineWidth := 3
  /** Characters of the extracted text kept in a label. */
  const LabelLimit := 15

  datatype Rect = Rect(x1: int, y1: int, x2: int, y2: int)

  /** One call on the image's `ImageDraw`. */
  datatype DrawOp =
    | Outline(rect: Rect, color: string, width: nat)  // draw.rectangle(..., outline=color, width=3)
    | Fill(rect: Rect, color: string)                 // draw.rectangle(..., fill=color)
    | Text(x: int, y: int, text: string, color: string)

  /** What `font.getbbox(label)` tells about a label: its width, its height
      and the offset of its top, or `Unmeasured` when `getbbox` raises. */
  datatype Metrics = Measured(width: nat, height: nat, top: int) | Unmeasured

  /** A PIL image of the given size, with the drawing calls made on it. */
  class Canvas {
    const width: nat
    const height: nat
    var ops: seq<DrawOp>

    constructor (width: nat, height: nat)
      ensures this.width == width && this.height == height && ops == []
    {
      this.width := width;
      this.height := height;
      ops := [];
    }
  }

  function Min(a: int, b: int): int { if a <= b then a else b }
  function Max(a: int, b: int): int { if a <= b then b else a }

  /** `max(0, min(v, hi))` */
  function Clamp(v: int, hi: nat): (r: int)
    ensures 0 <= r <= hi
    ensures 0 <= v <= hi ==> r == v
  {
    Max(0, Min(v, hi))
  }

  /** `int(b / 1000 * dim)` in exact arithmetic: b·dim/1000 truncated toward zero. */
  function Scaled(b: int, dim: nat): (r: int)
    ensures b * dim >= 0 ==> 0 <= r && Scale * r <= b * dim < Scale * r + Scale
    ensures b * dim < 0 ==> r <= 0 && Scale * r - Scale < b * dim <= Scale * r
  {
    var n := b * dim;
    if n >= 0 then n / Scale else -((-n) / Scale)
  }

  /** Python's int and bool take part in arithmetic; nothing else in a box does. */
  predicate Numeric(v: Value) { v.Int? || v.Bool? }

  function NumberOf(v: Value): int
    requires Numeric(v)
  {
    if v.Int? then v.i else if v.b then 1 else 0
  }

  function Numbers(items: seq<Value>): (r: seq<int>)
    requires forall k | 0 <= k < |items| :: Numeric(items[k])
    ensures |r| == |items|
  {
    seq(|items|, k requires 0 <= k < |items| => NumberOf(items[k]))
  }

  /** The box a `[x1, y1, x2, y2]` list lands on: each corner scaled by the
      dimension of its axis, the corners ordered, then clamped to the image. */
  function Normalised(box: seq<int>, w: nat, h: nat): (r: Rect)
    requires |box| == 4
    ensures 0 <= r.x1 <= r.x2 <= w && 0 <= r.y1 <= r.y2 <= h
  {
    var sx1, sy1, sx2, sy2 := Scaled(box[0], w), Scaled(box[1], h), Scaled(box[2], w), Scaled(box[3], h);
    Rect(Clamp(Min(sx1, sx2), w), Clamp(Min(sy1, sy2), h), Clamp(Max(sx1, sx2), w), Clamp(Max(sy1, sy2), h))
  }

  /** The scale, swap and clamp steps on one box, in the order they happen. */
  method NormaliseBox(box: seq<int>, imgWidth: nat, imgHeight: nat) returns (rect: Rect)
    requires |box| == 4
    ensures 0 <= rect.x1 <= rect.x2 <= imgWidth && 0 <= rect.y1 <= rect.y2 <= imgHeight
    ensures rect == Normalised(box, imgWidth, imgHeight)
  {
    var absY1 := Scaled(box[1], imgHeight);
    var absX1 := Scaled(box[0], imgWidth);
    var absY2 := Scaled(box[3], imgHeight);
    var absX2 := Scaled(box[2], imgWidth);
    if absX1 > absX2 {
      absX1, absX2 := absX2, absX1;
    }
    if absY1 > absY2 {
      absY1, absY2 := absY2, absY1;
    }
    absX1 := Max(0, Min(absX1, imgWidth));
    absY1 := Max(0, Min(absY1, imgHeight));
    absX2 := Max(0, Min(absX2, imgWidth));
    absY2 := Max(0, Min(absY2, imgHeight));
    rect := Rect(absX1, absY1, absX2, absY2);
  }

  /** What happens to one field of the structured info. */
  datatype Plan =
    | Skip                                // not a labelled box, a malformed `box_2d`, or an empty box
    | BadCoordinates                      // a four-element `box_2d` with a non-numeric entry: the scaling raises
    | Draw(rect: Rect, text: Value)       // a box to outline, with the field's `text`

  /** A dict with both `text` and `box_2d`, whose `box_2d` is a list of four. */
  predicate FourCornerField(v: Value)
  {
    v.Dict? && HasKey(v.entries, "text") && HasKey(v.entries, "box_2d")
    && Get(v.entries, "box_2d").List? && |Get(v.entries, "box_2d").items| == 4
  }

  /** The corners of a four-corner field, when they are all numbers. */
  predicate NumericCorners(v: Value)
    requires FourCornerField(v)
  {
    forall k | 0 <= k < 4 :: Numeric(Get(v.entries, "box_2d").items[k])
  }

  function PlanFor(v: Value, w: nat, h: nat): (p: Plan)
    ensures p.Draw? <==>
              FourCornerField(v) && NumericCorners(v)
              && var r := Normalised(Numbers(Get(v.entries, "box_2d").items), w, h);
                 r.x1 < r.x2 && r.y1 < r.y2
    ensures p.Draw? ==>
              p.rect == Normalised(Numbers(Get(v.entries, "box_2d").items), w, h)
              && p.text == Get(v.entries, "text")
              && 0 <= p.rect.x1 < p.rect.x2 <= w && 0 <= p.rect.y1 < p.rect.y2 <= h
    ensures p.BadCoordinates? <==> FourCornerField(v) && !NumericCorners(v)
    ensures !(v.Dict? && HasKey(v.entries, "text") && HasKey(v.entries, "box_2d")) ==> p == Skip
  {
    if FourCornerField(v) then
      var corners := Get(v.entries, "box_2d").items;
      if NumericCorners(v) then
        var r := Normalised(Numbers(corners), w, h);
        if r.x1 >= r.x2 || r.y1 >= r.y2 then Skip else Draw(r, Get(v.entries, "text"))
      else
        BadCoordinates
    else
      Skip
  }

  /** `text[:15]` and `len(text)` work on a string or a list and raise on
      anything else. */
  predicate Sliceable(text: Value) { text.Str? || text.List? }

  /** `f"{field_name}: {text[:15]}{'...' if len(text)>15 else ''}"`: the
      field name and ": ", then a string text cut to at most 18 characters. */
  function Label(name: string, text: Value): (caption: string)
    requires Sliceable(text)
    ensures |caption| >= |name| + 2 && caption[..|name| + 2] == name + ": "
    ensures text.Str? ==> |caption| <= |name| + 2 + LabelLimit + 3
    ensures text.Str? && |text.s| <= LabelLimit ==> caption == name + ": " + text.s
    ensures text.Str? && |text.s| > LabelLimit ==> |caption| >= 3 && caption[|caption| - 3..] == "..."
  {
    match text
    case Str(s) =>
      name + ": " + s[..Min(|s|, LabelLimit)] + (if |s| > LabelLimit then "..." else "")
    case List(items) =>
      name + ": " + Show(List(items[..Min(|items|, LabelLimit)])) + (if |items| > LabelLimit then "..." else "")
  }

  /** The label's width, height and top offset: `getbbox`'s measures, or
      zeros when it raises. */
  function Extent(m: Metrics): (nat, nat, int)
  {
    if m.Measured? then (m.width, m.height, m.top) else (0, 0, 0)
  }

  /** The label's background rectangle and the label itself, placed above
      the box's top-left corner and never above the top of the image. */
  function LabelOps(r: Rect, caption: string, color: string, m: Metrics): (ops: seq<DrawOp>)
    ensures var (textWidth, textHeight, textYOffset) := Extent(m);
            |ops| == 2 && ops[0].Fill? && ops[1].Text?
            && ops[0].color == color && ops[1].color == "black" && ops[1].text == caption
            && ops[0].rect.x1 == r.x1 && ops[1].x == r.x1 + 2
            && ops[0].rect.x2 - ops[0].rect.x1 == textWidth + 4
            && ops[0].rect.y2 - ops[0].rect.y1 == textHeight + 2
            && 0 <= ops[0].rect.y1
            && (r.y1 - textHeight - textYOffset - 2 >= 0 ==> ops[0].rect.y2 == r.y1 - textYOffset)
            && (r.y1 - textHeight - textYOffset - 2 < 0 ==> ops[0].rect.y1 == 0)
            && ops[1].y == ops[0].rect.y1 - textYOffset + 1
  {
    var (textWidth, textHeight, textYOffset) := Extent(m);
    var textBgY := Max(0, r.y1 - textHeight - textYOffset - 2);
    [Fill(Rect(r.x1, textBgY, r.x1 + textWidth + 4, textBgY + textHeight + 2), color),
     Text(r.x1 + 2, textBgY - textYOffset + 1, caption, "black")]
  }

  /** The drawing calls made so far, the colour counter, and whether an
      exception has ended the drawing. */
  datatype Rendering = Rendering(ops: seq<DrawOp>, colorIndex: nat, raised: bool)

  /** Drawing one box: its outline in the next palette colour, then its
      label unless slicing the text raises. */
  function Drawn(st: Rendering, name: string, r: Rect, text: Value, measure: string -> Metrics): Rendering
  {
    var color := Palette[st.colorIndex % |Palette|];
    var outlined := st.ops + [Outline(r, color, OutlineWidth)];
    if !Sliceable(text) then
      Rendering(outlined, st.colorIndex + 1, true)
    else
      var caption := Label(name, text);
      Rendering(outlined + LabelOps(r, caption, color, measure(caption)), st.colorIndex + 1, false)
  }

  /** One iteration of the loop over the fields: once raised nothing
      changes; otherwise calls are only appended, the colour counter advances
      exactly on a drawn box, whose first call is its outline in the next
      palette colour, and the loop raises on bad coordinates or on a text
      that cannot be sliced. */
  function Step(st: Rendering, name: string, v: Value, w: nat, h: nat, measure: string -> Metrics): (next: Rendering)
    ensures st.raised ==> next == st
    ensures |st.ops| <= |next.ops| && next.ops[..|st.ops|] == st.ops
    ensures next.colorIndex == st.colorIndex + (if !st.raised && PlanFor(v, w, h).Draw? then 1 else 0)
    ensures next.raised <==>
              st.raised || PlanFor(v, w, h).BadCoordinates?
              || (PlanFor(v, w, h).Draw? && !Sliceable(PlanFor(v, w, h).text))
    ensures !st.raised && PlanFor(v, w, h).Draw? ==>
              |next.ops| > |st.ops|
              && next.ops[|st.ops|] == Outline(PlanFor(v, w, h).rect, Palette[st.colorIndex % |Palette|], OutlineWidth)
  {
    if st.raised then st
    else match PlanFor(v, w, h)
      case Skip => st
      case BadCoordinates => st.(raised := true)
      case Draw(r, text) => Drawn(st, name, r, text, measure)
  }

  /** The loop run over a sequence of fields, in order: at most one box, and
      at most three calls, per field. */
  function Render(fields: seq<(string, Value)>, w: nat, h: nat, measure: string -> Metrics): (rendering: Rendering)
    ensures rendering.colorIndex <= |fields|
    ensures |rendering.ops| <= 3 * rendering.colorIndex
  {
    if fields == [] then Rendering([], 0, false)
    else
      var last := fields[|fields| - 1];
      Step(Render(fields[..|fields| - 1], w, h, measure), last.0, last.1, w, h, measure)
  }

  /** Once an exception is raised, later fields draw nothing. */
  lemma {:induction false} RaisedIsFinal(fields: seq<(string, Value)>, i: nat, w: nat, h: nat, measure: string -> Metrics)
    requires i <= |fields| && Render(fields[..i], w, h, measure).raised
    ensures Render(fields, w, h, measure) == Render(fields[..i], w, h, measure)
  {
    if i < |fields| {
      var init := fields[..|fields| - 1];
      assert init[..i] == fields[..i];
      RaisedIsFinal(init, i, w, h, measure);
      var st := Render(init, w, h, measure);
      assert st.raised;
      var last := fields[|fields| - 1];
      assert Render(fields, w, h, measure) == Step(st, last.0, last.1, w, h, measure);
    } else {
      assert fields[..i] == fields;
    }
  }

  /** Outlines one box in `color` and draws its label above it; `raised`
      reports that the field's text cannot be sliced, in which case only the
      outline is drawn. */
  method DrawBox(image: Canvas, rect: Rect, fieldName: string, text: Value, color: string, measure: string -> Metrics)
    returns (raised: bool)
    modifies image
    ensures raised == !Sliceable(text)
    ensures image.ops == old(image.ops) + [Outline(rect, color, OutlineWidth)]
              + (if raised then [] else var caption := Label(fieldName, text); LabelOps(rect, caption, color, measure(caption)))
  {
    image.ops := image.ops + [Outline(rect, color, OutlineWidth)];
    if !Sliceable(text) {
      return true;
    }
    var caption := Label(fieldName, text);
    var textWidth, textHeight, textYOffset := 0, 0, 0;
    var metrics := measure(caption);
    if metrics.Measured? {
      textWidth, textHeight, textYOffset := metrics.width, metrics.height, metrics.top;
    }
    var textBgY := Max(0, rect.y1 - textHeight - textYOffset - 2);
    image.ops := image.ops + [Fill(Rect(rect.x1, textBgY, rect.x1 + textWidth + 4, textBgY + textHeight + 2), color)];
    image.ops := image.ops + [Text(rect.x1 + 2, textBgY - textYOffset + 1, caption, "black")];
    raised := false;
  }

  /** The loop over a prefix one field longer is one more step. */
  lemma RenderOneMore(fields: seq<(string, Value)>, i: nat, w: nat, h: nat, measure: string -> Metrics)
    requires i < |fields|
    ensures Render(fields[..i + 1], w, h, measure)
            == Step(Render(fields[..i], w, h, measure), fields[i].0, fields[i].1, w, h, measure)
  {
    assert fields[..i + 1][..i] == fields[..i];
  }

  /** One iteration of the loop: draws the field `name` if it is a labelled
      box, given the drawing so far `st` on top of the calls in `base`. */
  method DrawField(image: Canvas, name: string, v: Value, colorIndex: nat, measure: string -> Metrics,
                   ghost st: Rendering, ghost base: seq<DrawOp>)
    returns (nextIndex: nat, raised: bool)
    requires !st.raised && st.colorIndex == colorIndex && image.ops == base + st.ops
    modifies image
    ensures var next := Step(st, name, v, image.width, image.height, measure);
            image.ops == base + next.ops && nextIndex == next.colorIndex && raised == next.raised
  {
    nextIndex, raised := colorIndex, false;
    ghost var plan := PlanFor(v, image.width, image.height);
    if v.Dict? && HasKey(v.entries, "text") && HasKey(v.entries, "box_2d") {
      var text := Get(v.entries, "text");
      var box2d := Get(v.entries, "box_2d");
      if box2d.List? && |box2d.items| == 4 {
        if !(forall k | 0 <= k < 4 :: Numeric(box2d.items[k])) {
          assert plan == BadCoordinates;
          return colorIndex, true;
        }
        var rect := NormaliseBox(Numbers(box2d.items), image.width, image.height);
        if rect.x1 < rect.x2 && rect.y1 < rect.y2 {
          assert plan == Draw(rect, text);
          var color := Palette[colorIndex % |Palette|];
          nextIndex := colorIndex + 1;
          raised := DrawBox(image, rect, name, text, color, measure);
        } else {
          assert plan == Skip;
        }
      } else {
        assert plan == Skip;
      }
    } else {
      assert plan == Skip;
    }
  }

  /** Draws the structured info's labelled boxes onto `image`; `raised`
      reports the exception that ends the drawing early. With no structured
      info the image is left untouched. */
  method DrawPredictionsOnImage(image: Canvas, structuredInfo: Optional<StructuredInfo>, measure: string -> Metrics)
    returns (raised: bool)
    modifies image
    ensures structuredInfo == Absent ==> image.ops == old(image.ops) && !raised
    ensures structuredInfo.Present? ==>
              var rendering := Render(structuredInfo.value.Dump(), image.width, image.height, measure);
              image.ops == old(image.ops) + rendering.ops && raised == rendering.raised
  {
    raised := false;
    if structuredInfo == Absent {
      return;
    }
    var fields := structuredInfo.value.Dump();
    var colorIndex := 0;
    assert fields[..0] == [];
    ghost var st := Render(fields[..0], image.width, image.height, measure);
    for i := 0 to |fields|
      invariant st == Render(fields[..i], image.width, image.height, measure)
      invariant image.ops == old(image.ops) + st.ops
      invariant colorIndex == st.colorIndex && !st.raised
    {
      RenderOneMore(fields, i, image.width, image.height, measure);
      colorIndex, raised := DrawField(image, fields[i].0, fields[i].1, colorIndex, measure, st, old(image.ops));
      st := Step(st, fields[i].0, fields[i].1, image.width, image.height, measure);
      if raised {
        RaisedIsFinal(fields, i + 1, image.width, image.height, measure);
        return;
      }
    }
    assert fields[..|fields|] == fields;
  }

  /** The box drawn k-th (from 0) occupies positions 3k, 3k+1 and 3k+2 of
      the log, as far as the log goes: an outline in `Palette[k mod 8]`
      lying inside the image with positive width and height, then the
      label's background in the same colour, with the outline's left edge
      and a top that is never above the image, then the label in black. */
  predicate GroupWellDrawn(ops: seq<DrawOp>, k: nat, w: nat, h: nat)
  {
    var color := Palette[k % |Palette|];
    3 * k < |ops|
    && ops[3 * k].Outline? && ops[3 * k].color == color && ops[3 * k].width == OutlineWidth
    && 0 <= ops[3 * k].rect.x1 < ops[3 * k].rect.x2 <= w
    && 0 <= ops[3 * k].rect.y1 < ops[3 * k].rect.y2 <= h
    && (3 * k + 1 < |ops| ==>
          ops[3 * k + 1].Fill? && ops[3 * k + 1].color == color
          && ops[3 * k + 1].rect.x1 == ops[3 * k].rect.x1 && 0 <= ops[3 * k + 1].rect.y1
          && ops[3 * k + 1].rect.x1 < ops[3 * k + 1].rect.x2
          && ops[3 * k + 1].rect.y1 < ops[3 * k + 1].rect.y2)
    && (3 * k + 2 < |ops| ==>
          ops[3 * k + 2].Text? && ops[3 * k + 2].color == "black" && ops[3 * k + 2].x == ops[3 * k].rect.x1 + 2)
  }

  /** Every box drawn so far is a complete group; only an exception on the
      label can leave the last group with its outline alone. */
  predicate WellDrawn(st: Rendering, w: nat, h: nat)
  {
    (|st.ops| == 3 * st.colorIndex || (st.raised && st.colorIndex > 0 && |st.ops| == 3 * st.colorIndex - 2))
    && forall k :: 0 <= k < st.colorIndex ==> GroupWellDrawn(st.ops, k, w, h)
  }

  /** Appending calls after complete groups keeps those groups as they were. */
  lemma GroupsKept(ops: seq<DrawOp>, extra: seq<DrawOp>, n: nat, w: nat, h: nat)
    requires |ops| == 3 * n
    requires forall k :: 0 <= k < n ==> GroupWellDrawn(ops, k, w, h)
    ensures forall k :: 0 <= k < n ==> GroupWellDrawn(ops + extra, k, w, h)
  {
    forall k | 0 <= k < n ensures GroupWellDrawn(ops + extra, k, w, h) {
      assert GroupWellDrawn(ops, k, w, h);
      assert (ops + extra)[3 * k] == ops[3 * k];
      assert (ops + extra)[3 * k + 1] == ops[3 * k + 1];
      assert (ops + extra)[3 * k + 2] == ops[3 * k + 2];
    }
  }

  /** Drawing a box inside the image after complete groups adds one more
      well-drawn group. */
  lemma DrawnWellDrawn(st: Rendering, name: string, r: Rect, text: Value, w: nat, h: nat, measure: string -> Metrics)
    requires WellDrawn(st, w, h) && !st.raised
    requires 0 <= r.x1 < r.x2 <= w && 0 <= r.y1 < r.y2 <= h
    ensures WellDrawn(Drawn(st, name, r, text, measure), w, h)
  {
    var n := st.colorIndex;
    var color := Palette[n % |Palette|];
    var extra := [Outline(r, color, OutlineWidth)];
    if Sliceable(text) {
      var caption := Label(name, text);
      extra := extra + LabelOps(r, caption, color, measure(caption));
    }
    assert Drawn(st, name, r, text, measure).ops == st.ops + extra;
    GroupsKept(st.ops, extra, n, w, h);
    assert GroupWellDrawn(st.ops + extra, n, w, h);
  }

  lemma {:induction false} StepWellDrawn(st: Rendering, name: string, v: Value, w: nat, h: nat, measure: string -> Metrics)
    requires WellDrawn(st, w, h)
    ensures WellDrawn(Step(st, name, v, w, h, measure), w, h)
  {
    if !st.raised && PlanFor(v, w, h).Draw? {
      var plan := PlanFor(v, w, h);
      DrawnWellDrawn(st, name, plan.rect, plan.text, w, h, measure);
    }
  }

  /** Whatever the fields hold, the drawing calls come in well-formed groups
      of three, one group per drawn box, coloured by the palette in turn. */
  lemma {:induction false} RenderWellDrawn(fields: seq<(string, Value)>, w: nat, h: nat, measure: string -> Metrics)
    ensures WellDrawn(Render(fields, w, h, measure), w, h)
  {
    if fields != [] {
      var last := fields[|fields| - 1];
      RenderWellDrawn(fields[..|fields| - 1], w, h, measure);
      StepWellDrawn(Render(fields[..|fields| - 1], w, h, measure), last.0, last.1, w, h, measure);
    }
  }

  /** A labelled field with four numeric corners whose box keeps positive
      width and height after scaling and clamping is drawn: the next call is
      its outline at that box, in the next palette colour. */
  lemma ValidFieldIsOutlined(fields: seq<(string, Value)>, name: string, v: Value, w: nat, h: nat, measure: string -> Metrics)
    requires !Render(fields, w, h, measure).raised
    requires FourCornerField(v) && NumericCorners(v)
    requires var r := Normalised(Numbers(Get(v.entries, "box_2d").items), w, h); r.x1 < r.x2 && r.y1 < r.y2
    ensures var before := Render(fields, w, h, measure);
            var after := Render(fields + [(name, v)], w, h, measure);
            |after.ops| > |before.ops| && after.ops[..|before.ops|] == before.ops
            && after.ops[|before.ops|]
               == Outline(Normalised(Numbers(Get(v.entries, "box_2d").items), w, h), Palette[before.colorIndex % |Palette|], OutlineWidth)
            && after.colorIndex == before.colorIndex + 1
  {
    assert (fields + [(name, v)])[..|fields|] == fields;
  }

  /** A labelled four-element box with a non-numeric corner raises and draws
      nothing more. */
  lemma BadCornerRaises(fields: seq<(string, Value)>, name: string, v: Value, w: nat, h: nat, measure: string -> Metrics)
    requires FourCornerField(v) && exists k :: 0 <= k < 4 && !Numeric(Get(v.entries, "box_2d").items[k])
    ensures var before := Render(fields, w, h, measure);
            Render(fields + [(name, v)], w, h, measure) == before.(raised := true)
  {
    assert (fields + [(name, v)])[..|fields|] == fields;
  }

  /** A field that is not a labelled box, or whose box is malformed or empty,
      adds no drawing call and does not advance the colour counter. */
  lemma SkippedFieldDrawsNothing(fields: seq<(string, Value)>, name: string, v: Value, w: nat, h: nat, measure: string -> Metrics)
    requires PlanFor(v, w, h) == Skip
    ensures Render(fields + [(name, v)], w, h, measure) == Render(fields, w, h, measure)
  {
    assert (fields + [(name, v)])[..|fields|] == fields;
  }

  /** The number of fields, counted from the first, whose plan is a box to draw. */
  function DrawnBoxes(fields: seq<(string, Value)>, w: nat, h: nat): nat
  {
    if fields == [] then 0
    else (if PlanFor(fields[0].1, w, h).Draw? then 1 else 0) + DrawnBoxes(fields[1..], w, h)
  }

  lemma {:induction false} DrawnBoxesSnoc(fields: seq<(string, Value)>, w: nat, h: nat)
    requires fields != []
    ensures DrawnBoxes(fields, w, h)
            == DrawnBoxes(fields[..|fields| - 1], w, h) + (if PlanFor(fields[|fields| - 1].1, w, h).Draw? then 1 else 0)
  {
    if |fields| > 1 {
      assert fields[1..][..|fields[1..]| - 1] == fields[..|fields| - 1][1..];
      DrawnBoxesSnoc(fields[1..], w, h);
    }
  }

  /** When nothing raises, the colour counter ends at the number of fields
      whose box is drawn: it advances on drawn boxes and on nothing else. */
  lemma {:induction false} ColorIndexCountsDrawnBoxes(fields: seq<(string, Value)>, w: nat, h: nat, measure: string -> Metrics)
    requires !Render(fields, w, h, measure).raised
    ensures Render(fields, w, h, measure).colorIndex == DrawnBoxes(fields, w, h)
  {
    if fields != [] {
      var init := fields[..|fields| - 1];
      var last := fields[|fields| - 1];
      assert !Render(init, w, h, measure).raised;
      ColorIndexCountsDrawnBoxes(init, w, h, measure);
      DrawnBoxesSnoc(fields, w, h);
    }
  }

  lemma MulMonotone(a: int, b: int, c: nat)
    requires a <= b
    ensures a * c <= b * c
  {
  }

  /** A coordinate inside the 0..1000 space lands inside the image. */
  lemma ScaledWithinImage(b: int, dim: nat)
    requires 0 <= b <= Scale
    ensures 0 <= Scaled(b, dim) <= dim
  {
    MulMonotone(0, b, dim);
    MulMonotone(b, Scale, dim);
    var r := Scaled(b, dim);
    assert Scale * r <= b * dim <= Scale * dim;
  }

  /** For a box inside the 0..1000 space the clamping changes nothing: the
      result is the scaled corners, ordered. */
  lemma {:induction false} InRangeBoxIsNotClamped(box: seq<int>, w: nat, h: nat)
    requires |box| == 4 && forall k | 0 <= k < 4 :: 0 <= box[k] <= Scale
    ensures var sx1, sy1, sx2, sy2 := Scaled(box[0], w), Scaled(box[1], h), Scaled(box[2], w), Scaled(box[3], h);
            Normalised(box, w, h) == Rect(Min(sx1, sx2), Min(sy1, sy2), Max(sx1, sx2), Max(sy1, sy2))
  {
    ScaledWithinImage(box[0], w);
    ScaledWithinImage(box[1], h);
    ScaledWithinImage(box[2], w);
    ScaledWithinImage(box[3], h);
  }

  /** The full 0..1000 box covers the whole image: index 0 and 2 scale with
      the width, index 1 and 3 with the height. */
  lemma FullBoxCoversImage(w: nat, h: nat)
    ensures Normalised([0, 0, Scale, Scale], w, h) == Rect(0, 0, w, h)
  {
  }

  /** `[0, 0, 500, 500]` on a 1000×1000 image is drawn at (0, 0, 500, 500),
      and the reversed `[1000, 0, 500, 1000]` is swapped to (500, 0, 1000, 1000). */
  lemma BoxExamples()
    ensures Normalised([0, 0, 500, 500], 1000, 1000) == Rect(0, 0, 500, 500)
    ensures Normalised([1000, 0, 500, 1000], 1000, 1000) == Rect(500, 0, 1000, 1000)
  {
  }

  /** The label is the field name, ": ", and at most 18 characters of text:
      the whole text when it has at most 15 characters, otherwise its first
      15 followed by "...". */
  lemma LabelShape(name: string, s: string)
    ensures var l := Label(name, Str(s));
            l[..|name| + 2] == name + ": "
            && |l| - |name| - 2 <= LabelLimit + 3
            && (|s| <= LabelLimit ==> l[|name| + 2..] == s)
            && (|s| > LabelLimit ==> l[|name| + 2..] == s[..LabelLimit] + "...")
  {
    var l := Label(name, Str(s));
    if |s| <= LabelLimit {
      assert l == (name + ": ") + s;
    } else {
      assert l == (name + ": ") + (s[..LabelLimit] + "...");
    }
  }
}
