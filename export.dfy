/**
 * `exportAnnotatedPDF`: every stored annotation is drawn into its page of the loaded PDF.
 * The PDF library's drawing calls are represented by the commands they would receive; the
 * library itself (font embedding, serialisation) is outside the model.
 */
module PdfExport {
  import opened AnnotationModel
  import opened Geometry
  import opened Colors

  datatype Font = Helvetica | HelveticaBold

  /** Opacity of exported highlights, in percent (the source passes 0.5). */
  const HighlightOpacityPercent: int := 50
  /** Stroke width of exported line segments. */
  const LineThickness: real := 2.0
  /** Text size used when an annotation carries none (or 0). */
  const DefaultFontSize: int := 12

  /** One drawing call on a page; colours are the channels handed to the library's `rgb`. */
  datatype DrawCommand =
    | DrawRectangle(x: real, y: real, width: real, height: real, color: Rgb, opacityPercent: int)
    | DrawText(text: string, x: real, y: real, size: int, font: Font, color: Rgb)
    | DrawLine(start: Point, end: Point, thickness: real, color: Rgb)

  /** A drawing call together with the index of the page it is made on. */
  datatype PageCommand = PageCommand(page: nat, command: DrawCommand)

  /** `fontSize || 12`. */
  function ExportFontSize(fontSize: int): int {
    if fontSize != 0 then fontSize else DefaultFontSize
  }

  function FontFor(isBold: bool): Font {
    if isBold then HelveticaBold else Helvetica
  }

  /** The line segments of a flat point list: one between each point and the next. */
  function Segments(points: seq<real>, pageHeight: real, color: Rgb): (r: seq<DrawCommand>)
    requires |points| % 2 == 0
    ensures |points| >= 2 ==> |r| == |points| / 2 - 1
    ensures |points| < 2 ==> r == []
  {
    if |points| < 4 then []
    else [DrawLine(ToPage(points[0], points[1], pageHeight), ToPage(points[2], points[3], pageHeight), LineThickness, color)]
         + Segments(points[2..], pageHeight, color)
  }

  /** Segment k joins point k to point k + 1, both moved to page coordinates, with thickness 2. */
  lemma {:induction false} SegmentAt(points: seq<real>, pageHeight: real, color: Rgb, k: nat)
    requires |points| % 2 == 0 && k + 1 < |points| / 2
    ensures Segments(points, pageHeight, color)[k]
         == DrawLine(Point(points[2 * k] - 80.0, pageHeight - points[2 * k + 1]),
                     Point(points[2 * k + 2] - 80.0, pageHeight - points[2 * k + 3]),
                     2.0, color)
  {
    if k > 0 {
      SegmentAt(points[2..], pageHeight, color, k - 1);
      assert points[2..][2 * (k - 1)] == points[2 * k];
    }
  }

  /** The drawing calls one annotation makes on a page of the given height. */
  function Commands(a: Annotation, pageHeight: real): seq<DrawCommand>
    requires EvenPoints(a)
  {
    match a
    case HighlightAnnotation(_, _, x, y, width, height, color) =>
      var c := ToPage(x, y, pageHeight);
      [DrawRectangle(c.x, c.y - height, width, height, Channels(color), HighlightOpacityPercent)]
    case TextAnnotation(_, _, x, y, text, color, fontSize, isBold, _, _) =>
      var c := ToPageForText(x, y, pageHeight);
      [DrawText(text, c.x, c.y, ExportFontSize(fontSize), FontFor(isBold), FillColor(color))]
    case DrawAnnotation(_, _, points, color) =>
      if |points| > 2 then Segments(points, pageHeight, FillColor(color)) else []
    case SignatureAnnotation(_, _, _, _, points, color) =>
      if |points| > 2 then Segments(points, pageHeight, FillColor(color)) else []
  }

  /**
   * A highlight becomes one rectangle at opacity 50% whose top-left corner is the canvas
   * corner moved to the page: its y is the moved y minus the height.
   */
  lemma HighlightExport(a: Annotation, h: real)
    requires a.HighlightAnnotation?
    ensures |Commands(a, h)| == 1
    ensures Commands(a, h)[0]
         == DrawRectangle(a.x - 80.0, h - a.y - a.height, a.width, a.height, Channels(a.color), 50)
  {
  }

  /**
   * A text annotation becomes one text call 12 units lower than other kinds, in the bold font
   * exactly when it is bold, at its own size or 12 when it has none, and in black when it has
   * no colour.
   */
  lemma TextExport(a: Annotation, h: real)
    requires a.TextAnnotation?
    ensures |Commands(a, h)| == 1 && Commands(a, h)[0].DrawText?
    ensures var t := Commands(a, h)[0];
      && t.text == a.text && t.x == a.x - 80.0 && t.y == h - a.y - 12.0
      && (t.font == HelveticaBold <==> a.isBold)
      && t.size == (if a.fontSize == 0 then 12 else a.fontSize)
      && (a.color == "" ==> t.color == Black)
      && (a.color != "" ==> t.color == Channels(a.color))
  {
  }

  /**
   * A stroke of n >= 2 points becomes exactly n - 1 segments, segment k joining point k to
   * point k + 1; a stroke without a colour (every signature) is drawn in black.
   */
  lemma StrokeExport(a: Annotation, h: real)
    requires a.IsStroke() && EvenPoints(a) && |a.points| >= 4
    ensures |Commands(a, h)| == |a.points| / 2 - 1
    ensures forall k :: 0 <= k < |a.points| / 2 - 1 ==>
      Commands(a, h)[k] == DrawLine(Point(a.points[2 * k] - 80.0, h - a.points[2 * k + 1]),
                                    Point(a.points[2 * k + 2] - 80.0, h - a.points[2 * k + 3]),
                                    2.0, if a.color == "" then Black else Channels(a.color))
  {
    var color := FillColor(a.color);
    StrokeSegments(a, h);
    SegmentsAt(a.points, h, color);
  }

  lemma StrokeSegments(a: Annotation, h: real)
    requires a.IsStroke() && EvenPoints(a) && |a.points| >= 4
    ensures Commands(a, h) == Segments(a.points, h, if a.color == "" then Black else Channels(a.color))
  {
  }

  /** `SegmentAt` for every k at once. */
  lemma SegmentsAt(points: seq<real>, h: real, color: Rgb)
    requires |points| % 2 == 0 && |points| >= 2
    ensures forall k :: 0 <= k < |points| / 2 - 1 ==>
      Segments(points, h, color)[k] == DrawLine(Point(points[2 * k] - 80.0, h - points[2 * k + 1]),
                                               Point(points[2 * k + 2] - 80.0, h - points[2 * k + 3]),
                                               2.0, color)
  {
    forall k | 0 <= k < |points| / 2 - 1 {
      SegmentAt(points, h, color, k);
    }
  }

  /** Every segment of a stroke is drawn in the stroke's colour. */
  lemma {:induction false} SegmentsColor(points: seq<real>, h: real, color: Rgb)
    requires |points| % 2 == 0
    ensures forall c :: c in Segments(points, h, color) ==> c.color == color
  {
    if |points| >= 4 {
      SegmentsColor(points[2..], h, color);
    }
  }

  /**
   * The annotation's colour is `#` and six hex digits (any palette colour, any opaque picker
   * colour); a highlight always has one, the other kinds may have none.
   */
  predicate ProperColor(a: Annotation) {
    if a.HighlightAnnotation? then WellFormed(a.color) else a.color == "" || WellFormed(a.color)
  }

  /**
   * The colours the editor can give an annotation: what the palette or the picker produced
   * (`transparent` included), or none on a kind other than a highlight.
   */
  predicate EditorColor(a: Annotation) {
    if a.HighlightAnnotation? then PickerColor(a.color) else a.color == "" || PickerColor(a.color)
  }

  /** An annotation with a proper colour hands the library byte channels in every call. */
  lemma CommandColors(a: Annotation, h: real)
    requires EvenPoints(a) && ProperColor(a)
    ensures forall c :: c in Commands(a, h) ==> ByteChannels(c.color)
  {
    if a.color != "" {
      WellFormedChannels(a.color);
    }
    if a.IsStroke() && |a.points| > 2 {
      StrokeSegments(a, h);
      SegmentsColor(a.points, h, FillColor(a.color));
    }
  }

  /** The calls `cmds`, all made on page `page`. */
  function Placed(page: nat, cmds: seq<DrawCommand>): seq<PageCommand> {
    if cmds == [] then [] else [PageCommand(page, cmds[0])] + Placed(page, cmds[1..])
  }

  /**
   * What an export run leaves drawn in the document, and whether it got to the end. An aborted
   * run has still drawn every annotation before the one that failed.
   */
  datatype ExportRun = Completed(drawn: seq<PageCommand>) | Aborted(drawn: seq<PageCommand>)

  function Prepend(prefix: seq<PageCommand>, run: ExportRun): ExportRun {
    match run
    case Completed(d) => Completed(prefix + d)
    case Aborted(d) => Aborted(prefix + d)
  }

  predicate AllEvenPoints(annotations: seq<Annotation>) {
    forall a :: a in annotations ==> EvenPoints(a)
  }

  /**
   * The loop over the annotations, for any way `draw` of turning one annotation into drawing
   * calls: each annotation's page is looked up first; a page index with no page aborts the whole
   * run (the source's exception), otherwise its calls are made on that page.
   */
  function RunExport(draw: (Annotation, real) -> seq<DrawCommand>, annotations: seq<Annotation>,
                     pageHeights: seq<real>): ExportRun
  {
    if annotations == [] then Completed([])
    else
      var a := annotations[0];
      if a.page >= |pageHeights| then Aborted([])
      else Prepend(Placed(a.page, draw(a, pageHeights[a.page])), RunExport(draw, annotations[1..], pageHeights))
  }

  /** The calls of one annotation; only strokes of whole points are ever exported. */
  function DrawOf(a: Annotation, pageHeight: real): seq<DrawCommand> {
    if EvenPoints(a) then Commands(a, pageHeight) else []
  }

  /** `exportAnnotatedPDF`'s drawing of the stored annotations into the pages of the given heights. */
  function Export(annotations: seq<Annotation>, pageHeights: seq<real>): ExportRun
    requires AllEvenPoints(annotations)
  {
    RunExport(DrawOf, annotations, pageHeights)
  }

  /** The export fails exactly when some annotation names a page the document does not have. */
  lemma {:induction false} ExportAbortsIff(draw: (Annotation, real) -> seq<DrawCommand>,
                                           annotations: seq<Annotation>, pageHeights: seq<real>)
    ensures RunExport(draw, annotations, pageHeights).Aborted?
        <==> exists i :: 0 <= i < |annotations| && annotations[i].page >= |pageHeights|
  {
    if annotations != [] {
      ExportAbortsIff(draw, annotations[1..], pageHeights);
      if RunExport(draw, annotations[1..], pageHeights).Aborted? {
        var i :| 0 <= i < |annotations[1..]| && annotations[1..][i].page >= |pageHeights|;
        assert annotations[i + 1].page >= |pageHeights|;
      }
      if exists i :: 0 <= i < |annotations| && annotations[i].page >= |pageHeights| {
        var i :| 0 <= i < |annotations| && annotations[i].page >= |pageHeights|;
        if i > 0 {
          assert annotations[1..][i - 1].page >= |pageHeights|;
        }
      }
    }
  }

  /** Annotations are drawn in insertion order: exporting a + b draws a's calls, then b's. */
  lemma {:induction false} ExportConcat(draw: (Annotation, real) -> seq<DrawCommand>,
                                        a: seq<Annotation>, b: seq<Annotation>, pageHeights: seq<real>)
    ensures RunExport(draw, a + b, pageHeights)
         == match RunExport(draw, a, pageHeights)
            case Completed(d) => Prepend(d, RunExport(draw, b, pageHeights))
            case Aborted(d) => Aborted(d)
  {
    if a == [] {
      assert a + b == b;
      match RunExport(draw, b, pageHeights)
      case Completed(d) => assert [] + d == d;
      case Aborted(d) => assert [] + d == d;
    } else {
      assert (a + b)[0] == a[0] && (a + b)[1..] == a[1..] + b;
      ExportConcat(draw, a[1..], b, pageHeights);
      if a[0].page < |pageHeights| {
        var p := Placed(a[0].page, draw(a[0], pageHeights[a[0].page]));
        match RunExport(draw, a[1..], pageHeights) {
          case Completed(d) =>
            match RunExport(draw, b, pageHeights) {
              case Completed(e) => assert p + (d + e) == (p + d) + e;
              case Aborted(e) => assert p + (d + e) == (p + d) + e;
            }
          case Aborted(d) =>
        }
      }
    }
  }

  /**
   * A failed export leaves drawn in the document everything the annotations before the first
   * bad page index drew; nothing of the bad one or of those after it.
   */
  lemma ExportAbortKeepsEarlierDrawings(draw: (Annotation, real) -> seq<DrawCommand>,
                                        annotations: seq<Annotation>, pageHeights: seq<real>, k: nat)
    requires k < |annotations| && annotations[k].page >= |pageHeights|
    requires forall j :: 0 <= j < k ==> annotations[j].page < |pageHeights|
    ensures RunExport(draw, annotations, pageHeights).Aborted?
    ensures RunExport(draw, annotations[..k], pageHeights).Completed?
    ensures RunExport(draw, annotations, pageHeights).drawn == RunExport(draw, annotations[..k], pageHeights).drawn
  {
    var front, back := annotations[..k], annotations[k..];
    assert front + back == annotations;
    assert back[0] == annotations[k];
    ExportAbortsIff(draw, front, pageHeights);
    ExportConcat(draw, front, back, pageHeights);
    assert RunExport(draw, front + back, pageHeights) == Aborted(RunExport(draw, front, pageHeights).drawn + []);
    assert RunExport(draw, front, pageHeights).drawn + [] == RunExport(draw, front, pageHeights).drawn;
  }

  /** A drawn page call is one of the calls it was placed from. */
  lemma {:induction false} PlacedFrom(page: nat, cmds: seq<DrawCommand>)
    ensures forall pc :: pc in Placed(page, cmds) ==> pc.page == page && pc.command in cmds
  {
    if cmds != [] {
      PlacedFrom(page, cmds[1..]);
    }
  }

  /** Whatever holds of every call `draw` makes for the annotations holds of everything a run draws. */
  lemma {:induction false} RunExportKeeps(draw: (Annotation, real) -> seq<DrawCommand>, annotations: seq<Annotation>,
                                          pageHeights: seq<real>, ok: DrawCommand -> bool)
    requires forall a, h, c :: a in annotations && c in draw(a, h) ==> ok(c)
    ensures forall pc :: pc in RunExport(draw, annotations, pageHeights).drawn ==> ok(pc.command)
  {
    if annotations != [] && annotations[0].page < |pageHeights| {
      var a := annotations[0];
      var placed := Placed(a.page, draw(a, pageHeights[a.page]));
      RunExportKeeps(draw, annotations[1..], pageHeights, ok);
      PlacedFrom(a.page, draw(a, pageHeights[a.page]));
      var rest := RunExport(draw, annotations[1..], pageHeights).drawn;
      assert RunExport(draw, annotations, pageHeights).drawn == placed + rest;
      forall pc: PageCommand | pc in placed + rest ensures ok(pc.command) {
        if pc in placed {
          var h, c := pageHeights[a.page], pc.command;
          assert a in annotations && c in draw(a, h);
          assert ok(c);
        }
      }
    }
  }

  /**
   * When every annotation has a proper colour, every channel the export hands the library,
   * completed or aborted, is a whole number in 0..255.
   */
  lemma ExportColors(annotations: seq<Annotation>, pageHeights: seq<real>)
    requires AllEvenPoints(annotations)
    requires forall a :: a in annotations ==> ProperColor(a)
    ensures forall pc :: pc in Export(annotations, pageHeights).drawn ==> ByteChannels(pc.command.color)
  {
    var ok := (c: DrawCommand) => ByteChannels(c.color);
    forall a, h, c | a in annotations && c in DrawOf(a, h) ensures ok(c) {
      CommandColors(a, h);
    }
    RunExportKeeps(DrawOf, annotations, pageHeights, ok);
  }

  lemma PrependAssoc(a: seq<PageCommand>, b: seq<PageCommand>, run: ExportRun)
    ensures Prepend(a, Prepend(b, run)) == Prepend(a + b, run)
  {
    assert a + (b + run.drawn) == (a + b) + run.drawn;
  }

  /** `exportAnnotatedPDF`'s loops: the outer one over the annotations, the inner one over a stroke's points. */
  method ExportToPages(annotations: seq<Annotation>, pageHeights: seq<real>) returns (run: ExportRun)
    requires AllEvenPoints(annotations)
    ensures run == Export(annotations, pageHeights)
  {
    var drawn: seq<PageCommand> := [];
    var i := 0;
    while i < |annotations|
      invariant 0 <= i <= |annotations|
      invariant Prepend(drawn, RunExport(DrawOf, annotations[i..], pageHeights)) == Export(annotations, pageHeights)
    {
      var a := annotations[i];
      assert annotations[i..][0] == a && annotations[i..][1..] == annotations[i + 1..];
      if a.page >= |pageHeights| {
        assert drawn + [] == drawn;
        return Aborted(drawn);
      }
      var pageHeight := pageHeights[a.page];
      assert DrawOf(a, pageHeight) == Commands(a, pageHeight) by { assert EvenPoints(a); }
      ghost var before := drawn;
      drawn := DrawAnnotationOnPage(drawn, a, pageHeight);
      PrependAssoc(before, Placed(a.page, Commands(a, pageHeight)), RunExport(DrawOf, annotations[i + 1..], pageHeights));
      i := i + 1;
    }
    assert annotations[i..] == [];
    assert drawn + [] == drawn;
    run := Completed(drawn);
  }

  /** The body of the loop: the `switch` on the annotation's kind, drawing on its page. */
  method DrawAnnotationOnPage(drawn: seq<PageCommand>, a: Annotation, pageHeight: real) returns (after: seq<PageCommand>)
    requires EvenPoints(a)
    ensures after == drawn + Placed(a.page, Commands(a, pageHeight))
  {
    match a {
      case HighlightAnnotation(_, page, x, y, width, height, color) =>
        var c := ToPage(x, y, pageHeight);
        after := drawn + [PageCommand(page, DrawRectangle(c.x, c.y - height, width, height, Channels(color), HighlightOpacityPercent))];
      case TextAnnotation(_, page, x, y, text, color, fontSize, isBold, _, _) =>
        var font := if isBold then HelveticaBold else Helvetica;
        var rgb := if color != "" then Channels(color) else Black;
        var c := ToPageForText(x, y, pageHeight);
        var size := if fontSize != 0 then fontSize else DefaultFontSize;
        after := drawn + [PageCommand(page, DrawText(text, c.x, c.y, size, font, rgb))];
      case DrawAnnotation(_, page, points, color) =>
        after := DrawStroke(drawn, page, points, pageHeight, FillColor(color));
      case SignatureAnnotation(_, page, _, _, points, color) =>
        after := DrawStroke(drawn, page, points, pageHeight, FillColor(color));
    }
  }

  /** The inner segment loop: `for (i = 0; i < points.length - 2; i += 2)` drawing point i/2 to point i/2 + 1. */
  method DrawStroke(drawn: seq<PageCommand>, page: nat, points: seq<real>, pageHeight: real, color: Rgb)
    returns (after: seq<PageCommand>)
    requires |points| % 2 == 0
    ensures after == drawn + Placed(page, if |points| > 2 then Segments(points, pageHeight, color) else [])
  {
    after := drawn;
    if |points| > 2 {
      var j := 0;
      while j < |points| - 2
        invariant j % 2 == 0 && 0 <= j <= |points| - 2
        invariant after + Placed(page, Segments(points[j..], pageHeight, color))
               == drawn + Placed(page, Segments(points, pageHeight, color))
      {
        var start := ToPage(points[j], points[j + 1], pageHeight);
        var end := ToPage(points[j + 2], points[j + 3], pageHeight);
        assert points[j..][2..] == points[j + 2..];
        after := after + [PageCommand(page, DrawLine(start, end, LineThickness, color))];
        j := j + 2;
      }
      assert Segments(points[j..], pageHeight, color) == [];
      assert after + [] == after;
    } else {
      assert drawn + [] == drawn;
    }
  }
}
