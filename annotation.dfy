/**
 * The annotation editor's record of one mark on a page: a closed union of highlight, text,
 * freehand drawing and signature. Geometry is in canvas pixels.
 *
 * The source declares `color`, `fontSize` and the style flags of some kinds as optional. Every
 * reader of those fields only tests them for truthiness (`color ? ... : black`,
 * `fontSize || 12`, `isBold ? ... : ...`), so an absent value is represented by the value that
 * is equally falsy: the empty string, 0 and false.
 */
module AnnotationModel {
  import opened Sequences
  import opened JsStrings

  datatype AnnotationType = Highlight | Text | Draw | Signature

  datatype Annotation =
    | HighlightAnnotation(id: string, page: nat, x: real, y: real, width: real, height: real, color: string)
    | TextAnnotation(id: string, page: nat, x: real, y: real, text: string, color: string,
                     fontSize: int, isBold: bool, isItalic: bool, isUnderline: bool)
      /** `points` is the flat list x0, y0, x1, y1, ... of the stroke. */
    | DrawAnnotation(id: string, page: nat, points: seq<real>, color: string)
    | SignatureAnnotation(id: string, page: nat, x: real, y: real, points: seq<real>, color: string)
  {
    /** Drawings and signatures are both strokes: a polyline of points. */
    predicate IsStroke() {
      DrawAnnotation? || SignatureAnnotation?
    }
  }

  /** The point list of a stroke holds whole (x, y) pairs. */
  predicate EvenPoints(a: Annotation) {
    a.IsStroke() ==> |a.points| % 2 == 0
  }

  /**
   * What a gesture in progress can hold: a highlight, or a stroke with at least its first
   * point and only whole points. Text is never built by a pointer gesture.
   */
  predicate InProgress(a: Annotation) {
    && !a.TextAnnotation?
    && (a.IsStroke() ==> |a.points| % 2 == 0 && |a.points| >= 2)
  }

  /** What the stored list can hold: strokes of two points or more, highlights of non-zero width, visible text. */
  predicate Committed(a: Annotation) {
    match a
    case HighlightAnnotation(_, _, _, _, width, _, _) => width != 0.0
    case TextAnnotation(_, _, _, _, text, _, _, _, _, _) => Trim(text) != ""
    case DrawAnnotation(_, _, points, _) => |points| % 2 == 0 && |points| >= 4
    case SignatureAnnotation(_, _, _, _, points, _) => |points| % 2 == 0 && |points| >= 4
  }

  /** The mouse-up commit check (`shouldSave`). */
  function ShouldSave(a: Annotation): bool {
    match a
    case DrawAnnotation(_, _, points, _) => |points| > 2
    case HighlightAnnotation(_, _, _, _, width, _, _) => width != 0.0
    case SignatureAnnotation(_, _, _, _, points, _) => |points| > 2
    case TextAnnotation(_, _, _, _, _, _, _, _, _, _) => false
  }

  /**
   * On a gesture in progress the commit check accepts exactly what the stored list may hold:
   * a stroke needs two points or more, a highlight a non-zero width whatever its height.
   */
  lemma ShouldSaveCommits(a: Annotation)
    requires InProgress(a)
    ensures ShouldSave(a) <==> Committed(a)
    ensures a.IsStroke() ==> (ShouldSave(a) <==> |a.points| / 2 >= 2)
    ensures a.HighlightAnnotation? ==> (ShouldSave(a) <==> a.width != 0.0)
  {
  }

  /** The test of the canvas filter: does an annotation belong to page `page`? */
  function PageIs(page: nat): Annotation -> bool {
    (a: Annotation) => a.page == page
  }

  /** The annotations the canvas shows for page `page`. */
  function OnPage(annotations: seq<Annotation>, page: nat): (r: seq<Annotation>)
    ensures forall a :: a in r <==> a in annotations && a.page == page
  {
    Filter(PageIs(page), annotations)
  }

  /** Every annotation of the page is shown as often as it is stored, and nothing of another page. */
  lemma OnPageCount(annotations: seq<Annotation>, page: nat, a: Annotation)
    ensures multiset(OnPage(annotations, page))[a] == if a.page == page then multiset(annotations)[a] else 0
  {
    FilterCount(PageIs(page), annotations, a);
  }

  /** The canvas keeps insertion order: a later annotation is drawn after every earlier one. */
  lemma OnPageConcat(earlier: seq<Annotation>, later: seq<Annotation>, page: nat)
    ensures OnPage(earlier + later, page) == OnPage(earlier, page) + OnPage(later, page)
  {
    FilterConcat(PageIs(page), earlier, later);
  }

  /** A newly appended annotation appears last on its own page and leaves other pages as they were. */
  lemma OnPageAppend(annotations: seq<Annotation>, a: Annotation, page: nat)
    ensures OnPage(annotations + [a], page)
      == OnPage(annotations, page) + (if a.page == page then [a] else [])
  {
    FilterSnoc(PageIs(page), annotations, a);
  }
}
