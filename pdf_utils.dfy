/**
 * `embedAnnotationsToPDF`: the standalone embedder. Annotation number i goes to page
 * `i % pages.length`; text and highlights are drawn there, other kinds are skipped. Loading and
 * saving the PDF are outside the model: the result is the list of drawing calls made, or the
 * rejection the function ends with.
 */
module PdfUtils {
  import opened Optional
  import opened AnnotationModel
  import opened StoreModel

  /** Text size of embedded text. */
  const TextSize: int := 12
  /** Opacity of embedded rectangles, in percent (the source passes 0.5). */
  const RectangleOpacityPercent: int := 50

  /** One drawing call with the values it receives; the colour string is passed through as it is. */
  datatype EmbedCommand =
    | EmbedText(page: nat, content: Option<string>, x: real, y: real, size: int, color: string)
    | EmbedRectangle(page: nat, x: real, y: real, width: Option<real>, height: Option<real>,
                     color: string, opacityPercent: int)

  /** The saved document's drawing calls, or a rejection (a drawing call on a page that does not exist). */
  datatype Embedding = Saved(commands: seq<EmbedCommand>) | Rejected

  /** The page annotation number `index` is drawn on. */
  function PageOf(index: nat, pageCount: nat): (page: nat)
    requires pageCount > 0
    ensures page < pageCount
    ensures index < pageCount ==> page == index
  {
    index % pageCount
  }

  /** Annotations `pageCount` places apart are drawn on the same page. */
  lemma PageOfPeriodic(index: nat, pageCount: nat)
    requires pageCount > 0
    ensures PageOf(index + pageCount, pageCount) == PageOf(index, pageCount)
  {
    var q, r := index / pageCount, index % pageCount;
    assert index == q * pageCount + r && 0 <= r < pageCount;
    assert index + pageCount == (q + 1) * pageCount + r;
    DivisionUnique(index + pageCount, pageCount, q + 1, r);
  }

  /** A quotient and remainder in range are the ones Euclidean division gives. */
  lemma DivisionUnique(n: int, d: int, q: int, r: int)
    requires d > 0 && n == q * d + r && 0 <= r < d
    ensures n % d == r
  {
    var k := q - n / d;
    assert k * d == n % d - r by {
      assert n == (n / d) * d + n % d;
      assert q * d - (n / d) * d == k * d;
    }
    if k > 0 {
      MultipleAtLeast(k, d);
      assert false;
    } else if k < 0 {
      MultipleAtLeast(-k, d);
      assert false;
    }
  }

  lemma MultipleAtLeast(k: int, d: int)
    requires k >= 1 && d > 0
    ensures k * d >= d
  {
    assert k * d == (k - 1) * d + d;
  }

  /** Only text and highlights draw anything. */
  predicate Draws(a: StoreAnnotation) {
    a.kind == Text || a.kind == Highlight
  }

  function CommandFor(a: StoreAnnotation, page: nat): EmbedCommand
    requires Draws(a)
  {
    if a.kind == Text then
      EmbedText(page, a.content, a.coordinates.x, a.coordinates.y, TextSize, a.color)
    else
      EmbedRectangle(page, a.coordinates.x, a.coordinates.y, a.coordinates.width, a.coordinates.height,
                     a.color, RectangleOpacityPercent)
  }

  /** What the `forEach` has done after the annotations `annotations`, taken in order. */
  function EmbedAll(annotations: seq<StoreAnnotation>, pageCount: nat): Embedding {
    if annotations == [] then Saved([])
    else
      var i := |annotations| - 1;
      var a := annotations[i];
      var before := EmbedAll(annotations[..i], pageCount);
      if before.Rejected? || !Draws(a) then before
      else if pageCount == 0 then Rejected
      else Saved(before.commands + [CommandFor(a, PageOf(i, pageCount))])
  }

  /** How many of the annotations draw something. */
  function CountDraws(annotations: seq<StoreAnnotation>): nat {
    if annotations == [] then 0
    else CountDraws(annotations[..|annotations| - 1]) + if Draws(annotations[|annotations| - 1]) then 1 else 0
  }

  /**
   * The embedder is rejected exactly when the document has no page and some annotation needs
   * one; otherwise it makes one call per text or highlight annotation and none for the others.
   */
  lemma {:induction false} EmbedOutcome(annotations: seq<StoreAnnotation>, pageCount: nat)
    ensures EmbedAll(annotations, pageCount).Rejected?
        <==> pageCount == 0 && exists a :: a in annotations && Draws(a)
    ensures EmbedAll(annotations, pageCount).Saved? ==>
        |EmbedAll(annotations, pageCount).commands| == CountDraws(annotations)
  {
    if annotations != [] {
      var i := |annotations| - 1;
      var front := annotations[..i];
      EmbedOutcome(front, pageCount);
      assert annotations == front + [annotations[i]];
      if exists a :: a in front && Draws(a) {
        var a :| a in front && Draws(a);
        assert a in annotations;
      }
    }
  }

  /**
   * Annotations are drawn once each, in list order: the call of the i-th annotation, if it
   * draws, comes right after the calls of the drawing annotations before it; text draws its
   * content at its own coordinates at size 12, a highlight its rectangle at opacity 50%.
   */
  lemma {:induction false} EmbedAt(annotations: seq<StoreAnnotation>, pageCount: nat, i: nat)
    requires pageCount > 0 && i < |annotations| && Draws(annotations[i])
    ensures EmbedAll(annotations, pageCount).Saved?
    ensures var cmds := EmbedAll(annotations, pageCount).commands;
      var a := annotations[i];
      && CountDraws(annotations[..i]) < |cmds|
      && (a.kind == Text ==>
            cmds[CountDraws(annotations[..i])]
              == EmbedText(i % pageCount, a.content, a.coordinates.x, a.coordinates.y, 12, a.color))
      && (a.kind == Highlight ==>
            cmds[CountDraws(annotations[..i])]
              == EmbedRectangle(i % pageCount, a.coordinates.x, a.coordinates.y,
                                a.coordinates.width, a.coordinates.height, a.color, 50))
  {
    var last := |annotations| - 1;
    var front := annotations[..last];
    EmbedOutcome(annotations, pageCount);
    EmbedOutcome(front, pageCount);
    if i < last {
      EmbedAt(front, pageCount, i);
      assert front[..i] == annotations[..i];
    } else {
      assert annotations[..i] == front;
    }
  }

  lemma {:induction false} RejectedStaysRejected(annotations: seq<StoreAnnotation>, pageCount: nat, k: nat)
    requires k <= |annotations| && EmbedAll(annotations[..k], pageCount).Rejected?
    ensures EmbedAll(annotations, pageCount).Rejected?
  {
    if k < |annotations| {
      var last := |annotations| - 1;
      assert annotations[..last][..k] == annotations[..k];
      RejectedStaysRejected(annotations[..last], pageCount, k);
    } else {
      assert annotations[..k] == annotations;
    }
  }

  /** The `forEach` loop of `embedAnnotationsToPDF`. */
  method EmbedAnnotationsToPdf(annotations: seq<StoreAnnotation>, pageCount: nat) returns (result: Embedding)
    ensures result == EmbedAll(annotations, pageCount)
  {
    var commands: seq<EmbedCommand> := [];
    var i := 0;
    while i < |annotations|
      invariant 0 <= i <= |annotations|
      invariant EmbedAll(annotations[..i], pageCount) == Saved(commands)
    {
      var a := annotations[i];
      assert annotations[..i + 1][..i] == annotations[..i];
      match a.kind {
        case Text =>
          if pageCount == 0 {
            RejectedStaysRejected(annotations, pageCount, i + 1);
            return Rejected;
          }
          commands := commands + [EmbedText(PageOf(i, pageCount), a.content, a.coordinates.x, a.coordinates.y, TextSize, a.color)];
        case Highlight =>
          if pageCount == 0 {
            RejectedStaysRejected(annotations, pageCount, i + 1);
            return Rejected;
          }
          commands := commands + [EmbedRectangle(PageOf(i, pageCount), a.coordinates.x, a.coordinates.y,
                                                 a.coordinates.width, a.coordinates.height, a.color,
                                                 RectangleOpacityPercent)];
        case Draw =>
        case Signature =>
      }
      i := i + 1;
    }
    assert annotations[..i] == annotations;
    result := Saved(commands);
  }
}
