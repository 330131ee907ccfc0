/**
 * The export's screen-to-page coordinate transform. The canvas has its origin at the top left
 * with y growing downwards; a PDF page has its origin at the bottom left with y growing upwards.
 * The offsets are the fixed empirical corrections of the editor's canvas.
 */
module Geometry {

  datatype Point = Point(x: real, y: real)

  /** Horizontal correction applied to every point. */
  const XOffset: real := -80.0
  /** Vertical correction for rectangles and lines. */
  const YOffset: real := 0.0
  /** Vertical correction for text anchors. */
  const TextYOffset: real := 12.0

  /** `calculatePageCoordinates`: the page point of a canvas point for rectangles and lines. */
  function ToPage(x: real, y: real, pageHeight: real): Point {
    Point(x + XOffset, pageHeight - y - YOffset)
  }

  /** `calculatePageCoordinatesForText`: the page point of a canvas point for a text anchor. */
  function ToPageForText(x: real, y: real, pageHeight: real): Point {
    Point(x + XOffset, pageHeight - y - TextYOffset)
  }

  /** The canvas point a page point came from (the inverse of `ToPage`). */
  function FromPage(p: Point, pageHeight: real): Point {
    Point(p.x - XOffset, pageHeight - p.y - YOffset)
  }

  /** A point shifts 80 units left and its y is measured from the bottom of the page. */
  lemma ToPageMeaning(x: real, y: real, h: real)
    ensures ToPage(x, y, h) == Point(x - 80.0, h - y)
    ensures ToPageForText(x, y, h) == Point(x - 80.0, h - y - 12.0)
  {
  }

  /** The transform loses nothing: mapping back recovers the canvas point, and the other way round. */
  lemma ToPageRoundTrip(x: real, y: real, p: Point, h: real)
    ensures FromPage(ToPage(x, y, h), h) == Point(x, y)
    ensures ToPage(FromPage(p, h).x, FromPage(p, h).y, h) == p
  {
  }
}
