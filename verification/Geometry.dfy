/**
  The CoreGraphics / UIKit value types the widget computes with. `CGFloat`
  is modelled as `real`: there is no rounding and no NaN.
 */
module Geometry {

  datatype Point = Point(x: real, y: real)

  datatype Size = Size(width: real, height: real)

  datatype Rect = Rect(origin: Point, size: Size)

  /** `UIEdgeInsets`: one inset per side. */
  datatype EdgeInsets = EdgeInsets(top: real, left: real, bottom: real, right: real)

  /** `CGSize.zero`. */
  const ZeroSize: Size := Size(0.0, 0.0)

  /**
    `CGRect.maxX`. CoreGraphics standardises a rectangle before measuring it,
    so a negative width extends the rectangle to the left of its origin and
    the largest x is then the origin itself.
   */
  function MaxX(r: Rect): (m: real)
    ensures m >= r.origin.x
    ensures r.size.width >= 0.0 ==> m == r.origin.x + r.size.width
    ensures r.size.width < 0.0 ==> m == r.origin.x
  {
    if r.size.width >= 0.0 then r.origin.x + r.size.width else r.origin.x
  }
}
