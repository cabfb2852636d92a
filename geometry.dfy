/** Integer rectangles and paddings as the group panel uses them: the header
    strip, the header text bounds and the design-time hatch placeholder. */
module Geometry {

  /** A rectangle given by its top-left corner and its (possibly negative) extent. */
  datatype Rect = Rect(x: int, y: int, width: int, height: int)

  /** Inner spacing of a control, one value per side. */
  datatype Padding = Padding(left: int, top: int, right: int, bottom: int)

  /** Hit test of a point against a rectangle (or the region built from it):
      half-open on the right and the bottom edge; a rectangle with a
      non-positive extent contains no point. */
  predicate Contains(r: Rect, px: int, py: int)
  {
    r.x <= px < r.x + r.width && r.y <= py < r.y + r.height
  }

  /** The header strip of a panel `width` wide: anchored at the origin and
      `h` high, so that a point is in it exactly when it lies in the top `h`
      rows of the control. */
  function HeaderRect(width: int, h: int): (r: Rect)
    ensures forall px, py :: Contains(r, px, py) <==> 0 <= px < width && 0 <= py < h
  {
    Rect(0, 0, width, h)
  }

  /** Margins that keep the caption clear of the header's edges (and of the
      expand/collapse glyph); they depend on the text direction only. */
  function TextLeftMargin(rtl: bool): int { if rtl then 16 else 3 }
  function TextRightMargin(rtl: bool): int { if rtl then 3 else 13 }

  /** The header rectangle shrunk horizontally for the caption: the vertical
      extent is untouched, the left and right edges move inwards by the
      direction's margins, and when the header is wide enough for both
      margins every point of the text bounds lies in the header. */
  function TextBounds(header: Rect, rtl: bool): (r: Rect)
    ensures r.y == header.y && r.height == header.height
    ensures r.x == header.x + TextLeftMargin(rtl)
    ensures r.x + r.width == header.x + header.width - TextRightMargin(rtl)
    ensures header.width >= TextLeftMargin(rtl) + TextRightMargin(rtl) ==>
              forall px, py :: Contains(r, px, py) ==> Contains(header, px, py)
  {
    if rtl then header.(x := header.x + 16, width := header.width - 19)
    else header.(x := header.x + 3, width := header.width - 16)
  }

  /** The body placeholder drawn at design time: it starts one pixel right of
      the client area's left edge and one pixel below the header, and stops
      two pixels short of the client area's right and bottom edges, so every
      point of it is below the header (and, for a non-negative header height,
      inside the client area). */
  function HatchRect(client: Rect, headerHeight: int): (r: Rect)
    ensures r.x == client.x + 1 && r.y == client.y + headerHeight + 1
    ensures r.x + r.width == client.x + client.width - 2
    ensures r.y + r.height == client.y + client.height - 2
    ensures forall px, py :: Contains(r, px, py) ==>
              py > client.y + headerHeight && (headerHeight >= 0 ==> Contains(client, px, py))
  {
    Rect(client.x + 1, client.y + headerHeight + 1, client.width - 3, client.height - (headerHeight + 3))
  }
}
