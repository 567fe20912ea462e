/**
 * The plain `{x, y, width, height}` and `{x, y, radius}` records that the
 * collision code passes around, and the side labels it reports.
 */
module Shapes {

  /** An axis-aligned rectangle; `y` grows downwards as on the canvas. */
  datatype Rect = Rect(x: real, y: real, width: real, height: real)

  datatype Circle = Circle(x: real, y: real, radius: real)

  /** The labels `'left'`, `'right'`, `'top'` and `'bottom'`. */
  datatype Side = Left | Right | Top | Bottom

  /** The label on the other side of the contact. */
  function Opposite(s: Side): (r: Side)
    ensures r != s
  {
    match s
    case Left => Right
    case Right => Left
    case Top => Bottom
    case Bottom => Top
  }

  lemma OppositeInvolution(s: Side)
    ensures Opposite(Opposite(s)) == s
  {
  }
}
