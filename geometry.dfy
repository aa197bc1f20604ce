/** Axis-aligned rectangles (x0, y0, x1, y1) with y growing down the page,
    as PyMuPDF's `Rect`. */
module Geometry {

  datatype Rect = Rect(x0: real, y0: real, x1: real, y1: real)

  function Width(r: Rect): real { r.x1 - r.x0 }

  function Height(r: Rect): real { r.y1 - r.y0 }

  predicate Encloses(outer: Rect, inner: Rect) {
    outer.x0 <= inner.x0 && outer.y0 <= inner.y0 && inner.x1 <= outer.x1 && inner.y1 <= outer.y1
  }

  function Min(a: real, b: real): real { if a <= b then a else b }

  function Max(a: real, b: real): real { if a <= b then b else a }

  /** `a | b`: the smallest rectangle enclosing both. */
  function Union(a: Rect, b: Rect): (u: Rect)
    ensures Encloses(u, a) && Encloses(u, b)
    ensures forall r :: Encloses(r, a) && Encloses(r, b) ==> Encloses(r, u)
  {
    Rect(Min(a.x0, b.x0), Min(a.y0, b.y0), Max(a.x1, b.x1), Max(a.y1, b.y1))
  }

  /** `r + (d, d, d, d)`: adds `d` to every coordinate, which moves the
      rectangle right and down without changing its size. */
  function Shift(r: Rect, d: real): (s: Rect)
    ensures Width(s) == Width(r) && Height(s) == Height(r)
  {
    Rect(r.x0 + d, r.y0 + d, r.x1 + d, r.y1 + d)
  }

  /** `r` grown by `d` on every side. */
  function Pad(r: Rect, d: real): (p: Rect)
    requires d >= 0.0
    ensures Encloses(p, r)
  {
    Rect(r.x0 - d, r.y0 - d, r.x1 + d, r.y1 + d)
  }
}
