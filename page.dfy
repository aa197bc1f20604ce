/** The records a PDF text extractor delivers for one page (PyMuPDF's
    `page.get_text("dict")`), which both components consume. Font sizes are
    integer tenths of a point. */
module Page {
  import opened Geometry

  datatype Span = Span(text: string, size: int, font: string)

  datatype RawLine = RawLine(bbox: Rect, spans: seq<Span>)

  /** A text block (type 0, with lines) or an image block (no lines). */
  datatype PageBlock =
    | TextBlock(bbox: Rect, lines: seq<RawLine>)
    | ImageBlock(bbox: Rect)
}
