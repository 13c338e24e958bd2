/** The pdfminer layout objects the engine consumes, as plain records. Their bounding boxes are
    taken as already rounded and normalised (x0 <= x1, y0 <= y1). */
module Primitives {
  import opened Geometry
  import opened Lines

  /** An `LTTextLine` and the text `get_text()` returns for it. */
  datatype TextLineIn = TextLineIn(box: Box, raw: string)

  /** `LTRect`, `LTLine`, any other `LTCurve`, `LTTextBoxHorizontal` (with its lines),
      `LTFigure`, and every other layout object. */
  datatype Primitive =
    | PRect(box: Box, style: Style)
    | PLine(box: Box, style: Style)
    | PCurve(box: Box, style: Style)
    | PTextBox(box: Box, lines: seq<TextLineIn>)
    | PFigure(box: Box)
    | POther(box: Box)
}
