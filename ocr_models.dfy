/** The records OCR results travel in: an integer bounding box and a text
    fragment with its box and a confidence score. */
module OcrModels {

  datatype BoundingBox = BoundingBox(x: int, y: int, width: int, height: int)

  /** `confidence` is a Python float; the model keeps it as an exact `real`. */
  datatype OcrTextItem = OcrTextItem(text: string, boundingBox: BoundingBox, confidence: real)
}
