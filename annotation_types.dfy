/** The record shapes of types/annotation.ts. */
module AnnotationTypes {
  /** A drag rectangle in overlay coordinates, corners in the order they were captured
      (the start corner may lie to the right of or below the end corner). */
  datatype Rectangle = Rectangle(startX: int, startY: int, endX: int, endY: int)

  /** One saved annotation: an id, a `M:SS:CC` start and end time, the shape and the comment. */
  datatype Annotation = Annotation(
    id: string,
    startTime: string,
    endTime: string,
    shape: Rectangle,
    comment: string)
}
