/** The parsed content of one polygon-annotation file. */
module Input {
  import opened Geometry

  /** One labelled polygon: `{label, points}`; the label is `labelName` here (`label` is a Dafny keyword). */
  datatype Shape = Shape(labelName: string, points: seq<Point>)

  /** One annotation file: `imagePath`, `imageHeight`, `imageWidth` and
      `shapes` (a file without `shapes` has none). */
  datatype AnnotationRecord = AnnotationRecord(
    imagePath: string,
    imageHeight: int,
    imageWidth: int,
    shapes: seq<Shape>)

  /** The number of shapes over all files. */
  function TotalShapes(files: seq<AnnotationRecord>): nat
  {
    if |files| == 0 then 0
    else TotalShapes(files[..|files| - 1]) + |files[|files| - 1].shapes|
  }

  /** The shapes of earlier files are counted before those of a later file:
      the count over a prefix grows with the prefix by at least the shapes
      of each file it takes in. */
  lemma {:induction false} TotalShapesPrefix(files: seq<AnnotationRecord>, i: nat, k: nat)
    requires i < k <= |files|
    ensures TotalShapes(files[..i]) + |files[i].shapes| <= TotalShapes(files[..k])
    decreases k
  {
    assert files[..k][..k - 1] == files[..k - 1];
    if i < k - 1 {
      TotalShapesPrefix(files, i, k - 1);
    } else {
      assert files[..k][k - 1] == files[i];
    }
  }

  /** A shape has a point: Python's `min` raises on an empty list. */
  predicate ShapeHasPoints(shape: Shape)
  {
    |shape.points| > 0
  }

  /** Every shape of the file has a point. */
  predicate HasPoints(record: AnnotationRecord)
  {
    forall j :: 0 <= j < |record.shapes| ==> ShapeHasPoints(record.shapes[j])
  }
}
