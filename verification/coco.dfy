/** `extract_and_write_data_per_file`: one COCO document per annotation
    file, with one image entry, one annotation per shape and the full
    category table. Annotation ids come from one counter for the whole run. */
module Coco {
  import opened Geometry
  import opened Input
  import opened Names
  import opened Categories

  /** The image entry `{id, file_name, height, width}`. */
  datatype ImageInfo = ImageInfo(id: nat, fileName: string, height: int, width: int)

  /** The annotation entry
      `{id, image_id, category_id, bbox, area, segmentation, iscrowd}`. */
  datatype Annotation = Annotation(
    id: nat,
    imageId: nat,
    categoryId: nat,
    bbox: BBox,
    area: real,
    segmentation: seq<seq<Point>>,
    isCrowd: nat)

  /** The document `{images, annotations, categories}` written for one image. */
  datatype CocoDocument = CocoDocument(
    images: seq<ImageInfo>,
    annotations: seq<Annotation>,
    categories: seq<Category>)

  /** A document and the name of the file it is written to in the output
      folder. */
  datatype OutputFile = OutputFile(fileName: string, document: CocoDocument)

  /** A shape can be converted: `min` has a point to work on and the label
      has an entry in the category mapping (otherwise Python raises). */
  predicate ShapeConvertible(shape: Shape, categories: seq<string>)
  {
    ShapeHasPoints(shape) && shape.labelName in categories
  }

  predicate RecordConvertible(record: AnnotationRecord, categories: seq<string>)
  {
    forall j :: 0 <= j < |record.shapes| ==> ShapeConvertible(record.shapes[j], categories)
  }

  predicate AllConvertible(files: seq<AnnotationRecord>, categories: seq<string>)
  {
    forall i :: 0 <= i < |files| ==> RecordConvertible(files[i], categories)
  }

  /** The annotation made for one shape. */
  function AnnotationFor(shape: Shape, id: nat, imageId: nat, categories: seq<string>): Annotation
    requires ShapeConvertible(shape, categories)
  {
    var bbox := BoundingBox(shape.points);
    Annotation(id, imageId, CategoryMapping(categories)[shape.labelName], bbox, Area(bbox), [shape.points], 0)
  }

  /** The annotations of one file's shapes, in shape order, numbered on from
      `firstId`. */
  function AnnotationsFor(shapes: seq<Shape>, imageId: nat, firstId: nat, categories: seq<string>): (r: seq<Annotation>)
    requires forall j :: 0 <= j < |shapes| ==> ShapeConvertible(shapes[j], categories)
    ensures |r| == |shapes|
  {
    seq(|shapes|, j requires 0 <= j < |shapes| => AnnotationFor(shapes[j], firstId + j, imageId, categories))
  }

  /** The COCO document for the file at position `index` of the run, whose
      first shape gets annotation id `firstId`. */
  function CocoDocumentFor(record: AnnotationRecord, index: nat, firstId: nat, categories: seq<string>): CocoDocument
    requires RecordConvertible(record, categories)
  {
    var image := ImageInfo(index + 1, record.imagePath, record.imageHeight, record.imageWidth);
    CocoDocument([image], AnnotationsFor(record.shapes, index + 1, firstId, categories), CategoryTable(categories))
  }

  /** One file's document has a single image entry, with id `index + 1`,
      one annotation per shape, and the whole category table. */
  lemma CocoDocumentShape(record: AnnotationRecord, index: nat, firstId: nat, categories: seq<string>)
    requires RecordConvertible(record, categories)
    ensures var doc := CocoDocumentFor(record, index, firstId, categories);
      && doc.images == [ImageInfo(index + 1, record.imagePath, record.imageHeight, record.imageWidth)]
      && doc.categories == CategoryTable(categories)
      && |doc.annotations| == |record.shapes|
  {
  }

  /** The annotation of shape `j` of a file: id `firstId + j`, the file's
      image id, the shape's points as its only polygon, a box holding every
      point, an area of width times height, and a category id whose entry in
      the document's category table is the shape's label. */
  lemma AnnotationOfShape(record: AnnotationRecord, index: nat, firstId: nat, categories: seq<string>, j: nat)
    requires RecordConvertible(record, categories)
    requires j < |record.shapes|
    ensures var doc := CocoDocumentFor(record, index, firstId, categories);
      var shape := record.shapes[j];
      && |doc.annotations| == |record.shapes|
      && doc.annotations[j].id == firstId + j
      && doc.annotations[j].imageId == index + 1
      && doc.annotations[j].segmentation == [shape.points]
      && doc.annotations[j].isCrowd == 0
      && doc.annotations[j].bbox == BoundingBox(shape.points)
      && doc.annotations[j].area == doc.annotations[j].bbox.width * doc.annotations[j].bbox.height
      && (forall k :: 0 <= k < |shape.points| ==> Inside(shape.points[k], doc.annotations[j].bbox))
      && 1 <= doc.annotations[j].categoryId <= |doc.categories|
      && doc.categories[doc.annotations[j].categoryId - 1].name == shape.labelName
  {
    var shape := record.shapes[j];
    var doc := CocoDocumentFor(record, index, firstId, categories);
    assert doc.annotations[j] == AnnotationFor(shape, firstId + j, index + 1, categories);
    BoundingBoxEncloses(shape.points);
    CategoryLookup(categories, shape.labelName);
  }

  /** The output of one file: the document and its file name. */
  function OutputFor(record: AnnotationRecord, index: nat, firstId: nat, categories: seq<string>): OutputFile
    requires RecordConvertible(record, categories)
  {
    OutputFile(OutputFileName(record.imagePath), CocoDocumentFor(record, index, firstId, categories))
  }

  /** The outputs of a run over `files`: the file at position `i` gets image
      id `i + 1`, and its shapes take the annotation ids that follow those of
      all shapes of the files before it. */
  function ConvertAll(files: seq<AnnotationRecord>, categories: seq<string>): (r: seq<OutputFile>)
    requires AllConvertible(files, categories)
    ensures |r| == |files|
  {
    if |files| == 0 then []
    else
      var n := |files|;
      var prefix := files[..n - 1];
      ConvertAll(prefix, categories) + [OutputFor(files[n - 1], n - 1, 1 + TotalShapes(prefix), categories)]
  }

  /** Position `i` of a run holds the output of file `i`, made with image id
      `i + 1` and first annotation id one more than the number of shapes in
      the files before it. */
  lemma {:induction false} ConvertAllAt(files: seq<AnnotationRecord>, categories: seq<string>, i: nat)
    requires AllConvertible(files, categories)
    requires i < |files|
    ensures ConvertAll(files, categories)[i] == OutputFor(files[i], i, 1 + TotalShapes(files[..i]), categories)
    decreases |files|
  {
    var n := |files|;
    var prefix := files[..n - 1];
    var last := OutputFor(files[n - 1], n - 1, 1 + TotalShapes(prefix), categories);
    assert ConvertAll(files, categories) == ConvertAll(prefix, categories) + [last];
    if i < n - 1 {
      assert ConvertAll(files, categories)[i] == ConvertAll(prefix, categories)[i];
      ConvertAllAt(prefix, categories, i);
      assert prefix[..i] == files[..i];
      assert prefix[i] == files[i];
    } else {
      assert ConvertAll(files, categories)[i] == last;
    }
  }

  /** `extract_and_write_data_per_file` without its file I/O: the documents
      are returned in file order instead of written, and the final value of
      the annotation counter is returned too. */
  method ExtractAndWriteDataPerFile(files: seq<AnnotationRecord>, categories: seq<string>)
    returns (outputs: seq<OutputFile>, annotationId: nat)
    requires AllConvertible(files, categories)
    ensures outputs == ConvertAll(files, categories)
    ensures annotationId == 1 + TotalShapes(files)
  {
    annotationId := 1;
    outputs := [];
    for imageId := 0 to |files|
      invariant outputs == ConvertAll(files[..imageId], categories)
      invariant annotationId == 1 + TotalShapes(files[..imageId])
    {
      assert files[..imageId + 1][..imageId] == files[..imageId];
      var content := files[imageId];
      var imageInfo := ImageInfo(imageId + 1, content.imagePath, content.imageHeight, content.imageWidth);
      var annotations: seq<Annotation> := [];
      ghost var firstId := annotationId;
      for j := 0 to |content.shapes|
        invariant |annotations| == j
        invariant forall k :: 0 <= k < j ==>
          annotations[k] == AnnotationFor(content.shapes[k], firstId + k, imageId + 1, categories)
        invariant annotationId == firstId + j
      {
        var annotation := AnnotationFor(content.shapes[j], annotationId, imageId + 1, categories);
        annotations := annotations + [annotation];
        annotationId := annotationId + 1;
      }
      assert annotations == AnnotationsFor(content.shapes, imageId + 1, firstId, categories);
      var cocoData := CocoDocument([imageInfo], annotations, CategoryTable(categories));
      outputs := outputs + [OutputFile(OutputFileName(imageInfo.fileName), cocoData)];
    }
    assert files[..|files|] == files;
  }

  /** All annotations of a run, file after file. */
  function AllAnnotations(outputs: seq<OutputFile>): seq<Annotation>
  {
    if |outputs| == 0 then []
    else AllAnnotations(outputs[..|outputs| - 1]) + outputs[|outputs| - 1].document.annotations
  }

  /** The run-wide counter: the k-th shape processed, over all files, gets
      annotation id k, from 1; so ids are unique and increase in processing
      order, and there is one per shape. */
  lemma {:induction false} AnnotationIdsConsecutive(files: seq<AnnotationRecord>, categories: seq<string>)
    requires AllConvertible(files, categories)
    ensures |AllAnnotations(ConvertAll(files, categories))| == TotalShapes(files)
    ensures forall k :: 0 <= k < |AllAnnotations(ConvertAll(files, categories))| ==>
      AllAnnotations(ConvertAll(files, categories))[k].id == k + 1
  {
    if |files| > 0 {
      var n := |files|;
      var prefix := files[..n - 1];
      var outputs := ConvertAll(files, categories);
      assert outputs[..n - 1] == ConvertAll(prefix, categories);
      ConvertAllAt(files, categories, n - 1);
      CocoDocumentShape(files[n - 1], n - 1, 1 + TotalShapes(prefix), categories);
      AnnotationIdsConsecutive(prefix, categories);
      assert files[..n - 1] == prefix;
    }
  }

  /** Shape `j` of file `i` gets annotation id one more than the number of
      shapes before it, over all files. */
  lemma AnnotationIdAt(files: seq<AnnotationRecord>, categories: seq<string>, i: nat, j: nat)
    requires AllConvertible(files, categories)
    requires i < |files| && j < |files[i].shapes|
    ensures |ConvertAll(files, categories)[i].document.annotations| == |files[i].shapes|
    ensures ConvertAll(files, categories)[i].document.annotations[j].id == 1 + TotalShapes(files[..i]) + j
  {
    var firstId := 1 + TotalShapes(files[..i]);
    ConvertAllAt(files, categories, i);
    CocoDocumentShape(files[i], i, firstId, categories);
    assert CocoDocumentFor(files[i], i, firstId, categories).annotations[j]
      == AnnotationFor(files[i].shapes[j], firstId + j, i + 1, categories);
  }

  /** Ids across files: an annotation of an earlier file, or an earlier
      shape of the same file, has the smaller id. */
  lemma AnnotationIdsIncrease(files: seq<AnnotationRecord>, categories: seq<string>, i: nat, j: nat, i': nat, j': nat)
    requires AllConvertible(files, categories)
    requires i < |files| && j < |files[i].shapes|
    requires i' < |files| && j' < |files[i'].shapes|
    requires i < i' || (i == i' && j < j')
    ensures |ConvertAll(files, categories)[i].document.annotations| == |files[i].shapes|
    ensures |ConvertAll(files, categories)[i'].document.annotations| == |files[i'].shapes|
    ensures ConvertAll(files, categories)[i].document.annotations[j].id
          < ConvertAll(files, categories)[i'].document.annotations[j'].id
  {
    AnnotationIdAt(files, categories, i, j);
    AnnotationIdAt(files, categories, i', j');
    if i < i' {
      TotalShapesPrefix(files, i, i');
    }
  }
}
