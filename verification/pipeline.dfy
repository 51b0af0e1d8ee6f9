/** The conversion run: select the annotation files of a folder listing,
    collect their categories, build one COCO document per file; and the
    verification pass over the output folder. */
module Pipeline {
  import opened Geometry
  import opened Sequences
  import opened Names
  import opened Input
  import opened Categories
  import opened Coco

  /** The parsed content of each named file, in the order of the names. */
  function Contents(names: seq<string>, parsed: map<string, AnnotationRecord>): seq<AnnotationRecord>
    requires forall name :: name in names ==> name in parsed
  {
    seq(|names|, i requires 0 <= i < |names| => parsed[names[i]])
  }

  /** A category list holding exactly the labels of the files covers every
      shape, so no category lookup fails. */
  lemma LabelsConvertible(files: seq<AnnotationRecord>, categories: seq<string>)
    requires forall i :: 0 <= i < |files| ==> HasPoints(files[i])
    requires forall l :: l in categories <==> l in LabelsOf(files)
    ensures AllConvertible(files, categories)
  {
    forall i, j | 0 <= i < |files| && 0 <= j < |files[i].shapes|
      ensures ShapeConvertible(files[i].shapes[j], categories)
    {
      assert files[i].shapes[j].labelName in LabelsOf(files);
    }
  }

  /** `main` up to the verification pass. `listing` is the input folder's
      listing and `parsed` the parsed content of its files. The labels are
      collected from the same files that are then converted, so every
      category lookup succeeds; the category list holds each label once. */
  method Convert(listing: seq<string>, parsed: map<string, AnnotationRecord>)
    returns (outputs: seq<OutputFile>, categories: seq<string>)
    requires forall name :: name in listing && IsJsonName(name) ==> name in parsed && HasPoints(parsed[name])
    ensures NoDuplicates(categories)
    ensures forall l :: l in categories <==> l in LabelsOf(Contents(ReadJsonFiles(listing), parsed))
    ensures AllConvertible(Contents(ReadJsonFiles(listing), parsed), categories)
    ensures |outputs| == |ReadJsonFiles(listing)|
    ensures outputs == ConvertAll(Contents(ReadJsonFiles(listing), parsed), categories)
  {
    var jsonFiles := ReadJsonFiles(listing);
    var files := Contents(jsonFiles, parsed);
    categories := IdentifyCategories(files);
    forall i | 0 <= i < |files| ensures HasPoints(files[i]) {
      assert jsonFiles[i] in jsonFiles;
    }
    LabelsConvertible(files, categories);
    var annotationId;
    outputs, annotationId := ExtractAndWriteDataPerFile(files, categories);
  }

  /** `verify_conversion`: true exactly when every `.json` name in the output
      folder's listing parses. Whether a file parses is given as a
      predicate. */
  method VerifyConversion(outputListing: seq<string>, parses: string -> bool) returns (valid: bool)
    ensures valid <==> forall k :: 0 <= k < |outputListing| && IsJsonName(outputListing[k]) ==> parses(outputListing[k])
  {
    valid := true;
    for k := 0 to |outputListing|
      invariant valid <==> forall m :: 0 <= m < k && IsJsonName(outputListing[m]) ==> parses(outputListing[m])
    {
      var fileName := outputListing[k];
      if IsJsonName(fileName) {
        if !parses(fileName) {
          valid := false;
        }
      }
    }
  }

  /** The rectangle from (10, 20) to (50, 80) has box `[10, 20, 40, 60]`
      and area 2400. */
  lemma RectangleBox()
    ensures var square := [Point(10.0, 20.0), Point(50.0, 20.0), Point(50.0, 80.0), Point(10.0, 80.0)];
      BoundingBox(square) == BBox(10.0, 20.0, 40.0, 60.0) && Area(BoundingBox(square)) == 2400.0
  {
    var square := [Point(10.0, 20.0), Point(50.0, 20.0), Point(50.0, 80.0), Point(10.0, 80.0)];
    assert Xs(square) == [10.0, 50.0, 50.0, 10.0];
    assert Ys(square) == [20.0, 20.0, 80.0, 80.0];
  }

  /** A one-file run: `a.jpg`, 100 high and 200 wide, with that `cat`
      rectangle, is written as `a.json` with image id 1, annotation id 1,
      category id 1, box `[10, 20, 40, 60]` and area 2400. */
  lemma OneFileExample()
    ensures var square := [Point(10.0, 20.0), Point(50.0, 20.0), Point(50.0, 80.0), Point(10.0, 80.0)];
      var record := AnnotationRecord("a.jpg", 100, 200, [Shape("cat", square)]);
      AllConvertible([record], ["cat"])
      && ConvertAll([record], ["cat"]) == [OutputFile("a.json", CocoDocument(
           [ImageInfo(1, "a.jpg", 100, 200)],
           [Annotation(1, 1, 1, BBox(10.0, 20.0, 40.0, 60.0), 2400.0, [square], 0)],
           [Category(1, "cat")]))]
  {
    var square := [Point(10.0, 20.0), Point(50.0, 20.0), Point(50.0, 80.0), Point(10.0, 80.0)];
    var record := AnnotationRecord("a.jpg", 100, 200, [Shape("cat", square)]);
    var categories := ["cat"];
    RectangleBox();
    OutputFileNameJpg("a");
    assert "a" + ".jpg" == "a.jpg" && "a" + ".json" == "a.json";
    assert CategoryMapping(categories)["cat"] == 1;
    var annotation := Annotation(1, 1, 1, BBox(10.0, 20.0, 40.0, 60.0), 2400.0, [square], 0);
    assert AnnotationFor(record.shapes[0], 1, 1, categories) == annotation;
    assert AnnotationsFor(record.shapes, 1, 1, categories) == [annotation];
    assert CategoryTable(categories) == [Category(1, "cat")];
    assert [record][..0] == [];
    assert ConvertAll([record], categories) == [OutputFor(record, 0, 1, categories)];
  }
}
