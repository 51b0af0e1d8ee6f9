# COCO conversion of polygon annotations, modelled in Dafny

`coco_transformer_2.py` reads a folder of polygon-annotation JSON files. Each
file names an image (path, height, width) and holds a list of labelled
polygons ("shapes"). For each annotation file the script writes one COCO
document to an output folder. A COCO document has three parts:

- a single image entry;
- one annotation per shape: a bounding box, its area, the polygon as
  segmentation, and a category id;
- the category table, shared by every file of the run.

This model covers the deterministic core under the script's file I/O:

- `Names` (`names.dfy`): selecting `.json` names from a listing; Python's
  `str.replace` for a non-empty pattern; the output file name, where every
  `.jpg` and then every `.png` becomes `.json`.
- `Geometry` (`geometry.dfy`): points, minimum and maximum of a coordinate
  list, and the box `[x_min, y_min, width, height]` with its area.
- `Input` (`input.dfy`): the parsed annotation file, a record holding the
  image path, height, width and shapes.
- `Categories` (`categories.dfy`): collecting the distinct labels, as a loop
  over files and shapes that fills a set, then listing that set in any order.
  Also the label-to-id mapping and the category table.
- `Coco` (`coco.dfy`): the per-file documents. `ExtractAndWriteDataPerFile`
  is a method with the nested loops and the run-wide annotation counter. It
  is proved equal to the function `ConvertAll`, and the properties are proved
  as lemmas about that function.
- `Pipeline` (`pipeline.dfy`): `main` without its I/O (select, collect
  categories, convert), `verify_conversion` over a given parse predicate, and
  a worked one-file example.

Coordinates are exact `real` numbers, so the box bounds and the area are
exact.

Output names can coincide, and then a later write replaces an earlier one:

- `a.jpg` and `a.png` both give `a.json`. So do two annotation files naming
  the same image. The later `json.dump` (line 76) then overwrites the earlier
  document.
- An image name holding neither `.jpg` nor `.png` keeps its own name as the
  output name. `Names.OutputFileNameUnchanged` proves that this condition is
  sufficient; it is not claimed to be necessary. If the image file exists,
  lines 81-83 copy it into the output folder under that same name, which
  replaces the document just written. If the image does not exist, the script
  prints a warning and the document stays.

The outputs of the model are the writes in order, not the final contents of
the output folder.

## Model

| member | source | states |
|---|---|---|
| Names.ReadJsonFiles | coco_transformer_2.py:8 | the selection holds exactly the listed names ending in `.json`, and is no longer than the listing |
| Names.ReadJsonFilesAppend | coco_transformer_2.py:8 | listing order is kept: selecting from `a + b` gives the selection from `a` followed by that from `b` |
| Names.ReadJsonFilesKeepsAllJson | coco_transformer_2.py:8 | a listing of `.json` names only is selected whole |
| Names.ReadJsonFilesIdempotent | coco_transformer_2.py:8 | selecting twice is the same as selecting once |
| Names.ReadJsonFilesDistinct | coco_transformer_2.py:8 | distinct listed names give distinct selected names |
| Names.ReplaceAllAbsent | coco_transformer_2.py:74 | `replace` leaves a string without the pattern unchanged |
| Names.ReplaceAllSkipsPrefix | coco_transformer_2.py:74 | `replace` copies a prefix at none of whose positions the pattern starts, and continues on the rest |
| Names.ReplaceSuffix | coco_transformer_2.py:74 | a name with the pattern only as its suffix gets just that suffix replaced |
| Names.ReplaceAll | coco_transformer_2.py:74 | definition of Python's `str.replace` for a non-empty pattern: leftmost occurrence first, no overlaps; properties in `ReplaceAllAbsent`, `ReplaceAllSkipsPrefix`, `ReplaceSuffix` and `NoSuffixLeft` |
| Names.OutputFileName | coco_transformer_2.py:74 | definition: every `.jpg`, then every `.png`, replaced by `.json`; properties in `OutputFileNameJpg`, `OutputFileNamePng`, `OutputFileNameUnchanged` and `OutputFileNameHasNoImageSuffix` |
| Names.OutputFileNameJpg | coco_transformer_2.py:74 | `base.jpg` is written as `base.json` when `base` holds neither `.jpg` nor `.png` |
| Names.OutputFileNamePng | coco_transformer_2.py:74 | `base.png` is written as `base.json` under the same condition |
| Names.OutputFileNameUnchanged | coco_transformer_2.py:74 | a name holding neither `.jpg` nor `.png` is kept as it is |
| Names.NoSuffixLeft | coco_transformer_2.py:74 | after every `.jpg` (or every `.png`) is replaced by `.json`, that suffix occurs nowhere, and no `.jpg` or `.png` appears that was not there before |
| Names.OutputFileNameHasNoImageSuffix | coco_transformer_2.py:74 | for every image name, the output name contains neither `.jpg` nor `.png` |
| Geometry.SeqMin | coco_transformer_2.py:50-51 | definition of `min` on a non-empty list; properties in `SeqMinIsLeast` |
| Geometry.SeqMax | coco_transformer_2.py:52-53 | definition of `max` on a non-empty list; properties in `SeqMaxIsGreatest` |
| Geometry.SeqMinIsLeast | coco_transformer_2.py:50-51 | `min` of a non-empty list is one of its elements and no element is smaller |
| Geometry.SeqMaxIsGreatest | coco_transformer_2.py:52-53 | `max` of a non-empty list is one of its elements and no element is larger |
| Geometry.BoundingBoxEncloses | coco_transformer_2.py:48-54 | width and height are at least 0, and every point of the shape lies inside the box |
| Geometry.BoundingBoxIsTight | coco_transformer_2.py:48-54 | some point attains each of the four bounds `x_min`, `y_min`, `x_min + width` and `y_min + height` |
| Geometry.BoundingBox | coco_transformer_2.py:48-54 | definition of `[x_min, y_min, width, height]` from the coordinate lists; properties in `BoundingBoxEncloses` and `BoundingBoxIsTight` |
| Geometry.Area | coco_transformer_2.py:61 | definition: width times height of a box; used by `AnnotationOfShape` |
| Input.TotalShapesPrefix | coco_transformer_2.py:33-45 | the shapes of the files before file `k` include those of each file `i < k` |
| Categories.ShapeLabels | coco_transformer_2.py:19-20 | a label is collected from a shape list exactly when some shape carries it |
| Categories.LabelsOf | coco_transformer_2.py:15-20 | a label is collected exactly when some shape of some file carries it |
| Categories.IdentifyCategories | coco_transformer_2.py:15-22 | the returned list has no repeats and holds exactly the labels of all shapes of all files, whatever the set's order |
| Categories.CategoryMapping | coco_transformer_2.py:30 | the mapping has a key for exactly the listed labels |
| Categories.CategoryMappingPositions | coco_transformer_2.py:30 | each label maps to the position, counted from 1, of its last occurrence in the list |
| Categories.CategoryMappingOfDistinct | coco_transformer_2.py:30 | for a list without repeats, `categories[i]` maps to `i + 1` |
| Categories.CategoryLookup | coco_transformer_2.py:30-71 | the id the mapping gives a label is the id of a table entry whose name is that label |
| Categories.CategoryTable | coco_transformer_2.py:71 | definition of the table `{id: i + 1, name: categories[i]}`; properties in `CategoryTableBijective` and `CategoryLookup` |
| Categories.CategoryTableBijective | coco_transformer_2.py:71 | for a list without repeats, table entry `i` has id `i + 1`, no two entries share a name, and the names are exactly the listed labels |
| Coco.AnnotationFor | coco_transformer_2.py:46-64 | definition of the annotation of one shape; properties in `AnnotationOfShape` |
| Coco.AnnotationsFor | coco_transformer_2.py:44-66 | definition of one file's annotations, one per shape in shape order, numbered on from a first id; ensures one annotation per shape; properties in `AnnotationOfShape` |
| Coco.CocoDocumentFor | coco_transformer_2.py:37-72 | definition of one file's document; properties in `CocoDocumentShape` and `AnnotationOfShape` |
| Coco.OutputFor | coco_transformer_2.py:37-74 | definition: one file's document with its output name; properties in `ConvertAllAt` and the `Names.OutputFileName` lemmas |
| Coco.ConvertAll | coco_transformer_2.py:31-72 | definition of a run's outputs, file by file; ensures one output per file; properties in `ConvertAllAt`, `AnnotationIdsConsecutive`, `AnnotationIdAt` and `AnnotationIdsIncrease` |
| Coco.CocoDocumentShape | coco_transformer_2.py:37-72 | a file's document has one image entry with id `index + 1` and the file's path, height and width, one annotation per shape, and the whole category table |
| Coco.AnnotationOfShape | coco_transformer_2.py:44-66 | the annotation of shape `j` has id `firstId + j` and the file's image id. Its segmentation is `[points]` and `iscrowd` is 0. Its box is the shape's bounding box and holds every point, its area is width times height, and its category id names a table entry carrying the shape's label |
| Coco.ConvertAllAt | coco_transformer_2.py:31-66 | output `i` of a run is file `i`'s document with image id `i + 1`, whose first annotation id is one more than the number of shapes of the files before it |
| Coco.ExtractAndWriteDataPerFile | coco_transformer_2.py:24-77 | the nested loops with the counter produce exactly `ConvertAll` of the files, and the counter ends at 1 + the total number of shapes |
| Coco.AnnotationIdsConsecutive | coco_transformer_2.py:31-66 | over the whole run, in processing order, the k-th annotation has id k (from 1), and there is one annotation per shape |
| Coco.AnnotationIdAt | coco_transformer_2.py:31-66 | shape `j` of file `i` has one more than the number of shapes processed before it as its id |
| Coco.AnnotationIdsIncrease | coco_transformer_2.py:31-66 | an annotation of an earlier file, or of an earlier shape of the same file, has a strictly smaller id; so ids are unique |
| Pipeline.LabelsConvertible | coco_transformer_2.py:102-106 | when the category list holds exactly the labels of the files, every shape's label has a mapping entry, so no lookup fails |
| Pipeline.Convert | coco_transformer_2.py:102-106 | `main` up to verification: the categories are the distinct labels of the selected files, every lookup succeeds, and the outputs are `ConvertAll` of the selected files, one per file |
| Pipeline.VerifyConversion | coco_transformer_2.py:87-100 | the result is true exactly when every `.json` name in the output listing parses |
| Pipeline.RectangleBox | coco_transformer_2.py:48-61 | the rectangle from (10, 20) to (50, 80) has box `[10, 20, 40, 60]` and area 2400 |
| Pipeline.OneFileExample | coco_transformer_2.py:30-74 | a run over `a.jpg` with one `cat` rectangle writes `a.json`. It has image id 1, annotation id 1, category id 1, that box and area, and the table `[{1, cat}]` |

## Left out

- File-system and process I/O is not modelled. This covers `os.listdir`, `open`, `os.makedirs`, `os.path.exists`, `os.path.join`, `shutil.copy` and every `print`. Listings and file contents are parameters, and documents are returned instead of written.
- The image copy into the output folder (lines 79-85) is not modelled, because it is I/O only.
- The outputs are the sequence of writes, in order. A later write to the same output name replaces an earlier one in the folder, and neither the folder's final contents nor that replacement is modelled.
- JSON parsing and serialisation (`json.load`, `json.dump`) are not modelled. The input is the parsed record and the output is a datatype.
- Pipeline.VerifyConversion: whether a file parses is a predicate given as a parameter, because the JSON parser is not visible. Exceptions other than a decode error are not modelled.
- Floating point: coordinates are exact reals. The box bounds and the area are proved exact for exact arithmetic only.
- Python exceptions become preconditions, because the script does not handle them. They are `min` on an empty point list, a label missing from the mapping, a missing key or an unreadable file.
- A file without `shapes` is modelled as a file with no shapes. This matches `content.get('shapes', [])`.
- Categories.IdentifyCategories: the order of `list(set)` is not pinned down. The method picks any order, and what is proved holds for every order.
- Names.ReplaceAll: only a non-empty pattern is modelled. The script uses only `.jpg` and `.png`.
- The module-level call `main('augmented', 'output_final')` and its hard-coded folder names are not modelled.
- The run's success message depends only on VerifyConversion's result. It is a `print` and is not modelled.
