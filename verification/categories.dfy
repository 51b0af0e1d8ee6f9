/** The category table of a run: the distinct shape labels over all
    annotation files, numbered from 1 in the order of the label list. */
module Categories {
  import opened Input
  import opened Sequences

  /** A COCO category entry `{id, name}`. */
  datatype Category = Category(id: nat, name: string)

  /** The labels of a list of shapes. */
  function ShapeLabels(shapes: seq<Shape>): (r: set<string>)
    ensures forall l :: l in r <==> exists j :: 0 <= j < |shapes| && shapes[j].labelName == l
  {
    if |shapes| == 0 then {}
    else ShapeLabels(shapes[..|shapes| - 1]) + {shapes[|shapes| - 1].labelName}
  }

  /** The labels of all shapes of all files. */
  function LabelsOf(files: seq<AnnotationRecord>): (r: set<string>)
    ensures forall l :: l in r <==>
      exists i, j :: 0 <= i < |files| && 0 <= j < |files[i].shapes| && files[i].shapes[j].labelName == l
  {
    if |files| == 0 then {}
    else
      var prefix := files[..|files| - 1];
      var last := files[|files| - 1];
      var r := LabelsOf(prefix) + ShapeLabels(last.shapes);
      assert forall i :: 0 <= i < |prefix| ==> prefix[i] == files[i];
      r
  }

  /** `identify_categories`: collects the labels into a set, file by file and
      shape by shape, and returns them as a list. The list's order is that of
      the set's iteration, which is not specified; the choice below may pick
      any order, so what is proved holds for every order. */
  method IdentifyCategories(files: seq<AnnotationRecord>) returns (categories: seq<string>)
    ensures NoDuplicates(categories)
    ensures forall l :: l in categories <==> l in LabelsOf(files)
  {
    var found: set<string> := {};
    for i := 0 to |files|
      invariant found == LabelsOf(files[..i])
    {
      assert files[..i + 1][..i] == files[..i];
      var shapes := files[i].shapes;
      for j := 0 to |shapes|
        invariant found == LabelsOf(files[..i]) + ShapeLabels(shapes[..j])
      {
        assert shapes[..j + 1][..j] == shapes[..j];
        found := found + {shapes[j].labelName};
      }
      assert shapes[..|shapes|] == shapes;
    }
    assert files[..|files|] == files;
    categories := [];
    var rest := found;
    while rest != {}
      invariant rest <= found
      invariant NoDuplicates(categories)
      invariant forall l :: l in categories <==> l in found && l !in rest
      decreases rest
    {
      var l :| l in rest;
      categories := categories + [l];
      rest := rest - {l};
    }
  }

  /** `category_mapping`: each label to one more than its position. A label
      listed twice keeps its last position, as in a Python dict
      comprehension. */
  function CategoryMapping(categories: seq<string>): (m: map<string, nat>)
    ensures forall l :: l in m <==> l in categories
  {
    if |categories| == 0 then map[]
    else
      var n := |categories|;
      CategoryMapping(categories[..n - 1])[categories[n - 1] := n]
  }

  /** The mapping gives each label the position, from 1, of its last
      occurrence in the list. */
  predicate LastPositions(m: map<string, nat>, categories: seq<string>)
  {
    && (forall l :: l in m ==> 1 <= m[l] <= |categories| && categories[m[l] - 1] == l)
    && (forall l, k :: l in m && m[l] <= k < |categories| ==> categories[k] != l)
  }

  lemma {:induction false} CategoryMappingPositions(categories: seq<string>)
    ensures LastPositions(CategoryMapping(categories), categories)
  {
    if |categories| > 0 {
      var n := |categories|;
      var last := categories[n - 1];
      var prefix := categories[..n - 1];
      var m := CategoryMapping(categories);
      var mp := CategoryMapping(prefix);
      assert m == mp[last := n];
      CategoryMappingPositions(prefix);
      forall l | l in m
        ensures 1 <= m[l] <= n && categories[m[l] - 1] == l
      {
        if l != last {
          assert prefix[mp[l] - 1] == l;
        }
      }
      forall l, k | l in m && m[l] <= k < n
        ensures categories[k] != l
      {
        if l != last && k < n - 1 {
          assert prefix[k] == categories[k];
        }
      }
    }
  }

  /** For a list without repeats, as `IdentifyCategories` returns, the
      mapping numbers each label by its position, from 1. */
  lemma CategoryMappingOfDistinct(categories: seq<string>, i: nat)
    requires NoDuplicates(categories)
    requires i < |categories|
    ensures categories[i] in CategoryMapping(categories)
    ensures CategoryMapping(categories)[categories[i]] == i + 1
  {
    CategoryMappingPositions(categories);
    var m := CategoryMapping(categories);
    var l := categories[i];
    var k := m[l] - 1;
    assert categories[k] == l;
    assert i <= k by {
      assert categories[i] == l ==> !(m[l] <= i);
    }
    assert k <= i by {
      assert categories[i] == categories[k] ==> !(i < k);
    }
  }

  /** The `categories` table of every COCO file: entry `i` is
      `{id: i + 1, name: categories[i]}`. */
  function CategoryTable(categories: seq<string>): seq<Category>
  {
    seq(|categories|, i requires 0 <= i < |categories| => Category(i + 1, categories[i]))
  }

  /** The table and the mapping agree: the id the mapping gives a label is
      the id of the table entry of that name. */
  lemma CategoryLookup(categories: seq<string>, name: string)
    requires name in categories
    ensures name in CategoryMapping(categories)
    ensures var id := CategoryMapping(categories)[name];
      1 <= id <= |CategoryTable(categories)| && CategoryTable(categories)[id - 1] == Category(id, name)
  {
    CategoryMappingPositions(categories);
  }

  /** For a list without repeats the table numbers its labels 1..N with
      neither two ids nor two names alike. */
  lemma CategoryTableBijective(categories: seq<string>)
    requires NoDuplicates(categories)
    ensures forall i :: 0 <= i < |CategoryTable(categories)| ==> CategoryTable(categories)[i].id == i + 1
    ensures forall i, j :: 0 <= i < j < |CategoryTable(categories)| ==>
      CategoryTable(categories)[i].name != CategoryTable(categories)[j].name
    ensures forall l :: l in categories <==> exists i :: 0 <= i < |CategoryTable(categories)| && CategoryTable(categories)[i].name == l
  {
    var table := CategoryTable(categories);
    forall l | l in categories
      ensures exists i :: 0 <= i < |table| && table[i].name == l
    {
      var i :| 0 <= i < |categories| && categories[i] == l;
      assert table[i].name == l;
    }
  }
}
