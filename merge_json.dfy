/**
 * results/merge_json.py: two results files are merged by copying the `models` entries of
 * the first file and then those of the second, so the second file wins on shared models.
 */
module MergeJson {
  import opened Wrappers
  import opened Dicts
  import opened Store

  /** The merged `models` dictionary: the first file's entries, then the second's on top. */
  function MergedModels(m1: Models, m2: Models): Models {
    PutAll(PutAll([], m1), m2)
  }

  /**
   * `merge_json_files`: `None` (the function's `False`) when either file lacks `models`;
   * otherwise the document that is written, which holds the merged `models` and no other key.
   */
  method MergeJsonFiles(doc1: ResultsDoc, doc2: ResultsDoc) returns (merged: Option<ResultsDoc>)
    ensures merged.None? <==> doc1.models.None? || doc2.models.None?
    ensures merged.Some? ==> merged.value == ResultsDoc(Some(MergedModels(doc1.models.value, doc2.models.value)), [])
  {
    if doc1.models.None? || doc2.models.None? {
      return None;
    }
    var m1, m2 := doc1.models.value, doc2.models.value;
    var models: Models := [];
    var i := 0;
    while i < |m1|
      invariant 0 <= i <= |m1|
      invariant models == PutAll([], m1[..i])
    {
      assert m1[..i + 1][..i] == m1[..i];
      models := Put(models, m1[i].0, m1[i].1);
      i := i + 1;
    }
    assert m1[..i] == m1;
    var j := 0;
    while j < |m2|
      invariant 0 <= j <= |m2|
      invariant models == PutAll(PutAll([], m1), m2[..j])
    {
      assert m2[..j + 1][..j] == m2[..j];
      models := Put(models, m2[j].0, m2[j].1);
      j := j + 1;
    }
    assert m2[..j] == m2;
    merged := Some(ResultsDoc(Some(models), []));
  }

  /**
   * What the merged dictionary holds: the union of both key sets, the first file's keys first
   * and in their order, the second file's value for a shared key, the first file's value for
   * a key only it has, and no key twice.
   */
  lemma MergedModelsSpec(m1: Models, m2: Models)
    requires DistinctKeys(m1) && DistinctKeys(m2)
    ensures forall k :: k in Keys(MergedModels(m1, m2)) <==> k in Keys(m1) || k in Keys(m2)
    ensures Keys(m1) <= Keys(MergedModels(m1, m2))
    ensures forall k :: k in Keys(m2) ==> Get(MergedModels(m1, m2), k) == Get(m2, k)
    ensures forall k :: k !in Keys(m2) ==> Get(MergedModels(m1, m2), k) == Get(m1, k)
    ensures DistinctKeys(MergedModels(m1, m2))
  {
    var first := PutAll([], m1);
    PutAllKeys([], m1);
    PutAllKeys(first, m2);
    assert Keys(m1) <= Keys(first) by {
      assert Keys(first) == Keys(m1) by {
        PutAllIntoEmptyKeys(m1);
      }
    }
    forall k ensures Get(MergedModels(m1, m2), k) == if k in Keys(m2) then Get(m2, k) else Get(m1, k) {
      PutAllGet([], m1, k);
      PutAllGet(first, m2, k);
    }
    PutAllDistinct([], m1);
    PutAllDistinct(first, m2);
  }
}
