/** The batch that `RegressionTest` creates: a `LightGBMTestBatch` that reads its input
    records from a path with "Direct" deleted, and that, for the two housing datasets,
    declares every mining field's invalid values to be used as they are. */
module RegressionTest {
  import opened Results
  import opened JavaText
  import opened Pmml
  import Batch = LightGBMTestBatch

  const DIRECT := "Direct"

  // ---------------------------------------------------------------------------
  // getInputCsvPath

  /** The overriding `getInputCsvPath()`: the inherited path with every "Direct" deleted.
      Neither "/csv/" nor ".csv" can take part in an occurrence of "Direct", so the rewrite
      only touches the base dataset name. */
  function InputCsvPath(dataset: string): (path: string)
    ensures path == "/csv/" + DeleteAll(Batch.BaseDataset(dataset), DIRECT) + ".csv"
  {
    assert 'D' !in "/csv/" && '.' !in DIRECT;
    DeleteAllFramed("/csv/", Batch.BaseDataset(dataset), ".csv", DIRECT);
    DeleteAll(Batch.InputCsvPath(dataset), DIRECT)
  }

  /** The rewritten path equals the inherited one exactly when the base name holds no "Direct". */
  lemma InputCsvPathUnchanged(dataset: string)
    ensures InputCsvPath(dataset) == Batch.InputCsvPath(dataset)
        <==> !Occurs(DIRECT, Batch.BaseDataset(dataset))
  {
    var base := Batch.BaseDataset(dataset);
    DeleteAllUnchanged(base, DIRECT);
    var rewritten := DeleteAll(base, DIRECT);
    if "/csv/" + rewritten + ".csv" == "/csv/" + base + ".csv" {
      assert rewritten == ("/csv/" + rewritten + ".csv")[5..|rewritten| + 5];
      assert base == ("/csv/" + base + ".csv")[5..|base| + 5];
    }
  }

  /** Only the input path is rewritten: a "Direct" in the identifier survives in the path of the
      expected output. */
  lemma OutputCsvPathKeepsDirect(name: string, dataset: string)
    requires Occurs(DIRECT, dataset)
    ensures Occurs(DIRECT, Batch.OutputCsvPath(name, dataset))
  {
    var i :| 0 <= i <= |dataset| && OccursAt(DIRECT, dataset, i);
    assert OccursAt(DIRECT, dataset, i);
    var path := Batch.OutputCsvPath(name, dataset);
    var at := 5 + |name| + i;
    assert path[at..at + |DIRECT|] == dataset[i..i + |DIRECT|];
    assert OccursAt(DIRECT, path, at);
  }

  /** The rewrite is a single left-to-right pass: deleting one "Direct" can join the text around
      it into a new one, which stays. */
  lemma SinglePass()
    ensures DeleteAll("DirDirectect", DIRECT) == DIRECT
  {
    assert |"ect"| < |DIRECT|;
    assert "Directect"[..6] == DIRECT && "Directect"[6..] == "ect";
    assert DeleteAll("Directect", DIRECT) == "ect";
    assert "rDirectect"[..6][0] != DIRECT[0] && "rDirectect"[1..] == "Directect";
    assert DeleteAll("rDirectect", DIRECT) == "rect";
    assert "irDirectect"[..6][0] != DIRECT[0] && "irDirectect"[1..] == "rDirectect";
    assert DeleteAll("irDirectect", DIRECT) == "irect";
    assert "DirDirectect"[..6][3] != DIRECT[3] && "DirDirectect"[1..] == "irDirectect";
  }

  // ---------------------------------------------------------------------------
  // getPMML

  /** The visitor's `visit(MiningField)` applied beneath `n`: every mining field, at every
      depth, gets the `AS_IS` treatment; usage and importance stay as they were. */
  method SetAsIs(n: Node)
    modifies NodeFields(n)
    ensures forall f | f in NodeFields(n) :: f.invalidValueTreatment == Some(AsIs)
    ensures Declarations(NodeFields(n)) == old(Declarations(NodeFields(n)))
    decreases n
  {
    for j := 0 to |n.miningFields|
      invariant forall k | 0 <= k < j :: n.miningFields[k].invalidValueTreatment == Some(AsIs)
      invariant Declarations(NodeFields(n)) == old(Declarations(NodeFields(n)))
    {
      n.miningFields[j].invalidValueTreatment := Some(AsIs);
    }

    for i := 0 to |n.children|
      invariant forall f | f in n.miningFields :: f.invalidValueTreatment == Some(AsIs)
      invariant forall k, f | 0 <= k < i && f in NodeFields(n.children[k]) ::
        f.invalidValueTreatment == Some(AsIs)
      invariant Declarations(NodeFields(n)) == old(Declarations(NodeFields(n)))
    {
      var child := n.children[i];
      assert NodeFields(child) <= NodeFields(n);
      FieldsAllocated(n);
      label BeforeChild:
      SetAsIs(child);
      forall k, f | 0 <= k <= i && f in NodeFields(n.children[k])
        ensures f.invalidValueTreatment == Some(AsIs)
      {
        if f !in NodeFields(child) {
          assert n.children[k] in n.children;
          assert f in NodeFields(n);
          assert old@BeforeChild(allocated(f));
          assert f.invalidValueTreatment == old@BeforeChild(f.invalidValueTreatment);
        }
      }
    }
  }

  /** The visitor applied to the whole document. Since usage and importance are untouched,
      a document keeps its validation outcome. */
  method SetAsIsEverywhere(doc: PMML)
    modifies DocumentFields(doc)
    ensures forall f | f in DocumentFields(doc) :: f.invalidValueTreatment == Some(AsIs)
    ensures Declarations(DocumentFields(doc)) == old(Declarations(DocumentFields(doc)))
    ensures Conforming(doc) == old(Conforming(doc))
  {
    for i := 0 to |doc.models|
      invariant forall k, f | 0 <= k < i && f in NodeFields(doc.models[k]) ::
        f.invalidValueTreatment == Some(AsIs)
      invariant Declarations(DocumentFields(doc)) == old(Declarations(DocumentFields(doc)))
    {
      var model := doc.models[i];
      assert NodeFields(model) <= DocumentFields(doc);
      DocumentFieldsAllocated(doc);
      label BeforeModel:
      SetAsIs(model);
      forall k, f | 0 <= k <= i && f in NodeFields(doc.models[k])
        ensures f.invalidValueTreatment == Some(AsIs)
      {
        if f !in NodeFields(model) {
          assert doc.models[k] in doc.models;
          assert f in DocumentFields(doc);
          assert old@BeforeModel(allocated(f));
          assert f.invalidValueTreatment == old@BeforeModel(f.invalidValueTreatment);
        }
      }
    }
    forall m, f | m in doc.models && m.MiningModel? && f in m.miningFields
      ensures FieldConforms(f) == old(FieldConforms(f))
    {
      assert f in NodeFields(m);
      assert f in DocumentFields(doc);
      assert Declarations(DocumentFields(doc))[f] == old(Declarations(DocumentFields(doc)))[f];
    }
  }

  /** The overriding `getPMML()`: the inherited conversion and validation, then, for the
      housing datasets only, the `AS_IS` patch. `housing` and `housingNa` are the dataset
      names the two constants stand for. */
  method GetPMML(name: string, dataset: string, housing: string, housingNa: string,
                 resources: set<string>, encoded: PMML)
    returns (r: Result<PMML>)
    modifies DocumentFields(encoded)
    ensures r.Success? <==>
      Batch.ModelTxtPath(name, dataset) in resources && !Batch.SuffixMalformed(dataset) &&
      old(Conforming(encoded))
    ensures Batch.ModelTxtPath(name, dataset) !in resources ==>
      r == Failure(ResourceNotFound(Batch.ModelTxtPath(name, dataset)))
    ensures Batch.ModelTxtPath(name, dataset) in resources && Batch.SuffixMalformed(dataset) ==>
      r == Failure(NumberFormatError(Batch.ParseDataset(dataset)[1]))
    ensures (Batch.ModelTxtPath(name, dataset) in resources && !Batch.SuffixMalformed(dataset) &&
             !old(Conforming(encoded))) ==> r == Failure(AssertionError)
    ensures r.Success? ==> r.value == encoded && Conforming(encoded)
    ensures r.Success? && Batch.BaseDataset(dataset) in {housing, housingNa} ==>
      forall f | f in DocumentFields(encoded) :: f.invalidValueTreatment == Some(AsIs)
    ensures Declarations(DocumentFields(encoded)) == old(Declarations(DocumentFields(encoded)))
    ensures r.Failure? || Batch.BaseDataset(dataset) !in {housing, housingNa} ==>
      unchanged(DocumentFields(encoded))
  {
    var parts := Batch.ParseDataset(dataset);

    DocumentFieldsAllocated(encoded);
    TopLevelFieldsInDocument(encoded);
    r := Batch.GetPMML(name, dataset, resources, encoded);

    if r.Success? && (housing == parts[0] || housingNa == parts[0]) {
      SetAsIsEverywhere(r.value);
    }
  }
}
