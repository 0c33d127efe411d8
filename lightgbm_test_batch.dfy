/** `LightGBMTestBatch`: one integration test case, identified by the algorithm name (for
    example "Regression") and a dataset identifier such as "Auto" or "Auto@50", where the
    part after '@' caps the number of boosting iterations the converter keeps. */
module LightGBMTestBatch {
  import opened Results
  import opened JavaText
  import opened Pmml

  const SEPARATOR: char := '@'

  // ---------------------------------------------------------------------------
  // parseDataset

  /** Splits the identifier at its first '@' into the base dataset and the suffix; without
      an '@' the whole identifier is the only part. */
  function ParseDataset(dataset: string): (parts: seq<string>)
    ensures SEPARATOR !in dataset ==> parts == [dataset]
    ensures SEPARATOR in dataset ==>
      |parts| == 2 && SEPARATOR !in parts[0] && parts[0] + [SEPARATOR] + parts[1] == dataset
  {
    var index := IndexOf(dataset, SEPARATOR);
    if index > -1 then
      assert dataset[..index] + [SEPARATOR] + dataset[index + 1..] == dataset;
      [dataset[..index], dataset[index + 1..]]
    else [dataset]
  }

  /** `parseDataset()[0]`. */
  function BaseDataset(dataset: string): string
  {
    ParseDataset(dataset)[0]
  }

  /** Joining a base without '@' to any suffix and parsing the result gives both back. */
  lemma JoinParse(base: string, suffix: string)
    requires SEPARATOR !in base
    ensures ParseDataset(base + [SEPARATOR] + suffix) == [base, suffix]
  {
    var dataset := base + [SEPARATOR] + suffix;
    assert dataset[|base|] == SEPARATOR;
    var index := IndexOf(dataset, SEPARATOR);
    assert dataset[..|base|] == base;
    assert index == |base|;
    assert dataset[..index] == base;
    assert dataset[index + 1..] == suffix;
  }

  // ---------------------------------------------------------------------------
  // getOptions

  const OPTION_COMPACT := "compact"
  const OPTION_NAN_AS_MISSING := "nan_as_missing"
  const OPTION_NUM_ITERATION := "num_iteration"

  /** A value of the `Map<String, Object>` handed to the converter. */
  datatype OptionValue = BooleanValue(b: bool) | IntegerValue(i: int) | Null

  type Entry = (string, OptionValue)

  /** The entries of `keys` in order, each with its value. */
  function EntriesOf(keys: seq<string>, values: map<string, OptionValue>): (es: seq<Entry>)
    requires forall k | k in keys :: k in values
    ensures |es| == |keys|
    ensures forall i | 0 <= i < |keys| :: es[i] == (keys[i], values[keys[i]])
  {
    if keys == [] then [] else [(keys[0], values[keys[0]])] + EntriesOf(keys[1..], values)
  }

  /** A `LinkedHashMap<String, Object>`: a map that remembers the order in which keys were
      first put. */
  class OptionMap {
    var keys: seq<string>
    var values: map<string, OptionValue>

    ghost predicate Valid()
      reads this
    {
      (forall k :: k in values <==> k in keys) &&
      (forall i, j | 0 <= i < j < |keys| :: keys[i] != keys[j])
    }

    constructor ()
      ensures Valid() && keys == [] && values == map[]
    {
      keys := [];
      values := map[];
    }

    /** `put`: a new key goes to the end; a key already present keeps its place and gets the
        new value. */
    method Put(key: string, value: OptionValue)
      requires Valid()
      modifies this
      ensures Valid()
      ensures key in old(values) ==> keys == old(keys)
      ensures key !in old(values) ==> keys == old(keys) + [key]
      ensures values == old(values)[key := value]
    {
      if key !in values {
        keys := keys + [key];
      }
      values := values[key := value];
    }

    /** The entries in iteration order. */
    function Entries(): (es: seq<Entry>)
      requires Valid()
      reads this
      ensures |es| == |keys| && forall i | 0 <= i < |keys| :: es[i] == (keys[i], values[keys[i]])
    {
      EntriesOf(keys, values)
    }
  }

  /** The dataset has a suffix and the suffix is not a 32-bit decimal integer. */
  predicate SuffixMalformed(dataset: string)
  {
    var parts := ParseDataset(dataset);
    |parts| > 1 && ParseInt(parts[1]).Failure?
  }

  lemma OptionKeysDistinct()
    ensures OPTION_COMPACT != OPTION_NAN_AS_MISSING && OPTION_COMPACT != OPTION_NUM_ITERATION
    ensures OPTION_NAN_AS_MISSING != OPTION_NUM_ITERATION
  {
    assert |OPTION_COMPACT| == 7 && |OPTION_NAN_AS_MISSING| == 14 && |OPTION_NUM_ITERATION| == 13;
  }

  /** The three `put` calls of `getOptions()` on a fresh map, and the map's entries after them. */
  method PutOptions(compact: bool, limit: OptionValue) returns (es: seq<Entry>)
    ensures es == [(OPTION_COMPACT, BooleanValue(compact)), (OPTION_NAN_AS_MISSING, BooleanValue(true)),
                   (OPTION_NUM_ITERATION, limit)]
  {
    OptionKeysDistinct();
    var options := new OptionMap();
    options.Put(OPTION_COMPACT, BooleanValue(compact));
    assert OPTION_NAN_AS_MISSING !in options.values;
    options.Put(OPTION_NAN_AS_MISSING, BooleanValue(true));
    assert OPTION_NUM_ITERATION !in options.values;
    options.Put(OPTION_NUM_ITERATION, limit);
    es := options.Entries();
  }

  /** `getOptions()`: compact encoding exactly when there is a suffix, NaN always read as
      missing, and the iteration limit parsed from the suffix (or `null`), in that order. A
      suffix that does not parse is a `NumberFormatException`. */
  method GetOptions(dataset: string) returns (r: Result<seq<Entry>>)
    ensures r.Failure? <==> SuffixMalformed(dataset)
    ensures r.Failure? ==> r.error == NumberFormatError(ParseDataset(dataset)[1])
    ensures r.Success? ==> r.value == [
      (OPTION_COMPACT, BooleanValue(SEPARATOR in dataset)),
      (OPTION_NAN_AS_MISSING, BooleanValue(true)),
      (OPTION_NUM_ITERATION,
        if SEPARATOR in dataset then IntegerValue(ParseInt(ParseDataset(dataset)[1]).value) else Null)]
  {
    var parts := ParseDataset(dataset);

    var numIteration: Option<int> := None;
    if |parts| > 1 {
      var parsed := ParseInt(parts[1]);
      if parsed.Failure? {
        return Failure(parsed.error);
      }
      numIteration := Some(parsed.value);
    }

    var limit := if numIteration.Some? then IntegerValue(numIteration.value) else Null;
    var entries := PutOptions(numIteration.Some?, limit);
    return Success(entries);
  }

  /** A suffix written as the decimal digits of a 32-bit count parses to that count, so
      `getOptions` for "base@n" carries `num_iteration` = n. */
  lemma SuffixIsIterationCount(base: string, n: nat)
    requires SEPARATOR !in base && n <= MAX_INT
    ensures ParseDataset(base + [SEPARATOR] + Decimal(n)) == [base, Decimal(n)]
    ensures ParseInt(ParseDataset(base + [SEPARATOR] + Decimal(n))[1]) == Success(n)
  {
    JoinParse(base, Decimal(n));
    ParseDecimal(n);
  }

  /** A trailing '@' is accepted by `parseDataset` (the suffix is empty) and rejected by
      `getOptions`. */
  lemma TrailingSeparator(base: string)
    requires SEPARATOR !in base
    ensures ParseDataset(base + [SEPARATOR]) == [base, ""]
    ensures SuffixMalformed(base + [SEPARATOR])
  {
    JoinParse(base, "");
    assert base + [SEPARATOR] + "" == base + [SEPARATOR];
  }

  // ---------------------------------------------------------------------------
  // Resource paths

  /** `getModelTxtPath()`: a text file under `/lgbm/`. The iteration suffix never reaches it:
      an '@' in the path can only come from the model name. */
  function ModelTxtPath(name: string, dataset: string): (path: string)
    ensures |path| == 10 + |name| + |BaseDataset(dataset)|
    ensures path[..6] == "/lgbm/" && path[|path| - 4..] == ".txt"
    ensures SEPARATOR !in name ==> SEPARATOR !in path
  {
    "/lgbm/" + name + BaseDataset(dataset) + ".txt"
  }

  /** `getInputCsvPath()`: a CSV file under `/csv/` that never carries the iteration suffix. */
  function InputCsvPath(dataset: string): (path: string)
    ensures |path| == 9 + |BaseDataset(dataset)|
    ensures path[..5] == "/csv/" && path[|path| - 4..] == ".csv"
    ensures SEPARATOR !in path
  {
    "/csv/" + BaseDataset(dataset) + ".csv"
  }

  /** `getOutputCsvPath()`: a CSV file under `/csv/` named after the full identifier, so an
      iteration suffix is kept. */
  function OutputCsvPath(name: string, dataset: string): (path: string)
    ensures |path| == 9 + |name| + |dataset|
    ensures path[..5] == "/csv/" && path[|path| - 4..] == ".csv"
    ensures SEPARATOR in dataset ==> SEPARATOR in path
  {
    "/csv/" + name + dataset + ".csv"
  }

  /** The model is that of the base dataset: every suffix shares the model file of the
      identifier without one. */
  lemma ModelTxtPathOfBase(name: string, base: string, suffix: string)
    requires SEPARATOR !in base
    ensures ModelTxtPath(name, base) == "/lgbm/" + name + base + ".txt"
    ensures ModelTxtPath(name, base + [SEPARATOR] + suffix) == ModelTxtPath(name, base)
  {
    JoinParse(base, suffix);
  }

  /** The input records are those of the base dataset, whatever the suffix. */
  lemma InputCsvPathOfBase(base: string, suffix: string)
    requires SEPARATOR !in base
    ensures InputCsvPath(base) == "/csv/" + base + ".csv"
    ensures InputCsvPath(base + [SEPARATOR] + suffix) == InputCsvPath(base)
  {
    JoinParse(base, suffix);
  }

  /** The expected output is recorded per full identifier: two identifiers that differ only in
      their suffix read different files, and an identifier with a suffix never shares the
      file of its base. */
  lemma OutputCsvPathOfIdentifier(name: string, base: string, suffix: string, suffix': string)
    ensures OutputCsvPath(name, base + [SEPARATOR] + suffix) == OutputCsvPath(name, base + [SEPARATOR] + suffix')
        <==> suffix == suffix'
    ensures OutputCsvPath(name, base + [SEPARATOR] + suffix) != OutputCsvPath(name, base)
  {
    var p := OutputCsvPath(name, base + [SEPARATOR] + suffix);
    var p' := OutputCsvPath(name, base + [SEPARATOR] + suffix');
    var at := 5 + |name| + |base| + 1;
    if p == p' {
      assert |suffix| == |suffix'|;
      assert p[at..at + |suffix|] == suffix;
      assert p'[at..at + |suffix'|] == suffix';
    }
  }

  // ---------------------------------------------------------------------------
  // validatePMML

  /** The visitor's `visit(MiningModel)` and its traversal of the elements beneath `n`:
      an ensemble model whose parent is the root has its fields checked one by one and
      fails on the first violation; the walk then continues into the children, whose
      parent is `n` and so never the root. Reads the document and changes nothing. */
  method Visit(n: Node, parentIsRoot: bool) returns (passed: bool)
    ensures passed <==>
      (parentIsRoot && n.MiningModel? ==> forall f | f in n.miningFields :: FieldConforms(f))
    ensures !parentIsRoot ==> passed
    decreases n
  {
    if n.MiningModel? && parentIsRoot {
      var miningFields := n.miningFields;
      if |miningFields| > 0 {  // hasMiningFields()
        for j := 0 to |miningFields|
          invariant forall k | 0 <= k < j :: FieldConforms(miningFields[k])
        {
          var miningField := miningFields[j];
          var importance := miningField.importance;
          match miningField.usageType {
            case Target =>
              if importance != None {
                assert !FieldConforms(miningFields[j]);
                return false;
              }
            case Active =>
              if importance == None {
                assert !FieldConforms(miningFields[j]);
                return false;
              }
            case _ =>
          }
        }
      }
    }

    // The walk goes on beneath `n`; no node there has the root as its parent, so nothing
    // beneath it is checked.
    for i := 0 to |n.children| {
      var _ := Visit(n.children[i], false);
    }
    return true;
  }

  /** `validatePMML`: walks the models beneath the root and passes exactly when the
      document conforms. */
  method ValidatePMML(doc: PMML) returns (passed: bool)
    ensures passed == Conforming(doc)
  {
    for i := 0 to |doc.models|
      invariant forall k, f | 0 <= k < i && doc.models[k].MiningModel? && f in doc.models[k].miningFields ::
        FieldConforms(f)
    {
      passed := Visit(doc.models[i], true);
      if !passed {
        return;
      }
    }
    return true;
  }

  /** What rejects a document: some top-level ensemble model declares a target field with an
      importance, or an active field without one. */
  lemma RejectedExactly(doc: PMML)
    ensures !Conforming(doc) <==>
      exists m, f | m in doc.models && m.MiningModel? && f in m.miningFields ::
        (f.usageType == Target && f.importance.Some?) || (f.usageType == Active && f.importance.None?)
  {
    if !Conforming(doc) {
      var m, f :| m in doc.models && m.MiningModel? && f in m.miningFields && !FieldConforms(f);
      assert (f.usageType == Target && f.importance.Some?) || (f.usageType == Active && f.importance.None?);
    } else {
      forall m, f | m in doc.models && m.MiningModel? && f in m.miningFields
        ensures !((f.usageType == Target && f.importance.Some?) || (f.usageType == Active && f.importance.None?))
      {
        assert FieldConforms(f);
      }
    }
  }

  // ---------------------------------------------------------------------------
  // getPMML

  /** `getPMML()`: open the model resource (the loader and the converter are outside this
      model: `resources` says which paths open, and `encoded` is what the converter
      produces), resolve the options, convert, then validate. The first step that fails
      decides the error. */
  method GetPMML(name: string, dataset: string, resources: set<string>, encoded: PMML)
    returns (r: Result<PMML>)
    ensures ModelTxtPath(name, dataset) !in resources ==>
      r == Failure(ResourceNotFound(ModelTxtPath(name, dataset)))
    ensures ModelTxtPath(name, dataset) in resources && SuffixMalformed(dataset) ==>
      r == Failure(NumberFormatError(ParseDataset(dataset)[1]))
    ensures ModelTxtPath(name, dataset) in resources && !SuffixMalformed(dataset) && !Conforming(encoded) ==>
      r == Failure(AssertionError)
    ensures r.Success? <==>
      ModelTxtPath(name, dataset) in resources && !SuffixMalformed(dataset) && Conforming(encoded)
    ensures r.Success? ==> r.value == encoded
  {
    var path := ModelTxtPath(name, dataset);
    if path !in resources {
      return Failure(ResourceNotFound(path));
    }

    var options := GetOptions(dataset);
    if options.Failure? {
      return Failure(options.error);
    }

    var pmml := encoded;

    var passed := ValidatePMML(pmml);
    if !passed {
      return Failure(AssertionError);
    }

    return Success(pmml);
  }
}
