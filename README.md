# JPMML-LightGBM integration-test harness, modelled in Dafny

JPMML-LightGBM converts LightGBM models into PMML documents. Its integration tests run
through a test batch, `LightGBMTestBatch`. The batch does the following:

- it splits a dataset identifier such as `Auto@50` into a base dataset and an iteration-count suffix;
- it builds the converter options from the identifier;
- it names the model file, the input records and the expected-output records;
- it checks that every ensemble model directly under the document root reports an importance
  for each active field and none for the target.

`RegressionTest` makes its own batch with two overrides:

- it reads input records from a path with every `Direct` deleted;
- for the two housing datasets, it sets the invalid-value treatment of every mining field to `AS_IS`.

The model has five modules:

- `Results` (`results.dfy`): the outcome types. Java's `null` is `Option`. The three exceptions
  that can end a batch are `Error`, the failure side of `Result`.
- `JavaText` (`java_text.dfy`): the Java library behaviour the batch relies on.
  That is `String.indexOf(char)`, `new Integer(String)` with its sign, digit and 32-bit range
  rules, and `String.replace(target, "")` as a single left-to-right pass.
- `Pmml` (`pmml.dfy`): the document. `MiningField` is a class, because the regression batch
  overwrites its invalid-value treatment in place. The tree is a datatype of `MiningModel`
  and `Element` nodes under a `PMML` root, and those nodes hold references to the fields.
  `FieldConforms` and `Conforming` state the validation rule declaratively.
- `LightGBMTestBatch` (`lightgbm_test_batch.dfy`): the base batch.
  - `parseDataset` is a function.
  - `getOptions` is a method. It fills an `OptionMap` class that models `LinkedHashMap`.
  - The three path getters are functions.
  - The validating visitor is a recursive method. It loops over the mining fields and
    returns at the first violation.
  - `getPMML` is a method that keeps the source's order of steps.
- `RegressionTest` (`regression_test.dfy`): the overriding input path, the in-place `AS_IS`
  patch, and the overriding `getPMML`.

Two edge cases of the dataset identifier follow the code exactly:

- The base may be empty: `ParseDataset` splits `@50` into `""` and `"50"`.
- A trailing `@` is accepted by the split, which yields an empty suffix, and then rejected by
  `GetOptions` with a number-format error (`TrailingSeparator`).

## Model

| member | source | states |
|---|---|---|
| `JavaText.IndexOf` | pmml-lightgbm/src/main/java/org/jpmml/lightgbm/testing/LightGBMTestBatch.java:160 | the result is -1 exactly when the character is absent; otherwise it is a position holding the character with none before it |
| `JavaText.ParseInt` | pmml-lightgbm/src/main/java/org/jpmml/lightgbm/testing/LightGBMTestBatch.java:59 | a successful parse lies in the 32-bit range and comes from an optional sign followed by at least one digit and nothing else, so a lone `+` or `-` fails; every failure is a number-format error carrying the input |
| `JavaText.ParseDigits` | pmml-lightgbm/src/main/java/org/jpmml/lightgbm/testing/LightGBMTestBatch.java:59 | for every non-empty digit string d, `d` and `+d` parse to d's value and `-d` to its negation exactly when that is in the 32-bit range, and otherwise fail with a number-format error; leading zeros, `+` and `-0` included |
| `JavaText.ParseDecimal` | pmml-lightgbm/src/main/java/org/jpmml/lightgbm/testing/LightGBMTestBatch.java:59 | the decimal digits of any count up to 2^31-1 parse back to that count |
| `JavaText.ParseNegativeDecimal` | pmml-lightgbm/src/main/java/org/jpmml/lightgbm/testing/LightGBMTestBatch.java:59 | with a leading minus sign, the digits parse to the negated number, down to -2^31 |
| `JavaText.ParseOverflow` | pmml-lightgbm/src/main/java/org/jpmml/lightgbm/testing/LightGBMTestBatch.java:59 | every decimal above 2^31-1, and every negated decimal below -2^31, is rejected although it is well formed |
| `JavaText.DeleteAll` | pmml-lightgbm/src/test/java/org/jpmml/lightgbm/testing/RegressionTest.java:73 | deleting the target never lengthens the text |
| `JavaText.DeleteAllUnchanged` | pmml-lightgbm/src/test/java/org/jpmml/lightgbm/testing/RegressionTest.java:73 | the deletion leaves a text unchanged if and only if the target does not occur in it |
| `JavaText.DeleteAllLeftmost` | pmml-lightgbm/src/test/java/org/jpmml/lightgbm/testing/RegressionTest.java:73 | the first occurrence the left-to-right scan meets is deleted, and the scan resumes right after it |
| `JavaText.DeleteAllPrefix` | pmml-lightgbm/src/test/java/org/jpmml/lightgbm/testing/RegressionTest.java:73 | a prefix without the target's first character passes through unchanged |
| `JavaText.DeleteAllFramed` | pmml-lightgbm/src/test/java/org/jpmml/lightgbm/testing/RegressionTest.java:73 | a text between a prefix and a short suffix that can take no part in an occurrence has only its middle rewritten |
| `JavaText.DeleteAllSuffix` | pmml-lightgbm/src/test/java/org/jpmml/lightgbm/testing/RegressionTest.java:73 | a suffix that starts with a character outside the target, and holds no occurrence itself, passes through unchanged |
| `LightGBMTestBatch.ParseDataset` | pmml-lightgbm/src/main/java/org/jpmml/lightgbm/testing/LightGBMTestBatch.java:157-166 | without '@' the only part is the whole identifier; with '@' there are exactly two parts, the first has no '@', and the parts joined by '@' give back the identifier |
| `LightGBMTestBatch.JoinParse` | pmml-lightgbm/src/main/java/org/jpmml/lightgbm/testing/LightGBMTestBatch.java:160-163 | parsing `base@suffix` with an '@'-free base gives back exactly the base and the suffix, whatever '@'s the suffix holds |
| `LightGBMTestBatch.OptionMap.Put` | pmml-lightgbm/src/main/java/org/jpmml/lightgbm/testing/LightGBMTestBatch.java:62-65 | a new key is appended to the insertion order; a key already present keeps its place; the value is replaced; keys stay distinct |
| `LightGBMTestBatch.PutOptions` | pmml-lightgbm/src/main/java/org/jpmml/lightgbm/testing/LightGBMTestBatch.java:62-67 | three puts on a fresh insertion-ordered map yield exactly three entries, in put order, each with its own value |
| `LightGBMTestBatch.GetOptions` | pmml-lightgbm/src/main/java/org/jpmml/lightgbm/testing/LightGBMTestBatch.java:54-68 | fails exactly when there is a suffix that is not a 32-bit integer, with that suffix as the error; otherwise returns exactly three entries in order: compact = whether the identifier has an '@', nan_as_missing = true, and num_iteration = the parsed suffix or null |
| `LightGBMTestBatch.SuffixIsIterationCount` | pmml-lightgbm/src/main/java/org/jpmml/lightgbm/testing/LightGBMTestBatch.java:57-60 | for `base@n`, the suffix is the decimal text of n and parses to n, so num_iteration is n |
| `LightGBMTestBatch.TrailingSeparator` | pmml-lightgbm/src/main/java/org/jpmml/lightgbm/testing/LightGBMTestBatch.java:57-60 | a trailing '@' is accepted by the split, which yields an empty suffix, and rejected by the options |
| `LightGBMTestBatch.ModelTxtPath` | pmml-lightgbm/src/main/java/org/jpmml/lightgbm/testing/LightGBMTestBatch.java:70-74 | the model path is a `.txt` file under `/lgbm/`, as long as name and base together plus ten; an iteration suffix never reaches it, so an '@' in it can only come from the name |
| `LightGBMTestBatch.InputCsvPath` | pmml-lightgbm/src/main/java/org/jpmml/lightgbm/testing/LightGBMTestBatch.java:93-97 | the input path is a `.csv` file under `/csv/`, as long as the base plus nine, and never holds an '@' |
| `LightGBMTestBatch.OutputCsvPath` | pmml-lightgbm/src/main/java/org/jpmml/lightgbm/testing/LightGBMTestBatch.java:104-106 | the expected-output path is a `.csv` file under `/csv/`, as long as name and identifier plus nine, and keeps the identifier's '@' |
| `LightGBMTestBatch.ModelTxtPathOfBase` | pmml-lightgbm/src/main/java/org/jpmml/lightgbm/testing/LightGBMTestBatch.java:70-74 | the model path is `/lgbm/` + name + base + `.txt`, the same for every suffix |
| `LightGBMTestBatch.InputCsvPathOfBase` | pmml-lightgbm/src/main/java/org/jpmml/lightgbm/testing/LightGBMTestBatch.java:93-97 | the input path is `/csv/` + base + `.csv`, the same for every suffix |
| `LightGBMTestBatch.OutputCsvPathOfIdentifier` | pmml-lightgbm/src/main/java/org/jpmml/lightgbm/testing/LightGBMTestBatch.java:104-106 | the expected-output path keeps the full identifier: it differs between suffixes, and differs from the base's path |
| `LightGBMTestBatch.Visit` | pmml-lightgbm/src/main/java/org/jpmml/lightgbm/testing/LightGBMTestBatch.java:119-152 | an ensemble model whose parent is the root passes if and only if all its fields obey the rule; every other node passes, including nested ensemble models, though the walk still goes through them |
| `LightGBMTestBatch.ValidatePMML` | pmml-lightgbm/src/main/java/org/jpmml/lightgbm/testing/LightGBMTestBatch.java:113-155 | passes if and only if the document conforms; it has no modifies clause, so it changes nothing |
| `LightGBMTestBatch.RejectedExactly` | pmml-lightgbm/src/main/java/org/jpmml/lightgbm/testing/LightGBMTestBatch.java:129-146 | a document is rejected if and only if some top-level ensemble model has a target field with an importance or an active field without one |
| `LightGBMTestBatch.GetPMML` | pmml-lightgbm/src/main/java/org/jpmml/lightgbm/testing/LightGBMTestBatch.java:76-91 | a model resource that does not open fails first, then a malformed suffix, then a failed validation; it succeeds exactly when none of these happen, and it returns the converted document |
| `RegressionTest.InputCsvPath` | pmml-lightgbm/src/test/java/org/jpmml/lightgbm/testing/RegressionTest.java:69-76 | the rewritten input path is `/csv/` + the base name with its `Direct`s deleted + `.csv`: neither the directory nor the extension is touched |
| `RegressionTest.InputCsvPathUnchanged` | pmml-lightgbm/src/test/java/org/jpmml/lightgbm/testing/RegressionTest.java:69-76 | the rewrite changes the inherited input path if and only if the base name contains `Direct` |
| `RegressionTest.OutputCsvPathKeepsDirect` | pmml-lightgbm/src/test/java/org/jpmml/lightgbm/testing/RegressionTest.java:69-76 | only the input path is rewritten; a `Direct` in the identifier is still in the expected-output path |
| `RegressionTest.SinglePass` | pmml-lightgbm/src/test/java/org/jpmml/lightgbm/testing/RegressionTest.java:73 | the rewrite does not rescan: `DirDirectect` becomes `Direct` |
| `RegressionTest.SetAsIs` | pmml-lightgbm/src/test/java/org/jpmml/lightgbm/testing/RegressionTest.java:53-61 | every mining field at or below the node, at any depth, gets `AS_IS`; usage and importance are unchanged, and nothing outside those fields is touched |
| `RegressionTest.SetAsIsEverywhere` | pmml-lightgbm/src/test/java/org/jpmml/lightgbm/testing/RegressionTest.java:53-63 | every mining field of the document gets `AS_IS`; usage and importance are unchanged, so the validation outcome is unchanged too |
| `RegressionTest.GetPMML` | pmml-lightgbm/src/test/java/org/jpmml/lightgbm/testing/RegressionTest.java:45-67 | it has the inherited failures and success condition; a document it returns conforms; for the housing datasets every field ends up `AS_IS`; otherwise, or on failure, the document is untouched |

## Left out

- Model loading (`LightGBMUtil.loadGBDT`) and conversion (`GBDT.encodePMML`) are external. `GetPMML` takes the set of model resources that open and the document the converter returns as parameters, so a malformed model file is not modelled.
- The inherited `super.validatePMML` belongs to the evaluator's test library, which is not part of this model.
- Loading CSV records (`loadRecords`, `getInput`, `getOutput`) is I/O. The model stops at the paths those methods read.
- The evaluator's comparison of results (`Predicate<ResultField>`, `Equivalence<Object>`) is not modelled. It is external and uses floating-point tolerance.
- The JUnit test methods are not modelled. Each is a one-line call to `evaluate`.
- The values of the dataset constants (`HOUSING`, `HOUSING_NA`, `AUTO_DIRECT`, ...) are defined in the `LightGBMDatasets` interface, which is not modelled. `RegressionTest.GetPMML` takes the two housing names as parameters.
- The option key strings (`compact`, `nan_as_missing`, `num_iteration`) stand for the converter's option constants, which are defined elsewhere. The proofs only rely on the three keys being distinct.
- Closing the model stream is resource handling. The model only keeps the fact that the resource is opened before the options are resolved.
- `JavaText.ParseInt`: accepts only the ASCII digits `0`-`9`. Java's parser also accepts other Unicode decimal digits. Dataset identifiers are ASCII names such as `Auto@50`, so the difference does not arise in the tests.
- Document elements other than `MiningModel` are one `Element` kind that only owns mining fields and children. A `MiningModel` always has its mining schema, as the converter guarantees, so the null-schema case is not modelled.
- `LightGBMTestBatch.GetPMML`: the converted document is a parameter, so the model does not show that the converter receives the resolved options; it only keeps that a malformed suffix stops the batch before conversion.
- Aliasing between document nodes is not modelled. The nodes are values; only mining fields are objects, so two references to one field are allowed and patched once each.
