/** The part of a PMML document the harness looks at. A `MiningField` is an object whose
    invalid-value treatment the regression batch overwrites in place; the elements that
    hold mining fields are values, since nothing in the harness rebuilds or rearranges them. */
module Pmml {
  import opened Results

  /** `MiningField.UsageType`. */
  datatype UsageType =
    | Active | Predicted | Target | Supplementary | Group | Order | FrequencyWeight | AnalysisWeight

  /** `InvalidValueTreatmentMethod`. */
  datatype InvalidValueTreatment = ReturnInvalid | AsIs | AsMissing | AsValue

  class MiningField {
    const name: string
    var usageType: UsageType
    var importance: Option<real>                           // `null` when not declared
    var invalidValueTreatment: Option<InvalidValueTreatment>  // `null` when not declared

    constructor (name: string, usageType: UsageType, importance: Option<real>,
                 invalidValueTreatment: Option<InvalidValueTreatment>)
      ensures this.name == name && this.usageType == usageType
      ensures this.importance == importance && this.invalidValueTreatment == invalidValueTreatment
    {
      this.name := name;
      this.usageType := usageType;
      this.importance := importance;
      this.invalidValueTreatment := invalidValueTreatment;
    }
  }

  /** An element below the document root. A `MiningModel` (an ensemble) lists the fields of
      its `MiningSchema` and the elements beneath it (its segmentation, whose segments hold the
      member models). Every other element (a segment, a tree model, ...) is an `Element` with
      the fields of its own mining schema, if it has one, and its children. */
  datatype Node =
    | MiningModel(miningFields: seq<MiningField>, children: seq<Node>)
    | Element(miningFields: seq<MiningField>, children: seq<Node>)

  /** The document root, `PMML`, with the models directly beneath it. */
  datatype PMML = PMML(models: seq<Node>)

  /** Every mining field at or beneath `n`. */
  ghost function NodeFields(n: Node): set<MiningField>
  {
    (set f | f in n.miningFields) + (set c, f | c in n.children && f in NodeFields(c) :: f)
  }

  /** Every mining field anywhere in the document. */
  ghost function DocumentFields(doc: PMML): set<MiningField>
  {
    set m, f | m in doc.models && f in NodeFields(m) :: f
  }

  /** The mining fields of the ensemble models whose parent is the document root. */
  ghost function TopLevelFields(doc: PMML): set<MiningField>
  {
    set m, f | m in doc.models && m.MiningModel? && f in m.miningFields :: f
  }

  /** What each field declares about its role: its usage and its importance. */
  ghost function Declarations(fields: set<MiningField>): map<MiningField, (UsageType, Option<real>)>
    reads fields
  {
    map f | f in fields :: (f.usageType, f.importance)
  }

  /** The fields of a document the caller holds exist in the caller's heap. */
  lemma FieldsAllocated(n: Node)
    ensures forall f | f in NodeFields(n) :: allocated(f)
  {
    forall c | c in n.children {
      FieldsAllocated(c);
    }
  }

  lemma DocumentFieldsAllocated(doc: PMML)
    ensures forall f | f in DocumentFields(doc) :: allocated(f)
  {
    forall m | m in doc.models {
      FieldsAllocated(m);
    }
  }

  lemma TopLevelFieldsInDocument(doc: PMML)
    ensures TopLevelFields(doc) <= DocumentFields(doc)
  {
    forall m, f | m in doc.models && m.MiningModel? && f in m.miningFields
      ensures f in DocumentFields(doc)
    {
      assert f in NodeFields(m);
    }
  }

  /** The rule a converted field must obey: a target carries no importance, an active
      field carries one, and any other usage is unconstrained. */
  predicate FieldConforms(f: MiningField)
    reads f
  {
    match f.usageType
    case Target => f.importance.None?
    case Active => f.importance.Some?
    case _ => true
  }

  /** Every field of every ensemble model directly under the root obeys the rule;
      models nested deeper are exempt. */
  predicate Conforming(doc: PMML)
    reads TopLevelFields(doc)
  {
    forall m, f | m in doc.models && m.MiningModel? && f in m.miningFields :: FieldConforms(f)
  }
}
