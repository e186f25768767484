/**
 * The valid RFQ of the repository's unit test, and variations of it that
 * exercise the record-level unit/quantity rule.
 */
module RfqExamples {
  import opened Wrappers
  import opened PyStr
  import opened IsoDate
  import opened Rfq
  import opened RfqProperties

  /** The candidate of the unit test: the required fields, two dates, and empty lists. */
  const Sample: Candidate := map[
    RequestIdKey := Text("RFQ_0001"),
    ProductOrServiceKey := Text("Pneumatic valve"),
    SpecificationKey := Text("Test spec"),
    RequestedDeliveryDateKey := Text("unknown"),
    ResponseDueDateKey := Text("2026-01-31"),
    NeedsReviewKey := Bool(true),
    MissingFieldsKey := TextList([]),
    ClarificationQuestionsKey := TextList([]),
    TasksKey := TextList([])
  ]

  /** The record the model builds from the sample: the sample's values, every other field at its default. */
  const SampleRecord: RFQ := RFQ(
    "RFQ_0001", None, None, None, "Pneumatic valve", "Test spec", None, None,
    UNKNOWN, None, None, "2026-01-31", true, [], [], [])

  lemma SampleDueDate()
    ensures IsIsoDate("2026-01-31")
  {
    ParseIsoDateDigits("2026-01-31");
  }

  lemma SampleHasNoContactFields()
    ensures CustomerNameKey !in Sample && ContactNameKey !in Sample && ContactEmailKey !in Sample
  {
  }

  lemma SampleHasNoOrderFields()
    ensures QuantityKey !in Sample && QuantityUnitKey !in Sample
    ensures DeliveryLocationKey !in Sample && IncotermsKey !in Sample
  {
  }

  lemma SampleContentFields()
    ensures RequestIdKey in Sample && Sample[RequestIdKey] == Text("RFQ_0001")
    ensures ProductOrServiceKey in Sample && Sample[ProductOrServiceKey] == Text("Pneumatic valve")
    ensures SpecificationKey in Sample && Sample[SpecificationKey] == Text("Test spec")
  {
  }

  lemma SampleDateFields()
    ensures RequestedDeliveryDateKey in Sample && Sample[RequestedDeliveryDateKey] == Text(UNKNOWN)
    ensures ResponseDueDateKey in Sample && Sample[ResponseDueDateKey] == Text("2026-01-31")
  {
  }

  lemma SampleWorkflowFields()
    ensures NeedsReviewKey in Sample && Sample[NeedsReviewKey] == Bool(true)
    ensures MissingFieldsKey in Sample && Sample[MissingFieldsKey] == TextList([])
    ensures ClarificationQuestionsKey in Sample && Sample[ClarificationQuestionsKey] == TextList([])
    ensures TasksKey in Sample && Sample[TasksKey] == TextList([])
  {
  }

  /** Only declared fields appear in the sample. */
  lemma SampleKeysDeclared()
    ensures Sample.Keys <= FieldNames
  {
  }

  /** Every field of the sample is accepted, and the absent ones take their defaults. */
  lemma SampleFieldsAccepted()
    ensures AllFieldsAccepted(Sample) && BuildRecord(Sample) == SampleRecord
  {
    SampleDueDate();
    NormaliseDateFixes(UNKNOWN);
    NormaliseDateFixes("2026-01-31");
    SampleHasNoContactFields();
    SampleHasNoOrderFields();
    SampleContentFields();
    SampleDateFields();
    SampleWorkflowFields();
  }

  /** `test_valid_rfq`: the sample validates, and the record keeps its `request_id`. */
  lemma SampleRecordValidates()
    ensures Validate(Sample) == Success(SampleRecord)
    ensures Validate(Sample).value.requestId == "RFQ_0001"
  {
    SampleFieldsAccepted();
    SampleKeysDeclared();
    CheckFieldsBuilds(Sample);
  }

  // ---- The unit/quantity rule on the sample ----

  /** The sample with a quantity and a unit added. */
  function WithOrder(q: Value, u: string): Candidate {
    map[
      RequestIdKey := Text("RFQ_0001"),
      ProductOrServiceKey := Text("Pneumatic valve"),
      SpecificationKey := Text("Test spec"),
      RequestedDeliveryDateKey := Text("unknown"),
      ResponseDueDateKey := Text("2026-01-31"),
      NeedsReviewKey := Bool(true),
      MissingFieldsKey := TextList([]),
      ClarificationQuestionsKey := TextList([]),
      TasksKey := TextList([]),
      QuantityKey := q,
      QuantityUnitKey := Text(u)
    ]
  }

  lemma WithOrderKeys(q: Value, u: string)
    ensures WithOrder(q, u).Keys <= FieldNames
    ensures CustomerNameKey !in WithOrder(q, u) && ContactNameKey !in WithOrder(q, u) && ContactEmailKey !in WithOrder(q, u)
    ensures DeliveryLocationKey !in WithOrder(q, u) && IncotermsKey !in WithOrder(q, u)
  {
  }

  lemma WithOrderLookups(q: Value, u: string)
    ensures var c := WithOrder(q, u);
      && c[RequestIdKey] == Text("RFQ_0001")
      && c[ProductOrServiceKey] == Text("Pneumatic valve")
      && c[SpecificationKey] == Text("Test spec")
      && c[RequestedDeliveryDateKey] == Text("unknown")
      && c[ResponseDueDateKey] == Text("2026-01-31")
      && c[NeedsReviewKey] == Bool(true)
      && c[MissingFieldsKey] == TextList([])
      && c[ClarificationQuestionsKey] == TextList([])
      && c[TasksKey] == TextList([])
      && c[QuantityKey] == q
      && c[QuantityUnitKey] == Text(u)
  {
  }

  lemma WithOrderLeading(q: Value, u: string, rq: Option<real>)
    requires (q == Null && rq == None) || (q.Number? && q.num >= 0.0 && rq == Some(q.num))
    ensures var c := WithOrder(q, u);
      && RequiredText(c, RequestIdKey) == Success("RFQ_0001")
      && OptionalText(c, CustomerNameKey) == Success(None)
      && OptionalText(c, ContactNameKey) == Success(None)
      && EmailField(c) == Success(None)
      && RequiredText(c, ProductOrServiceKey) == Success("Pneumatic valve")
      && RequiredText(c, SpecificationKey) == Success("Test spec")
      && QuantityField(c) == Success(rq)
      && OptionalText(c, QuantityUnitKey) == Success(Some(u))
  {
    WithOrderKeys(q, u);
    WithOrderLookups(q, u);
  }

  lemma WithOrderTrailing(q: Value, u: string)
    ensures var c := WithOrder(q, u);
      && OptionalText(c, DeliveryLocationKey) == Success(None)
      && OptionalText(c, IncotermsKey) == Success(None)
      && RequiredBool(c, NeedsReviewKey) == Success(true)
      && TextListField(c, MissingFieldsKey) == Success([])
      && TextListField(c, ClarificationQuestionsKey) == Success([])
      && TextListField(c, TasksKey) == Success([])
  {
    WithOrderKeys(q, u);
    WithOrderLookups(q, u);
  }

  /** The added quantity and unit are read as such; every other field is as in the sample. */
  lemma WithOrderFieldsAccepted(q: Value, u: string, rq: Option<real>)
    requires (q == Null && rq == None) || (q.Number? && q.num >= 0.0 && rq == Some(q.num))
    ensures AllFieldsAccepted(WithOrder(q, u)) && WithOrder(q, u).Keys <= FieldNames
    ensures BuildRecord(WithOrder(q, u)) == SampleRecord.(quantity := rq, quantityUnit := Some(u))
  {
    WithOrderKeys(q, u);
    WithOrderLeading(q, u, rq);
    WithOrderDates(q, u);
    WithOrderTrailing(q, u);
  }

  /** The sample's two date values are kept as they are. */
  lemma WithOrderDates(q: Value, u: string)
    ensures DateField(WithOrder(q, u), RequestedDeliveryDateKey) == Success(UNKNOWN)
    ensures DateField(WithOrder(q, u), ResponseDueDateKey) == Success("2026-01-31")
  {
    WithOrderLookups(q, u);
    SampleDueDate();
    DateFieldFixes(WithOrder(q, u), RequestedDeliveryDateKey, UNKNOWN);
    DateFieldFixes(WithOrder(q, u), ResponseDueDateKey, "2026-01-31");
  }

  /** A unit of `pcs` with no quantity passes every field and is refused by the record-level rule alone. */
  lemma UnitWithoutQuantityRefused()
    ensures Validate(WithOrder(Null, "pcs")) == Failure({Issue(AtModel, UnitWithoutQuantity)})
  {
    WithOrderFieldsAccepted(Null, "pcs", None);
    CheckFieldsBuilds(WithOrder(Null, "pcs"));
  }

  /** A quantity of zero is a quantity: the rule asks whether it is missing, not whether it is zero. */
  lemma ZeroQuantityWithUnitAccepted()
    ensures Validate(WithOrder(Number(0.0), "pcs")).Success?
    ensures Validate(WithOrder(Number(0.0), "pcs")).value.quantity == Some(0.0)
  {
    WithOrderFieldsAccepted(Number(0.0), "pcs", Some(0.0));
    CheckFieldsBuilds(WithOrder(Number(0.0), "pcs"));
  }

  /** An empty unit counts as no unit, so it needs no quantity. */
  lemma EmptyUnitWithoutQuantityAccepted()
    ensures Validate(WithOrder(Null, "")).Success?
    ensures Validate(WithOrder(Null, "")).value.quantityUnit == Some("")
  {
    WithOrderFieldsAccepted(Null, "", None);
    CheckFieldsBuilds(WithOrder(Null, ""));
  }
}
