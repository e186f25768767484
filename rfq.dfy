/**
 * The RFQ (request for quotation) record and its validator: a candidate
 * mapping from field names to raw values is either turned into an RFQ value,
 * with defaults filled in and the date and e-mail fields normalised, or
 * refused with the set of issues found.
 *
 * Validation runs in two passes, as the pydantic model does: first every
 * field on its own together with the closed-schema check (all issues of that
 * pass are collected), then, only when that pass found nothing, the
 * cross-field rule between `quantity_unit` and `quantity`.
 */
module Rfq {
  import opened Wrappers
  import opened PyStr
  import opened IsoDate

  /** The sentinel a date field holds when the date is not known. */
  const UNKNOWN: string := "unknown"

  /** A raw value in a candidate mapping. */
  datatype Value =
    | Text(text: string)
    | Number(num: real)
    | Bool(flag: bool)
    | TextList(items: seq<string>)
    | Null

  /** A candidate record: field name to raw value. */
  type Candidate = map<string, Value>

  const RequestIdKey := "request_id"
  const CustomerNameKey := "customer_name"
  const ContactNameKey := "contact_name"
  const ContactEmailKey := "contact_email"
  const ProductOrServiceKey := "product_or_service"
  const SpecificationKey := "specification"
  const QuantityKey := "quantity"
  const QuantityUnitKey := "quantity_unit"
  const RequestedDeliveryDateKey := "requested_delivery_date"
  const DeliveryLocationKey := "delivery_location"
  const IncotermsKey := "incoterms"
  const ResponseDueDateKey := "response_due_date"
  const NeedsReviewKey := "needs_review"
  const MissingFieldsKey := "missing_fields"
  const ClarificationQuestionsKey := "clarification_questions"
  const TasksKey := "tasks"

  /** The declared fields; any other key is refused. */
  const FieldNames: set<string> := {
    RequestIdKey, CustomerNameKey, ContactNameKey, ContactEmailKey,
    ProductOrServiceKey, SpecificationKey, QuantityKey, QuantityUnitKey,
    RequestedDeliveryDateKey, DeliveryLocationKey, IncotermsKey, ResponseDueDateKey,
    NeedsReviewKey, MissingFieldsKey, ClarificationQuestionsKey, TasksKey
  }

  /** The declared fields, by name. */
  datatype Field =
    | RequestId | CustomerName | ContactName | ContactEmail
    | ProductOrService | Specification | Quantity | QuantityUnit
    | RequestedDeliveryDate | DeliveryLocation | Incoterms | ResponseDueDate
    | NeedsReview | MissingFields | ClarificationQuestions | Tasks

  const AllFields: set<Field> := {
    RequestId, CustomerName, ContactName, ContactEmail,
    ProductOrService, Specification, Quantity, QuantityUnit,
    RequestedDeliveryDate, DeliveryLocation, Incoterms, ResponseDueDate,
    NeedsReview, MissingFields, ClarificationQuestions, Tasks
  }

  lemma AllFieldsComplete(f: Field)
    ensures f in AllFields
  {
  }

  lemma AllFieldsCompleteAll()
    ensures forall f: Field :: f in AllFields
  {
    forall f: Field ensures f in AllFields { AllFieldsComplete(f); }
  }

  /** The key under which a field appears in a candidate. */
  function Key(f: Field): (k: string)
    ensures k in FieldNames
  {
    match f
    case RequestId => RequestIdKey
    case CustomerName => CustomerNameKey
    case ContactName => ContactNameKey
    case ContactEmail => ContactEmailKey
    case ProductOrService => ProductOrServiceKey
    case Specification => SpecificationKey
    case Quantity => QuantityKey
    case QuantityUnit => QuantityUnitKey
    case RequestedDeliveryDate => RequestedDeliveryDateKey
    case DeliveryLocation => DeliveryLocationKey
    case Incoterms => IncotermsKey
    case ResponseDueDate => ResponseDueDateKey
    case NeedsReview => NeedsReviewKey
    case MissingFields => MissingFieldsKey
    case ClarificationQuestions => ClarificationQuestionsKey
    case Tasks => TasksKey
  }

  /** A validated RFQ; it is never changed after construction. */
  datatype RFQ = RFQ(
    requestId: string,
    customerName: Option<string>,
    contactName: Option<string>,
    contactEmail: Option<string>,
    productOrService: string,
    specification: string,
    quantity: Option<real>,
    quantityUnit: Option<string>,
    requestedDeliveryDate: string,
    deliveryLocation: Option<string>,
    incoterms: Option<string>,
    responseDueDate: string,
    needsReview: bool,
    missingFields: seq<string>,
    clarificationQuestions: seq<string>,
    tasks: seq<string>)

  /** Why a value, or the record, was refused. */
  datatype ErrorKind =
    | Missing               // a required field is absent
    | WrongType             // the value is not of the field's kind
    | TooShort              // a required text is empty
    | Negative              // the quantity is below zero
    | InvalidDate           // neither `unknown` nor a `YYYY-MM-DD` calendar date
    | InvalidEmail          // no `@`, or no `.` after the last `@`
    | ExtraForbidden        // the key is not a declared field
    | UnitWithoutQuantity   // a unit is given but the quantity is absent

  /** Where an issue was found: at a declared field, at an undeclared key, or at the record as a whole. */
  datatype Loc = AtField(field: Field) | AtExtraKey(key: string) | AtModel

  datatype Issue = Issue(loc: Loc, kind: ErrorKind)

  // ---- Field validators ----

  /**
   * Normalises a date field: surrounding whitespace is removed; a value that
   * lower-cases to `unknown` becomes exactly `unknown`; anything else must be a
   * `YYYY-MM-DD` calendar date and is kept as trimmed. No value is ever
   * substituted for a bad date.
   */
  function NormaliseDate(v: string): (r: Result<string, ErrorKind>)
    ensures r.Success? ==> r.value == UNKNOWN || IsIsoDate(r.value)
    ensures r.Success? ==> r.value == UNKNOWN || r.value == Strip(v)
    ensures r.Failure? ==> r.error == InvalidDate
  {
    var t := Strip(v);
    if Lower(t) == UNKNOWN then Success(UNKNOWN)
    else if IsIsoDate(t) then Success(t)
    else Failure(InvalidDate)
  }

  /** The minimal e-mail shape: an `@`, and a `.` in what follows the last `@`. */
  predicate LooksLikeEmail(v: string) {
    '@' in v && '.' in LastSplitPart(v, '@')
  }

  /**
   * Normalises `contact_email`: absent stays absent, text that is empty after
   * trimming becomes absent, other text must look like an e-mail address and
   * is kept as trimmed.
   */
  function NormaliseEmail(v: Option<string>): (r: Result<Option<string>, ErrorKind>)
    ensures v.None? ==> r == Success(None)
    ensures r.Success? && r.value.Some? ==> v.Some? && r.value.value == Strip(v.value)
    ensures r.Success? && r.value.Some? ==> r.value.value != [] && NoSpaceEdges(r.value.value) && LooksLikeEmail(r.value.value)
    ensures r.Failure? ==> r.error == InvalidEmail
  {
    match v
    case None => Success(None)
    case Some(s) =>
      StripSpec(s);
      var t := Strip(s);
      if t == "" then Success(None)
      else if !LooksLikeEmail(t) then Failure(InvalidEmail)
      else Success(Some(t))
  }

  /** A required text field with a minimum length of 1 (whitespace is not stripped). */
  function RequiredText(c: Candidate, k: string): (r: Result<string, ErrorKind>)
    ensures r.Success? ==> k in c && c[k] == Text(r.value) && |r.value| >= 1
    ensures k in c && c[k].Text? && |c[k].text| >= 1 ==> r.Success?
    ensures k !in c ==> r == Failure(Missing)
  {
    if k !in c then Failure(Missing)
    else match c[k]
      case Text(s) => if |s| >= 1 then Success(s) else Failure(TooShort)
      case _ => Failure(WrongType)
  }

  /** An optional text field: absent or null means `None`. */
  function OptionalText(c: Candidate, k: string): (r: Result<Option<string>, ErrorKind>)
    ensures r.Success? <==> k !in c || c[k].Null? || c[k].Text?
    ensures r.Success? && r.value.Some? ==> k in c && c[k] == Text(r.value.value)
    ensures r.Success? && r.value.None? ==> k !in c || c[k] == Null
    ensures r.Failure? ==> r.error == WrongType
  {
    if k !in c then Success(None)
    else match c[k]
      case Text(s) => Success(Some(s))
      case Null => Success(None)
      case _ => Failure(WrongType)
  }

  /** `contact_email`: an optional text, then its normalisation. */
  function EmailField(c: Candidate): (r: Result<Option<string>, ErrorKind>)
    ensures ContactEmailKey !in c ==> r == Success(None)
    ensures r.Success? && r.value.Some? ==> ContactEmailKey in c && c[ContactEmailKey].Text? && r.value.value == Strip(c[ContactEmailKey].text)
    ensures r.Success? && r.value.Some? ==> r.value.value != [] && NoSpaceEdges(r.value.value) && LooksLikeEmail(r.value.value)
  {
    var t := OptionalText(c, ContactEmailKey);
    if t.Failure? then Failure(t.error) else NormaliseEmail(t.value)
  }

  /** `quantity`: an optional number no smaller than 0. */
  function QuantityField(c: Candidate): (r: Result<Option<real>, ErrorKind>)
    ensures r.Success? && r.value.Some? ==> r.value.value >= 0.0 && QuantityKey in c && c[QuantityKey] == Number(r.value.value)
    ensures r.Success? && r.value.None? ==> QuantityKey !in c || c[QuantityKey] == Null
    ensures QuantityKey in c && c[QuantityKey].Number? && c[QuantityKey].num < 0.0 ==> r == Failure(Negative)
  {
    if QuantityKey !in c then Success(None)
    else match c[QuantityKey]
      case Number(x) => if x >= 0.0 then Success(Some(x)) else Failure(Negative)
      case Null => Success(None)
      case _ => Failure(WrongType)
  }

  /** A date field: absent means `unknown`; text is normalised; anything else is refused. */
  function DateField(c: Candidate, k: string): (r: Result<string, ErrorKind>)
    ensures k !in c ==> r == Success(UNKNOWN)
    ensures r.Success? ==> r.value == UNKNOWN || IsIsoDate(r.value)
    ensures r.Success? && k in c ==> c[k].Text?
  {
    if k !in c then Success(UNKNOWN)
    else match c[k]
      case Text(s) => NormaliseDate(s)
      case _ => Failure(WrongType)
  }

  /** A required boolean field. */
  function RequiredBool(c: Candidate, k: string): (r: Result<bool, ErrorKind>)
    ensures r.Success? <==> k in c && c[k].Bool?
    ensures r.Success? ==> c[k] == Bool(r.value)
    ensures k !in c ==> r == Failure(Missing)
  {
    if k !in c then Failure(Missing)
    else match c[k]
      case Bool(b) => Success(b)
      case _ => Failure(WrongType)
  }

  /** A list-of-text field that defaults to the empty list. */
  function TextListField(c: Candidate, k: string): (r: Result<seq<string>, ErrorKind>)
    ensures k !in c ==> r == Success([])
    ensures r.Success? && k in c ==> c[k] == TextList(r.value)
    ensures r.Success? <==> k !in c || c[k].TextList?
  {
    if k !in c then Success([])
    else match c[k]
      case TextList(items) => Success(items)
      case _ => Failure(WrongType)
  }

  // ---- The two passes ----

  /** The error a field's outcome carries, if any. */
  function ErrorOf<T>(r: Result<T, ErrorKind>): (e: Option<ErrorKind>)
    ensures e.None? <==> r.Success?
  {
    if r.Failure? then Some(r.error) else None
  }

  /** What the field pass reports at a declared field: the outcome of that field's own validator. */
  function IssueAt(c: Candidate, f: Field): Option<ErrorKind> {
    match f
    case RequestId => ErrorOf(RequiredText(c, RequestIdKey))
    case CustomerName => ErrorOf(OptionalText(c, CustomerNameKey))
    case ContactName => ErrorOf(OptionalText(c, ContactNameKey))
    case ContactEmail => ErrorOf(EmailField(c))
    case ProductOrService => ErrorOf(RequiredText(c, ProductOrServiceKey))
    case Specification => ErrorOf(RequiredText(c, SpecificationKey))
    case Quantity => ErrorOf(QuantityField(c))
    case QuantityUnit => ErrorOf(OptionalText(c, QuantityUnitKey))
    case RequestedDeliveryDate => ErrorOf(DateField(c, RequestedDeliveryDateKey))
    case DeliveryLocation => ErrorOf(OptionalText(c, DeliveryLocationKey))
    case Incoterms => ErrorOf(OptionalText(c, IncotermsKey))
    case ResponseDueDate => ErrorOf(DateField(c, ResponseDueDateKey))
    case NeedsReview => ErrorOf(RequiredBool(c, NeedsReviewKey))
    case MissingFields => ErrorOf(TextListField(c, MissingFieldsKey))
    case ClarificationQuestions => ErrorOf(TextListField(c, ClarificationQuestionsKey))
    case Tasks => ErrorOf(TextListField(c, TasksKey))
  }

  /** What the field pass guarantees of the record it builds. */
  predicate FieldsWellFormed(r: RFQ) {
    && |r.requestId| >= 1
    && |r.productOrService| >= 1
    && |r.specification| >= 1
    && (r.quantity.Some? ==> r.quantity.value >= 0.0)
    && (r.requestedDeliveryDate == UNKNOWN || IsIsoDate(r.requestedDeliveryDate))
    && (r.responseDueDate == UNKNOWN || IsIsoDate(r.responseDueDate))
    && (r.contactEmail.Some? ==> r.contactEmail.value != [] && NoSpaceEdges(r.contactEmail.value) && LooksLikeEmail(r.contactEmail.value))
  }

  /** The cross-field rule: a non-empty unit needs a quantity. */
  predicate QuantityPairOk(r: RFQ) {
    !(r.quantityUnit.Some? && r.quantityUnit.value != "" && r.quantity.None?)
  }

  /** Every RFQ the validator returns satisfies this. */
  predicate WellFormed(r: RFQ) {
    FieldsWellFormed(r) && QuantityPairOk(r)
  }

  /** One issue per declared field whose validator refused its value. */
  function DeclaredFieldIssues(c: Candidate): (s: set<Issue>)
    ensures forall f | IssueAt(c, f).Some? :: Issue(AtField(f), IssueAt(c, f).value) in s
    ensures forall i | i in s :: i.loc.AtField? && IssueAt(c, i.loc.field) == Some(i.kind)
  {
    AllFieldsCompleteAll();
    set f | f in AllFields && IssueAt(c, f).Some? :: Issue(AtField(f), IssueAt(c, f).value)
  }

  /** One issue per key that is not a declared field (the closed schema). */
  function ExtraKeyIssues(c: Candidate): (s: set<Issue>)
    ensures forall k | k in c && k !in FieldNames :: Issue(AtExtraKey(k), ExtraForbidden) in s
    ensures forall i | i in s :: i.loc.AtExtraKey? && i.loc.key in c && i.loc.key !in FieldNames && i.kind == ExtraForbidden
  {
    set k | k in c.Keys && k !in FieldNames :: Issue(AtExtraKey(k), ExtraForbidden)
  }

  /** Every issue the field pass finds; pydantic reports them together. */
  function FieldPassIssues(c: Candidate): (s: set<Issue>)
    ensures forall i | i in s :: i.loc != AtModel
  {
    DeclaredFieldIssues(c) + ExtraKeyIssues(c)
  }

  /** The validators of the identification, contact and content fields accepted their values. */
  predicate LeadingFieldsAccepted(c: Candidate) {
    && RequiredText(c, RequestIdKey).Success? && OptionalText(c, CustomerNameKey).Success?
    && OptionalText(c, ContactNameKey).Success? && EmailField(c).Success?
    && RequiredText(c, ProductOrServiceKey).Success? && RequiredText(c, SpecificationKey).Success?
    && QuantityField(c).Success? && OptionalText(c, QuantityUnitKey).Success?
  }

  /** The validators of the delivery and timing fields accepted their values. */
  predicate DeliveryFieldsAccepted(c: Candidate) {
    && DateField(c, RequestedDeliveryDateKey).Success? && OptionalText(c, DeliveryLocationKey).Success?
    && OptionalText(c, IncotermsKey).Success? && DateField(c, ResponseDueDateKey).Success?
  }

  /** The validators of the workflow fields accepted their values. */
  predicate WorkflowFieldsAccepted(c: Candidate) {
    && RequiredBool(c, NeedsReviewKey).Success? && TextListField(c, MissingFieldsKey).Success?
    && TextListField(c, ClarificationQuestionsKey).Success? && TextListField(c, TasksKey).Success?
  }

  /** Every declared field's validator accepted its value. */
  predicate AllFieldsAccepted(c: Candidate) {
    LeadingFieldsAccepted(c) && DeliveryFieldsAccepted(c) && WorkflowFieldsAccepted(c)
  }

  /** No declared field's validator refused its value. */
  predicate NoFieldRefused(c: Candidate) {
    forall f :: IssueAt(c, f).None?
  }

  lemma NoLeadingFieldIssues(c: Candidate)
    requires NoFieldRefused(c)
    ensures LeadingFieldsAccepted(c)
  {
    assert IssueAt(c, RequestId).None?;
    assert IssueAt(c, CustomerName).None?;
    assert IssueAt(c, ContactName).None?;
    assert IssueAt(c, ContactEmail).None?;
    assert IssueAt(c, ProductOrService).None?;
    assert IssueAt(c, Specification).None?;
    assert IssueAt(c, Quantity).None?;
    assert IssueAt(c, QuantityUnit).None?;
  }

  lemma NoDeliveryFieldIssues(c: Candidate)
    requires NoFieldRefused(c)
    ensures DeliveryFieldsAccepted(c)
  {
    assert IssueAt(c, RequestedDeliveryDate).None?;
    assert IssueAt(c, DeliveryLocation).None?;
    assert IssueAt(c, Incoterms).None?;
    assert IssueAt(c, ResponseDueDate).None?;
  }

  lemma NoWorkflowFieldIssues(c: Candidate)
    requires NoFieldRefused(c)
    ensures WorkflowFieldsAccepted(c)
  {
    assert IssueAt(c, NeedsReview).None?;
    assert IssueAt(c, MissingFields).None?;
    assert IssueAt(c, ClarificationQuestions).None?;
    assert IssueAt(c, Tasks).None?;
  }

  /** A field pass with no issue means every field was accepted and no key is undeclared. */
  lemma NoFieldIssues(c: Candidate)
    requires FieldPassIssues(c) == {}
    ensures AllFieldsAccepted(c) && c.Keys <= FieldNames
  {
    assert DeclaredFieldIssues(c) == {} && ExtraKeyIssues(c) == {};
    assert NoFieldRefused(c);
    NoLeadingFieldIssues(c);
    NoDeliveryFieldIssues(c);
    NoWorkflowFieldIssues(c);
  }

  /** The record built from accepted fields, defaults applied to absent ones. */
  function BuildRecord(c: Candidate): (r: RFQ)
    requires AllFieldsAccepted(c)
    ensures FieldsWellFormed(r)
  {
    RFQ(
      RequiredText(c, RequestIdKey).value,
      OptionalText(c, CustomerNameKey).value,
      OptionalText(c, ContactNameKey).value,
      EmailField(c).value,
      RequiredText(c, ProductOrServiceKey).value,
      RequiredText(c, SpecificationKey).value,
      QuantityField(c).value,
      OptionalText(c, QuantityUnitKey).value,
      DateField(c, RequestedDeliveryDateKey).value,
      OptionalText(c, DeliveryLocationKey).value,
      OptionalText(c, IncotermsKey).value,
      DateField(c, ResponseDueDateKey).value,
      RequiredBool(c, NeedsReviewKey).value,
      TextListField(c, MissingFieldsKey).value,
      TextListField(c, ClarificationQuestionsKey).value,
      TextListField(c, TasksKey).value)
  }

  /**
   * The field pass: every declared field validated on its own and every
   * undeclared key reported; all issues are collected, and a record is built
   * only when there are none.
   */
  function CheckFields(c: Candidate): (r: Result<RFQ, set<Issue>>)
    ensures r.Success? ==> FieldsWellFormed(r.value) && c.Keys <= FieldNames
    ensures r.Failure? ==> r.error != {} && forall i | i in r.error :: i.loc != AtModel
  {
    var issues := FieldPassIssues(c);
    if issues != {} then Failure(issues)
    else
      NoFieldIssues(c);
      Success(BuildRecord(c))
  }

  /** The record-level pass: a unit that is set (non-empty) needs a quantity. */
  function CheckQuantityPair(r: RFQ): (res: Result<RFQ, set<Issue>>)
    ensures res.Success? <==> QuantityPairOk(r)
    ensures res.Success? ==> res.value == r
    ensures res.Failure? ==> res.error == {Issue(AtModel, UnitWithoutQuantity)}
  {
    if r.quantityUnit.Some? && r.quantityUnit.value != "" && r.quantity.None? then
      Failure({Issue(AtModel, UnitWithoutQuantity)})
    else Success(r)
  }

  /** `RFQ.model_validate`: the field pass, then, on its success, the record-level pass. */
  function Validate(c: Candidate): (r: Result<RFQ, set<Issue>>)
    ensures r.Success? ==> WellFormed(r.value) && c.Keys <= FieldNames
    ensures r.Failure? ==> r.error != {}
  {
    match CheckFields(c)
    case Failure(issues) => Failure(issues)
    case Success(rfq) => CheckQuantityPair(rfq)
  }

  function OptionalTextValue(v: Option<string>): Value {
    if v.Some? then Text(v.value) else Null
  }

  /** The field mapping of an RFQ (`model_dump`): every field, absent ones as null. */
  function Dump(r: RFQ): (c: Candidate)
    ensures c.Keys == FieldNames
  {
    map[
      RequestIdKey := Text(r.requestId),
      CustomerNameKey := OptionalTextValue(r.customerName),
      ContactNameKey := OptionalTextValue(r.contactName),
      ContactEmailKey := OptionalTextValue(r.contactEmail),
      ProductOrServiceKey := Text(r.productOrService),
      SpecificationKey := Text(r.specification),
      QuantityKey := if r.quantity.Some? then Number(r.quantity.value) else Null,
      QuantityUnitKey := OptionalTextValue(r.quantityUnit),
      RequestedDeliveryDateKey := Text(r.requestedDeliveryDate),
      DeliveryLocationKey := OptionalTextValue(r.deliveryLocation),
      IncotermsKey := OptionalTextValue(r.incoterms),
      ResponseDueDateKey := Text(r.responseDueDate),
      NeedsReviewKey := Bool(r.needsReview),
      MissingFieldsKey := TextList(r.missingFields),
      ClarificationQuestionsKey := TextList(r.clarificationQuestions),
      TasksKey := TextList(r.tasks)
    ]
  }
}
