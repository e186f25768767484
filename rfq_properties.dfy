/**
 * What the RFQ validator promises, stated against independent definitions
 * and proved about the model in module Rfq.
 */
module RfqProperties {
  import opened Wrappers
  import opened PyStr
  import opened IsoDate
  import opened Rfq
  import opened RfqDump

  // ---- The `unknown` sentinel ----

  /** The spellings Python's `lower()` turns into `unknown`: any mix of cases, the `k` also as KELVIN SIGN. */
  ghost predicate SpellsUnknown(s: string) {
    && |s| == 7
    && forall i | 0 <= i < 7 :: s[i] == "unknown"[i] || s[i] == "UNKNOWN"[i] || (i == 2 && s[i] == '\U{212A}')
  }

  lemma LowerCharIs(c: char, l: char, u: char)
    requires 'a' <= l <= 'z' && u as int == l as int - 32
    ensures LowerChar(c) == l <==> c == l || c == u || (l == 'k' && c == '\U{212A}')
  {
  }

  /** `s.lower() == "unknown"` holds exactly for the spellings above. */
  lemma LowerIsUnknownIff(s: string)
    ensures Lower(s) == UNKNOWN <==> SpellsUnknown(s)
  {
    if |s| == 7 {
      forall i | 0 <= i < 7 ensures Lower(s)[i] == UNKNOWN[i] <==> (s[i] == "unknown"[i] || s[i] == "UNKNOWN"[i] || (i == 2 && s[i] == '\U{212A}')) {
        LowerCharIs(s[i], "unknown"[i], "UNKNOWN"[i]);
      }
    }
  }

  // ---- Date fields ----

  /** A date text in the independent sense: the `YYYY-MM-DD` spelling of some calendar date. */
  ghost predicate IsCalendarDateText(t: string) {
    exists d :: ValidDate(d) && FormatIsoDate(d) == t
  }

  /** A value that trims to a spelling of `unknown` becomes exactly `unknown`. */
  lemma NormaliseDateSentinel(v: string)
    requires SpellsUnknown(Strip(v))
    ensures NormaliseDate(v) == Success(UNKNOWN)
  {
    LowerIsUnknownIff(Strip(v));
  }

  lemma SentinelExample()
    ensures NormaliseDate(" UNKNOWN ") == Success("unknown")
  {
    StripPadded(" ", "UNKNOWN", " ");
    assert " UNKNOWN " == " " + "UNKNOWN" + " ";
    NormaliseDateSentinel(" UNKNOWN ");
  }

  /** Any other value is accepted exactly when it trims to a calendar date, and the trimmed text is kept. */
  lemma NormaliseDateOtherwise(v: string)
    requires !SpellsUnknown(Strip(v))
    ensures NormaliseDate(v).Success? <==> IsCalendarDateText(Strip(v))
    ensures NormaliseDate(v).Success? ==> NormaliseDate(v).value == Strip(v)
    ensures NormaliseDate(v).Failure? ==> NormaliseDate(v) == Failure(InvalidDate)
  {
    LowerIsUnknownIff(Strip(v));
    IsIsoDateIff(Strip(v));
  }

  /** A normalised date is left as it is by a second normalisation. */
  lemma NormaliseDateIdempotent(v: string)
    requires NormaliseDate(v).Success?
    ensures NormaliseDate(NormaliseDate(v).value) == NormaliseDate(v)
  {
    var t := NormaliseDate(v).value;
    if t == UNKNOWN {
      StripNoOp(t);
      LowerIsUnknownIff(t);
    } else {
      IsoDateEdges(t);
      StripNoOp(t);
      LowerIsUnknownIff(t);
    }
  }

  // ---- E-mail ----

  /** The independent reading of the e-mail rule: some `@` has no `@` after it and a `.` somewhere after it. */
  ghost predicate DotAfterLastAt(s: string) {
    exists i | 0 <= i < |s| ::
      && s[i] == '@'
      && (forall j | i < j < |s| :: s[j] != '@')
      && (exists k | i < k < |s| :: s[k] == '.')
  }

  /** `"@" in v and "." in v.split("@")[-1]` is the rule above. */
  lemma LooksLikeEmailIff(s: string)
    ensures LooksLikeEmail(s) <==> DotAfterLastAt(s)
  {
    var r := LastSplitPart(s, '@');
    LastSplitPartSpec(s, '@');
    var p := |s| - |r|;
    if LooksLikeEmail(s) {
      assert p > 0;
      var i := p - 1;
      forall j | i < j < |s| ensures s[j] != '@' { assert s[j] == r[j - p]; }
      var m :| 0 <= m < |r| && r[m] == '.';
      assert s[p + m] == '.';
    }
    if DotAfterLastAt(s) {
      var i :| 0 <= i < |s| && s[i] == '@' && (forall j | i < j < |s| :: s[j] != '@') && (exists k | i < k < |s| :: s[k] == '.');
      assert '@' in s;
      assert p > 0 && s[p - 1] == '@';
      assert i == p - 1;
      var k :| i < k < |s| && s[k] == '.';
      assert r[k - p] == '.';
    }
  }

  /** `a@b`: nothing after the last `@` has a dot. */
  lemma EmailWithoutDotRefused()
    ensures !LooksLikeEmail("a@b")
  {
    LastSplitPartAfter("a", '@', "b");
    assert "a@b" == "a" + ['@'] + "b";
  }

  lemma EmailAccepted()
    ensures LooksLikeEmail("a@b.com")
  {
    LastSplitPartAfter("a", '@', "b.com");
    assert "a@b.com" == "a" + ['@'] + "b.com";
    assert "b.com"[1] == '.';
  }

  /** `a@@b.com`: only what follows the last `@` is looked at. */
  lemma EmailDoubleAtAccepted()
    ensures LooksLikeEmail("a@@b.com")
  {
    LastSplitPartAfter("a@", '@', "b.com");
    assert "a@@b.com" == "a@" + ['@'] + "b.com";
    assert "b.com"[1] == '.';
  }

  /** Absent stays absent, whitespace-only becomes absent, anything else is kept trimmed if it has the e-mail shape. */
  lemma NormaliseEmailIff(s: string)
    ensures NormaliseEmail(Some(s)) == Success(None) <==> AllSpace(s)
    ensures NormaliseEmail(Some(s)).Success? <==> AllSpace(s) || DotAfterLastAt(Strip(s))
    ensures NormaliseEmail(Some(s)).Failure? ==> NormaliseEmail(Some(s)) == Failure(InvalidEmail)
  {
    StripEmptyIff(s);
    LooksLikeEmailIff(Strip(s));
  }

  /** A normalised e-mail is left as it is by a second normalisation. */
  lemma NormaliseEmailIdempotent(v: Option<string>)
    requires NormaliseEmail(v).Success?
    ensures NormaliseEmail(NormaliseEmail(v).value) == NormaliseEmail(v)
  {
    if NormaliseEmail(v).value.Some? {
      StripNoOp(NormaliseEmail(v).value.value);
    }
  }

  // ---- Which candidates are accepted ----

  /** What each field accepts, stated without the validators. */
  ghost predicate FieldAcceptable(c: Candidate, f: Field) {
    var k := Key(f);
    match f
    case RequestId | ProductOrService | Specification =>
      k in c && c[k].Text? && |c[k].text| >= 1
    case CustomerName | ContactName | QuantityUnit | DeliveryLocation | Incoterms =>
      k in c ==> c[k].Text? || c[k].Null?
    case ContactEmail =>
      k in c ==> c[k].Null? || (c[k].Text? && (AllSpace(c[k].text) || DotAfterLastAt(Strip(c[k].text))))
    case Quantity =>
      k in c ==> c[k].Null? || (c[k].Number? && c[k].num >= 0.0)
    case RequestedDeliveryDate | ResponseDueDate =>
      k in c ==> c[k].Text? && (SpellsUnknown(Strip(c[k].text)) || IsCalendarDateText(Strip(c[k].text)))
    case NeedsReview =>
      k in c && c[k].Bool?
    case MissingFields | ClarificationQuestions | Tasks =>
      k in c ==> c[k].TextList?
  }

  /** A date value is accepted exactly when it trims to a spelling of `unknown` or to a calendar date. */
  lemma NormaliseDateIff(v: string)
    ensures NormaliseDate(v).Success? <==> SpellsUnknown(Strip(v)) || IsCalendarDateText(Strip(v))
  {
    if SpellsUnknown(Strip(v)) { NormaliseDateSentinel(v); } else { NormaliseDateOtherwise(v); }
  }

  /** Each field's validator accepts exactly what the field's rule above accepts. */
  lemma FieldAcceptableIff(c: Candidate, f: Field)
    ensures IssueAt(c, f).None? <==> FieldAcceptable(c, f)
  {
    var k := Key(f);
    match f
    case ContactEmail =>
      if k in c && c[k].Text? { NormaliseEmailIff(c[k].text); }
    case RequestedDeliveryDate =>
      if k in c && c[k].Text? { NormaliseDateIff(c[k].text); }
    case ResponseDueDate =>
      if k in c && c[k].Text? { NormaliseDateIff(c[k].text); }
    case _ =>
  }

  /** The field pass finds nothing exactly when no field is refused and no key is undeclared. */
  lemma FieldPassEmptyIff(c: Candidate)
    ensures FieldPassIssues(c) == {} <==> NoFieldRefused(c) && c.Keys <= FieldNames
  {
    if FieldPassIssues(c) != {} {
      var i :| i in FieldPassIssues(c);
      if i in DeclaredFieldIssues(c) {
        assert IssueAt(c, i.loc.field).Some?;
      } else {
        assert i.loc.key in c && i.loc.key !in FieldNames;
      }
    }
  }

  /** A unit that is set (non-empty text) comes with a quantity. */
  ghost predicate UnitHasQuantity(c: Candidate) {
    QuantityUnitKey in c && c[QuantityUnitKey].Text? && c[QuantityUnitKey].text != "" ==>
      QuantityKey in c && c[QuantityKey].Number?
  }

  /** The candidates the RFQ model accepts: declared keys only, every field acceptable, the unit rule. */
  ghost predicate Acceptable(c: Candidate) {
    && c.Keys <= FieldNames
    && (forall f :: FieldAcceptable(c, f))
    && UnitHasQuantity(c)
  }

  lemma AllFieldsAcceptableIff(c: Candidate)
    ensures NoFieldRefused(c) <==> forall f :: FieldAcceptable(c, f)
  {
    forall f ensures IssueAt(c, f).None? <==> FieldAcceptable(c, f) { FieldAcceptableIff(c, f); }
  }

  /** Validation succeeds exactly on the acceptable candidates. */
  lemma ValidateAcceptsIff(c: Candidate)
    ensures Validate(c).Success? <==> Acceptable(c)
  {
    FieldPassEmptyIff(c);
    AllFieldsAcceptableIff(c);
    if FieldPassIssues(c) == {} {
      NoFieldIssues(c);
      var r := BuildRecord(c);
      assert Validate(c) == CheckQuantityPair(r);
      assert QuantityPairOk(r) <==> UnitHasQuantity(c) by {
        assert IssueAt(c, Quantity).None? && IssueAt(c, QuantityUnit).None?;
      }
    }
  }

  // ---- What a refusal reports ----

  /** A field its validator refuses makes validation fail, with that field's issue in the report. */
  lemma FieldIssueReported(c: Candidate, f: Field)
    requires IssueAt(c, f).Some?
    ensures Validate(c).Failure? && Issue(AtField(f), IssueAt(c, f).value) in Validate(c).error
  {
    assert Issue(AtField(f), IssueAt(c, f).value) in FieldPassIssues(c);
  }

  /** Closed schema: an undeclared key makes validation fail, and the key is reported. */
  lemma ExtraKeyReported(c: Candidate, k: string)
    requires k in c && k !in FieldNames
    ensures Validate(c).Failure? && Issue(AtExtraKey(k), ExtraForbidden) in Validate(c).error
  {
    assert Issue(AtExtraKey(k), ExtraForbidden) in FieldPassIssues(c);
  }

  /** A required field that is absent is reported missing. */
  lemma MissingRequiredReported(c: Candidate, f: Field)
    requires f == RequestId || f == ProductOrService || f == Specification || f == NeedsReview
    requires Key(f) !in c
    ensures Validate(c).Failure? && Issue(AtField(f), Missing) in Validate(c).error
  {
    FieldIssueReported(c, f);
  }

  /** A required text that is empty is reported too short. */
  lemma EmptyRequiredTextReported(c: Candidate, f: Field)
    requires f == RequestId || f == ProductOrService || f == Specification
    requires Key(f) in c && c[Key(f)] == Text("")
    ensures Validate(c).Failure? && Issue(AtField(f), TooShort) in Validate(c).error
  {
    FieldIssueReported(c, f);
  }

  /** The length check does not strip: a required text of whitespace alone is accepted. */
  lemma BlankRequiredTextAccepted(c: Candidate, f: Field, t: string)
    requires f == RequestId || f == ProductOrService || f == Specification
    requires Key(f) in c && c[Key(f)] == Text(t) && t != [] && AllSpace(t)
    ensures IssueAt(c, f).None?
  {
    FieldAcceptableIff(c, f);
  }

  /** A negative quantity is reported. */
  lemma NegativeQuantityReported(c: Candidate, x: real)
    requires QuantityKey in c && c[QuantityKey] == Number(x) && x < 0.0
    ensures Validate(c).Failure? && Issue(AtField(Quantity), Negative) in Validate(c).error
  {
    FieldIssueReported(c, Quantity);
  }

  /** A date value that is neither a spelling of `unknown` nor a calendar date is reported; nothing is substituted. */
  lemma InvalidDateReported(c: Candidate, f: Field, t: string)
    requires f == RequestedDeliveryDate || f == ResponseDueDate
    requires Key(f) in c && c[Key(f)] == Text(t)
    requires !SpellsUnknown(Strip(t)) && !IsCalendarDateText(Strip(t))
    ensures Validate(c).Failure? && Issue(AtField(f), InvalidDate) in Validate(c).error
  {
    NormaliseDateOtherwise(t);
    FieldIssueReported(c, f);
  }

  /** A non-blank e-mail without a `.` after its last `@` (or without `@`) is reported. */
  lemma InvalidEmailReported(c: Candidate, t: string)
    requires ContactEmailKey in c && c[ContactEmailKey] == Text(t)
    requires !AllSpace(t) && !DotAfterLastAt(Strip(t))
    ensures Validate(c).Failure? && Issue(AtField(ContactEmail), InvalidEmail) in Validate(c).error
  {
    InvalidEmailRefused(t);
    EmailIssue(c, t);
    FieldIssueReported(c, ContactEmail);
  }

  lemma InvalidEmailRefused(t: string)
    requires !AllSpace(t) && !DotAfterLastAt(Strip(t))
    ensures NormaliseEmail(Some(t)) == Failure(InvalidEmail)
  {
    NormaliseEmailIff(t);
  }

  lemma EmailIssue(c: Candidate, t: string)
    requires ContactEmailKey in c && c[ContactEmailKey] == Text(t)
    requires NormaliseEmail(Some(t)) == Failure(InvalidEmail)
    ensures IssueAt(c, ContactEmail) == Some(InvalidEmail)
  {
    assert OptionalText(c, ContactEmailKey) == Success(Some(t));
    assert EmailField(c) == NormaliseEmail(Some(t));
  }

  /**
   * When every field passes on its own, a set unit without a quantity makes
   * validation fail with the record-level issue alone.
   */
  lemma UnitWithoutQuantityReported(c: Candidate, u: string)
    requires FieldPassIssues(c) == {}
    requires QuantityUnitKey in c && c[QuantityUnitKey] == Text(u) && u != ""
    requires QuantityKey !in c || c[QuantityKey] == Null
    ensures Validate(c) == Failure({Issue(AtModel, UnitWithoutQuantity)})
  {
    NoFieldIssues(c);
  }

  /** The record-level rule runs only after the field pass found nothing, and is then reported alone. */
  lemma PairRuleRunsLast(c: Candidate, i: Issue)
    requires Validate(c).Failure? && i in Validate(c).error && i.loc == AtModel
    ensures CheckFields(c).Success?
    ensures Validate(c).error == {Issue(AtModel, UnitWithoutQuantity)}
  {
  }

  /**
   * Every reported issue is genuine: a field issue carries the error that
   * field's validator gives, an extra key really is undeclared, and the
   * record-level issue is reported only for a unit without a quantity.
   */
  lemma ReportedIssuesGenuine(c: Candidate)
    ensures Validate(c).Failure? ==> forall i | i in Validate(c).error ::
      && (i.loc.AtField? ==> IssueAt(c, i.loc.field) == Some(i.kind))
      && (i.loc.AtExtraKey? ==> i.loc.key in c && i.loc.key !in FieldNames && i.kind == ExtraForbidden)
      && (i.loc.AtModel? ==> i.kind == UnitWithoutQuantity && !UnitHasQuantity(c))
  {
    ValidateAcceptsIff(c);
    FieldPassEmptyIff(c);
    AllFieldsAcceptableIff(c);
  }

  // ---- What an accepted record holds ----

  /** The value at key `k`, an absent key read as null. */
  function Get(c: Candidate, k: string): Value {
    if k in c then c[k] else Null
  }

  lemma OptionalTextValueInjective(a: Option<string>, b: Option<string>)
    requires OptionalTextValue(a) == OptionalTextValue(b)
    ensures a == b
  {
  }

  /** A date field's value in the record: `unknown` when absent or spelled so, else the trimmed text. */
  ghost predicate DateCarried(c: Candidate, k: string, d: string) {
    if k in c then c[k].Text? && d == (if SpellsUnknown(Strip(c[k].text)) then UNKNOWN else Strip(c[k].text))
    else d == UNKNOWN
  }

  /** A list field's value in the record: the given list, or empty when absent. */
  ghost predicate ListCarried(c: Candidate, k: string, l: seq<string>) {
    if k in c then c[k] == TextList(l) else l == []
  }

  /** `contact_email` in the record: absent when absent, null or blank, else the trimmed text. */
  ghost predicate EmailCarried(c: Candidate, e: Option<string>) {
    match e
    case None => Get(c, ContactEmailKey) == Null || (Get(c, ContactEmailKey).Text? && AllSpace(Get(c, ContactEmailKey).text))
    case Some(t) => Get(c, ContactEmailKey).Text? && !AllSpace(Get(c, ContactEmailKey).text) && t == Strip(Get(c, ContactEmailKey).text)
  }

  /** Every field of the record is the candidate's value, normalised, or the field's default. */
  ghost predicate Carries(c: Candidate, r: RFQ) {
    && Get(c, RequestIdKey) == Text(r.requestId)
    && Get(c, CustomerNameKey) == OptionalTextValue(r.customerName)
    && Get(c, ContactNameKey) == OptionalTextValue(r.contactName)
    && EmailCarried(c, r.contactEmail)
    && Get(c, ProductOrServiceKey) == Text(r.productOrService)
    && Get(c, SpecificationKey) == Text(r.specification)
    && Get(c, QuantityKey) == (if r.quantity.Some? then Number(r.quantity.value) else Null)
    && Get(c, QuantityUnitKey) == OptionalTextValue(r.quantityUnit)
    && DateCarried(c, RequestedDeliveryDateKey, r.requestedDeliveryDate)
    && Get(c, DeliveryLocationKey) == OptionalTextValue(r.deliveryLocation)
    && Get(c, IncotermsKey) == OptionalTextValue(r.incoterms)
    && DateCarried(c, ResponseDueDateKey, r.responseDueDate)
    && Get(c, NeedsReviewKey) == Bool(r.needsReview)
    && ListCarried(c, MissingFieldsKey, r.missingFields)
    && ListCarried(c, ClarificationQuestionsKey, r.clarificationQuestions)
    && ListCarried(c, TasksKey, r.tasks)
  }

  lemma DateFieldCarried(c: Candidate, k: string)
    requires DateField(c, k).Success?
    ensures DateCarried(c, k, DateField(c, k).value)
  {
    if k in c {
      var t := c[k].text;
      if SpellsUnknown(Strip(t)) { NormaliseDateSentinel(t); } else { NormaliseDateOtherwise(t); }
    }
  }

  lemma EmailFieldCarried(c: Candidate)
    requires EmailField(c).Success?
    ensures EmailCarried(c, EmailField(c).value)
  {
    if ContactEmailKey in c && c[ContactEmailKey].Text? {
      NormaliseEmailIff(c[ContactEmailKey].text);
    }
  }

  /** An accepted record holds the candidate's values, normalised, and the defaults for absent fields. */
  lemma ValidateCarries(c: Candidate)
    requires Validate(c).Success?
    ensures Carries(c, Validate(c).value)
  {
    assert FieldPassIssues(c) == {};
    NoFieldIssues(c);
    DateFieldCarried(c, RequestedDeliveryDateKey);
    DateFieldCarried(c, ResponseDueDateKey);
    EmailFieldCarried(c);
    assert Validate(c).value == BuildRecord(c);
  }

  /** The relation above leaves no choice: at most one record is carried by a candidate. */
  lemma CarriesDeterminesRecord(c: Candidate, r1: RFQ, r2: RFQ)
    requires Carries(c, r1) && Carries(c, r2)
    ensures r1 == r2
  {
    assert r1.contactEmail.Some? == r2.contactEmail.Some?;
    assert r1.quantity == r2.quantity by {
      if r1.quantity.Some? || r2.quantity.Some? { assert Get(c, QuantityKey).Number?; }
    }
    assert OptionalTextValue(r1.customerName) == OptionalTextValue(r2.customerName);
    assert OptionalTextValue(r1.contactName) == OptionalTextValue(r2.contactName);
    assert OptionalTextValue(r1.quantityUnit) == OptionalTextValue(r2.quantityUnit);
    assert OptionalTextValue(r1.deliveryLocation) == OptionalTextValue(r2.deliveryLocation);
    assert OptionalTextValue(r1.incoterms) == OptionalTextValue(r2.incoterms);
  }

  /** Absent fields take their defaults. */
  lemma AbsentFieldsDefault(c: Candidate)
    requires Validate(c).Success?
    ensures RequestedDeliveryDateKey !in c ==> Validate(c).value.requestedDeliveryDate == UNKNOWN
    ensures ResponseDueDateKey !in c ==> Validate(c).value.responseDueDate == UNKNOWN
    ensures ContactEmailKey !in c ==> Validate(c).value.contactEmail == None
    ensures QuantityKey !in c ==> Validate(c).value.quantity == None
    ensures MissingFieldsKey !in c ==> Validate(c).value.missingFields == []
    ensures ClarificationQuestionsKey !in c ==> Validate(c).value.clarificationQuestions == []
    ensures TasksKey !in c ==> Validate(c).value.tasks == []
  {
    ValidateCarries(c);
  }

  // ---- Validating an accepted record's field mapping again ----

  /** A stored date value is normalised to itself. */
  lemma NormaliseDateFixes(t: string)
    requires t == UNKNOWN || IsIsoDate(t)
    ensures NormaliseDate(t) == Success(t)
  {
    LowerIsUnknownIff(t);
    if t == UNKNOWN {
      StripNoOp(t);
    } else {
      IsoDateEdges(t);
      StripNoOp(t);
    }
  }

  /** A date field holding a stored date value reads back as that value. */
  lemma DateFieldFixes(c: Candidate, k: string, t: string)
    requires k in c && c[k] == Text(t) && (t == UNKNOWN || IsIsoDate(t))
    ensures DateField(c, k) == Success(t)
  {
    NormaliseDateFixes(t);
  }

  /** A stored e-mail value is normalised to itself. */
  lemma NormaliseEmailFixes(e: string)
    requires e != [] && NoSpaceEdges(e) && LooksLikeEmail(e)
    ensures NormaliseEmail(Some(e)) == Success(Some(e))
  {
    StripNoOp(e);
  }

  // Each group below reads the fields of `r` back from any candidate that
  // holds them as `Dump` stores them.

  lemma IdentityFieldsReadBack(c: Candidate, r: RFQ)
    requires FieldsWellFormed(r)
    requires RequestIdKey in c && c[RequestIdKey] == Text(r.requestId)
    requires CustomerNameKey in c && c[CustomerNameKey] == OptionalTextValue(r.customerName)
    requires ContactNameKey in c && c[ContactNameKey] == OptionalTextValue(r.contactName)
    requires ContactEmailKey in c && c[ContactEmailKey] == OptionalTextValue(r.contactEmail)
    ensures RequiredText(c, RequestIdKey) == Success(r.requestId)
    ensures OptionalText(c, CustomerNameKey) == Success(r.customerName)
    ensures OptionalText(c, ContactNameKey) == Success(r.contactName)
    ensures EmailField(c) == Success(r.contactEmail)
  {
    if r.contactEmail.Some? { NormaliseEmailFixes(r.contactEmail.value); }
  }

  lemma ContentFieldsReadBack(c: Candidate, r: RFQ)
    requires FieldsWellFormed(r)
    requires ProductOrServiceKey in c && c[ProductOrServiceKey] == Text(r.productOrService)
    requires SpecificationKey in c && c[SpecificationKey] == Text(r.specification)
    requires QuantityKey in c && c[QuantityKey] == (if r.quantity.Some? then Number(r.quantity.value) else Null)
    requires QuantityUnitKey in c && c[QuantityUnitKey] == OptionalTextValue(r.quantityUnit)
    ensures RequiredText(c, ProductOrServiceKey) == Success(r.productOrService)
    ensures RequiredText(c, SpecificationKey) == Success(r.specification)
    ensures QuantityField(c) == Success(r.quantity)
    ensures OptionalText(c, QuantityUnitKey) == Success(r.quantityUnit)
  {
  }

  lemma DeliveryFieldsReadBack(c: Candidate, r: RFQ)
    requires FieldsWellFormed(r)
    requires RequestedDeliveryDateKey in c && c[RequestedDeliveryDateKey] == Text(r.requestedDeliveryDate)
    requires DeliveryLocationKey in c && c[DeliveryLocationKey] == OptionalTextValue(r.deliveryLocation)
    requires IncotermsKey in c && c[IncotermsKey] == OptionalTextValue(r.incoterms)
    requires ResponseDueDateKey in c && c[ResponseDueDateKey] == Text(r.responseDueDate)
    ensures DateField(c, RequestedDeliveryDateKey) == Success(r.requestedDeliveryDate)
    ensures OptionalText(c, DeliveryLocationKey) == Success(r.deliveryLocation)
    ensures OptionalText(c, IncotermsKey) == Success(r.incoterms)
    ensures DateField(c, ResponseDueDateKey) == Success(r.responseDueDate)
  {
    DateFieldFixes(c, RequestedDeliveryDateKey, r.requestedDeliveryDate);
    DateFieldFixes(c, ResponseDueDateKey, r.responseDueDate);
  }

  lemma WorkflowFieldsReadBack(c: Candidate, r: RFQ)
    requires NeedsReviewKey in c && c[NeedsReviewKey] == Bool(r.needsReview)
    requires MissingFieldsKey in c && c[MissingFieldsKey] == TextList(r.missingFields)
    requires ClarificationQuestionsKey in c && c[ClarificationQuestionsKey] == TextList(r.clarificationQuestions)
    requires TasksKey in c && c[TasksKey] == TextList(r.tasks)
    ensures RequiredBool(c, NeedsReviewKey) == Success(r.needsReview)
    ensures TextListField(c, MissingFieldsKey) == Success(r.missingFields)
    ensures TextListField(c, ClarificationQuestionsKey) == Success(r.clarificationQuestions)
    ensures TextListField(c, TasksKey) == Success(r.tasks)
  {
  }

  /** Every field of a well-formed record is read back, unchanged, from its dump. */
  lemma DumpFieldsAccepted(r: RFQ)
    requires WellFormed(r)
    ensures AllFieldsAccepted(Dump(r)) && BuildRecord(Dump(r)) == r
  {
    var c := Dump(r);
    DumpRequestIdValue(r);
    DumpCustomerNameValue(r);
    DumpContactNameValue(r);
    DumpContactEmailValue(r);
    DumpContentValues(r);
    DumpQuantityValues(r);
    DumpDeliveryValues(r);
    DumpWorkflowValues(r);
    IdentityFieldsReadBack(c, r);
    ContentFieldsReadBack(c, r);
    DeliveryFieldsReadBack(c, r);
    WorkflowFieldsReadBack(c, r);
  }

  /** Every field accepted means no field refused. */
  lemma AcceptedNotRefused(c: Candidate)
    requires AllFieldsAccepted(c)
    ensures NoFieldRefused(c)
  {
    forall f ensures IssueAt(c, f).None? {
      match f
      case RequestId => assert RequiredText(c, RequestIdKey).Success?;
      case CustomerName => assert OptionalText(c, CustomerNameKey).Success?;
      case ContactName => assert OptionalText(c, ContactNameKey).Success?;
      case ContactEmail => assert EmailField(c).Success?;
      case ProductOrService => assert RequiredText(c, ProductOrServiceKey).Success?;
      case Specification => assert RequiredText(c, SpecificationKey).Success?;
      case Quantity => assert QuantityField(c).Success?;
      case QuantityUnit => assert OptionalText(c, QuantityUnitKey).Success?;
      case RequestedDeliveryDate => assert DateField(c, RequestedDeliveryDateKey).Success?;
      case DeliveryLocation => assert OptionalText(c, DeliveryLocationKey).Success?;
      case Incoterms => assert OptionalText(c, IncotermsKey).Success?;
      case ResponseDueDate => assert DateField(c, ResponseDueDateKey).Success?;
      case NeedsReview => assert RequiredBool(c, NeedsReviewKey).Success?;
      case MissingFields => assert TextListField(c, MissingFieldsKey).Success?;
      case ClarificationQuestions => assert TextListField(c, ClarificationQuestionsKey).Success?;
      case Tasks => assert TextListField(c, TasksKey).Success?;
    }
  }

  /** With every field accepted and no undeclared key, the field pass builds the record. */
  lemma CheckFieldsBuilds(c: Candidate)
    requires AllFieldsAccepted(c) && c.Keys <= FieldNames
    ensures CheckFields(c) == Success(BuildRecord(c))
  {
    AcceptedNotRefused(c);
    FieldPassEmptyIff(c);
  }

  /** A well-formed record's field mapping validates back to the same record. */
  lemma DumpRoundTrip(r: RFQ)
    requires WellFormed(r)
    ensures Validate(Dump(r)) == Success(r)
  {
    DumpFieldsAccepted(r);
    CheckFieldsBuilds(Dump(r));
  }

  /** Validating an accepted record's field mapping a second time gives the same record. */
  lemma ValidateIdempotent(c: Candidate)
    requires Validate(c).Success?
    ensures Validate(Dump(Validate(c).value)) == Validate(c)
  {
    DumpRoundTrip(Validate(c).value);
  }
}
