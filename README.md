# RFQ validator model

A Dafny model of the RFQ (request for quotation) record of
`src/models/rfq.py`, a pydantic model. The validator takes a candidate
mapping from field names to raw values. It either returns an immutable RFQ
record, with defaults filled in and the date and e-mail fields normalised, or
refuses the candidate and reports the issues it found. The model proves these
rules about it:

- the closed schema;
- the required fields and their minimum length;
- the non-negative quantity;
- the date fields, which hold either a `YYYY-MM-DD` calendar date or the sentinel `unknown`;
- the minimal e-mail shape, with blank input read as absent;
- the record-level rule that a unit needs a quantity.

Modules:

- `Wrappers` (`wrappers.dfy`): `Option` and `Result`.
- `PyStr` (`py_str.dfy`): the three Python string operations the validators use. These are `str.strip()` (with Python's `isspace` set), `str.lower()` and `str.split(sep)[-1]`.
- `IsoDate` (`iso_date.dfy`): `date.fromisoformat` on the strict `YYYY-MM-DD` form (section 5.6 of RFC 3339). Gregorian month lengths and leap years follow section 5.7 of RFC 3339. The module also has `isoformat` and the round trip between the two.
- `Rfq` (`rfq.dfy`): the data model and `Validate`.
  - The data model is the raw `Value`s, the `Candidate` map, the 16 declared fields, the `RFQ` record and the issue kinds.
  - Each field's validator is a separate function.
  - The field pass (`CheckFields`) collects every field issue and every undeclared key. pydantic does the same.
  - The record-level pass (`CheckQuantityPair`) runs only when the field pass found nothing.
  - `Dump` turns a record back into a candidate with all 16 keys, as pydantic's `model_dump` does. It is used to state idempotence.
- `RfqDump` (`rfq_dump.dfy`): where `Dump` stores each field.
- `RfqProperties` (`rfq_properties.dfy`): the promised rules, stated against independent definitions and proved. These cover:
  - which candidates are accepted (`ValidateAcceptsIff`);
  - what each refusal reports;
  - what an accepted record holds;
  - the round trip `Validate(Dump(r)) == Success(r)`;
  - idempotence.
- `RfqExamples` (`rfq_examples.dfy`): the sample record of `tests/test_rfq_model.py`, and variations of it for the unit/quantity rule.

A failure is a set of `Issue(loc, kind)`. `loc` is a declared field, an undeclared key, or the record as a whole. pydantic reports all field errors of one validation together, and the model keeps them all.

## Model

| member | source | states |
|---|---|---|
| PyStr.TrimStartSpec | src/models/rfq.py:54 | the leading part `strip` removes is whitespace, and what is left does not start with whitespace |
| PyStr.TrimEndSpec | src/models/rfq.py:54 | the trailing part `strip` removes is whitespace, and what is left does not end with whitespace |
| PyStr.StripSpec | src/models/rfq.py:54 | `v.strip()` is a contiguous piece of `v`, with no whitespace at either end and only whitespace cut away on either side |
| PyStr.StripNoOp | src/models/rfq.py:54 | a text with no whitespace at its ends is its own strip |
| PyStr.StripIdempotent | src/models/rfq.py:54 | stripping twice is stripping once |
| PyStr.StripEmptyIff | src/models/rfq.py:69-71 | the strip is empty exactly when the text is all whitespace (or empty) |
| PyStr.StripPadded | src/models/rfq.py:54 | whitespace around a text without whitespace edges is exactly what `strip` removes |
| PyStr.LastSplitPartSpec | src/models/rfq.py:73 | `v.split("@")[-1]` is a suffix of `v` with no `@`, preceded by an `@` unless it is all of `v` (which then has no `@`) |
| PyStr.LastSplitPartAfter | src/models/rfq.py:73 | the last split part of `a + "@" + b` is `b` whenever `b` has no `@` |
| IsoDate.DaysInMonth | src/models/rfq.py:59 | every month has 28 to 31 days |
| IsoDate.ParseIsoDate | src/models/rfq.py:58-61 | a text `fromisoformat` accepts names a real calendar date and is exactly that date's `YYYY-MM-DD` spelling |
| IsoDate.FormatParseRoundTrip | src/models/rfq.py:58-61 | every calendar date in years 1 to 9999 is accepted back from its own `YYYY-MM-DD` spelling |
| IsoDate.IsIsoDateIff | src/models/rfq.py:58-61 | the accepted texts are exactly the spellings of calendar dates |
| IsoDate.IsoDateEdges | src/models/rfq.py:62 | an accepted date text is ten characters that begin and end with a digit |
| IsoDate.LeapDayIff | src/models/rfq.py:59 | 29 February exists exactly in Gregorian leap years |
| IsoDate.YearLength | src/models/rfq.py:59 | the month lengths add up to 366 days in Gregorian leap years and 365 in other years |
| IsoDate.LeapDayAccepted | src/models/rfq.py:59 | `2024-02-29` is accepted |
| IsoDate.NonLeapDayRefused | src/models/rfq.py:59-61 | `2023-02-29` is refused |
| IsoDate.February30Refused | src/models/rfq.py:59-61 | `2024-02-30` is refused |
| IsoDate.CenturyDayRefused | src/models/rfq.py:59-61 | `1900-02-29` is refused (a century is a leap year only when divisible by 400) |
| IsoDate.QuadricentennialDayAccepted | src/models/rfq.py:59 | `2000-02-29` is accepted |
| Rfq.NormaliseDate | src/models/rfq.py:49-62 | a date value is accepted only as `unknown` or as a calendar-date text, which is the stripped input; a refusal is an invalid date |
| Rfq.NormaliseEmail | src/models/rfq.py:64-75 | absent stays absent; an accepted address is the stripped input, non-empty, has no edge whitespace and has the e-mail shape; a refusal is an invalid e-mail |
| Rfq.RequiredText | src/models/rfq.py:21 | a required text is accepted exactly when it is present as text of length at least 1 (whitespace counts); absent means missing |
| Rfq.OptionalText | src/models/rfq.py:22-24 | an optional text is accepted when absent, null or text, and absent or null reads as `None` |
| Rfq.EmailField | src/models/rfq.py:24 | an absent `contact_email` is `None`; an accepted one is the stripped text of the value and has the e-mail shape |
| Rfq.QuantityField | src/models/rfq.py:30 | an accepted quantity is absent, null, or a number at least 0; a negative number is refused as negative |
| Rfq.DateField | src/models/rfq.py:34 | an absent date field defaults to `unknown`; an accepted value is `unknown` or a calendar date, and was supplied as text |
| Rfq.RequiredBool | src/models/rfq.py:42 | `needs_review` is accepted exactly when it is present as a boolean |
| Rfq.TextListField | src/models/rfq.py:43-45 | a list field is accepted exactly when absent or a list of texts, and absent reads as the empty list |
| Rfq.DeclaredFieldIssues | src/models/rfq.py:20-45 | one issue per refused field, carrying that field's error, and no other issue |
| Rfq.ExtraKeyIssues | src/models/rfq.py:18 | one issue per undeclared key, and no other issue |
| Rfq.FieldPassIssues | src/models/rfq.py:18-45 | the field pass never reports a record-level issue |
| Rfq.BuildRecord | src/models/rfq.py:20-45 | the record built from accepted fields satisfies every per-field rule |
| Rfq.CheckFields | src/models/rfq.py:18-75 | the field pass returns a record satisfying every per-field rule, over declared keys only, or a non-empty set of field issues |
| Rfq.CheckQuantityPair | src/models/rfq.py:77-82 | the record passes unchanged exactly when a non-empty unit comes with a quantity; otherwise the only issue is the missing quantity |
| Rfq.Validate | src/models/rfq.py:9-82 | an accepted record is well formed (every field rule and the unit rule) and the candidate had declared keys only; a refusal is never empty |
| Rfq.Dump | src/models/rfq.py:20-45 | the dumped mapping has exactly the declared fields as keys |
| RfqProperties.LowerIsUnknownIff | src/models/rfq.py:55 | `v.lower() == "unknown"` holds exactly for the case mixes of `unknown` (the `k` also as KELVIN SIGN) |
| RfqProperties.NormaliseDateSentinel | src/models/rfq.py:54-56 | a value that strips to a spelling of `unknown` becomes exactly `unknown` |
| RfqProperties.SentinelExample | src/models/rfq.py:54-56 | `" UNKNOWN "` becomes `"unknown"` |
| RfqProperties.NormaliseDateOtherwise | src/models/rfq.py:58-62 | any other value is accepted exactly when it strips to a calendar date, the stripped text is kept, and otherwise it is refused as an invalid date |
| RfqProperties.NormaliseDateIff | src/models/rfq.py:49-62 | a date value is accepted exactly when it strips to a spelling of `unknown` or to a calendar date |
| RfqProperties.NormaliseDateIdempotent | src/models/rfq.py:49-62 | normalising a normalised date changes nothing |
| RfqProperties.NormaliseDateFixes | src/models/rfq.py:54-62 | `unknown` and every calendar-date text normalise to themselves |
| RfqProperties.LooksLikeEmailIff | src/models/rfq.py:73 | the e-mail shape holds exactly when some `@` has no `@` after it and a `.` somewhere after it |
| RfqProperties.EmailWithoutDotRefused | src/models/rfq.py:73-74 | `a@b` does not have the e-mail shape |
| RfqProperties.EmailAccepted | src/models/rfq.py:73-75 | `a@b.com` has the e-mail shape |
| RfqProperties.EmailDoubleAtAccepted | src/models/rfq.py:73-75 | `a@@b.com` has the e-mail shape, since only what follows the last `@` is looked at |
| RfqProperties.NormaliseEmailIff | src/models/rfq.py:64-75 | a text becomes absent exactly when it is all whitespace; it is accepted exactly when blank or shaped as an e-mail after stripping; otherwise it is refused as an invalid e-mail |
| RfqProperties.NormaliseEmailIdempotent | src/models/rfq.py:64-75 | normalising a normalised e-mail changes nothing |
| RfqProperties.NormaliseEmailFixes | src/models/rfq.py:69-75 | a stripped, non-empty, e-mail-shaped text normalises to itself |
| RfqProperties.FieldAcceptableIff | src/models/rfq.py:20-75 | each field's validator accepts exactly what that field's rule, stated without the validators, accepts |
| RfqProperties.FieldPassEmptyIff | src/models/rfq.py:18-45 | the field pass finds nothing exactly when no field is refused and no key is undeclared |
| RfqProperties.AllFieldsAcceptableIff | src/models/rfq.py:20-75 | no field is refused exactly when every field is acceptable |
| RfqProperties.ValidateAcceptsIff | src/models/rfq.py:9-82 | validation succeeds exactly on candidates with declared keys only, every field acceptable, and a quantity for every non-empty unit |
| RfqProperties.FieldIssueReported | src/models/rfq.py:20-75 | a refused field makes validation fail with that field's issue among those reported |
| RfqProperties.ExtraKeyReported | src/models/rfq.py:18 | an undeclared key makes validation fail, and that key is reported |
| RfqProperties.MissingRequiredReported | src/models/rfq.py:21-42 | an absent `request_id`, `product_or_service`, `specification` or `needs_review` is reported missing |
| RfqProperties.EmptyRequiredTextReported | src/models/rfq.py:21-28 | an empty required text is reported too short |
| RfqProperties.BlankRequiredTextAccepted | src/models/rfq.py:21-28 | the length check does not strip, so a required text of whitespace alone is accepted |
| RfqProperties.NegativeQuantityReported | src/models/rfq.py:30 | a negative quantity is reported |
| RfqProperties.InvalidDateReported | src/models/rfq.py:58-61 | a date value that strips to neither `unknown` nor a calendar date is reported at its field |
| RfqProperties.InvalidEmailReported | src/models/rfq.py:73-74 | a non-blank e-mail without a `.` after its last `@` is reported |
| RfqProperties.UnitWithoutQuantityReported | src/models/rfq.py:80-81 | when every field passes, a non-empty unit without a quantity fails with the record-level issue alone |
| RfqProperties.PairRuleRunsLast | src/models/rfq.py:77-82 | a record-level issue is reported only when the field pass succeeded, and then alone |
| RfqProperties.ReportedIssuesGenuine | src/models/rfq.py:18-82 | every reported issue is genuine: a field issue is the error that field's validator gives, an extra key is really undeclared, and the record-level issue appears only for a unit without a quantity |
| RfqProperties.ValidateCarries | src/models/rfq.py:20-75 | an accepted record holds each supplied value as given, or normalised for the dates and the e-mail, and the default for each absent field |
| RfqProperties.CarriesDeterminesRecord | src/models/rfq.py:20-45 | at most one record holds a candidate's values in that sense |
| RfqProperties.AbsentFieldsDefault | src/models/rfq.py:34-45 | absent dates are `unknown`, an absent e-mail and quantity are `None`, and absent lists are empty |
| RfqProperties.DumpRoundTrip | src/models/rfq.py:9-82 | a well-formed record's dumped mapping validates back to that record |
| RfqProperties.ValidateIdempotent | src/models/rfq.py:9-82 | validating an accepted record's dumped mapping again gives the same result |
| RfqExamples.SampleRecordValidates | tests/test_rfq_model.py:3-16 | the test's candidate validates, to the record with `request_id` `RFQ_0001`, dates `unknown` and `2026-01-31`, and empty lists |
| RfqExamples.UnitWithoutQuantityRefused | src/models/rfq.py:80-81 | the sample with unit `pcs` and no quantity is refused with the record-level issue alone |
| RfqExamples.ZeroQuantityWithUnitAccepted | src/models/rfq.py:80 | the sample with unit `pcs` and quantity 0 is accepted, since 0 is a quantity |
| RfqExamples.EmptyUnitWithoutQuantityAccepted | src/models/rfq.py:80 | the sample with an empty unit and no quantity is accepted, since an empty unit counts as no unit |

## Left out

- Lax-mode coercion: each field accepts only its own kind of value (text, number, boolean, list of texts, or null where optional). pydantic's lax mode also converts, for example, the text `"5"` to a quantity or `1` to a boolean. That conversion machinery is library code and is not modelled.
- Rfq.QuantityField: the quantity is a real number. Floating point (rounding, NaN, infinities) is not modelled.
- IsoDate.ParseIsoDate: only the strict `YYYY-MM-DD` form is accepted. This is what `date.fromisoformat` does up to Python 3.10. Python 3.11 and later also accept forms such as `20240131` or ISO week dates, and this model refuses them.
- PyStr.Lower: only the ASCII capitals and KELVIN SIGN are lower-cased; all other characters are left as they are. `lower()` is only compared with `unknown`, and no other character lower-cases to a letter of that word, so the comparison is exact.
- Error messages and the order of errors are not modelled. An issue records only where it was found and its kind.
- The `if v is None` branch of the date validator (src/models/rfq.py:52-53) cannot be reached. A null date value is refused as the wrong type before the validator runs, and an absent date takes the `unknown` default without running it. The model has that behaviour and no such branch.
- Dates stay strings holding a date or `unknown`, as in the code; they are not a tagged variant.
- The scripts under `scripts/` (random fixture generation, file and CSV output, command-line parsing) are not modelled.
