/**
 * Where `Dump` (the model of `model_dump`) puts each field of a record. These
 * facts live in a module of their own, away from the string lemmas, because
 * every lookup in the sixteen-key map has to tell the keys apart.
 */
module RfqDump {
  import opened Wrappers
  import opened Rfq

  /** What `Dump` stores under `request_id`. */
  lemma DumpRequestIdValue(r: RFQ)
    ensures RequestIdKey in Dump(r) && Dump(r)[RequestIdKey] == Text(r.requestId)
  {
  }

  /** What `Dump` stores under `customer_name`. */
  lemma DumpCustomerNameValue(r: RFQ)
    ensures CustomerNameKey in Dump(r) && Dump(r)[CustomerNameKey] == OptionalTextValue(r.customerName)
  {
  }

  /** What `Dump` stores under `contact_name`. */
  lemma DumpContactNameValue(r: RFQ)
    ensures ContactNameKey in Dump(r) && Dump(r)[ContactNameKey] == OptionalTextValue(r.contactName)
  {
  }

  /** What `Dump` stores under `contact_email`. */
  lemma DumpContactEmailValue(r: RFQ)
    ensures ContactEmailKey in Dump(r) && Dump(r)[ContactEmailKey] == OptionalTextValue(r.contactEmail)
  {
  }

  /** What `Dump` stores under the content keys. */
  lemma DumpContentValues(r: RFQ)
    ensures ProductOrServiceKey in Dump(r) && Dump(r)[ProductOrServiceKey] == Text(r.productOrService)
    ensures SpecificationKey in Dump(r) && Dump(r)[SpecificationKey] == Text(r.specification)
  {
  }

  /** What `Dump` stores under the quantity and delivery date keys. */
  lemma DumpQuantityValues(r: RFQ)
    ensures QuantityKey in Dump(r) && Dump(r)[QuantityKey] == (if r.quantity.Some? then Number(r.quantity.value) else Null)
    ensures QuantityUnitKey in Dump(r) && Dump(r)[QuantityUnitKey] == OptionalTextValue(r.quantityUnit)
    ensures RequestedDeliveryDateKey in Dump(r) && Dump(r)[RequestedDeliveryDateKey] == Text(r.requestedDeliveryDate)
  {
  }

  /** What `Dump` stores under the delivery keys. */
  lemma DumpDeliveryValues(r: RFQ)
    ensures DeliveryLocationKey in Dump(r) && Dump(r)[DeliveryLocationKey] == OptionalTextValue(r.deliveryLocation)
    ensures IncotermsKey in Dump(r) && Dump(r)[IncotermsKey] == OptionalTextValue(r.incoterms)
    ensures ResponseDueDateKey in Dump(r) && Dump(r)[ResponseDueDateKey] == Text(r.responseDueDate)
  {
  }

  /** What `Dump` stores under the workflow keys. */
  lemma DumpWorkflowValues(r: RFQ)
    ensures NeedsReviewKey in Dump(r) && Dump(r)[NeedsReviewKey] == Bool(r.needsReview)
    ensures MissingFieldsKey in Dump(r) && Dump(r)[MissingFieldsKey] == TextList(r.missingFields)
    ensures ClarificationQuestionsKey in Dump(r) && Dump(r)[ClarificationQuestionsKey] == TextList(r.clarificationQuestions)
    ensures TasksKey in Dump(r) && Dump(r)[TasksKey] == TextList(r.tasks)
  {
  }
}
