/**
 * The alien-contact report: nine declared fields with bounds and defaults,
 * then four cross-field rules checked in order, the first failure reported.
 */
module Contact {
  import opened Validation

  datatype ContactType = Radio | Visual | Physical | Telepathic

  /** A constructed, fully validated contact report. */
  datatype AlienContact = AlienContact(
    contactId: string,
    timestamp: DateTime,
    location: string,
    contactType: ContactType,
    signalStrength: real,
    durationMinutes: int,
    witnessCount: int,
    messageReceived: Option<string>,
    isVerified: bool)

  /** The keyword data a caller supplies; `None` is an absent keyword. */
  datatype ContactInput = ContactInput(
    contactId: Option<string>,
    timestamp: Option<DateTime>,
    location: Option<string>,
    contactType: Option<ContactType>,
    signalStrength: Option<real>,
    durationMinutes: Option<int>,
    witnessCount: Option<int>,
    messageReceived: Option<string>,
    isVerified: Option<bool>)

  /** The declared fields, in declaration order. */
  const ContactFields: seq<string> :=
    ["contact_id", "timestamp", "location", "contact_type", "signal_strength", "duration_minutes",
     "witness_count", "message_received", "is_verified"]

  /** Every field of a contact report satisfies its declared bounds. */
  predicate ContactFieldsValid(c: AlienContact) {
    && 5 <= |c.contactId| <= 15
    && 3 <= |c.location| <= 100
    && 0.0 <= c.signalStrength <= 10.0
    && 1 <= c.durationMinutes <= 1440
    && 1 <= c.witnessCount <= 100
    && (c.messageReceived.Some? ==> |c.messageReceived.value| <= 500)
  }

  /** Every field without a default has been supplied. */
  predicate ContactComplete(i: ContactInput) {
    i.contactId.Some? && i.timestamp.Some? && i.location.Some? && i.contactType.Some? &&
    i.signalStrength.Some? && i.durationMinutes.Some? && i.witnessCount.Some?
  }

  /** The record built from complete input; `message_received` defaults to None, `is_verified` to false. */
  function BuildContact(i: ContactInput): (c: AlienContact)
    requires ContactComplete(i)
    ensures c.contactId == i.contactId.value && c.timestamp == i.timestamp.value && c.location == i.location.value
    ensures c.contactType == i.contactType.value && c.signalStrength == i.signalStrength.value
    ensures c.durationMinutes == i.durationMinutes.value && c.witnessCount == i.witnessCount.value
    ensures c.messageReceived == i.messageReceived
    ensures c.isVerified == (i.isVerified == Some(true))
  {
    AlienContact(i.contactId.value, i.timestamp.value, i.location.value, i.contactType.value,
                 i.signalStrength.value, i.durationMinutes.value, i.witnessCount.value,
                 i.messageReceived, WithDefault(i.isVerified, false))
  }

  /** The checks of the fields, one list per declared field. */
  function ContactChecks(i: ContactInput): seq<seq<Error>> {
    [ RequiredString("contact_id", i.contactId, 5, 15),
      RequiredField("timestamp", i.timestamp),
      RequiredString("location", i.location, 3, 100),
      RequiredField("contact_type", i.contactType),
      RequiredReal("signal_strength", i.signalStrength, 0.0, 10.0),
      RequiredInt("duration_minutes", i.durationMinutes, 1, 1440),
      RequiredInt("witness_count", i.witnessCount, 1, 100),
      OptionalString("message_received", i.messageReceived, 500),
      [] ]
  }

  lemma ContactChecksEmpty(i: ContactInput)
    ensures (forall k :: 0 <= k < |ContactChecks(i)| ==> ContactChecks(i)[k] == []) <==>
            ContactComplete(i) && ContactFieldsValid(BuildContact(i))
  {
    var c := ContactChecks(i);
    assert c[0] == [] <==> i.contactId.Some? && 5 <= |i.contactId.value| <= 15;
    assert c[1] == [] <==> i.timestamp.Some?;
    assert c[2] == [] <==> i.location.Some? && 3 <= |i.location.value| <= 100;
    assert c[3] == [] <==> i.contactType.Some?;
    assert c[4] == [] <==> i.signalStrength.Some? && 0.0 <= i.signalStrength.value <= 10.0;
    assert c[5] == [] <==> i.durationMinutes.Some? && 1 <= i.durationMinutes.value <= 1440;
    assert c[6] == [] <==> i.witnessCount.Some? && 1 <= i.witnessCount.value <= 100;
    assert c[7] == [] <==> (i.messageReceived.Some? ==> |i.messageReceived.value| <= 500);
    assert c[8] == [];
    if c[0] == [] && c[1] == [] && c[2] == [] && c[3] == [] && c[4] == [] && c[5] == [] && c[6] == [] && c[7] == [] {
      forall k | 0 <= k < |c| ensures c[k] == [] {
        assert k <= 8;
      }
    }
  }

  /** Check `k` only reports on field `k`, and reports at most once. */
  lemma ContactChecksFollowFields(i: ContactInput)
    ensures OnFields(ContactChecks(i), ContactFields)
  {
    ContactFieldsDistinct();
    var c := ContactChecks(i);
    forall k | 0 <= k < |ContactFields|
      ensures OnField(c[k], ContactFields[k])
    {
      if k == 0 { assert c[0] == RequiredString("contact_id", i.contactId, 5, 15); RequiredStringOnField("contact_id", i.contactId, 5, 15); }
      else if k == 1 { assert c[1] == RequiredField("timestamp", i.timestamp); RequiredFieldOnField("timestamp", i.timestamp); }
      else if k == 2 { assert c[2] == RequiredString("location", i.location, 3, 100); RequiredStringOnField("location", i.location, 3, 100); }
      else if k == 3 { assert c[3] == RequiredField("contact_type", i.contactType); RequiredFieldOnField("contact_type", i.contactType); }
      else if k == 4 { assert c[4] == RequiredReal("signal_strength", i.signalStrength, 0.0, 10.0); RequiredRealOnField("signal_strength", i.signalStrength, 0.0, 10.0); }
      else if k == 5 { assert c[5] == RequiredInt("duration_minutes", i.durationMinutes, 1, 1440); RequiredIntOnField("duration_minutes", i.durationMinutes, 1, 1440); }
      else if k == 6 { assert c[6] == RequiredInt("witness_count", i.witnessCount, 1, 100); RequiredIntOnField("witness_count", i.witnessCount, 1, 100); }
      else if k == 7 { assert c[7] == OptionalString("message_received", i.messageReceived, 500); OptionalStringOnField("message_received", i.messageReceived, 500); }
      else { assert c[8] == []; }
    }
  }

  lemma ContactFieldsDistinct()
    ensures Distinct(ContactFields)
  {
    assert ContactFields[5][0] != ContactFields[7][0];
  }

  /**
   * Field phase: no errors exactly when the input is complete and the record
   * built from it is field-valid; otherwise every failing field is reported,
   * once, in declaration order.
   */
  function ContactFieldErrors(i: ContactInput): (errs: seq<Error>)
    ensures errs == [] <==> ContactComplete(i) && ContactFieldsValid(BuildContact(i))
  {
    ContactChecksEmpty(i);
    Flatten(ContactChecks(i))
  }

  /**
   * The errors are in declaration order, each on a declared field, exactly
   * one per failing field.
   */
  lemma ContactFieldErrorsInOrder(i: ContactInput)
    ensures InDeclarationOrder(ContactFieldErrors(i), ContactFields)
    ensures forall e | e in ContactFieldErrors(i) :: e.FieldError? && FieldRank(e, ContactFields) < |ContactFields|
    ensures |ContactFieldErrors(i)| <= |ContactFields|
    ensures |ContactFieldErrors(i)| == Failing(ContactChecks(i))
  {
    ContactChecksFollowFields(i);
    CollectedOnFields(ContactChecks(i), ContactFields);
  }

  // ---------------------------------------------------------------------------
  // Cross-field rules
  // ---------------------------------------------------------------------------

  const IdMessage := "Contact ID must start with \"AC\" (Alien Contact)"
  const PhysicalMessage := "Physical contact reports must be verified"
  const TelepathicMessage := "Telepathic contact requires at least 3 witnesses"
  const SignalMessage := "Strong signals (> 7.0) should include received messages"

  predicate IdRule(c: AlienContact) { StartsWith(c.contactId, "AC") }
  predicate PhysicalRule(c: AlienContact) { c.contactType == Physical ==> c.isVerified }
  predicate TelepathicRule(c: AlienContact) { c.contactType == Telepathic ==> c.witnessCount >= 3 }
  predicate SignalRule(c: AlienContact) { c.signalStrength > 7.0 ==> c.messageReceived.Some? }

  predicate ContactRulesHold(c: AlienContact) {
    IdRule(c) && PhysicalRule(c) && TelepathicRule(c) && SignalRule(c)
  }

  /**
   * The guard clauses of the contact report, in source order. A rule's message
   * is reported exactly when every earlier rule holds and that rule fails.
   */
  function ContactRules(c: AlienContact): (r: Outcome)
    ensures r == Pass <==> ContactRulesHold(c)
    ensures r == Fail(IdMessage) <==> !IdRule(c)
    ensures r == Fail(PhysicalMessage) <==> IdRule(c) && !PhysicalRule(c)
    ensures r == Fail(TelepathicMessage) <==> IdRule(c) && PhysicalRule(c) && !TelepathicRule(c)
    ensures r == Fail(SignalMessage) <==> IdRule(c) && PhysicalRule(c) && TelepathicRule(c) && !SignalRule(c)
  {
    if !StartsWith(c.contactId, "AC") then Fail(IdMessage)
    else if c.contactType == Physical && !c.isVerified then Fail(PhysicalMessage)
    else if c.contactType == Telepathic && c.witnessCount < 3 then Fail(TelepathicMessage)
    else if c.signalStrength > 7.0 && c.messageReceived.None? then Fail(SignalMessage)
    else Pass
  }

  /** The contact rules as a table for the generic first-failure evaluation. */
  function ContactRuleTable(c: AlienContact): seq<Rule> {
    [ Rule(IdRule(c), IdMessage), Rule(PhysicalRule(c), PhysicalMessage),
      Rule(TelepathicRule(c), TelepathicMessage), Rule(SignalRule(c), SignalMessage) ]
  }

  /** The guard-clause chain agrees with first-failure evaluation of the rule table. */
  lemma ContactRulesAreFirstFailure(c: AlienContact)
    ensures ContactRules(c) == FirstFailure(ContactRuleTable(c))
  {
    var t := ContactRuleTable(c);
    if !IdRule(c) {
      FirstFailureAt(t, 0);
    } else if !PhysicalRule(c) {
      FirstFailureAt(t, 1);
    } else if !TelepathicRule(c) {
      FirstFailureAt(t, 2);
    } else if !SignalRule(c) {
      FirstFailureAt(t, 3);
    }
  }

  /**
   * Validation of a contact report: field errors when any field fails (the
   * rules are then not run); otherwise the first failing rule's message alone;
   * otherwise the record, which then satisfies every field bound and every rule.
   */
  function ValidateContact(i: ContactInput): (r: Report<AlienContact>)
    ensures r.Accepted? <==> ContactComplete(i) && ContactFieldsValid(BuildContact(i)) && ContactRulesHold(BuildContact(i))
    ensures r.Accepted? ==> r.value == BuildContact(i) && ContactFieldsValid(r.value) && ContactRulesHold(r.value)
    ensures ContactFieldErrors(i) != [] ==> r == Rejected(ContactFieldErrors(i))
    ensures ContactFieldErrors(i) == [] && r.Rejected? ==>
              r.errors == [RuleViolation(ContactRules(BuildContact(i)).message)]
    ensures r.Rejected? ==> |r.errors| > 0
  {
    var errs := ContactFieldErrors(i);
    if errs != [] then Rejected(errs)
    else
      var c := BuildContact(i);
      match ContactRules(c)
      case Pass => Accepted(c)
      case Fail(m) => Rejected([RuleViolation(m)])
  }

  /**
   * A PHYSICAL report that omits `is_verified` is always refused: on its
   * fields, on its ID, or else on the physical-verification rule.
   */
  lemma PhysicalUnverifiedRejected(i: ContactInput)
    requires i.contactType == Some(Physical) && i.isVerified.None?
    ensures ValidateContact(i).Rejected?
    ensures ContactFieldErrors(i) == [] && IdRule(BuildContact(i)) ==>
              ValidateContact(i).errors == [RuleViolation(PhysicalMessage)]
  {
  }

  /** The strong-signal rule is strict: a signal of exactly 7.0 without a message passes it. */
  lemma SignalSevenWithoutMessagePasses(c: AlienContact)
    requires c.signalStrength == 7.0 && c.messageReceived.None?
    ensures SignalRule(c)
    ensures ContactRules(c) != Fail(SignalMessage)
  {
  }

  /** Omitting `is_verified` is the same as supplying its default `False`. */
  lemma VerifiedDefault(i: ContactInput)
    requires i.isVerified.None?
    ensures ValidateContact(i) == ValidateContact(i.(isVerified := Some(false)))
  {
    assert ContactChecks(i) == ContactChecks(i.(isVerified := Some(false)));
  }

  // ---------------------------------------------------------------------------
  // The two demonstration reports
  // ---------------------------------------------------------------------------

  function DemoContact(contactType: ContactType, witnessCount: int): ContactInput {
    ContactInput(Some("AC_2024_001"), Some(DateTime("2026-01-27T12:09")), Some("Area 51, Nevada"),
                 Some(contactType), Some(8.5), Some(45), Some(witnessCount),
                 Some("Greetings from Zeta Reticuli"), None)
  }

  /** The RADIO report with a strong signal and a message is accepted. */
  lemma DemoRadioAccepted()
    ensures ValidateContact(DemoContact(Radio, 5)).Accepted?
  {
    assert StartsWith("AC_2024_001", "AC");
  }

  /** The TELEPATHIC report with one witness is refused on the witness rule alone, its fields being valid. */
  lemma DemoTelepathicRejected()
    ensures ContactFieldErrors(DemoContact(Telepathic, 1)) == []
    ensures ValidateContact(DemoContact(Telepathic, 1)) == Rejected([RuleViolation(TelepathicMessage)])
  {
    assert StartsWith("AC_2024_001", "AC");
  }
}
