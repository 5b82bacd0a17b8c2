/**
 * The space-station record: eight declared fields with length and range
 * bounds and two defaults, and no cross-field rules.
 */
module Station {
  import opened Validation

  /** A constructed, fully validated station. */
  datatype SpaceStation = SpaceStation(
    stationId: string,
    name: string,
    crewSize: int,
    powerLevel: real,
    oxygenLevel: real,
    lastMaintenance: DateTime,
    isOperational: bool,
    notes: Option<string>)

  /** The keyword data a caller supplies; `None` is an absent keyword. */
  datatype StationInput = StationInput(
    stationId: Option<string>,
    name: Option<string>,
    crewSize: Option<int>,
    powerLevel: Option<real>,
    oxygenLevel: Option<real>,
    lastMaintenance: Option<DateTime>,
    isOperational: Option<bool>,
    notes: Option<string>)

  /** The declared fields, in declaration order. */
  const StationFields: seq<string> :=
    ["station_id", "name", "crew_size", "power_level", "oxygen_level", "last_maintenance", "is_operational", "notes"]

  /** Every field of a station satisfies its declared bounds. */
  predicate StationFieldsValid(s: SpaceStation) {
    && 3 <= |s.stationId| <= 10
    && 1 <= |s.name| <= 50
    && 1 <= s.crewSize <= 20
    && 0.0 <= s.powerLevel <= 100.0
    && 0.0 <= s.oxygenLevel <= 100.0
    && (s.notes.Some? ==> |s.notes.value| <= 200)
  }

  /** Every field without a default has been supplied. */
  predicate StationComplete(i: StationInput) {
    i.stationId.Some? && i.name.Some? && i.crewSize.Some? && i.powerLevel.Some? &&
    i.oxygenLevel.Some? && i.lastMaintenance.Some?
  }

  /** The record built from complete input, with the declared defaults for absent fields. */
  function BuildStation(i: StationInput): (s: SpaceStation)
    requires StationComplete(i)
    ensures s.stationId == i.stationId.value && s.name == i.name.value && s.crewSize == i.crewSize.value
    ensures s.powerLevel == i.powerLevel.value && s.oxygenLevel == i.oxygenLevel.value
    ensures s.lastMaintenance == i.lastMaintenance.value
    ensures s.isOperational == (i.isOperational != Some(false))
    ensures s.notes == i.notes
  {
    SpaceStation(i.stationId.value, i.name.value, i.crewSize.value, i.powerLevel.value,
                 i.oxygenLevel.value, i.lastMaintenance.value, WithDefault(i.isOperational, true), i.notes)
  }

  /** The checks of the fields, one list per declared field. */
  function StationChecks(i: StationInput): seq<seq<Error>> {
    [ RequiredString("station_id", i.stationId, 3, 10),
      RequiredString("name", i.name, 1, 50),
      RequiredInt("crew_size", i.crewSize, 1, 20),
      RequiredReal("power_level", i.powerLevel, 0.0, 100.0),
      RequiredReal("oxygen_level", i.oxygenLevel, 0.0, 100.0),
      RequiredField("last_maintenance", i.lastMaintenance),
      [],
      OptionalString("notes", i.notes, 200) ]
  }

  /**
   * Field phase: every field is checked and every failure kept. There are no
   * errors exactly when the input is complete and the record built from it
   * is field-valid; the errors come in declaration order, at most one per field.
   */
  function StationFieldErrors(i: StationInput): (errs: seq<Error>)
    ensures errs == [] <==> StationComplete(i) && StationFieldsValid(BuildStation(i))
  {
    StationChecksEmpty(i);
    Flatten(StationChecks(i))
  }

  /**
   * The errors are in declaration order, each on a declared field, exactly
   * one per failing field.
   */
  lemma StationFieldErrorsInOrder(i: StationInput)
    ensures InDeclarationOrder(StationFieldErrors(i), StationFields)
    ensures forall e | e in StationFieldErrors(i) :: e.FieldError? && FieldRank(e, StationFields) < |StationFields|
    ensures |StationFieldErrors(i)| <= |StationFields|
    ensures |StationFieldErrors(i)| == Failing(StationChecks(i))
  {
    StationChecksFollowFields(i);
    CollectedOnFields(StationChecks(i), StationFields);
  }

  lemma StationChecksEmpty(i: StationInput)
    ensures (forall k :: 0 <= k < |StationChecks(i)| ==> StationChecks(i)[k] == []) <==>
            StationComplete(i) && StationFieldsValid(BuildStation(i))
  {
    var c := StationChecks(i);
    assert c[0] == [] <==> i.stationId.Some? && 3 <= |i.stationId.value| <= 10;
    assert c[1] == [] <==> i.name.Some? && 1 <= |i.name.value| <= 50;
    assert c[2] == [] <==> i.crewSize.Some? && 1 <= i.crewSize.value <= 20;
    assert c[3] == [] <==> i.powerLevel.Some? && 0.0 <= i.powerLevel.value <= 100.0;
    assert c[4] == [] <==> i.oxygenLevel.Some? && 0.0 <= i.oxygenLevel.value <= 100.0;
    assert c[5] == [] <==> i.lastMaintenance.Some?;
    assert c[6] == [];
    assert c[7] == [] <==> (i.notes.Some? ==> |i.notes.value| <= 200);
  }

  lemma StationFieldsDistinct()
    ensures Distinct(StationFields)
  {
  }

  /** Check `k` only reports on field `k`, and reports at most once. */
  lemma StationChecksFollowFields(i: StationInput)
    ensures OnFields(StationChecks(i), StationFields)
  {
    StationFieldsDistinct();
    var c := StationChecks(i);
    forall k | 0 <= k < |StationFields|
      ensures OnField(c[k], StationFields[k])
    {
      if k == 0 { assert c[0] == RequiredString("station_id", i.stationId, 3, 10); RequiredStringOnField("station_id", i.stationId, 3, 10); }
      else if k == 1 { assert c[1] == RequiredString("name", i.name, 1, 50); RequiredStringOnField("name", i.name, 1, 50); }
      else if k == 2 { assert c[2] == RequiredInt("crew_size", i.crewSize, 1, 20); RequiredIntOnField("crew_size", i.crewSize, 1, 20); }
      else if k == 3 { assert c[3] == RequiredReal("power_level", i.powerLevel, 0.0, 100.0); RequiredRealOnField("power_level", i.powerLevel, 0.0, 100.0); }
      else if k == 4 { assert c[4] == RequiredReal("oxygen_level", i.oxygenLevel, 0.0, 100.0); RequiredRealOnField("oxygen_level", i.oxygenLevel, 0.0, 100.0); }
      else if k == 5 { assert c[5] == RequiredField("last_maintenance", i.lastMaintenance); RequiredFieldOnField("last_maintenance", i.lastMaintenance); }
      else if k == 6 { assert c[6] == []; }
      else { assert c[7] == OptionalString("notes", i.notes, 200); OptionalStringOnField("notes", i.notes, 200); }
    }
  }

  /**
   * Validation of a station: accepted exactly when every field constraint
   * holds (there are no cross-field rules), and then it holds the supplied
   * values with defaults filled in; otherwise the field errors are reported.
   */
  function ValidateStation(i: StationInput): (r: Report<SpaceStation>)
    ensures r.Accepted? <==> StationComplete(i) && StationFieldsValid(BuildStation(i))
    ensures r.Accepted? ==> StationFieldsValid(r.value) && r.value == BuildStation(i)
    ensures r.Rejected? ==> r.errors == StationFieldErrors(i) && |r.errors| > 0
  {
    var errs := StationFieldErrors(i);
    if errs == [] then Accepted(BuildStation(i)) else Rejected(errs)
  }

  /** Omitting `is_operational` is the same as supplying its default `True`. */
  lemma OperationalDefault(i: StationInput)
    requires i.isOperational.None?
    ensures ValidateStation(i) == ValidateStation(i.(isOperational := Some(true)))
    ensures ValidateStation(i).Accepted? ==> ValidateStation(i).value.isOperational
  {
  }

  /** A `notes` text over 200 characters is refused with an error on `notes`. */
  lemma NotesTooLong(i: StationInput)
    requires i.notes.Some? && |i.notes.value| > 200
    ensures ValidateStation(i).Rejected?
    ensures FieldError([Key("notes")], StringTooLong(200)) in ValidateStation(i).errors
  {
    InFlatten(StationChecks(i), 7, FieldError([Key("notes")], StringTooLong(200)));
  }

  /** A crew size outside [1, 20] is refused with an error on `crew_size`. */
  lemma CrewSizeOutOfRange(i: StationInput)
    requires i.crewSize.Some? && !(1 <= i.crewSize.value <= 20)
    ensures ValidateStation(i).Rejected?
    ensures FieldError([Key("crew_size")], if i.crewSize.value < 1 then BelowMinimum else AboveMaximum)
              in ValidateStation(i).errors
  {
    var e := FieldError([Key("crew_size")], if i.crewSize.value < 1 then BelowMinimum else AboveMaximum);
    assert StationChecks(i)[2] == [e];
    InFlatten(StationChecks(i), 2, e);
  }

  // ---------------------------------------------------------------------------
  // The two demonstration stations
  // ---------------------------------------------------------------------------

  function DemoStation(crewSize: int): StationInput {
    StationInput(Some("ISS001"), Some("International Space Station"), Some(crewSize), Some(85.5),
                 Some(92.3), Some(DateTime("2026-01-27T12:09")), None, None)
  }

  /** The first station is accepted, operational, with its values unchanged. */
  lemma DemoValidStation()
    ensures ValidateStation(DemoStation(6)).Accepted?
    ensures ValidateStation(DemoStation(6)).value ==
            SpaceStation("ISS001", "International Space Station", 6, 85.5, 92.3,
                         DateTime("2026-01-27T12:09"), true, None)
  {
  }

  /** The second station, with 32 crew, is refused with one error, on `crew_size`. */
  lemma DemoCrewSizeTooLarge()
    ensures ValidateStation(DemoStation(32)) == Rejected([FieldError([Key("crew_size")], AboveMaximum)])
  {
  }
}
