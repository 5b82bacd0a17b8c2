# Constrained-record validation: station, contact report, crew mission

A Dafny model of three pydantic record types and of how constructing one from
keyword data is validated:

- `SpaceStation` (`ex0/space_station.py`): eight fields with length and range bounds and two defaults. It has no cross-field rules.
- `AlienContact` (`ex1/alien_contact.py`): nine fields and a `model_validator(mode="after")` chain of four guard clauses.
- `SpaceMission` with its `CrewMember` list (`ex2/space_crew.py`). The mission's eight fields include the nested list `crew`, whose members are validated one by one. A second chain of four guard clauses follows.

Validation runs in two phases, and the model keeps both.

1. **Field phase.** Every declared field is checked, and every failure is kept. Each failure is a `FieldError(path, reason)`, in field-declaration order. An error of crew member `k` is addressed `crew[k].field`.
2. **Rule phase.** When no field failed, the record is built, filling in the defaults for absent fields. The guard clauses then run in source order, and only the first failing rule's message is reported.

Module layout:

- `validation.dfy` (`Validation`): what the three records share. This covers keyword input as `Option` values, the per-constraint checkers, error paths and nesting, the concatenation of per-field errors with its declaration-order and counting lemmas, and `FirstFailure`, the reference definition of a guard-clause chain.
- `station.dfy` (`Station`), `contact.dfy` (`Contact`) and `crew.dfy` (`Crew`): one module per source file. Each holds:
  - the record datatype and the enumeration;
  - the raw-input datatype;
  - the field-validity predicate and the builder with defaults;
  - the field checks;
  - the rule chain and its rule table;
  - the top-level `Validate…`;
  - lemmas for the properties and for the demonstration inputs of each `main`.

The two demonstration missions of `main` (ex2/space_crew.py:137-157) come out as follows:

- The first has 2 experienced members out of 3 (Sarah 12 years, Alice 6), so it passes the experience rule and is accepted.
- The second runs after Sarah's rank is set to CADET, so no member is a CAPTAIN or COMMANDER, and it is refused on the leader rule.

## Model

| member | source | states |
|---|---|---|
| Validation.LengthReason | ex0/space_station.py:12-13 | a string is refused exactly when its length is outside the inclusive `min_length`/`max_length` bounds, with the reason naming the bound it breaks |
| Validation.IntReason | ex0/space_station.py:14 | an integer is refused exactly when it lies outside the inclusive `ge`/`le` range, below-minimum or above-maximum accordingly |
| Validation.RealReason | ex0/space_station.py:15-16 | the same inclusive range test for a float field |
| Validation.RequiredField | ex1/alien_contact.py:23 | a field without constraints (the timestamp here, and likewise `contact_type` at line 25) fails exactly when it is absent, with a missing error on that field |
| Validation.RequiredString | ex0/space_station.py:12-13 | a required string field passes exactly when it is supplied and its length is within bounds; an absent one gets a missing error, a short one too-short naming `min_length`, a long one too-long naming `max_length` |
| Validation.OptionalString | ex0/space_station.py:19 | an `Optional[str]` field defaulting to None passes when absent, and otherwise exactly when it is within its maximum length; an over-long one gets too-long naming `max_length` |
| Validation.RequiredInt | ex0/space_station.py:14 | a required int field passes exactly when it is supplied and within range; an absent one gets a missing error, a value below `ge` below-minimum, a value above `le` above-maximum |
| Validation.RequiredReal | ex0/space_station.py:15-16 | a required float field passes exactly when it is supplied and within range; an absent one gets a missing error, a value below `ge` below-minimum, a value above `le` above-maximum |
| Validation.Nest | ex2/space_crew.py:44 | a member's errors keep their number and order, and member error `k` on path `p` becomes the same error on path `crew[i]` followed by `p` |
| Validation.NestLocated | ex2/space_crew.py:44 | every re-addressed error sits at `crew[k].<field>`, and each comes from, and is matched by, an error of member `k` |
| Validation.Flatten | ex0/space_station.py:12-19 | the collected field errors are empty exactly when every field's check passed |
| Validation.FlattenCount | ex0/space_station.py:12-19 | when each check reports at most one error, there is exactly one collected error per failing field |
| Validation.InFlatten | ex0/space_station.py:12-19 | no field's error is dropped from the collected errors |
| Validation.InFlattenChunk | ex0/space_station.py:12-19 | every collected error comes from some field's check |
| Validation.FlattenInDeclarationOrder | ex0/space_station.py:12-19 | when check `k` reports only on field `k` and field names are distinct, the collected errors follow declaration order |
| Validation.CollectedOnFields | ex0/space_station.py:12-19 | when every check reports at most once and only on its own field, and field names are distinct, the collected errors follow declaration order, each on a declared field, one per failing field |
| Validation.FirstFailure | ex1/alien_contact.py:35-49 | a rule chain passes exactly when every rule holds; otherwise it reports the message of a failing rule, every earlier rule holding |
| Validation.FirstFailureAt | ex1/alien_contact.py:35-49 | when rule `k` is the first that fails, the chain reports exactly rule `k`'s message |
| Validation.IndexOf | ex0/space_station.py:12-19 | the position found is the first declaration of the field name, or past the end when it is not declared |
| Station.BuildStation | ex0/space_station.py:9-19 | the built station carries every supplied value, `is_operational` defaulting to true and `notes` to None |
| Station.StationFieldErrors | ex0/space_station.py:12-19 | there are no field errors exactly when every required field is present and the built station meets every bound of `StationFieldsValid` |
| Station.StationFieldErrorsInOrder | ex0/space_station.py:12-19 | station errors follow declaration order, each on a declared field, exactly one per failing field |
| Station.ValidateStation | ex0/space_station.py:9-19 | a station is accepted exactly when every field constraint holds (`StationComplete` and `StationFieldsValid`; no cross-field rules), it then holds the supplied values with defaults, and otherwise the field errors are reported |
| Station.OperationalDefault | ex0/space_station.py:18 | omitting `is_operational` gives the same result as passing True, and an accepted station is operational |
| Station.NotesTooLong | ex0/space_station.py:19 | `notes` longer than 200 characters is refused with a too-long error on `notes` |
| Station.CrewSizeOutOfRange | ex0/space_station.py:14 | a crew size outside 1..20 is refused with a below-minimum or above-maximum error on `crew_size` |
| Station.DemoValidStation | ex0/space_station.py:49-56 | the first demo station is accepted and operational, with its values unchanged |
| Station.DemoCrewSizeTooLarge | ex0/space_station.py:58-65 | the second demo station, with 32 crew, is refused with exactly one error: above maximum on `crew_size` |
| Contact.BuildContact | ex1/alien_contact.py:22-30 | the built report carries every supplied value, with `message_received` defaulting to None and `is_verified` to false |
| Contact.ContactFieldErrors | ex1/alien_contact.py:22-30 | there are no field errors exactly when every required field is present and the built report meets every bound of `ContactFieldsValid` |
| Contact.ContactFieldErrorsInOrder | ex1/alien_contact.py:22-30 | report errors follow declaration order, each on a declared field, exactly one per failing field |
| Contact.ContactRules | ex1/alien_contact.py:35-49 | each of the four messages is raised exactly when its rule fails and every earlier rule holds (the ID prefix "AC", then verified PHYSICAL, then 3 witnesses for TELEPATHIC, then a message for signals above 7.0: `IdRule`, `PhysicalRule`, `TelepathicRule`, `SignalRule`); passing means `ContactRulesHold` |
| Contact.ContactRulesAreFirstFailure | ex1/alien_contact.py:33-50 | the guard-clause chain equals first-failure evaluation of the four rules in source order |
| Contact.ValidateContact | ex1/alien_contact.py:32-50 | field errors, when there are any, are reported and the rules are not run. Otherwise the first failing rule's message is reported alone. Acceptance happens exactly when the input is complete and `ContactFieldsValid` and `ContactRulesHold` hold of the built report, and the accepted value is that report |
| Contact.PhysicalUnverifiedRejected | ex1/alien_contact.py:30-38 | a PHYSICAL report without `is_verified` is always refused, on the verification rule whenever its fields pass and its ID starts with "AC" |
| Contact.SignalSevenWithoutMessagePasses | ex1/alien_contact.py:46-49 | the strong-signal test is strict: signal 7.0 with no message passes that rule |
| Contact.VerifiedDefault | ex1/alien_contact.py:30 | omitting `is_verified` gives the same result as passing False |
| Contact.DemoRadioAccepted | ex1/alien_contact.py:79-88 | the RADIO demo report with signal 8.5 and a message is accepted |
| Contact.DemoTelepathicRejected | ex1/alien_contact.py:90-99 | the TELEPATHIC demo report with one witness passes every field check and is refused with the telepathic-witness message alone |
| Crew.BuildMember | ex2/space_crew.py:20-29 | the built member carries every supplied value, `is_active` defaulting to true |
| Crew.MemberFieldErrors | ex2/space_crew.py:23-28 | a member has no field errors exactly when all required fields are present and its id, name, specialization lengths and age, experience ranges are within the bounds of `MemberFieldsValid` |
| Crew.MemberFieldErrorsInOrder | ex2/space_crew.py:23-29 | member errors follow declaration order, each on a declared field, exactly one per failing field |
| Crew.ActiveDefault | ex2/space_crew.py:29 | omitting `is_active` gives the same errors and member as passing True, and the member is active |
| Crew.StatusDefault | ex2/space_crew.py:45 | omitting `mission_status` gives the same validation result as passing "planned", and an accepted mission has status "planned" |
| Crew.CrewItemErrors | ex2/space_crew.py:44 | the crew's item errors are empty exactly when every member passes its own field checks |
| Crew.CrewItemErrorsLocated | ex2/space_crew.py:44 | every item error is an error of some member `k` addressed at `crew[k].<field>`, and every member error appears so addressed |
| Crew.CrewFieldErrors | ex2/space_crew.py:44 | the crew field passes exactly when the list is present, has 1 to 12 members and every member is valid. A list over 12 gets only a too-long error, an empty list only a too-short error, and otherwise the item errors are kept. All errors are under `crew`, and an absent list gets a missing error on `crew` |
| Crew.BuildMission | ex2/space_crew.py:39-46 | the built mission carries every supplied value, builds every crew member, and `mission_status` defaults to "planned" |
| Crew.MissionChecksEmpty | ex2/space_crew.py:39-46 | every mission check passes exactly when the mission is complete and its built form is valid under `MissionFieldsValid`, with every member valid |
| Crew.MissionFieldErrors | ex2/space_crew.py:39-46 | there are no field errors, member errors included, exactly when the input is complete and the built mission meets every bound of `MissionFieldsValid` with 1 to 12 valid members |
| Crew.MissionFieldErrorsInOrder | ex2/space_crew.py:39-46 | mission errors follow declaration order, each on a declared field, a member's under `crew` |
| Crew.Experienced | ex2/space_crew.py:62-68 | the experienced count is at most the crew size, zero exactly when nobody has 5 or more years, and the crew size exactly when everybody does |
| Crew.ExperiencedCounts | ex2/space_crew.py:62-68 | the count equals the number of member positions whose `years_experience` is at least 5, i.e. the length of the source's filtered list |
| Crew.ExperienceRatio | ex2/space_crew.py:69 | for a non-empty crew the source's `experienced / total < 0.5` equals the integer test `2 * experienced < total` |
| Crew.ExperienceRuleIsRatio | ex2/space_crew.py:60-73 | for a non-empty crew the experience rule is exactly "a mission over 365 days is not below the 0.5 ratio" |
| Crew.ExperienceBoundary | ex2/space_crew.py:60-73 | on a long mission exactly half the crew experienced passes, and fewer than half fails |
| Crew.ShortMissionNoExperienceRule | ex2/space_crew.py:60 | missions of at most 365 days always satisfy the experience rule |
| Crew.MissionRules | ex2/space_crew.py:51-76 | each of the four messages is raised exactly when its rule fails and every earlier rule holds (the ID prefix "M", then a CAPTAIN or COMMANDER, then the long-mission experience ratio, then all members active: `MissionIdRule`, `LeaderRule`, `ExperienceRule`, `ActiveRule`); passing means `MissionRulesHold` |
| Crew.MissionRulesAreFirstFailure | ex2/space_crew.py:49-78 | the guard-clause chain equals first-failure evaluation of the four rules in source order |
| Crew.ValidateMission | ex2/space_crew.py:48-78 | field and member errors, when there are any, are reported and the rules are not run. Otherwise the first failing rule's message is reported alone. Acceptance happens exactly when the input is complete and `MissionFieldsValid` and `MissionRulesHold` hold of the built mission |
| Crew.OmittedActiveSatisfiesRule | ex2/space_crew.py:75 | a crew whose members all omit `is_active` satisfies the all-active rule, since the default is true |
| Crew.DemoCrewValid | ex2/space_crew.py:110-145 | whatever Sarah's rank, the demo mission passes the whole field phase |
| Crew.DemoExperienced | ex2/space_crew.py:110-133 | Sarah and Alice count as experienced and John does not: 2 of 3 |
| Crew.DemoMarsAccepted | ex2/space_crew.py:137-145 | the 900-day Mars mission led by commander Sarah, with 2 of 3 members experienced, is accepted |
| Crew.DemoCadetRejected | ex2/space_crew.py:147-157 | once Sarah is a CADET the same crew, checked again, is refused with exactly "Must have at least one Commander or Captain" |

## Left out

- Date-time parsing: `timestamp`, `last_maintenance` and `launch_date` are opaque, already-parsed values (`DateTime`, which keeps the ISO text). Coercion from a string, and its error, are not modelled.
- Type and enumeration coercion: every input value already has its declared type, and `Rank` and `ContactType` values are given as members, as the demos pass them. Coercion errors such as a wrong type or an unknown enumeration tag are not modelled.
- Error text: field errors are abstract `(path, reason)` entries. pydantic's wording and the `ValidationError` formatting are not modelled. Rule errors carry the source's exact message strings.
- Floating point: `power_level`, `oxygen_level`, `signal_strength` and `budget_millions` are real numbers, not IEEE doubles, and only comparisons are used.
- `ExperienceRule`: uses the integer test `2 * experienced < total`. `ExperienceRatio` proves it equal to the source's float division. The division by zero the source could hit is unreachable, because the field phase requires at least one member.
- Order of the `crew` list errors: more than 12 members gives only the too-long error, and otherwise each member's errors come in list order. This is pydantic-core's behaviour for a constrained list; pydantic-core is not part of this model.
- Proofs of that order: these are about the top-level fields. Inside the nested lists, order is shown only as "member `k`'s errors come from chunk `k`".
- Explicit None: the model treats an explicit `None` like an absent keyword. That holds for the `Optional[str]` fields `notes` and `message_received`, which default to None. A required field given `None` gets a type error in pydantic, which the model reports as missing. The four fields with a non-None default, `is_operational` (ex0/space_station.py:18), `is_verified` (ex1/alien_contact.py:30), `is_active` (ex2/space_crew.py:29) and `mission_status` (ex2/space_crew.py:45), also refuse an explicit `None` with a type error in pydantic. The model does not reproduce that: it substitutes the default and may accept.
- Defaults are not re-validated, as pydantic does not validate them by default. The declared defaults (`True`, `False`, `None`, "planned") are all valid.
- `__str__` renderers, the `create_*` wrappers that print the result or the error to standard error, the banners, and the `__main__` exception guard: these are presentation and I/O.
- The dictionary mutation `sarah["rank"] = Rank.CADET`: it becomes two calls with different inputs, `Sarah(Commander)` and `Sarah(Cadet)`. Nothing is cached between them.
