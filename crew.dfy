/**
 * Crew members and the space mission that holds a list of them: each member
 * is validated on its own fields, the mission on its fields and on every
 * member, and then four cross-field rules are checked in order.
 */
module Crew {
  import opened Validation

  datatype Rank = Cadet | Officer | Lieutenant | Captain | Commander

  /** A constructed, fully validated crew member. */
  datatype CrewMember = CrewMember(
    memberId: string,
    name: string,
    rank: Rank,
    age: int,
    specialization: string,
    yearsExperience: int,
    isActive: bool)

  /** The keyword data for one crew member; `None` is an absent key. */
  datatype MemberInput = MemberInput(
    memberId: Option<string>,
    name: Option<string>,
    rank: Option<Rank>,
    age: Option<int>,
    specialization: Option<string>,
    yearsExperience: Option<int>,
    isActive: Option<bool>)

  /** A constructed, fully validated mission. */
  datatype SpaceMission = SpaceMission(
    missionId: string,
    missionName: string,
    destination: string,
    launchDate: DateTime,
    durationDays: int,
    crew: seq<CrewMember>,
    missionStatus: string,
    budgetMillions: real)

  /** The keyword data for a mission; `None` is an absent keyword. */
  datatype MissionInput = MissionInput(
    missionId: Option<string>,
    missionName: Option<string>,
    destination: Option<string>,
    launchDate: Option<DateTime>,
    durationDays: Option<int>,
    crew: Option<seq<MemberInput>>,
    missionStatus: Option<string>,
    budgetMillions: Option<real>)

  // ---------------------------------------------------------------------------
  // Crew member
  // ---------------------------------------------------------------------------

  const MemberFields: seq<string> :=
    ["member_id", "name", "rank", "age", "specialization", "years_experience", "is_active"]

  /** Every field of a crew member satisfies its declared bounds. */
  predicate MemberFieldsValid(m: CrewMember) {
    && 3 <= |m.memberId| <= 10
    && 2 <= |m.name| <= 50
    && 18 <= m.age <= 80
    && 3 <= |m.specialization| <= 30
    && 0 <= m.yearsExperience <= 50
  }

  predicate MemberComplete(i: MemberInput) {
    i.memberId.Some? && i.name.Some? && i.rank.Some? && i.age.Some? &&
    i.specialization.Some? && i.yearsExperience.Some?
  }

  /** The member built from complete input; `is_active` defaults to true. */
  function BuildMember(i: MemberInput): (m: CrewMember)
    requires MemberComplete(i)
    ensures m.memberId == i.memberId.value && m.name == i.name.value && m.rank == i.rank.value
    ensures m.age == i.age.value && m.specialization == i.specialization.value
    ensures m.yearsExperience == i.yearsExperience.value
    ensures m.isActive == (i.isActive != Some(false))
  {
    CrewMember(i.memberId.value, i.name.value, i.rank.value, i.age.value, i.specialization.value,
               i.yearsExperience.value, WithDefault(i.isActive, true))
  }

  function MemberChecks(i: MemberInput): seq<seq<Error>> {
    [ RequiredString("member_id", i.memberId, 3, 10),
      RequiredString("name", i.name, 2, 50),
      RequiredField("rank", i.rank),
      RequiredInt("age", i.age, 18, 80),
      RequiredString("specialization", i.specialization, 3, 30),
      RequiredInt("years_experience", i.yearsExperience, 0, 50),
      [] ]
  }

  lemma MemberChecksEmpty(i: MemberInput)
    ensures (forall k :: 0 <= k < |MemberChecks(i)| ==> MemberChecks(i)[k] == []) <==>
            MemberComplete(i) && MemberFieldsValid(BuildMember(i))
  {
    var c := MemberChecks(i);
    assert c[0] == [] <==> i.memberId.Some? && 3 <= |i.memberId.value| <= 10;
    assert c[1] == [] <==> i.name.Some? && 2 <= |i.name.value| <= 50;
    assert c[2] == [] <==> i.rank.Some?;
    assert c[3] == [] <==> i.age.Some? && 18 <= i.age.value <= 80;
    assert c[4] == [] <==> i.specialization.Some? && 3 <= |i.specialization.value| <= 30;
    assert c[5] == [] <==> i.yearsExperience.Some? && 0 <= i.yearsExperience.value <= 50;
    assert c[6] == [];
  }

  lemma MemberFieldsDistinct()
    ensures Distinct(MemberFields)
  {
  }

  /** Check `k` only reports on field `k`, and reports at most once. */
  lemma MemberChecksFollowFields(i: MemberInput)
    ensures OnFields(MemberChecks(i), MemberFields)
  {
    MemberFieldsDistinct();
    var c := MemberChecks(i);
    forall k | 0 <= k < |MemberFields|
      ensures OnField(c[k], MemberFields[k])
    {
      if k == 0 { assert c[0] == RequiredString("member_id", i.memberId, 3, 10); RequiredStringOnField("member_id", i.memberId, 3, 10); }
      else if k == 1 { assert c[1] == RequiredString("name", i.name, 2, 50); RequiredStringOnField("name", i.name, 2, 50); }
      else if k == 2 { assert c[2] == RequiredField("rank", i.rank); RequiredFieldOnField("rank", i.rank); }
      else if k == 3 { assert c[3] == RequiredInt("age", i.age, 18, 80); RequiredIntOnField("age", i.age, 18, 80); }
      else if k == 4 { assert c[4] == RequiredString("specialization", i.specialization, 3, 30); RequiredStringOnField("specialization", i.specialization, 3, 30); }
      else if k == 5 { assert c[5] == RequiredInt("years_experience", i.yearsExperience, 0, 50); RequiredIntOnField("years_experience", i.yearsExperience, 0, 50); }
      else { assert c[6] == []; }
    }
  }

  /**
   * Field phase of a crew member: no errors exactly when the input is complete
   * and the member built from it is field-valid; otherwise each failing field
   * once, in declaration order.
   */
  function MemberFieldErrors(i: MemberInput): (errs: seq<Error>)
    ensures errs == [] <==> MemberComplete(i) && MemberFieldsValid(BuildMember(i))
  {
    MemberChecksEmpty(i);
    Flatten(MemberChecks(i))
  }

  /**
   * The errors are in declaration order, each on a declared field, exactly
   * one per failing field.
   */
  lemma MemberFieldErrorsInOrder(i: MemberInput)
    ensures InDeclarationOrder(MemberFieldErrors(i), MemberFields)
    ensures forall e | e in MemberFieldErrors(i) :: e.FieldError? && FieldRank(e, MemberFields) < |MemberFields|
    ensures |MemberFieldErrors(i)| <= |MemberFields|
    ensures |MemberFieldErrors(i)| == Failing(MemberChecks(i))
  {
    MemberChecksFollowFields(i);
    CollectedOnFields(MemberChecks(i), MemberFields);
  }

  /** Omitting `is_active` is the same as supplying its default `True`. */
  lemma ActiveDefault(i: MemberInput)
    requires i.isActive.None?
    ensures MemberFieldErrors(i) == MemberFieldErrors(i.(isActive := Some(true)))
    ensures MemberComplete(i) ==> BuildMember(i) == BuildMember(i.(isActive := Some(true)))
    ensures MemberComplete(i) ==> BuildMember(i).isActive
  {
    assert MemberChecks(i) == MemberChecks(i.(isActive := Some(true)));
  }

  // ---------------------------------------------------------------------------
  // The crew list field
  // ---------------------------------------------------------------------------

  /** The errors of every member, member `k`'s each addressed as `crew[k].field`, in list order. */
  function CrewItemErrors(c: seq<MemberInput>): (r: seq<Error>)
    ensures r == [] <==> forall k :: 0 <= k < |c| ==> MemberFieldErrors(c[k]) == []
  {
    Flatten(CrewItemChunks(c))
  }

  function CrewItemChunks(c: seq<MemberInput>): (chunks: seq<seq<Error>>)
    // The comprehension's length and elements, stated so that callers need not unfold it.
    ensures |chunks| == |c|
    ensures forall k :: 0 <= k < |c| ==> chunks[k] == Nest("crew", k, MemberFieldErrors(c[k]))
  {
    seq(|c|, k requires 0 <= k < |c| => Nest("crew", k, MemberFieldErrors(c[k])))
  }

  /** Error `e` reports, under `crew[j]`, an error of member `j`. */
  ghost predicate ItemErrorOf(e: Error, c: seq<MemberInput>) {
    && e.FieldError? && |e.loc| > 2 && e.loc[0] == Key("crew") && e.loc[1].Index? && e.loc[1].i < |c|
    && FieldError(e.loc[2..], e.reason) in MemberFieldErrors(c[e.loc[1].i])
  }

  /** Errors of a member's own field checks are on a field of the member. */
  lemma MemberErrorsAreFieldErrors(i: MemberInput)
    ensures forall e | e in MemberFieldErrors(i) :: e.FieldError? && |e.loc| > 0
  {
    MemberFieldErrorsInOrder(i);
  }

  /**
   * Nested errors carry their member's path: every error of the crew list is
   * an error of one member under `crew[index]`, and every error of member `k`
   * appears under `crew[k]`.
   */
  lemma CrewItemErrorsLocated(c: seq<MemberInput>)
    ensures forall e | e in CrewItemErrors(c) :: ItemErrorOf(e, c)
    ensures forall k, e | 0 <= k < |c| && e in MemberFieldErrors(c[k]) ::
              Under([Key("crew"), Index(k)], e) in CrewItemErrors(c)
  {
    var chunks := CrewItemChunks(c);
    forall e | e in Flatten(chunks) ensures ItemErrorOf(e, c) {
      var k := InFlattenChunk(chunks, e);
      MemberErrorsAreFieldErrors(c[k]);
      NestLocated("crew", k, MemberFieldErrors(c[k]));
    }
    forall k, e | 0 <= k < |c| && e in MemberFieldErrors(c[k])
      ensures Under([Key("crew"), Index(k)], e) in Flatten(chunks)
    {
      MemberErrorsAreFieldErrors(c[k]);
      NestLocated("crew", k, MemberFieldErrors(c[k]));
      InFlatten(chunks, k, Under([Key("crew"), Index(k)], e));
    }
  }

  /**
   * The `crew` field, `list[CrewMember]` of length 1 to 12. As the list
   * validator reports: a list longer than 12 gives only the too-long error;
   * otherwise the members' own errors, if any; otherwise a too-short error
   * when the list is empty.
   */
  function CrewFieldErrors(crew: Option<seq<MemberInput>>): (r: seq<Error>)
    ensures r == [] <==> crew.Some? && 1 <= |crew.value| <= 12 &&
                         forall k :: 0 <= k < |crew.value| ==> MemberFieldErrors(crew.value[k]) == []
    ensures AllAt(r, "crew")
    ensures crew.None? ==> r == [FieldError([Key("crew")], Missing)]
    ensures crew.Some? && 12 < |crew.value| ==> r == [FieldError([Key("crew")], ListTooLong(12))]
    ensures crew.Some? && crew.value == [] ==> r == [FieldError([Key("crew")], ListTooShort(1))]
    ensures crew.Some? && |crew.value| <= 12 ==> r == CrewItemErrors(crew.value) || crew.value == []
  {
    if crew.None? then [FieldError([Key("crew")], Missing)]
    else if 12 < |crew.value| then [FieldError([Key("crew")], ListTooLong(12))]
    else
      var items := CrewItemErrors(crew.value);
      CrewItemErrorsLocated(crew.value);
      if items != [] then items
      else if |crew.value| < 1 then [FieldError([Key("crew")], ListTooShort(1))]
      else []
  }

  // ---------------------------------------------------------------------------
  // Mission fields
  // ---------------------------------------------------------------------------

  const MissionFields: seq<string> :=
    ["mission_id", "mission_name", "destination", "launch_date", "duration_days", "crew",
     "mission_status", "budget_millions"]

  /** Every field of a mission satisfies its declared bounds, and so does every member of its crew. */
  predicate MissionFieldsValid(m: SpaceMission) {
    && 5 <= |m.missionId| <= 15
    && 3 <= |m.missionName| <= 100
    && 3 <= |m.destination| <= 50
    && 1 <= m.durationDays <= 3650
    && 1 <= |m.crew| <= 12
    && (forall k :: 0 <= k < |m.crew| ==> MemberFieldsValid(m.crew[k]))
    && 1.0 <= m.budgetMillions <= 10000.0
  }

  predicate MissionComplete(i: MissionInput) {
    && i.missionId.Some? && i.missionName.Some? && i.destination.Some? && i.launchDate.Some?
    && i.durationDays.Some? && i.crew.Some? && i.budgetMillions.Some?
    && forall k :: 0 <= k < |i.crew.value| ==> MemberComplete(i.crew.value[k])
  }

  /** The mission built from complete input, member by member; `mission_status` defaults to "planned". */
  function BuildMission(i: MissionInput): (m: SpaceMission)
    requires MissionComplete(i)
    ensures m.missionId == i.missionId.value && m.missionName == i.missionName.value
    ensures m.destination == i.destination.value && m.launchDate == i.launchDate.value
    ensures m.durationDays == i.durationDays.value && m.budgetMillions == i.budgetMillions.value
    ensures |m.crew| == |i.crew.value|
    ensures forall k :: 0 <= k < |m.crew| ==> m.crew[k] == BuildMember(i.crew.value[k])
    ensures m.missionStatus == (if i.missionStatus.Some? then i.missionStatus.value else "planned")
  {
    var c := i.crew.value;
    SpaceMission(i.missionId.value, i.missionName.value, i.destination.value, i.launchDate.value,
                 i.durationDays.value, seq(|c|, k requires 0 <= k < |c| => BuildMember(c[k])),
                 WithDefault(i.missionStatus, "planned"), i.budgetMillions.value)
  }

  function MissionChecks(i: MissionInput): seq<seq<Error>> {
    [ RequiredString("mission_id", i.missionId, 5, 15),
      RequiredString("mission_name", i.missionName, 3, 100),
      RequiredString("destination", i.destination, 3, 50),
      RequiredField("launch_date", i.launchDate),
      RequiredInt("duration_days", i.durationDays, 1, 3650),
      CrewFieldErrors(i.crew),
      [],
      RequiredReal("budget_millions", i.budgetMillions, 1.0, 10000.0) ]
  }

  /** The mission's own scalar fields are supplied and within bounds. */
  ghost predicate ScalarFieldsPass(i: MissionInput) {
    && i.missionId.Some? && 5 <= |i.missionId.value| <= 15
    && i.missionName.Some? && 3 <= |i.missionName.value| <= 100
    && i.destination.Some? && 3 <= |i.destination.value| <= 50
    && i.launchDate.Some?
    && i.durationDays.Some? && 1 <= i.durationDays.value <= 3650
    && i.budgetMillions.Some? && 1.0 <= i.budgetMillions.value <= 10000.0
  }

  /** The crew list is supplied, of length 1 to 12, and every member passes its own checks. */
  ghost predicate CrewFieldPasses(i: MissionInput) {
    i.crew.Some? && 1 <= |i.crew.value| <= 12 &&
    forall k :: 0 <= k < |i.crew.value| ==> MemberFieldErrors(i.crew.value[k]) == []
  }

  lemma MissionChecksEmpty(i: MissionInput)
    ensures (forall k :: 0 <= k < |MissionChecks(i)| ==> MissionChecks(i)[k] == []) <==>
            MissionComplete(i) && MissionFieldsValid(BuildMission(i))
  {
    MissionChecksEmptyParts(i);
    MissionPartsValid(i);
  }

  lemma MissionChecksEmptyParts(i: MissionInput)
    ensures (forall k :: 0 <= k < |MissionChecks(i)| ==> MissionChecks(i)[k] == []) <==>
            ScalarFieldsPass(i) && CrewFieldPasses(i)
  {
    MissionScalarChecks(i);
    var c := MissionChecks(i);
    assert c[5] == CrewFieldErrors(i.crew);
    assert c[6] == [];
  }

  /** The checks of the mission's own scalar fields pass exactly when those fields are supplied and in bounds. */
  lemma MissionScalarChecks(i: MissionInput)
    ensures (MissionChecks(i)[0] == [] && MissionChecks(i)[1] == [] && MissionChecks(i)[2] == [] &&
             MissionChecks(i)[3] == [] && MissionChecks(i)[4] == [] && MissionChecks(i)[7] == []) <==>
            ScalarFieldsPass(i)
  {
    var c := MissionChecks(i);
    assert c[0] == RequiredString("mission_id", i.missionId, 5, 15);
    assert c[1] == RequiredString("mission_name", i.missionName, 3, 100);
    assert c[2] == RequiredString("destination", i.destination, 3, 50);
    assert c[3] == RequiredField("launch_date", i.launchDate);
    assert c[4] == RequiredInt("duration_days", i.durationDays, 1, 3650);
    assert c[7] == RequiredReal("budget_millions", i.budgetMillions, 1.0, 10000.0);
  }

  lemma MissionPartsValid(i: MissionInput)
    ensures ScalarFieldsPass(i) && CrewFieldPasses(i) <==> MissionComplete(i) && MissionFieldsValid(BuildMission(i))
  {
    if ScalarFieldsPass(i) && CrewFieldPasses(i) {
      var crew := i.crew.value;
      assert forall k :: 0 <= k < |crew| ==> MemberComplete(crew[k]) && MemberFieldsValid(BuildMember(crew[k]));
      assert MissionComplete(i);
      MissionValidFromParts(i);
    }
    if MissionComplete(i) && MissionFieldsValid(BuildMission(i)) {
      var m, crew := BuildMission(i), i.crew.value;
      forall k | 0 <= k < |crew| ensures MemberFieldErrors(crew[k]) == [] {
        assert m.crew[k] == BuildMember(crew[k]);
        assert MemberFieldsValid(m.crew[k]);
      }
    }
  }

  lemma MissionValidFromParts(i: MissionInput)
    requires MissionComplete(i)
    requires 5 <= |i.missionId.value| <= 15 && 3 <= |i.missionName.value| <= 100 && 3 <= |i.destination.value| <= 50
    requires 1 <= i.durationDays.value <= 3650 && 1.0 <= i.budgetMillions.value <= 10000.0
    requires 1 <= |i.crew.value| <= 12
    requires forall k :: 0 <= k < |i.crew.value| ==> MemberFieldsValid(BuildMember(i.crew.value[k]))
    ensures MissionFieldsValid(BuildMission(i))
  {
  }

  lemma MissionFieldsDistinct()
    ensures Distinct(MissionFields)
  {
    assert MissionFields[2][0] != MissionFields[3][0];
  }

  lemma MissionChecksFollowFields(i: MissionInput)
    ensures |MissionChecks(i)| == |MissionFields| && Distinct(MissionFields)
    ensures forall k :: 0 <= k < |MissionFields| ==> AllAt(MissionChecks(i)[k], MissionFields[k])
  {
    MissionFieldsDistinct();
    var c := MissionChecks(i);
    forall k | 0 <= k < |MissionFields|
      ensures AllAt(c[k], MissionFields[k])
    {
      if k == 0 { assert c[0] == RequiredString("mission_id", i.missionId, 5, 15); RequiredStringOnField("mission_id", i.missionId, 5, 15); }
      else if k == 1 { assert c[1] == RequiredString("mission_name", i.missionName, 3, 100); RequiredStringOnField("mission_name", i.missionName, 3, 100); }
      else if k == 2 { assert c[2] == RequiredString("destination", i.destination, 3, 50); RequiredStringOnField("destination", i.destination, 3, 50); }
      else if k == 3 { assert c[3] == RequiredField("launch_date", i.launchDate); RequiredFieldOnField("launch_date", i.launchDate); }
      else if k == 4 { assert c[4] == RequiredInt("duration_days", i.durationDays, 1, 3650); RequiredIntOnField("duration_days", i.durationDays, 1, 3650); }
      else if k == 5 { assert c[5] == CrewFieldErrors(i.crew); }
      else if k == 6 { assert c[6] == []; }
      else { assert c[7] == RequiredReal("budget_millions", i.budgetMillions, 1.0, 10000.0); RequiredRealOnField("budget_millions", i.budgetMillions, 1.0, 10000.0); }
    }
  }

  /**
   * Field phase of a mission, members included: no errors exactly when the
   * input is complete and the mission built from it is field-valid; errors
   * come in the order the fields are declared, a member's under `crew`.
   */
  function MissionFieldErrors(i: MissionInput): (errs: seq<Error>)
    ensures errs == [] <==> MissionComplete(i) && MissionFieldsValid(BuildMission(i))
  {
    MissionChecksEmpty(i);
    Flatten(MissionChecks(i))
  }

  /** The errors are in declaration order, each on a declared field. */
  lemma MissionFieldErrorsInOrder(i: MissionInput)
    ensures InDeclarationOrder(MissionFieldErrors(i), MissionFields)
    ensures forall e | e in MissionFieldErrors(i) :: e.FieldError? && FieldRank(e, MissionFields) < |MissionFields|
  {
    MissionChecksFollowFields(i);
    FlattenInDeclarationOrder(MissionChecks(i), MissionFields, 0);
  }

  // ---------------------------------------------------------------------------
  // Mission rules
  // ---------------------------------------------------------------------------

  const IdMessage := "Mission ID must start with \"M\""
  const LeaderMessage := "Must have at least one Commander or Captain"
  const ExperienceMessage := "Long missions (> 365 days) need 50% experienced crew (5+ years)"
  const ActiveMessage := "All crew members must be active"

  predicate IsLeader(r: Rank) { r == Captain || r == Commander }

  /** Number of members with at least 5 years of experience. */
  function Experienced(crew: seq<CrewMember>): (n: nat)
    ensures n <= |crew|
    ensures n == 0 <==> forall k :: 0 <= k < |crew| ==> crew[k].yearsExperience < 5
    ensures n == |crew| <==> forall k :: 0 <= k < |crew| ==> crew[k].yearsExperience >= 5
  {
    if crew == [] then 0
    else
      assert forall k :: 1 <= k < |crew| ==> crew[k] == crew[1..][k - 1];
      (if crew[0].yearsExperience >= 5 then 1 else 0) + Experienced(crew[1..])
  }

  /** The indices of the members with at least 5 years of experience. */
  ghost function ExperiencedIndices(crew: seq<CrewMember>): set<nat> {
    set k: nat | k < |crew| && crew[k].yearsExperience >= 5
  }

  /** The recursive count is the number of members the source's list comprehension keeps. */
  lemma {:induction false} ExperiencedCounts(crew: seq<CrewMember>)
    ensures Experienced(crew) == |ExperiencedIndices(crew)|
  {
    if crew != [] {
      var tail := crew[1..];
      ExperiencedCounts(tail);
      ShiftSize(ExperiencedIndices(tail));
      var head := ExperiencedHead(crew);
      var shifted := Shift(ExperiencedIndices(tail));
      ExperiencedIndicesSplit(crew);
      assert head * shifted == {};
      assert |head + shifted| == |head| + |shifted|;
    }
  }

  /** `{0}` when the first member is experienced, otherwise empty. */
  ghost function ExperiencedHead(crew: seq<CrewMember>): set<nat>
    requires crew != []
  {
    if crew[0].yearsExperience >= 5 then {0} else {}
  }

  /** The experienced indices are the first member's, if experienced, and the rest's moved up by one. */
  lemma ExperiencedIndicesSplit(crew: seq<CrewMember>)
    requires crew != []
    ensures ExperiencedIndices(crew) == ExperiencedHead(crew) + Shift(ExperiencedIndices(crew[1..]))
  {
    var tail := crew[1..];
    var shifted := Shift(ExperiencedIndices(tail));
    forall k: nat | k in ExperiencedIndices(crew) ensures k in ExperiencedHead(crew) + shifted {
      if k > 0 {
        assert tail[k - 1] == crew[k];
        assert (k - 1) in ExperiencedIndices(tail);
      }
    }
    forall k: nat | k in shifted ensures k in ExperiencedIndices(crew) {
      assert tail[k - 1] == crew[k];
    }
  }

  /** Every index moved up by one. */
  ghost function Shift(s: set<nat>): set<nat> {
    set k: nat | k in s :: k + 1
  }

  lemma {:induction false} ShiftSize(s: set<nat>)
    ensures |Shift(s)| == |s|
    decreases |s|
  {
    if s != {} {
      var x :| x in s;
      var rest := s - {x};
      ShiftSize(rest);
      assert Shift(s) == Shift(rest) + {x + 1} by {
        forall y: nat | y in Shift(s) ensures y in Shift(rest) + {x + 1} {
          assert y - 1 in s;
          if y != x + 1 {
            assert y - 1 in rest;
          }
        }
      }
      assert x + 1 !in Shift(rest);
    }
  }

  /** For a non-empty crew, the integer test equals the source's ratio test `experienced / total < 0.5`. */
  lemma ExperienceRatio(experienced: nat, total: nat)
    requires 0 < total
    ensures (experienced as real) / (total as real) < 0.5 <==> 2 * experienced < total
  {
    HalfRatio(experienced as real, total as real);
  }

  /** `e / t < 1/2` exactly when `2e < t`, for a positive `t`. */
  lemma HalfRatio(e: real, t: real)
    requires t > 0.0
    ensures e / t < 0.5 <==> 2.0 * e < t
  {
    var q := e / t;
    assert q * t == e;
    Distribute(0.5, q, t);
    PositiveFactor(0.5 - q, t);
  }

  lemma Distribute(a: real, b: real, c: real)
    ensures (a - b) * c == a * c - b * c
  {
  }

  /** With a positive factor `p`, the product `x * p` is positive exactly when `x` is. */
  lemma PositiveFactor(x: real, p: real)
    requires p > 0.0
    ensures x * p > 0.0 <==> x > 0.0
  {
    if x > 0.0 {
      assert x * p > 0.0;
    } else {
      assert (-x) * p >= 0.0;
    }
  }

  predicate MissionIdRule(m: SpaceMission) { StartsWith(m.missionId, "M") }
  predicate LeaderRule(m: SpaceMission) { exists k :: 0 <= k < |m.crew| && IsLeader(m.crew[k].rank) }
  predicate ExperienceRule(m: SpaceMission) { m.durationDays > 365 ==> !(2 * Experienced(m.crew) < |m.crew|) }
  predicate ActiveRule(m: SpaceMission) { forall k :: 0 <= k < |m.crew| ==> m.crew[k].isActive }

  predicate MissionRulesHold(m: SpaceMission) {
    MissionIdRule(m) && LeaderRule(m) && ExperienceRule(m) && ActiveRule(m)
  }

  /**
   * The guard clauses of the mission, in source order. A rule's message is
   * reported exactly when every earlier rule holds and that rule fails.
   */
  function MissionRules(m: SpaceMission): (r: Outcome)
    ensures r == Pass <==> MissionRulesHold(m)
    ensures r == Fail(IdMessage) <==> !MissionIdRule(m)
    ensures r == Fail(LeaderMessage) <==> MissionIdRule(m) && !LeaderRule(m)
    ensures r == Fail(ExperienceMessage) <==> MissionIdRule(m) && LeaderRule(m) && !ExperienceRule(m)
    ensures r == Fail(ActiveMessage) <==> MissionIdRule(m) && LeaderRule(m) && ExperienceRule(m) && !ActiveRule(m)
  {
    if !StartsWith(m.missionId, "M") then Fail(IdMessage)
    else if !(exists k :: 0 <= k < |m.crew| && IsLeader(m.crew[k].rank)) then Fail(LeaderMessage)
    else if m.durationDays > 365 && 2 * Experienced(m.crew) < |m.crew| then Fail(ExperienceMessage)
    else if !(forall k :: 0 <= k < |m.crew| ==> m.crew[k].isActive) then Fail(ActiveMessage)
    else Pass
  }

  function MissionRuleTable(m: SpaceMission): seq<Rule> {
    [ Rule(MissionIdRule(m), IdMessage), Rule(LeaderRule(m), LeaderMessage),
      Rule(ExperienceRule(m), ExperienceMessage), Rule(ActiveRule(m), ActiveMessage) ]
  }

  /** The guard-clause chain agrees with first-failure evaluation of the rule table. */
  lemma MissionRulesAreFirstFailure(m: SpaceMission)
    ensures MissionRules(m) == FirstFailure(MissionRuleTable(m))
  {
    var t := MissionRuleTable(m);
    if !MissionIdRule(m) {
      FirstFailureAt(t, 0);
    } else if !LeaderRule(m) {
      FirstFailureAt(t, 1);
    } else if !ExperienceRule(m) {
      FirstFailureAt(t, 2);
    } else if !ActiveRule(m) {
      FirstFailureAt(t, 3);
    }
  }

  /**
   * Validation of a mission: field errors (members included) when any field
   * fails, the rules then not run; otherwise the first failing rule's message
   * alone; otherwise the mission, which then satisfies every field bound,
   * every member's bounds and all four rules.
   */
  function ValidateMission(i: MissionInput): (r: Report<SpaceMission>)
    ensures r.Accepted? <==> MissionComplete(i) && MissionFieldsValid(BuildMission(i)) && MissionRulesHold(BuildMission(i))
    ensures r.Accepted? ==> r.value == BuildMission(i) && MissionFieldsValid(r.value) && MissionRulesHold(r.value)
    ensures MissionFieldErrors(i) != [] ==> r == Rejected(MissionFieldErrors(i))
    ensures MissionFieldErrors(i) == [] && r.Rejected? ==>
              r.errors == [RuleViolation(MissionRules(BuildMission(i)).message)]
    ensures r.Rejected? ==> |r.errors| > 0
  {
    var errs := MissionFieldErrors(i);
    if errs != [] then Rejected(errs)
    else
      var m := BuildMission(i);
      match MissionRules(m)
      case Pass => Accepted(m)
      case Fail(msg) => Rejected([RuleViolation(msg)])
  }

  /** Members given without `is_active` are active, so such a crew satisfies the all-active rule. */
  lemma OmittedActiveSatisfiesRule(i: MissionInput)
    requires MissionComplete(i)
    requires forall k :: 0 <= k < |i.crew.value| ==> i.crew.value[k].isActive.None?
    ensures ActiveRule(BuildMission(i))
  {
  }

  /**
   * On a long mission the experience rule passes at exactly half the crew
   * experienced and fails below half.
   */
  lemma ExperienceBoundary(m: SpaceMission)
    requires m.durationDays > 365
    ensures 2 * Experienced(m.crew) == |m.crew| ==> ExperienceRule(m)
    ensures 2 * Experienced(m.crew) < |m.crew| ==> !ExperienceRule(m)
  {
  }

  /**
   * For a non-empty crew the experience rule is the source's test: a long
   * mission is refused when `experienced / total < 0.5`.
   */
  lemma ExperienceRuleIsRatio(m: SpaceMission)
    requires |m.crew| > 0
    ensures ExperienceRule(m) <==>
            (m.durationDays > 365 ==> !((Experienced(m.crew) as real) / (|m.crew| as real) < 0.5))
  {
    ExperienceRatio(Experienced(m.crew), |m.crew|);
  }

  /** The experience rule does not apply to missions of at most 365 days. */
  lemma ShortMissionNoExperienceRule(m: SpaceMission)
    requires m.durationDays <= 365
    ensures ExperienceRule(m)
  {
  }

  /** Omitting `mission_status` is the same as supplying its default "planned". */
  lemma StatusDefault(i: MissionInput)
    requires i.missionStatus.None?
    ensures ValidateMission(i) == ValidateMission(i.(missionStatus := Some("planned")))
    ensures ValidateMission(i).Accepted? ==> ValidateMission(i).value.missionStatus == "planned"
  {
    var j := i.(missionStatus := Some("planned"));
    assert MissionChecks(i) == MissionChecks(j);
    if MissionComplete(i) {
      assert BuildMission(i) == BuildMission(j);
    }
  }

  // ---------------------------------------------------------------------------
  // The demonstration mission
  // ---------------------------------------------------------------------------

  function Sarah(rank: Rank): MemberInput {
    MemberInput(Some("CREW_001"), Some("Sarah Connor"), Some(rank), Some(32), Some("Mission Command"), Some(12), None)
  }

  const John := MemberInput(Some("CREW_002"), Some("John Smith"), Some(Lieutenant), Some(26), Some("Navigation"), Some(3), None)
  const Alice := MemberInput(Some("CREW_003"), Some("Alice Johnson "), Some(Officer), Some(27), Some("Engineering"), Some(6), None)

  function MarsMission(crew: seq<MemberInput>): MissionInput {
    MissionInput(Some("M2024_MARS"), Some("Mars Colony Establishment"), Some("Mars"),
                 Some(DateTime("2026-01-27T12:09")), Some(900), Some(crew), None, Some(2500.0))
  }

  lemma SarahValid(rank: Rank)
    ensures MemberFieldErrors(Sarah(rank)) == []
  {
    assert |"CREW_001"| == 8 && |"Sarah Connor"| == 12 && |"Mission Command"| == 15;
  }

  lemma JohnValid()
    ensures MemberFieldErrors(John) == []
  {
    assert |"CREW_002"| == 8 && |"John Smith"| == 10 && |"Navigation"| == 10;
  }

  lemma AliceValid()
    ensures MemberFieldErrors(Alice) == []
  {
    assert |"CREW_003"| == 8 && |"Alice Johnson "| == 14 && |"Engineering"| == 11;
  }

  /** The three demonstration members pass their own checks, so the `crew` list passes. */
  lemma DemoCrewFieldPasses(rank: Rank)
    ensures CrewFieldErrors(Some([Sarah(rank), John, Alice])) == []
  {
    var c := [Sarah(rank), John, Alice];
    SarahValid(rank);
    JohnValid();
    AliceValid();
    forall k | 0 <= k < |c| ensures MemberFieldErrors(c[k]) == [] {
      assert k == 0 || k == 1 || k == 2;
    }
  }

  /** Whatever Sarah's rank, the demonstration mission passes the field phase. */
  lemma DemoCrewValid(rank: Rank)
    ensures MissionFieldErrors(MarsMission([Sarah(rank), John, Alice])) == []
  {
    var i := MarsMission([Sarah(rank), John, Alice]);
    DemoCrewFieldPasses(rank);
    assert |"M2024_MARS"| == 10 && |"Mars Colony Establishment"| == 25 && |"Mars"| == 4;
    assert ScalarFieldsPass(i);
    MissionChecksEmptyParts(i);
  }

  /** The demonstration crew as built: Sarah with the given rank, John and Alice, all active by default. */
  lemma DemoCrewBuilt(rank: Rank)
    ensures MissionComplete(MarsMission([Sarah(rank), John, Alice]))
    ensures BuildMission(MarsMission([Sarah(rank), John, Alice])).crew ==
            [BuildMember(Sarah(rank)), BuildMember(John), BuildMember(Alice)]
  {
    var m := BuildMission(MarsMission([Sarah(rank), John, Alice]));
    assert |m.crew| == 3;
  }

  /** Sarah (12 years) and Alice (6 years) are experienced, John (3 years) is not. */
  lemma DemoExperienced(rank: Rank)
    ensures Experienced(BuildMission(MarsMission([Sarah(rank), John, Alice])).crew) == 2
  {
    DemoCrewBuilt(rank);
    var s := BuildMission(MarsMission([Sarah(rank), John, Alice])).crew;
    assert s[1..] == [s[1], s[2]] && s[1..][1..] == [s[2]] && [s[2]][1..] == [];
    assert Experienced([s[2]]) == 1;
    assert Experienced(s[1..]) == 1;
  }

  /** Every member of the demonstration crew is active. */
  lemma DemoAllActive(rank: Rank)
    ensures ActiveRule(BuildMission(MarsMission([Sarah(rank), John, Alice])))
  {
    DemoCrewBuilt(rank);
    var s := BuildMission(MarsMission([Sarah(rank), John, Alice])).crew;
    assert s[0].isActive && s[1].isActive && s[2].isActive;
    forall k | 0 <= k < |s| ensures s[k].isActive {
      assert k == 0 || k == 1 || k == 2;
    }
  }

  /** The Mars mission led by Sarah as commander satisfies all four rules. */
  lemma DemoMarsRulesHold()
    ensures MissionRulesHold(BuildMission(MarsMission([Sarah(Commander), John, Alice])))
  {
    DemoCrewBuilt(Commander);
    DemoExperienced(Commander);
    DemoAllActive(Commander);
    var m := BuildMission(MarsMission([Sarah(Commander), John, Alice]));
    assert StartsWith("M2024_MARS", "M");
    assert IsLeader(m.crew[0].rank);
  }

  /** The 900-day Mars mission, 2 of its 3 members experienced and led by a commander, is accepted. */
  lemma DemoMarsAccepted()
    ensures ValidateMission(MarsMission([Sarah(Commander), John, Alice])).Accepted?
  {
    DemoCrewValid(Commander);
    DemoMarsRulesHold();
  }

  /** With Sarah a cadet nobody is a commander or captain, while the mission id still starts with "M". */
  lemma DemoCadetRules()
    ensures MissionIdRule(BuildMission(MarsMission([Sarah(Cadet), John, Alice])))
    ensures !LeaderRule(BuildMission(MarsMission([Sarah(Cadet), John, Alice])))
  {
    DemoCrewBuilt(Cadet);
    assert StartsWith("M2024_MARS", "M");
  }

  /** With Sarah's rank changed to CADET the same crew is re-checked and refused on the leader rule. */
  lemma DemoCadetRejected()
    ensures ValidateMission(MarsMission([Sarah(Cadet), John, Alice])) == Rejected([RuleViolation(LeaderMessage)])
  {
    DemoCrewValid(Cadet);
    DemoCadetRules();
  }
}
