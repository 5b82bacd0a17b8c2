/**
 * The record-validation mechanism shared by the three record types: field
 * paths, error entries, validation reports, the per-field checkers that
 * mirror `Field(...)` declarations, the declaration-order collection of
 * field errors, and the first-failure evaluation of cross-field rules.
 */
module Validation {

  datatype Option<+T> = None | Some(value: T)

  /** One step of a field path: a field name or a list index, as in `crew[1].age`. */
  datatype PathSeg = Key(name: string) | Index(i: nat)

  /** Why a field was refused. Bounds are those of the field's declaration. */
  datatype Reason =
    | Missing
    | StringTooShort(minLength: nat)
    | StringTooLong(maxLength: nat)
    | BelowMinimum
    | AboveMaximum
    | ListTooShort(minLength: nat)
    | ListTooLong(maxLength: nat)

  /** A field-scoped failure, or the message of a failed cross-field rule (reported at the record's root). */
  datatype Error =
    | FieldError(loc: seq<PathSeg>, reason: Reason)
    | RuleViolation(message: string)

  /** Either the constructed record, or the errors that prevented its construction. */
  datatype Report<+T> = Accepted(value: T) | Rejected(errors: seq<Error>)

  /** The result of a chain of cross-field rules. */
  datatype Outcome = Pass | Fail(message: string)

  /** A point in time (`datetime`), taken as already parsed from its ISO text. */
  datatype DateTime = DateTime(iso: string)

  /** Python's `str.startswith`. */
  predicate StartsWith(s: string, prefix: string) {
    |prefix| <= |s| && s[..|prefix|] == prefix
  }

  // ---------------------------------------------------------------------------
  // Field checkers
  // ---------------------------------------------------------------------------

  /** Every error in `errs` is a field error on the field `name` (possibly below it). */
  ghost predicate AllAt(errs: seq<Error>, name: string) {
    forall e | e in errs :: e.FieldError? && |e.loc| > 0 && e.loc[0] == Key(name)
  }

  /** At most one error, on the field itself, exactly when `reason` says the value is refused. */
  function Located(name: string, reason: Option<Reason>): seq<Error>
  {
    if reason.Some? then [FieldError([Key(name)], reason.value)] else []
  }

  /** `Field(min_length=minLen, max_length=maxLen)` on a `str`: the shorter bound is tested first. */
  function LengthReason(s: string, minLen: nat, maxLen: nat): (r: Option<Reason>)
    ensures r == None <==> minLen <= |s| <= maxLen
    ensures |s| < minLen ==> r == Some(StringTooShort(minLen))
    ensures minLen <= |s| && maxLen < |s| ==> r == Some(StringTooLong(maxLen))
  {
    if |s| < minLen then Some(StringTooShort(minLen))
    else if maxLen < |s| then Some(StringTooLong(maxLen))
    else None
  }

  /** `Field(ge=lo, le=hi)` on a `float`, modelled as a real number. */
  function RealReason(x: real, lo: real, hi: real): (r: Option<Reason>)
    ensures r == None <==> lo <= x <= hi
    ensures x < lo ==> r == Some(BelowMinimum)
    ensures lo <= x && hi < x ==> r == Some(AboveMaximum)
  {
    if x < lo then Some(BelowMinimum)
    else if hi < x then Some(AboveMaximum)
    else None
  }

  /** `Field(ge=lo, le=hi)` on an `int`: the same test, integers being exact reals. */
  function IntReason(x: int, lo: int, hi: int): (r: Option<Reason>)
    ensures r == None <==> lo <= x <= hi
    ensures x < lo ==> r == Some(BelowMinimum)
    ensures lo <= x && hi < x ==> r == Some(AboveMaximum)
  {
    RealReason(x as real, lo as real, hi as real)
  }

  /** A required field with no constraint beyond its type (a timestamp, an enumeration). */
  function RequiredField<T>(name: string, v: Option<T>): (errs: seq<Error>)
    ensures errs == [] <==> v.Some?
    ensures v.None? ==> errs == [FieldError([Key(name)], Missing)]
  {
    if v.None? then [FieldError([Key(name)], Missing)] else []
  }

  /** A required `str` field with inclusive length bounds. */
  function RequiredString(name: string, v: Option<string>, minLen: nat, maxLen: nat): (errs: seq<Error>)
    ensures errs == [] <==> v.Some? && minLen <= |v.value| <= maxLen
    ensures v.None? ==> errs == [FieldError([Key(name)], Missing)]
    ensures v.Some? && |v.value| < minLen ==> errs == [FieldError([Key(name)], StringTooShort(minLen))]
    ensures v.Some? && minLen <= |v.value| && maxLen < |v.value| ==>
              errs == [FieldError([Key(name)], StringTooLong(maxLen))]
  {
    if v.None? then [FieldError([Key(name)], Missing)]
    else Located(name, LengthReason(v.value, minLen, maxLen))
  }

  /** An `Optional[str]` field defaulting to None with a maximum length: None is always accepted. */
  function OptionalString(name: string, v: Option<string>, maxLen: nat): (errs: seq<Error>)
    ensures errs == [] <==> (v.Some? ==> |v.value| <= maxLen)
    ensures v.Some? && maxLen < |v.value| ==> errs == [FieldError([Key(name)], StringTooLong(maxLen))]
  {
    if v.None? then [] else Located(name, LengthReason(v.value, 0, maxLen))
  }

  /** A required `int` field with inclusive bounds. */
  function RequiredInt(name: string, v: Option<int>, lo: int, hi: int): (errs: seq<Error>)
    ensures errs == [] <==> v.Some? && lo <= v.value <= hi
    ensures v.None? ==> errs == [FieldError([Key(name)], Missing)]
    ensures v.Some? && v.value < lo ==> errs == [FieldError([Key(name)], BelowMinimum)]
    ensures v.Some? && lo <= v.value && hi < v.value ==> errs == [FieldError([Key(name)], AboveMaximum)]
  {
    if v.None? then [FieldError([Key(name)], Missing)]
    else Located(name, IntReason(v.value, lo, hi))
  }

  /** A required `float` field with inclusive bounds. */
  function RequiredReal(name: string, v: Option<real>, lo: real, hi: real): (errs: seq<Error>)
    ensures errs == [] <==> v.Some? && lo <= v.value <= hi
    ensures v.None? ==> errs == [FieldError([Key(name)], Missing)]
    ensures v.Some? && v.value < lo ==> errs == [FieldError([Key(name)], BelowMinimum)]
    ensures v.Some? && lo <= v.value && hi < v.value ==> errs == [FieldError([Key(name)], AboveMaximum)]
  {
    if v.None? then [FieldError([Key(name)], Missing)]
    else Located(name, RealReason(v.value, lo, hi))
  }

  /** A check of one field reports at most one error, and only on that field. */
  ghost predicate OnField(errs: seq<Error>, name: string) {
    |errs| <= 1 && AllAt(errs, name)
  }

  lemma RequiredFieldOnField<T>(name: string, v: Option<T>)
    ensures OnField(RequiredField(name, v), name)
  {
  }

  lemma RequiredStringOnField(name: string, v: Option<string>, minLen: nat, maxLen: nat)
    ensures OnField(RequiredString(name, v, minLen, maxLen), name)
  {
  }

  lemma OptionalStringOnField(name: string, v: Option<string>, maxLen: nat)
    ensures OnField(OptionalString(name, v, maxLen), name)
  {
  }

  lemma RequiredIntOnField(name: string, v: Option<int>, lo: int, hi: int)
    ensures OnField(RequiredInt(name, v, lo, hi), name)
  {
  }

  lemma RequiredRealOnField(name: string, v: Option<real>, lo: real, hi: real)
    ensures OnField(RequiredReal(name, v, lo, hi), name)
  {
  }

  /** The value of a field that has a default, after the default is substituted for an absent value. */
  function WithDefault<T>(v: Option<T>, default: T): T
  {
    if v.Some? then v.value else default
  }

  // ---------------------------------------------------------------------------
  // Nesting: errors of a record inside a list field
  // ---------------------------------------------------------------------------

  /** An error of a nested record, re-addressed from the parent: `prefix` is put in front of its path. */
  function Under(prefix: seq<PathSeg>, e: Error): Error {
    match e
    case FieldError(loc, reason) => FieldError(prefix + loc, reason)
    case RuleViolation(m) => RuleViolation(m)
  }

  /** The errors of element `i` of the list field `name`, each addressed as `name[i]....`. */
  function Nest(name: string, i: nat, errs: seq<Error>): (r: seq<Error>)
    ensures |r| == |errs|
    ensures forall k :: 0 <= k < |r| && errs[k].FieldError? ==>
              r[k] == FieldError([Key(name), Index(i)] + errs[k].loc, errs[k].reason)
    ensures forall k :: 0 <= k < |r| && errs[k].RuleViolation? ==> r[k] == errs[k]
  {
    seq(|errs|, k requires 0 <= k < |errs| => Under([Key(name), Index(i)], errs[k]))
  }

  /** Every nested error is under `name[i]`, with the child's own path and reason after it, and none is lost. */
  lemma NestLocated(name: string, i: nat, errs: seq<Error>)
    requires forall e | e in errs :: e.FieldError? && |e.loc| > 0
    ensures forall e | e in Nest(name, i, errs) ::
              e.FieldError? && |e.loc| > 2 && e.loc[0] == Key(name) && e.loc[1] == Index(i) &&
              FieldError(e.loc[2..], e.reason) in errs
    ensures forall e | e in errs :: Under([Key(name), Index(i)], e) in Nest(name, i, errs)
  {
    var r := Nest(name, i, errs);
    forall e | e in r
      ensures e.FieldError? && |e.loc| > 2 && e.loc[0] == Key(name) && e.loc[1] == Index(i) &&
              FieldError(e.loc[2..], e.reason) in errs
    {
      var k :| 0 <= k < |r| && r[k] == e;
      assert errs[k] in errs;
      assert FieldError(e.loc[2..], e.reason) == errs[k];
    }
    forall e | e in errs ensures Under([Key(name), Index(i)], e) in r {
      var k :| 0 <= k < |errs| && errs[k] == e;
      assert r[k] == Under([Key(name), Index(i)], e);
    }
  }

  // ---------------------------------------------------------------------------
  // Declaration order of field errors
  // ---------------------------------------------------------------------------

  /** The concatenation of per-field error lists, in the order given. */
  function Flatten(chunks: seq<seq<Error>>): (r: seq<Error>)
    ensures r == [] <==> forall k :: 0 <= k < |chunks| ==> chunks[k] == []
  {
    if chunks == [] then [] else chunks[0] + Flatten(chunks[1..])
  }

  /** The number of checks that report at least one error. */
  function Failing(chunks: seq<seq<Error>>): (n: nat)
    ensures n <= |chunks|
    ensures n == 0 <==> forall k :: 0 <= k < |chunks| ==> chunks[k] == []
  {
    if chunks == [] then 0 else (if chunks[0] == [] then 0 else 1) + Failing(chunks[1..])
  }

  /** When no check reports more than one error, there is one error per failing check. */
  lemma {:induction false} FlattenCount(chunks: seq<seq<Error>>)
    requires forall k :: 0 <= k < |chunks| ==> |chunks[k]| <= 1
    ensures |Flatten(chunks)| == Failing(chunks)
  {
    if chunks != [] {
      FlattenCount(chunks[1..]);
    }
  }

  /** An error of one field's check is among the collected errors. */
  lemma {:induction false} InFlatten(chunks: seq<seq<Error>>, k: nat, e: Error)
    requires k < |chunks| && e in chunks[k]
    ensures e in Flatten(chunks)
  {
    if k > 0 {
      InFlatten(chunks[1..], k - 1, e);
    }
  }

  /** Every collected error comes from one of the checks. */
  lemma {:induction false} InFlattenChunk(chunks: seq<seq<Error>>, e: Error) returns (k: nat)
    requires e in Flatten(chunks)
    ensures k < |chunks| && e in chunks[k]
  {
    if e in chunks[0] {
      k := 0;
    } else {
      var j := InFlattenChunk(chunks[1..], e);
      k := j + 1;
    }
  }

  ghost predicate Distinct(fields: seq<string>) {
    forall i, j :: 0 <= i < j < |fields| ==> fields[i] != fields[j]
  }

  /** Position of `name` among the declared fields, or `|fields|` when it is not declared. */
  function IndexOf(fields: seq<string>, name: string): (k: nat)
    ensures k <= |fields|
    ensures k < |fields| ==> fields[k] == name
    ensures forall j :: 0 <= j < k ==> fields[j] != name
  {
    if fields == [] then 0
    else if fields[0] == name then 0
    else 1 + IndexOf(fields[1..], name)
  }

  /** The declaration position of the field an error is about; `|fields|` for any other error. */
  function FieldRank(e: Error, fields: seq<string>): nat {
    if e.FieldError? && |e.loc| > 0 && e.loc[0].Key? then IndexOf(fields, e.loc[0].name) else |fields|
  }

  /** Errors are listed in the order in which their fields are declared. */
  ghost predicate InDeclarationOrder(errs: seq<Error>, fields: seq<string>) {
    forall i, j :: 0 <= i < j < |errs| ==> FieldRank(errs[i], fields) <= FieldRank(errs[j], fields)
  }

  lemma IndexOfDistinct(fields: seq<string>, k: nat)
    requires Distinct(fields) && k < |fields|
    ensures IndexOf(fields, fields[k]) == k
  {
  }

  /**
   * When chunk `k` holds only errors on field `fields[start + k]` and the field
   * names are distinct, the flattened errors are in declaration order and are
   * all on fields `start .. start + |chunks| - 1`.
   */
  lemma {:induction false} FlattenInDeclarationOrder(chunks: seq<seq<Error>>, fields: seq<string>, start: nat)
    requires Distinct(fields)
    requires start + |chunks| <= |fields|
    requires forall k :: 0 <= k < |chunks| ==> AllAt(chunks[k], fields[start + k])
    ensures forall e | e in Flatten(chunks) :: start <= FieldRank(e, fields) < start + |chunks|
    ensures InDeclarationOrder(Flatten(chunks), fields)
  {
    if chunks != [] {
      var head, tail := chunks[0], Flatten(chunks[1..]);
      FlattenInDeclarationOrder(chunks[1..], fields, start + 1);
      IndexOfDistinct(fields, start);
      assert AllAt(head, fields[start]);
      assert forall e | e in head :: FieldRank(e, fields) == start;
      var all := head + tail;
      assert Flatten(chunks) == all;
      forall i, j | 0 <= i < j < |all|
        ensures FieldRank(all[i], fields) <= FieldRank(all[j], fields)
      {
        if j < |head| {
          assert all[i] in head && all[j] in head;
        } else if i < |head| {
          assert all[i] in head;
          assert all[j] == tail[j - |head|] && all[j] in tail;
        } else {
          assert all[i] == tail[i - |head|] && all[j] == tail[j - |head|];
        }
      }
      forall e | e in all
        ensures start <= FieldRank(e, fields) < start + |chunks|
      {
        if e !in head {
          assert e in tail;
        }
      }
    }
  }

  /** Check `k` reports only on field `k`, at most once, and the field names are distinct. */
  ghost predicate OnFields(chunks: seq<seq<Error>>, fields: seq<string>) {
    |chunks| == |fields| && Distinct(fields) &&
    forall k :: 0 <= k < |fields| ==> OnField(chunks[k], fields[k])
  }

  /**
   * Collected errors of checks that each report on their own field: in
   * declaration order, each on a declared field, one per failing check.
   */
  lemma CollectedOnFields(chunks: seq<seq<Error>>, fields: seq<string>)
    requires OnFields(chunks, fields)
    ensures InDeclarationOrder(Flatten(chunks), fields)
    ensures forall e | e in Flatten(chunks) :: e.FieldError? && FieldRank(e, fields) < |fields|
    ensures |Flatten(chunks)| == Failing(chunks) <= |fields|
  {
    FlattenInDeclarationOrder(chunks, fields, 0);
    FlattenCount(chunks);
  }

  // ---------------------------------------------------------------------------
  // Cross-field rules: sequential guard clauses
  // ---------------------------------------------------------------------------

  /** One guard clause: whether the rule holds, and the message raised when it does not. */
  datatype Rule = Rule(holds: bool, message: string)

  /**
   * Runs the rules in order and stops at the first one that fails.
   * Reference definition for the guard-clause chains of the record types.
   */
  function FirstFailure(rules: seq<Rule>): (r: Outcome)
    ensures r == Pass <==> forall k :: 0 <= k < |rules| ==> rules[k].holds
    ensures r.Fail? ==> exists k :: 0 <= k < |rules| && !rules[k].holds && r.message == rules[k].message &&
                                    forall j :: 0 <= j < k ==> rules[j].holds
  {
    if rules == [] then Pass
    else if !rules[0].holds then Fail(rules[0].message)
    else
      var rest := FirstFailure(rules[1..]);
      assert rest.Fail? ==> exists k :: 1 <= k < |rules| && !rules[k].holds && rest.message == rules[k].message &&
                                        forall j :: 0 <= j < k ==> rules[j].holds by {
        if rest.Fail? {
          var k' :| 0 <= k' < |rules| - 1 && !rules[1..][k'].holds && rest.message == rules[1..][k'].message &&
                    forall j :: 0 <= j < k' ==> rules[1..][j].holds;
          assert forall j :: 1 <= j < k' + 1 ==> rules[j].holds by {
            forall j | 1 <= j < k' + 1 ensures rules[j].holds { assert rules[j] == rules[1..][j - 1]; }
          }
          assert !rules[k' + 1].holds && rest.message == rules[k' + 1].message;
        }
      }
      rest
  }

  /** The first failing rule is unique: rule `k` fails and all before it hold. */
  lemma FirstFailureAt(rules: seq<Rule>, k: nat)
    requires k < |rules| && !rules[k].holds
    requires forall j :: 0 <= j < k ==> rules[j].holds
    ensures FirstFailure(rules) == Fail(rules[k].message)
  {
    var r := FirstFailure(rules);
    assert r.Fail?;
    var k' :| 0 <= k' < |rules| && !rules[k'].holds && r.message == rules[k'].message &&
              forall j :: 0 <= j < k' ==> rules[j].holds;
  }
}
