/** The auth-filter evaluator against the boolean meaning of a filter (ops.py). */
module AuthFilters {
  import opened Wrappers

  datatype Json = JNull | JBool(b: bool) | JNumber(n: int) | JString(s: string) | JList(items: seq<Json>) | JObject(text: string)

  /** A field's test: a plain value, or an operator object given as its items in order. */
  datatype Condition = Plain(value: Json) | Operators(ops: seq<(string, Json)>)

  datatype Field = Field(key: string, condition: Condition)

  /** The argument of `$or` or `$and`. */
  datatype Groups = NotAList | GroupList(groups: seq<Filter>)

  /** A filter: `$or` and `$and` when present, and its other keys in order. */
  datatype Filter = Filter(anyOf: Option<Groups>, allOf: Option<Groups>, fields: seq<Field>)

  type Metadata = map<string, Json>

  datatype Error = TooDeep | BadOr | BadAnd | EmptyOperator

  predicate Falsy(f: Filter) { f.anyOf.None? && f.allOf.None? && |f.fields| == 0 }

  /** A list of at least two filters. */
  predicate WellFormed(g: Groups) { g.GroupList? && |g.groups| >= 2 }

  // ---- _validate_filter_structure -------------------------------------------------------------------

  function Validate(f: Filter, level: nat): Result<(), Error>
    decreases if level > 3 then 0 else 4 - level, 1
  {
    if level > 2 then Err(TooDeep)
    else if Falsy(f) then Ok(())
    else
      var first := ValidateOr(f, level);
      if first.Err? then first else ValidateAnd(f, level)
  }

  function ValidateOr(f: Filter, level: nat): Result<(), Error>
    requires level <= 2
    decreases 4 - level, 0
  {
    if f.anyOf.None? then Ok(())
    else if !WellFormed(f.anyOf.value) then Err(BadOr)
    else
      var groups := ValidateEach(f.anyOf.value.groups, level + 1);
      var rest := f.(anyOf := None);
      if groups.Err? || Falsy(rest) then groups else Validate(rest, level + 1)
  }

  function ValidateAnd(f: Filter, level: nat): Result<(), Error>
    requires level <= 2
    decreases 4 - level, 0
  {
    if f.allOf.None? then Ok(())
    else if !WellFormed(f.allOf.value) then Err(BadAnd)
    else
      var groups := ValidateEach(f.allOf.value.groups, level + 1);
      var rest := f.(allOf := None);
      if groups.Err? || Falsy(rest) then groups else Validate(rest, level + 1)
  }

  function ValidateEach(groups: seq<Filter>, level: nat): Result<(), Error>
    requires level <= 3
    decreases 4 - level, 2, |groups|
  {
    if |groups| == 0 then Ok(())
    else
      var first := Validate(groups[0], level);
      if first.Err? then first else ValidateEach(groups[1..], level)
  }

  // ---- _check_filter_match ---------------------------------------------------------------------------

  function Check(m: Metadata, f: Filter, level: nat): Result<bool, Error>
    decreases if level > 3 then 0 else 4 - level, 1
  {
    if level > 2 then Err(TooDeep)
    else if Falsy(f) then Ok(true)
    else if f.anyOf.Some? then
      if !WellFormed(f.anyOf.value) then Err(BadOr)
      else
        var valid := ValidateEach(f.anyOf.value.groups, level + 1);
        if valid.Err? then Err(valid.error)
        else
          var matched := CheckAny(m, f.anyOf.value.groups, level + 1);
          if matched.Err? || !matched.value then matched
          else CheckRest(m, f.(anyOf := None), level + 1)
    else if f.allOf.Some? then
      if !WellFormed(f.allOf.value) then Err(BadAnd)
      else
        var valid := ValidateEach(f.allOf.value.groups, level + 1);
        if valid.Err? then Err(valid.error)
        else
          var matched := CheckAll(m, f.allOf.value.groups, level + 1);
          if matched.Err? || !matched.value then matched
          else CheckRest(m, f.(allOf := None), level + 1)
    else CheckFields(m, f.fields)
  }

  /** The remaining keys, if there are any, one level down. */
  function CheckRest(m: Metadata, rest: Filter, level: nat): Result<bool, Error>
    requires level <= 3
    decreases 4 - level, 2
  {
    if Falsy(rest) then Ok(true) else Check(m, rest, level)
  }

  function CheckAny(m: Metadata, groups: seq<Filter>, level: nat): Result<bool, Error>
    requires level <= 3
    decreases 4 - level, 2, |groups|
  {
    if |groups| == 0 then Ok(false)
    else
      var first := Check(m, groups[0], level);
      if first.Err? || first.value then first else CheckAny(m, groups[1..], level)
  }

  function CheckAll(m: Metadata, groups: seq<Filter>, level: nat): Result<bool, Error>
    requires level <= 3
    decreases 4 - level, 2, |groups|
  {
    if |groups| == 0 then Ok(true)
    else
      var first := Check(m, groups[0], level);
      if first.Err? || !first.value then first else CheckAll(m, groups[1..], level)
  }

  /** The regular tests, in order, up to the first that fails. */
  function CheckFields(m: Metadata, fields: seq<Field>): Result<bool, Error> {
    if |fields| == 0 then Ok(true)
    else
      var first := CheckField(m, fields[0]);
      if first.Err? || !first.value then first else CheckFields(m, fields[1..])
  }

  /** One test; only the first operator of an object is looked at, and an unknown one passes. */
  function CheckField(m: Metadata, field: Field): Result<bool, Error> {
    match field.condition
    case Plain(value) => Ok(field.key in m && m[field.key] == value)
    case Operators(ops) =>
      if |ops| == 0 then Err(EmptyOperator)
      else if ops[0].0 == "$eq" then Ok(field.key in m && m[field.key] == ops[0].1)
      else if ops[0].0 == "$contains" then
        Ok(field.key in m && m[field.key].JList? && ContainsAll(m[field.key].items, ops[0].1))
      else Ok(true)
  }

  /** `$contains` with a list asks for every element, otherwise for the one value. */
  predicate ContainsAll(items: seq<Json>, wanted: Json) {
    if wanted.JList? then forall x :: x in wanted.items ==> x in items else wanted in items
  }

  // ---- The meaning of a filter --------------------------------------------------------------------------

  /** The boolean meaning: some `$or` group, all `$and` groups and all field tests hold. */
  ghost predicate Holds(m: Metadata, f: Filter) {
    && (f.anyOf.Some? && f.anyOf.value.GroupList? ==>
          exists i :: 0 <= i < |f.anyOf.value.groups| && Holds(m, f.anyOf.value.groups[i]))
    && (f.allOf.Some? && f.allOf.value.GroupList? ==>
          forall i :: 0 <= i < |f.allOf.value.groups| ==> Holds(m, f.allOf.value.groups[i]))
    && FieldsHold(m, f.fields)
  }

  ghost predicate FieldsHold(m: Metadata, fields: seq<Field>) {
    forall i :: 0 <= i < |fields| ==> FieldHolds(m, fields[i])
  }

  ghost predicate FieldHolds(m: Metadata, field: Field) {
    match field.condition
    case Plain(value) => field.key in m && m[field.key] == value
    case Operators(ops) =>
      |ops| > 0 &&
      (ops[0].0 == "$eq" ==> field.key in m && m[field.key] == ops[0].1) &&
      (ops[0].0 == "$contains" ==> field.key in m && m[field.key].JList? && Contained(ops[0].1, m[field.key].items))
  }

  /** What `$contains` asks of a list value: each element of a wanted list, or the one wanted value,
      is at some position of it. */
  ghost predicate Contained(wanted: Json, items: seq<Json>) {
    match wanted
    case JList(all) => forall j :: 0 <= j < |all| ==> exists i :: 0 <= i < |items| && items[i] == all[j]
    case _ => exists i :: 0 <= i < |items| && items[i] == wanted
  }

  lemma ContainsAllIsContained(items: seq<Json>, wanted: Json)
    ensures ContainsAll(items, wanted) <==> Contained(wanted, items)
  {
    if wanted.JList? {
      var all := wanted.items;
      assert forall x :: x in all ==> exists j :: 0 <= j < |all| && all[j] == x;
      assert forall j :: 0 <= j < |all| ==> all[j] in all;
    }
  }

  /** Every operator object, at any depth, has an operator. */
  ghost predicate OperatorsGiven(f: Filter) {
    && (forall i :: 0 <= i < |f.fields| ==> HasOperator(f.fields[i].condition))
    && (f.anyOf.Some? && f.anyOf.value.GroupList? ==>
          forall i :: 0 <= i < |f.anyOf.value.groups| ==> OperatorsGiven(f.anyOf.value.groups[i]))
    && (f.allOf.Some? && f.allOf.value.GroupList? ==>
          forall i :: 0 <= i < |f.allOf.value.groups| ==> OperatorsGiven(f.allOf.value.groups[i]))
  }

  predicate HasOperator(c: Condition) { c.Operators? ==> |c.ops| > 0 }

  // ---- Checking means what it should -------------------------------------------------------------------

  lemma CheckFieldMeansHolds(m: Metadata, field: Field)
    requires HasOperator(field.condition)
    ensures CheckField(m, field) == Ok(FieldHolds(m, field))
  {
    if field.condition.Operators? && field.key in m && m[field.key].JList? {
      ContainsAllIsContained(m[field.key].items, field.condition.ops[0].1);
    }
  }

  lemma OnlyField(m: Metadata, field: Field, level: nat)
    requires level <= 2
    ensures Check(m, Filter(None, None, [field]), level) == CheckField(m, field)
  {
    var fields := [field];
    assert fields[1..] == [] && CheckFields(m, fields[1..]) == Ok(true);
    assert CheckFields(m, fields) == CheckField(m, fields[0]);
    var f := Filter(None, None, fields);
    assert !Falsy(f) && f.fields == fields;
  }

  /** A lone `$contains` with a list passes exactly when the metadata has a list under the key with
      every wanted element in it; with any other value, when that value is in the list. */
  lemma CheckContains(m: Metadata, key: string, wanted: Json, level: nat)
    requires level <= 2
    ensures Check(m, Filter(None, None, [Field(key, Operators([("$contains", wanted)]))]), level)
      == Ok(key in m && m[key].JList?
            && if wanted.JList? then forall x :: x in wanted.items ==> x in m[key].items else wanted in m[key].items)
  {
    OnlyField(m, Field(key, Operators([("$contains", wanted)])), level);
  }

  lemma CheckEquals(m: Metadata, key: string, wanted: Json, level: nat)
    requires level <= 2
    ensures Check(m, Filter(None, None, [Field(key, Operators([("$eq", wanted)]))]), level) == Ok(key in m && m[key] == wanted)
    ensures Check(m, Filter(None, None, [Field(key, Plain(wanted))]), level) == Ok(key in m && m[key] == wanted)
  {
    OnlyField(m, Field(key, Operators([("$eq", wanted)])), level);
    OnlyField(m, Field(key, Plain(wanted)), level);
  }

  /** `$or` and `$and` need a list of two filters or more, and nesting ends at depth two; both the
      validation and the check refuse anything else. */
  lemma RefusedShapes(m: Metadata, f: Filter, level: nat)
    ensures level > 2 ==> Validate(f, level) == Err(TooDeep) && Check(m, f, level) == Err(TooDeep)
    ensures level <= 2 && f.anyOf.Some? && (f.anyOf.value.NotAList? || |f.anyOf.value.groups| < 2) ==>
      Validate(f, level) == Err(BadOr) && Check(m, f, level) == Err(BadOr)
    ensures level <= 2 && f.anyOf.None? && f.allOf.Some? && (f.allOf.value.NotAList? || |f.allOf.value.groups| < 2) ==>
      Validate(f, level) == Err(BadAnd) && Check(m, f, level) == Err(BadAnd)
  {
  }

  /** Lists of two or more filters, each valid one level down, are accepted. */
  lemma {:induction false} GroupsAccepted(groups: seq<Filter>, level: nat)
    requires level <= 2 && forall i :: 0 <= i < |groups| ==> Validate(groups[i], level + 1).Ok?
    ensures ValidateEach(groups, level + 1).Ok?
    ensures |groups| >= 2 ==>
      Validate(Filter(Some(GroupList(groups)), None, []), level).Ok? && Validate(Filter(None, Some(GroupList(groups)), []), level).Ok?
    decreases |groups|
  {
    if |groups| > 0 {
      assert forall i :: 0 <= i < |groups[1..]| ==> groups[1..][i] == groups[i + 1];
      GroupsAccepted(groups[1..], level);
    }
  }

  lemma {:induction false} CheckFieldsMeansHolds(m: Metadata, fields: seq<Field>)
    requires forall i :: 0 <= i < |fields| ==> HasOperator(fields[i].condition)
    ensures CheckFields(m, fields) == Ok(FieldsHold(m, fields))
  {
    if |fields| > 0 {
      CheckFieldsMeansHolds(m, fields[1..]);
      var first := CheckField(m, fields[0]);
      CheckFieldMeansHolds(m, fields[0]);
      assert forall i :: 0 <= i < |fields[1..]| ==> fields[1..][i] == fields[i + 1];
      if FieldsHold(m, fields[1..]) && first.value {
        forall i | 0 <= i < |fields| ensures FieldHolds(m, fields[i]) {
          if i > 0 { assert FieldHolds(m, fields[1..][i - 1]); }
        }
      }
    }
  }

  /** Groups that validate each check to their meaning. */
  ghost predicate GroupsMean(m: Metadata, groups: seq<Filter>, level: nat) {
    forall i :: 0 <= i < |groups| ==> Check(m, groups[i], level) == Ok(Holds(m, groups[i]))
  }

  lemma {:induction false} ValidateEachMeansAll(groups: seq<Filter>, level: nat)
    requires level <= 3 && ValidateEach(groups, level).Ok?
    ensures forall i :: 0 <= i < |groups| ==> Validate(groups[i], level).Ok?
  {
    if |groups| > 0 {
      ValidateEachMeansAll(groups[1..], level);
      forall i | 0 <= i < |groups| ensures Validate(groups[i], level).Ok? {
        if i > 0 { assert groups[1..][i - 1] == groups[i]; }
      }
    }
  }

  lemma {:induction false} CheckAnyMeansSome(m: Metadata, groups: seq<Filter>, level: nat)
    requires level <= 3 && GroupsMean(m, groups, level)
    ensures CheckAny(m, groups, level) == Ok(exists i :: 0 <= i < |groups| && Holds(m, groups[i]))
  {
    if |groups| > 0 {
      var tail := groups[1..];
      assert forall i :: 0 <= i < |tail| ==> tail[i] == groups[i + 1];
      CheckAnyMeansSome(m, tail, level);
      if exists i :: 0 <= i < |tail| && Holds(m, tail[i]) {
        var i :| 0 <= i < |tail| && Holds(m, tail[i]);
        assert Holds(m, groups[i + 1]);
      }
      if !Holds(m, groups[0]) && exists i :: 0 <= i < |groups| && Holds(m, groups[i]) {
        var i :| 0 <= i < |groups| && Holds(m, groups[i]);
        assert Holds(m, tail[i - 1]);
      }
    }
  }

  lemma {:induction false} CheckAllMeansEvery(m: Metadata, groups: seq<Filter>, level: nat)
    requires level <= 3 && GroupsMean(m, groups, level)
    ensures CheckAll(m, groups, level) == Ok(forall i :: 0 <= i < |groups| ==> Holds(m, groups[i]))
  {
    if |groups| > 0 {
      var tail := groups[1..];
      assert forall i :: 0 <= i < |tail| ==> tail[i] == groups[i + 1];
      CheckAllMeansEvery(m, tail, level);
      if Holds(m, groups[0]) && forall i :: 0 <= i < |tail| ==> Holds(m, tail[i]) {
        forall i | 0 <= i < |groups| ensures Holds(m, groups[i]) {
          if i > 0 { assert Holds(m, tail[i - 1]); }
        }
      }
      if forall i :: 0 <= i < |groups| ==> Holds(m, groups[i]) {
        forall i | 0 <= i < |tail| ensures Holds(m, tail[i]) { assert Holds(m, groups[i + 1]); }
      }
    }
  }

  lemma OperatorsGivenRest(f: Filter)
    requires OperatorsGiven(f)
    ensures OperatorsGiven(f.(anyOf := None)) && OperatorsGiven(f.(allOf := None))
  {
  }

  lemma HoldsSplitsOr(m: Metadata, f: Filter)
    requires f.anyOf.Some? && f.anyOf.value.GroupList?
    ensures Holds(m, f) <==>
      (exists i :: 0 <= i < |f.anyOf.value.groups| && Holds(m, f.anyOf.value.groups[i])) && Holds(m, f.(anyOf := None))
  {
  }

  lemma HoldsSplitsAnd(m: Metadata, f: Filter)
    requires f.anyOf.None? && f.allOf.Some? && f.allOf.value.GroupList?
    ensures Holds(m, f) <==>
      (forall i :: 0 <= i < |f.allOf.value.groups| ==> Holds(m, f.allOf.value.groups[i])) && Holds(m, f.(allOf := None))
  {
  }

  lemma OrMeansHolds(m: Metadata, f: Filter, level: nat)
    requires Validate(f, level).Ok? && f.anyOf.Some? && f.anyOf.value.GroupList?
    requires GroupsMean(m, f.anyOf.value.groups, level + 1)
    requires CheckRest(m, f.(anyOf := None), level + 1) == Ok(Holds(m, f.(anyOf := None)))
    ensures Check(m, f, level) == Ok(Holds(m, f))
  {
    hide Holds, GroupsMean;
    CheckAnyMeansSome(m, f.anyOf.value.groups, level + 1);
    HoldsSplitsOr(m, f);
  }

  lemma AndMeansHolds(m: Metadata, f: Filter, level: nat)
    requires Validate(f, level).Ok? && f.anyOf.None? && f.allOf.Some? && f.allOf.value.GroupList?
    requires GroupsMean(m, f.allOf.value.groups, level + 1)
    requires CheckRest(m, f.(allOf := None), level + 1) == Ok(Holds(m, f.(allOf := None)))
    ensures Check(m, f, level) == Ok(Holds(m, f))
  {
    hide Holds, GroupsMean;
    CheckAllMeansEvery(m, f.allOf.value.groups, level + 1);
    HoldsSplitsAnd(m, f);
  }

  /** A filter that validates, with no empty operator object, never raises and evaluates to its
      boolean meaning for all metadata, although operators are peeled off one level at a time. */
  lemma {:induction false} CheckMeansHolds(m: Metadata, f: Filter, level: nat)
    requires Validate(f, level).Ok? && OperatorsGiven(f)
    ensures Check(m, f, level) == Ok(Holds(m, f))
    decreases if level > 3 then 0 else 4 - level, 0
  {
    if Falsy(f) {
      assert Holds(m, f);
    } else if f.anyOf.Some? {
      var groups := f.anyOf.value.groups;
      GroupsCheck(m, groups, level + 1);
      RestCheck(m, f, f.(anyOf := None), level + 1);
      OrMeansHolds(m, f, level);
    } else if f.allOf.Some? {
      var groups := f.allOf.value.groups;
      GroupsCheck(m, groups, level + 1);
      RestCheck(m, f, f.(allOf := None), level + 1);
      AndMeansHolds(m, f, level);
    } else {
      CheckFieldsMeansHolds(m, f.fields);
    }
  }

  lemma {:induction false} GroupsCheck(m: Metadata, groups: seq<Filter>, level: nat)
    requires level <= 3 && ValidateEach(groups, level).Ok?
    requires forall i :: 0 <= i < |groups| ==> OperatorsGiven(groups[i])
    ensures GroupsMean(m, groups, level)
    decreases 4 - level, 1
  {
    ValidateEachMeansAll(groups, level);
    forall i | 0 <= i < |groups| ensures Check(m, groups[i], level) == Ok(Holds(m, groups[i])) {
      CheckMeansHolds(m, groups[i], level);
    }
  }

  lemma {:induction false} RestCheck(m: Metadata, f: Filter, rest: Filter, level: nat)
    requires level <= 3 && OperatorsGiven(f)
    requires rest == f.(anyOf := None) || rest == f.(allOf := None)
    requires Falsy(rest) || Validate(rest, level).Ok?
    ensures CheckRest(m, rest, level) == Ok(Holds(m, rest))
    decreases 4 - level, 1
  {
    OperatorsGivenRest(f);
    if !Falsy(rest) { CheckMeansHolds(m, rest, level); }
  }

  // ---- When a verdict means a valid filter --------------------------------------------------------------

  const NO_FILTER := Filter(None, None, [])

  /** A filter that may be nested deeper may also stand higher. */
  lemma {:induction false} ValidateShallower(f: Filter, level: nat)
    requires Validate(f, level + 1).Ok?
    ensures Validate(f, level).Ok?
    decreases if level > 3 then 0 else 4 - level, 1
  {
    if !Falsy(f) {
      var withoutOr, withoutAnd := f.(anyOf := None), f.(allOf := None);
      if f.anyOf.Some? {
        ValidateEachShallower(f.anyOf.value.groups, level + 1);
        if !Falsy(withoutOr) { ValidateShallower(withoutOr, level + 1); }
      }
      if f.allOf.Some? {
        ValidateEachShallower(f.allOf.value.groups, level + 1);
        if !Falsy(withoutAnd) { ValidateShallower(withoutAnd, level + 1); }
      }
    }
  }

  lemma {:induction false} ValidateEachShallower(groups: seq<Filter>, level: nat)
    requires level <= 2 && ValidateEach(groups, level + 1).Ok?
    ensures ValidateEach(groups, level).Ok?
    decreases 4 - level, 2, |groups|
  {
    if |groups| > 0 {
      ValidateShallower(groups[0], level);
      ValidateEachShallower(groups[1..], level);
    }
  }

  lemma GroupsTooDeep(groups: seq<Filter>)
    requires |groups| > 0
    ensures ValidateEach(groups, 3).Err?
  {
    assert Validate(groups[0], 3) == Err(TooDeep);
  }

  /** Validity of `$or` and `$and` side by side, as each is validated among the remaining keys of the
      other: both lists one level further down, which leaves room at the top level only. */
  predicate ValidSideBySide(f: Filter, level: nat)
    requires f.anyOf.Some? && f.allOf.Some?
  {
    && level == 0
    && WellFormed(f.anyOf.value) && ValidateEach(f.anyOf.value.groups, 2).Ok?
    && WellFormed(f.allOf.value) && ValidateEach(f.allOf.value.groups, 2).Ok?
  }

  /** Exactly when a check that comes to a verdict, whichever, had a valid filter: always, unless
      `$or` and `$and` stand side by side, where the check may not have looked at all of them. */
  lemma VerdictIsValidIff(m: Metadata, f: Filter, level: nat)
    requires Check(m, f, level).Ok?
    ensures Validate(f, level).Ok? <==> (f.anyOf.Some? && f.allOf.Some? ==> ValidSideBySide(f, level))
  {
    if f.anyOf.Some? || f.allOf.Some? {
      if level == 2 { GroupsTooDeep(if f.anyOf.Some? then f.anyOf.value.groups else f.allOf.value.groups); }
      if f.anyOf.Some? && f.allOf.Some? {
        SideBySideIsValidIff(f, level);
      }
    }
  }

  lemma SideBySideIsValidIff(f: Filter, level: nat)
    requires level <= 1 && f.anyOf.Some? && f.allOf.Some?
    ensures Validate(f, level).Ok? <==> ValidSideBySide(f, level)
  {
    var withoutOr, withoutAnd := f.(anyOf := None), f.(allOf := None);
    if level == 1 {
      if WellFormed(f.allOf.value) { GroupsTooDeep(f.allOf.value.groups); }
      assert ValidateAnd(withoutOr, 2).Err?;
      assert Validate(withoutOr, 2).Err?;
    } else {
      OnlyOrIsValidIff(withoutAnd, 1);
      OnlyAndIsValidIff(withoutOr, 1);
      if WellFormed(f.anyOf.value) && ValidateEach(f.anyOf.value.groups, 2).Ok? { ValidateEachShallower(f.anyOf.value.groups, 1); }
      if WellFormed(f.allOf.value) && ValidateEach(f.allOf.value.groups, 2).Ok? { ValidateEachShallower(f.allOf.value.groups, 1); }
    }
  }

  lemma OnlyOrIsValidIff(f: Filter, level: nat)
    requires level <= 1 && f.anyOf.Some? && f.allOf.None?
    ensures Validate(f, level).Ok? <==> WellFormed(f.anyOf.value) && ValidateEach(f.anyOf.value.groups, level + 1).Ok?
  {
    var rest := f.(anyOf := None);
    assert Validate(rest, level + 1).Ok?;
  }

  lemma OnlyAndIsValidIff(f: Filter, level: nat)
    requires level <= 1 && f.anyOf.None? && f.allOf.Some?
    ensures Validate(f, level).Ok? <==> WellFormed(f.allOf.value) && ValidateEach(f.allOf.value.groups, level + 1).Ok?
  {
    var rest := f.(allOf := None);
    assert Validate(rest, level + 1).Ok?;
  }

  lemma EmptyGroups(m: Metadata, level: nat)
    requires level <= 2
    ensures ValidateEach([NO_FILTER, NO_FILTER], level) == Ok(())
    ensures CheckAny(m, [NO_FILTER, NO_FILTER], level) == Ok(true) && CheckAll(m, [NO_FILTER, NO_FILTER], level) == Ok(true)
  {
    assert [NO_FILTER, NO_FILTER][1..] == [NO_FILTER] && [NO_FILTER][1..] == [];
    assert Validate(NO_FILTER, level) == Ok(()) && Check(m, NO_FILTER, level) == Ok(true);
    assert ValidateEach([NO_FILTER], level) == Ok(()) && CheckAll(m, [NO_FILTER], level) == Ok(true);
  }

  /** A rejection without validity: with no `$or` group matching, a malformed `$and` beside it is
      never looked at. */
  lemma VerdictWithoutValidity()
    ensures var miss := Filter(None, None, [Field("owner", Plain(JString("nobody")))]);
      var f := Filter(Some(GroupList([miss, miss])), Some(NotAList), []);
      Check(map[], f, 0) == Ok(false) && Validate(f, 0).Err?
  {
    var miss := Filter(None, None, [Field("owner", Plain(JString("nobody")))]);
    var f := Filter(Some(GroupList([miss, miss])), Some(NotAList), []);
    var empty: Metadata := map[];
    assert CheckFields(empty, miss.fields) == Ok(false);
    assert Check(empty, miss, 1) == Ok(false) && Validate(miss, 1) == Ok(());
    assert [miss, miss][1..] == [miss] && [miss][1..] == [];
    assert CheckAny(empty, [miss], 1) == Ok(false) && ValidateEach([miss], 1) == Ok(());
    assert CheckAny(empty, [miss, miss], 1) == Ok(false) && ValidateEach([miss, miss], 1) == Ok(());
    VerdictIsValidIff(empty, f, 0);
  }

  /** A pass without validity: `$or` groups with groups of their own, beside an `$and`, are too deep. */
  lemma PassedWithoutValidity()
    ensures var nested := Filter(Some(GroupList([NO_FILTER, NO_FILTER])), None, []);
      var f := Filter(Some(GroupList([nested, nested])), Some(GroupList([NO_FILTER, NO_FILTER])), []);
      Check(map[], f, 0) == Ok(true) && Validate(f, 0) == Err(TooDeep)
  {
    var nested := Filter(Some(GroupList([NO_FILTER, NO_FILTER])), None, []);
    var f := Filter(Some(GroupList([nested, nested])), Some(GroupList([NO_FILTER, NO_FILTER])), []);
    var empty: Metadata := map[];
    EmptyGroups(empty, 1);
    EmptyGroups(empty, 2);
    assert Validate(nested, 1) == Ok(()) && Check(empty, nested, 1) == Ok(true);
    assert [nested, nested][1..] == [nested] && [nested][1..] == [];
    assert ValidateEach([nested], 1) == Ok(());
    assert ValidateEach([nested, nested], 1) == Ok(()) && CheckAny(empty, [nested, nested], 1) == Ok(true);
    var rest := f.(anyOf := None);
    assert rest == Filter(None, Some(GroupList([NO_FILTER, NO_FILTER])), []);
    assert Check(empty, rest, 1) == Ok(true);
    assert Validate(NO_FILTER, 3) == Err(TooDeep);
    assert Validate(nested, 2) == Err(TooDeep);
    assert ValidateEach([nested, nested], 2) == Err(TooDeep);
    VerdictIsValidIff(empty, f, 0);
    assert Validate(rest, 1) == Ok(());
  }
}
