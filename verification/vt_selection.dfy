/** The VT selection of a scan: family filters resolved against the cached
    VTs (`get_vts_in_groups`), the declared type of a VT parameter
    (`get_vt_param_type`), the best-effort value check (`check_param_type`)
    and the assembly of the OID list and parameter records
    (`process_vts`). */
module VtSelection {
  import opened Wrappers
  import opened Py
  import opened Dicts
  import opened VtCache
  import opened Prefs

  /** `vts[oid]['custom'].get('family')`. */
  function FamilyOf(vt: Vt): Option<string> {
    Get(vt.custom, "family")
  }

  // ---------------------------------------------------------------------------
  // get_vts_in_groups
  // ---------------------------------------------------------------------------

  /** `families[family].append(oid)`, creating the list on first use. */
  function AddMember(families: Dict<Option<string>, seq<string>>, family: Option<string>, oid: string): Dict<Option<string>, seq<string>> {
    Set(families, family, Get(families, family).GetOr([]) + [oid])
  }

  /** The family index built by the first loop: each family (or `None` for
      VTs without one) to the OIDs carrying it, in table order. */
  function GroupByFamily(vts: VtTable): Dict<Option<string>, seq<string>>
    decreases |vts|
  {
    if |vts| == 0 then []
    else
      var last := vts[|vts| - 1];
      AddMember(GroupByFamily(vts[..|vts| - 1]), FamilyOf(last.1), last.0)
  }

  /** Reference: the OIDs of the table whose family is `family`, in order. */
  function FamilyMembers(vts: VtTable, family: Option<string>): (r: seq<string>)
    ensures |r| <= |vts|
    decreases |vts|
  {
    if |vts| == 0 then []
    else
      var last := vts[|vts| - 1];
      FamilyMembers(vts[..|vts| - 1], family) + (if FamilyOf(last.1) == family then [last.0] else [])
  }

  /** The index holds exactly the families that occur, each with all of its
      members in table order. */
  lemma {:induction false} GroupByFamilyCorrect(vts: VtTable, family: Option<string>)
    ensures Get(GroupByFamily(vts), family) ==
      if |FamilyMembers(vts, family)| == 0 then None else Some(FamilyMembers(vts, family))
    decreases |vts|
  {
    if |vts| > 0 {
      var init, last := vts[..|vts| - 1], vts[|vts| - 1];
      GroupByFamilyCorrect(init, family);
      var d := GroupByFamily(init);
      assert GroupByFamily(vts) == AddMember(d, FamilyOf(last.1), last.0);
      if FamilyOf(last.1) == family {
        var members := FamilyMembers(init, family) + [last.0];
        assert FamilyMembers(vts, family) == members;
        assert Get(d, family).GetOr([]) == FamilyMembers(init, family);
        assert Get(GroupByFamily(vts), family) == Some(members);
        assert |members| > 0;
      } else {
        assert FamilyMembers(init, family) + [] == FamilyMembers(init, family);
        assert FamilyMembers(vts, family) == FamilyMembers(init, family);
        assert Get(GroupByFamily(vts), family) == Get(d, family);
      }
    } else {
      assert FamilyMembers(vts, family) == [];
      assert GroupByFamily(vts) == [];
    }
  }

  /** The error Python raises when `key, value = parts` does not get exactly
      two parts. */
  function UnpackError(n: nat): Exception {
    if n < 2 then ValueError("not enough values to unpack (expected 2, got " + NatToString(n) + ")")
    else ValueError("too many values to unpack (expected 2)")
  }

  /** The OIDs one filter contributes, given the family index. */
  function FilterMembers(families: Dict<Option<string>, seq<string>>, filter: string): Result<seq<string>, Exception> {
    var parts := Split(filter, "=");
    if |parts| != 2 then Failure(UnpackError(|parts|))
    else if parts[0] == "family" && HasKey(families, Some(parts[1])) then Success(Get(families, Some(parts[1])).value)
    else Success([])
  }

  function ResolveFiltersWith(families: Dict<Option<string>, seq<string>>, filters: seq<string>): Result<seq<string>, Exception>
    decreases |filters|
  {
    if |filters| == 0 then Success([])
    else
      var head :- FilterMembers(families, filters[0]);
      var tail :- ResolveFiltersWith(families, filters[1..]);
      Success(head + tail)
  }

  /** `get_vts_in_groups`. */
  function GetVtsInGroups(vts: VtTable, filters: seq<string>): Result<seq<string>, Exception> {
    ResolveFiltersWith(GroupByFamily(vts), filters)
  }

  /** A well-formed filter has exactly one `=`. */
  predicate WellFormedFilter(filter: string) {
    |Split(filter, "=")| == 2
  }

  /** Reference: what a well-formed filter selects, read directly off the
      table: the members of the named family for a `family` filter, nothing
      for any other key. */
  function Selects(vts: VtTable, filter: string): seq<string>
    requires WellFormedFilter(filter)
  {
    var parts := Split(filter, "=");
    if parts[0] == "family" then FamilyMembers(vts, Some(parts[1])) else []
  }

  function SelectsAll(vts: VtTable, filters: seq<string>): seq<string>
    requires forall i :: 0 <= i < |filters| ==> WellFormedFilter(filters[i])
    decreases |filters|
  {
    if |filters| == 0 then [] else Selects(vts, filters[0]) + SelectsAll(vts, filters[1..])
  }

  /** Index of the first malformed filter, if any. */
  function FirstMalformed(filters: seq<string>): (r: Option<nat>)
    ensures r.None? <==> forall i :: 0 <= i < |filters| ==> WellFormedFilter(filters[i])
    ensures r.Some? ==> r.value < |filters|
    decreases |filters|
  {
    if |filters| == 0 then None
    else if !WellFormedFilter(filters[0]) then Some(0)
    else match FirstMalformed(filters[1..])
      case None => None
      case Some(i) => Some(i + 1)
  }

  /** When some filter is malformed, `FirstMalformed` finds the least such
      index. */
  lemma {:induction false} FirstMalformedSpec(filters: seq<string>)
    ensures FirstMalformed(filters).Some? ==>
      && !WellFormedFilter(filters[FirstMalformed(filters).value])
      && forall i :: 0 <= i < FirstMalformed(filters).value ==> WellFormedFilter(filters[i])
    decreases |filters|
  {
    if |filters| > 0 && WellFormedFilter(filters[0]) {
      var rest := filters[1..];
      FirstMalformedSpec(rest);
      assert forall i :: 1 <= i < |filters| ==> filters[i] == rest[i - 1];
    }
  }

  lemma FilterMembersSpec(vts: VtTable, filter: string)
    ensures WellFormedFilter(filter) ==> FilterMembers(GroupByFamily(vts), filter) == Success(Selects(vts, filter))
    ensures !WellFormedFilter(filter) ==> FilterMembers(GroupByFamily(vts), filter) == Failure(UnpackError(|Split(filter, "=")|))
  {
    var parts := Split(filter, "=");
    if |parts| == 2 {
      GroupByFamilyCorrect(vts, Some(parts[1]));
    }
  }

  /** The filters select, in filter order, the members of each named family
      (an unknown family or a key other than `family` adds nothing, and a
      family named twice is added twice); the first filter without exactly
      one `=` raises the unpacking `ValueError` instead. */
  lemma {:induction false} GetVtsInGroupsCorrect(vts: VtTable, filters: seq<string>)
    ensures FirstMalformed(filters).None? ==> GetVtsInGroups(vts, filters) == Success(SelectsAll(vts, filters))
    ensures FirstMalformed(filters).Some? ==>
      GetVtsInGroups(vts, filters) == Failure(UnpackError(|Split(filters[FirstMalformed(filters).value], "=")|))
    decreases |filters|
  {
    if |filters| > 0 {
      FilterMembersSpec(vts, filters[0]);
      GetVtsInGroupsCorrect(vts, filters[1..]);
      if !WellFormedFilter(filters[0]) {
        assert FirstMalformed(filters) == Some(0);
      } else if FirstMalformed(filters[1..]).Some? {
        var i := FirstMalformed(filters[1..]).value;
        assert FirstMalformed(filters) == Some(i + 1);
        assert filters[i + 1] == filters[1..][i];
      } else {
        assert FirstMalformed(filters).None?;
        assert SelectsAll(vts, filters) == Selects(vts, filters[0]) + SelectsAll(vts, filters[1..]);
      }
    }
  }

  /** Filter lists concatenate: the OIDs of two lists together are those of
      the first followed by those of the second. */
  lemma {:induction false} SelectsAllAppend(vts: VtTable, a: seq<string>, b: seq<string>)
    requires forall i :: 0 <= i < |a| ==> WellFormedFilter(a[i])
    requires forall i :: 0 <= i < |b| ==> WellFormedFilter(b[i])
    ensures forall i :: 0 <= i < |a + b| ==> WellFormedFilter((a + b)[i])
    ensures SelectsAll(vts, a + b) == SelectsAll(vts, a) + SelectsAll(vts, b)
    decreases |a|
  {
    if |a| > 0 {
      assert (a + b)[1..] == a[1..] + b;
      assert (a + b)[0] == a[0];
      SelectsAllAppend(vts, a[1..], b);
    } else {
      assert a + b == b;
    }
  }

  // ---------------------------------------------------------------------------
  // get_vt_param_type and check_param_type
  // ---------------------------------------------------------------------------

  /** `get_vt_param_type`: the declared type of a parameter of a cached VT,
      `None` (Python's `False`) when the VT declares no such parameter. An
      OID the cache does not hold raises `KeyError`. */
  function GetVtParamType(vts: VtTable, vtid: string, paramId: string): (r: Result<Option<string>, Exception>)
    ensures !HasKey(vts, vtid) <==> r == Failure(KeyError(vtid))
    ensures r.Success? ==> (r.value.Some? <==> HasKey(Get(vts, vtid).value.params, paramId))
    ensures r.Success? && r.value.Some? ==>
      exists i :: 0 <= i < |Get(vts, vtid).value.params|
        && Get(vts, vtid).value.params[i].0 == paramId
        && Get(vts, vtid).value.params[i].1.ptype == r.value.value
  {
    match Get(vts, vtid)
    case None => Failure(KeyError(vtid))
    case Some(vt) =>
      match Get(vt.params, paramId)
      case None => Success(None)
      case Some(p) => Success(Some(p.ptype))
  }

  /** `check_param_type`: `None` when the value fits the type, 1 when it
      does not. Values reach it as strings. */
  function CheckParamType(value: string, ptype: string): (r: Option<int>)
    ensures r == None || r == Some(1)
  {
    if ptype in ["entry", "file", "password", "radio", "sshlogin"] then None
    else if ptype == "checkbox" && (value == "yes" || value == "no") then None
    else if ptype == "integer" then
      match ParseInt(value)
      case None => Some(1)
      case Some(_) => None
    else Some(1)
  }

  /** The types whose every string value is accepted. */
  const FreeFormTypes: set<string> := {"entry", "file", "password", "radio", "sshlogin"}

  /** Reference: when a value fits a declared type. */
  ghost predicate Fits(value: string, ptype: string) {
    || ptype in FreeFormTypes
    || (ptype == "checkbox" && value in {"yes", "no"})
    || (ptype == "integer" && exists i: int :: ParseInt(value) == Some(i))
  }

  /** `check_param_type` accepts exactly the values that fit. */
  lemma CheckParamTypeCorrect(value: string, ptype: string)
    ensures CheckParamType(value, ptype) == None <==> Fits(value, ptype)
  {
    if ptype == "integer" && ParseInt(value).Some? {
      assert ParseInt(value) == Some(ParseInt(value).value);
    }
  }

  /** Every integer Python prints is a valid `integer` value. */
  lemma PrintedIntegersFit(i: int)
    ensures CheckParamType(IntToString(i), "integer") == None
  {
    IntToStringParses(i);
  }

  /** A checkbox takes only `yes` and `no`. */
  lemma CheckboxOnlyYesNo(value: string)
    ensures CheckParamType(value, "checkbox") == None <==> value == "yes" || value == "no"
  {
  }

  /** A type outside the known ones rejects every value. */
  lemma UnknownTypeRejects(value: string, ptype: string)
    requires ptype !in FreeFormTypes && ptype != "checkbox" && ptype != "integer"
    ensures CheckParamType(value, ptype) == Some(1)
  {
  }

  // ---------------------------------------------------------------------------
  // process_vts
  // ---------------------------------------------------------------------------

  /** The VT part of a scan request: the group filters under `vt_groups`
      (`None` when that key is missing) and the explicitly selected VTs,
      each with its parameter values. */
  datatype VtsRequest = VtsRequest(groups: Option<seq<string>>, explicit: Dict<string, Dict<string, string>>)

  /** A value that failed its check; the code only logs it. */
  datatype ParamWarning = ParamWarning(expected: string, value: string)

  /** The OIDs to run, the `name[type]:id` / value pairs, and the logged
      mismatches. */
  datatype ProcessedVts = ProcessedVts(oids: seq<string>, params: seq<(string, string)>, warnings: seq<ParamWarning>)

  /** The type a value is checked against: `timeout` is always checked as an
      integer, any other parameter against its declared type. */
  function ValidationType(paramId: string, declared: string): string {
    if paramId == "timeout" then "integer" else declared
  }

  /** The declared type of a parameter when it is usable (`if not
      param_type: continue` skips a missing and an empty type). */
  function Declared(vts: VtTable, vtid: string, paramId: string): (r: Option<string>)
    requires HasKey(vts, vtid)
    ensures r.Some? ==> r.value != ""
  {
    var t := GetVtParamType(vts, vtid, paramId).value;
    if t.Some? && t.value != "" then t else None
  }

  /** The record of one usable parameter. */
  function ParamPair(vts: VtTable, vtid: string, paramId: string, value: string): (string, string)
    requires HasKey(vts, vtid) && Declared(vts, vtid, paramId).Some?
  {
    (PrefName(Get(vts, vtid).value.name, Declared(vts, vtid, paramId).value, paramId), value)
  }

  /** A usable parameter whose value does not fit the type it is checked
      against. */
  predicate Mismatch(vts: VtTable, vtid: string, paramId: string, value: string)
    requires HasKey(vts, vtid)
  {
    Declared(vts, vtid, paramId).Some?
    && CheckParamType(value, ValidationType(paramId, Declared(vts, vtid, paramId).value)).Some?
  }

  /** The warning logged for a usable parameter whose value fails its check. */
  function WarningFor(vts: VtTable, vtid: string, paramId: string, value: string): ParamWarning
    requires HasKey(vts, vtid) && Declared(vts, vtid, paramId).Some?
  {
    ParamWarning(ValidationType(paramId, Declared(vts, vtid, paramId).value), value)
  }

  /** One pass of the inner loop's body: a usable parameter is checked, a
      failed check is only logged, and the record is emitted either way. */
  function ParamStep(vts: VtTable, vtid: string, pid: string, value: string): (seq<(string, string)>, seq<ParamWarning>)
    requires HasKey(vts, vtid)
  {
    match Declared(vts, vtid, pid)
    case None => ([], [])
    case Some(t) =>
      var checkType := ValidationType(pid, t);
      var warn := if CheckParamType(value, checkType).Some? then [ParamWarning(checkType, value)] else [];
      ([(PrefName(Get(vts, vtid).value.name, t, pid), value)], warn)
  }

  /** The inner loop of `process_vts` over one VT's parameters. */
  function ParamRecords(vts: VtTable, vtid: string, params: Dict<string, string>): (r: (seq<(string, string)>, seq<ParamWarning>))
    requires HasKey(vts, vtid)
    ensures |r.0| <= |params|
    decreases |params|
  {
    if |params| == 0 then ([], [])
    else
      var head := ParamStep(vts, vtid, params[0].0, params[0].1);
      var rest := ParamRecords(vts, vtid, params[1..]);
      (head.0 + rest.0, head.1 + rest.1)
  }

  /** Exactly the usable parameters produce a record, whether or not their
      value passed the check. */
  lemma {:induction false} ParamRecordsPairs(vts: VtTable, vtid: string, params: Dict<string, string>, e: (string, string))
    requires HasKey(vts, vtid)
    ensures e in ParamRecords(vts, vtid, params).0 <==>
      exists j :: 0 <= j < |params| && Declared(vts, vtid, params[j].0).Some?
        && e == ParamPair(vts, vtid, params[j].0, params[j].1)
    decreases |params|
  {
    if |params| > 0 {
      var rest := params[1..];
      ParamRecordsPairs(vts, vtid, rest, e);
      ParamStepSpec(vts, vtid, params[0].0, params[0].1);
      var own := ParamStep(vts, vtid, params[0].0, params[0].1).0;
      if e in ParamRecords(vts, vtid, params).0 {
        if e !in own {
          var j :| 0 <= j < |rest| && Declared(vts, vtid, rest[j].0).Some?
            && e == ParamPair(vts, vtid, rest[j].0, rest[j].1);
          assert params[j + 1] == rest[j];
        }
      } else {
        forall j | 0 <= j < |params| && Declared(vts, vtid, params[j].0).Some?
          ensures e != ParamPair(vts, vtid, params[j].0, params[j].1)
        {
          if j == 0 {
            assert e !in own;
          } else {
            var k := j - 1;
            assert params[j] == rest[k];
            if Declared(vts, vtid, rest[k].0).Some? {
              assert e != ParamPair(vts, vtid, rest[k].0, rest[k].1);
            }
          }
        }
      }
    }
  }

  /** One pass records a usable parameter and warns about it exactly when
      its value fails its check. */
  lemma ParamStepSpec(vts: VtTable, vtid: string, pid: string, value: string)
    requires HasKey(vts, vtid)
    ensures ParamStep(vts, vtid, pid, value).0 == if Declared(vts, vtid, pid).Some? then [ParamPair(vts, vtid, pid, value)] else []
    ensures ParamStep(vts, vtid, pid, value).1 == if Mismatch(vts, vtid, pid, value) then [WarningFor(vts, vtid, pid, value)] else []
  {
  }

  /** A warning is logged exactly for each usable parameter whose value
      fails its check. */
  lemma {:induction false} ParamRecordsWarnings(vts: VtTable, vtid: string, params: Dict<string, string>, w: ParamWarning)
    requires HasKey(vts, vtid)
    ensures w in ParamRecords(vts, vtid, params).1 <==>
      exists j :: 0 <= j < |params| && Mismatch(vts, vtid, params[j].0, params[j].1)
        && w == WarningFor(vts, vtid, params[j].0, params[j].1)
    decreases |params|
  {
    if |params| > 0 {
      var rest := params[1..];
      ParamRecordsWarnings(vts, vtid, rest, w);
      ParamStepSpec(vts, vtid, params[0].0, params[0].1);
      var own := ParamStep(vts, vtid, params[0].0, params[0].1).1;
      if w in ParamRecords(vts, vtid, params).1 {
        if w !in own {
          var j :| 0 <= j < |rest| && Mismatch(vts, vtid, rest[j].0, rest[j].1)
            && w == WarningFor(vts, vtid, rest[j].0, rest[j].1);
          assert params[j + 1] == rest[j];
        }
      } else {
        forall j | 0 <= j < |params| && Mismatch(vts, vtid, params[j].0, params[j].1)
          ensures w != WarningFor(vts, vtid, params[j].0, params[j].1)
        {
          if j == 0 {
            assert w !in own;
          } else {
            var k := j - 1;
            assert params[j] == rest[k];
            if Mismatch(vts, vtid, rest[k].0, rest[k].1) {
              assert w != WarningFor(vts, vtid, rest[k].0, rest[k].1);
            }
          }
        }
      }
    }
  }

  /** Reference: the parameters of one VT whose declared type is usable,
      in the order the request lists them. */
  function Usable(vts: VtTable, vtid: string, params: Dict<string, string>): (u: Dict<string, string>)
    requires HasKey(vts, vtid)
    ensures forall i :: 0 <= i < |u| ==> Declared(vts, vtid, u[i].0).Some?
    decreases |params|
  {
    if |params| == 0 then []
    else if Declared(vts, vtid, params[0].0).Some? then [params[0]] + Usable(vts, vtid, params[1..])
    else Usable(vts, vtid, params[1..])
  }

  /** Reference: the record of each usable parameter, in order. */
  function Pairs(vts: VtTable, vtid: string, usable: Dict<string, string>): seq<(string, string)>
    requires HasKey(vts, vtid)
    requires forall i :: 0 <= i < |usable| ==> Declared(vts, vtid, usable[i].0).Some?
    decreases |usable|
  {
    if |usable| == 0 then []
    else [ParamPair(vts, vtid, usable[0].0, usable[0].1)] + Pairs(vts, vtid, usable[1..])
  }

  /** Reference: the warning of each usable parameter whose value fails its
      check, in order. */
  function Warnings(vts: VtTable, vtid: string, usable: Dict<string, string>): seq<ParamWarning>
    requires HasKey(vts, vtid)
    requires forall i :: 0 <= i < |usable| ==> Declared(vts, vtid, usable[i].0).Some?
    decreases |usable|
  {
    if |usable| == 0 then []
    else
      (if Mismatch(vts, vtid, usable[0].0, usable[0].1) then [WarningFor(vts, vtid, usable[0].0, usable[0].1)] else [])
      + Warnings(vts, vtid, usable[1..])
  }

  /** The inner loop emits one record per usable parameter and one warning
      per failed check, both in the request's order, duplicates kept. */
  lemma {:induction false} ParamRecordsInOrder(vts: VtTable, vtid: string, params: Dict<string, string>)
    requires HasKey(vts, vtid)
    ensures ParamRecords(vts, vtid, params).0 == Pairs(vts, vtid, Usable(vts, vtid, params))
    ensures ParamRecords(vts, vtid, params).1 == Warnings(vts, vtid, Usable(vts, vtid, params))
    decreases |params|
  {
    if |params| > 0 {
      var rest := params[1..];
      ParamStepSpec(vts, vtid, params[0].0, params[0].1);
      ParamRecordsInOrder(vts, vtid, rest);
      var u := Usable(vts, vtid, rest);
      if Declared(vts, vtid, params[0].0).Some? {
        assert Usable(vts, vtid, params) == [params[0]] + u;
        assert ([params[0]] + u)[0] == params[0];
        assert ([params[0]] + u)[1..] == u;
      }
    }
  }

  /** Reference: the records of every explicitly selected VT, VT after VT. */
  function AllPairs(vts: VtTable, explicit: Dict<string, Dict<string, string>>): seq<(string, string)>
    requires forall i :: 0 <= i < |explicit| ==> HasKey(vts, explicit[i].0)
    decreases |explicit|
  {
    if |explicit| == 0 then []
    else Pairs(vts, explicit[0].0, Usable(vts, explicit[0].0, explicit[0].1)) + AllPairs(vts, explicit[1..])
  }

  /** A successful explicit loop has found every OID, and its records are
      those of each VT's usable parameters, VT after VT, in request order. */
  lemma {:induction false} ProcessExplicitInOrder(vts: VtTable, explicit: Dict<string, Dict<string, string>>)
    requires ProcessExplicit(vts, explicit).Success?
    ensures forall i :: 0 <= i < |explicit| ==> HasKey(vts, explicit[i].0)
    ensures ProcessExplicit(vts, explicit).value.params == AllPairs(vts, explicit)
    decreases |explicit|
  {
    if |explicit| > 0 {
      var rest := explicit[1..];
      ProcessExplicitInOrder(vts, rest);
      assert forall i :: 1 <= i < |explicit| ==> explicit[i] == rest[i - 1];
      ParamRecordsInOrder(vts, explicit[0].0, explicit[0].1);
    }
  }

  /** The outer loop over the explicitly selected VTs: each OID is listed,
      then its parameters are encoded; an OID the cache does not hold raises
      `KeyError`. */
  function ProcessExplicit(vts: VtTable, explicit: Dict<string, Dict<string, string>>): Result<ProcessedVts, Exception>
    decreases |explicit|
  {
    if |explicit| == 0 then Success(ProcessedVts([], [], []))
    else
      var (vtid, params) := explicit[0];
      if !HasKey(vts, vtid) then Failure(KeyError(vtid))
      else
        var (pairs, warnings) := ParamRecords(vts, vtid, params);
        var rest :- ProcessExplicit(vts, explicit[1..]);
        Success(ProcessedVts([vtid] + rest.oids, pairs + rest.params, warnings + rest.warnings))
  }

  /** `process_vts`: the OIDs of the group filters (when there are any),
      then the explicitly selected OIDs and their parameter records. */
  function ProcessVts(vts: VtTable, req: VtsRequest): Result<ProcessedVts, Exception> {
    match req.groups
    case None => Failure(KeyError("vt_groups"))
    case Some(groups) =>
      var grouped :- if |groups| > 0 then GetVtsInGroups(vts, groups) else Success([]);
      var rest :- ProcessExplicit(vts, req.explicit);
      Success(rest.(oids := grouped + rest.oids))
  }

  /** Reference: the first explicitly selected OID the cache does not hold. */
  function FirstUnknown(vts: VtTable, explicit: Dict<string, Dict<string, string>>): Option<string>
    decreases |explicit|
  {
    if |explicit| == 0 then None
    else if !HasKey(vts, explicit[0].0) then Some(explicit[0].0)
    else FirstUnknown(vts, explicit[1..])
  }

  /** The explicit loop lists every selected OID, in request order, and
      fails exactly at the first unknown one. */
  lemma {:induction false} ProcessExplicitSpec(vts: VtTable, explicit: Dict<string, Dict<string, string>>)
    ensures ProcessExplicit(vts, explicit).Success? <==> FirstUnknown(vts, explicit).None?
    ensures FirstUnknown(vts, explicit).Some? ==>
      ProcessExplicit(vts, explicit) == Failure(KeyError(FirstUnknown(vts, explicit).value))
    ensures ProcessExplicit(vts, explicit).Success? ==> ProcessExplicit(vts, explicit).value.oids == Keys(explicit)
    decreases |explicit|
  {
    if |explicit| > 0 {
      ProcessExplicitSpec(vts, explicit[1..]);
    }
  }

  /** The OID list is the group-resolved OIDs followed by the explicit ones,
      in order, with no deduplication; the errors are, in order of
      precedence, a missing `vt_groups` key, a malformed filter, and an
      unknown explicit OID. */
  lemma ProcessVtsSpec(vts: VtTable, req: VtsRequest)
    ensures req.groups.None? ==> ProcessVts(vts, req) == Failure(KeyError("vt_groups"))
    ensures req.groups.Some? && FirstMalformed(req.groups.value).Some? ==>
      ProcessVts(vts, req) == Failure(UnpackError(|Split(req.groups.value[FirstMalformed(req.groups.value).value], "=")|))
    ensures req.groups.Some? && FirstMalformed(req.groups.value).None? && FirstUnknown(vts, req.explicit).Some? ==>
      ProcessVts(vts, req) == Failure(KeyError(FirstUnknown(vts, req.explicit).value))
    ensures req.groups.Some? && FirstMalformed(req.groups.value).None? && FirstUnknown(vts, req.explicit).None? ==>
      && ProcessVts(vts, req).Success?
      && ProcessVts(vts, req).value.oids == SelectsAll(vts, req.groups.value) + Keys(req.explicit)
  {
    ProcessExplicitSpec(vts, req.explicit);
    if req.groups.Some? {
      GetVtsInGroupsCorrect(vts, req.groups.value);
    }
  }

  /** The records `process_vts` returns are those of the explicit VTs'
      usable parameters, VT after VT, in request order; the group filters
      add none. */
  lemma ProcessVtsParams(vts: VtTable, req: VtsRequest)
    requires ProcessVts(vts, req).Success?
    ensures forall i :: 0 <= i < |req.explicit| ==> HasKey(vts, req.explicit[i].0)
    ensures ProcessVts(vts, req).value.params == AllPairs(vts, req.explicit)
  {
    ProcessExplicitInOrder(vts, req.explicit);
  }

  lemma IntegerCheckRejects(value: string)
    requires ParseInt(value).None?
    ensures CheckParamType(value, "integer").Some?
  {
    assert "integer" !in ["entry", "file", "password", "radio", "sshlogin"];
    assert "integer" != "checkbox";
  }

  /** An integer parameter whose value starts with an ASCII separator
      '\U{1c}'..'\U{1f}' fails its check, as `int()` does not trim it. */
  lemma SeparatorFailsIntegerCheck(value: string)
    requires |value| > 0 && '\U{1c}' <= value[0] <= '\U{1f}'
    ensures CheckParamType(value, "integer") == Some(1)
  {
    ParseIntKeepsSeparators(value);
    IntegerCheckRejects(value);
  }

  /** `timeout` is checked as an integer whatever its declared type, while
      its record still names the declared type; a failed check still emits
      the record. */
  lemma TimeoutCheckedAsInteger(vts: VtTable, vtid: string, params: Dict<string, string>, j: nat)
    requires HasKey(vts, vtid) && j < |params|
    requires params[j].0 == "timeout" && Declared(vts, vtid, "timeout").Some?
    requires ParseInt(params[j].1).None?
    ensures (PrefName(Get(vts, vtid).value.name, Declared(vts, vtid, "timeout").value, "timeout"), params[j].1)
      in ParamRecords(vts, vtid, params).0
    ensures ParamWarning("integer", params[j].1) in ParamRecords(vts, vtid, params).1
  {
    ParamRecordsPairs(vts, vtid, params, ParamPair(vts, vtid, params[j].0, params[j].1));
    IntegerCheckRejects(params[j].1);
    assert ValidationType(params[j].0, Declared(vts, vtid, params[j].0).value) == "integer";
    assert Mismatch(vts, vtid, params[j].0, params[j].1);
    ParamRecordsWarnings(vts, vtid, params, WarningFor(vts, vtid, params[j].0, params[j].1));
  }

  /** Across all explicitly selected VTs, the parameter records are exactly
      those of the usable parameters, each naming its VT's name and declared
      type. */
  lemma {:induction false} ProcessExplicitParams(vts: VtTable, explicit: Dict<string, Dict<string, string>>, e: (string, string))
    requires ProcessExplicit(vts, explicit).Success?
    ensures e in ProcessExplicit(vts, explicit).value.params <==>
      exists i, j :: 0 <= i < |explicit| && 0 <= j < |explicit[i].1|
        && HasKey(vts, explicit[i].0)
        && Declared(vts, explicit[i].0, explicit[i].1[j].0).Some?
        && e == ParamPair(vts, explicit[i].0, explicit[i].1[j].0, explicit[i].1[j].1)
    decreases |explicit|
  {
    if |explicit| > 0 {
      var (vtid, params) := explicit[0];
      ProcessExplicitParams(vts, explicit[1..], e);
      var r := ProcessExplicit(vts, explicit);
      var head := ParamRecords(vts, vtid, params).0;
      var tail := ProcessExplicit(vts, explicit[1..]).value.params;
      assert r.value.params == head + tail;
      ParamRecordsPairs(vts, vtid, params, e);
      if e in head {
        var j :| 0 <= j < |params| && Declared(vts, vtid, params[j].0).Some?
          && e == ParamPair(vts, vtid, params[j].0, params[j].1);
        assert explicit[0].1[j] == params[j];
      } else if e in tail {
        var i, j :| 0 <= i < |explicit[1..]| && 0 <= j < |explicit[1..][i].1|
          && HasKey(vts, explicit[1..][i].0)
          && Declared(vts, explicit[1..][i].0, explicit[1..][i].1[j].0).Some?
          && e == ParamPair(vts, explicit[1..][i].0, explicit[1..][i].1[j].0, explicit[1..][i].1[j].1);
        assert explicit[i + 1] == explicit[1..][i];
      } else {
        forall i, j | 0 <= i < |explicit| && 0 <= j < |explicit[i].1|
            && HasKey(vts, explicit[i].0)
            && Declared(vts, explicit[i].0, explicit[i].1[j].0).Some?
          ensures e != ParamPair(vts, explicit[i].0, explicit[i].1[j].0, explicit[i].1[j].1)
        {
          if i > 0 {
            assert explicit[i] == explicit[1..][i - 1];
          }
        }
      }
    }
  }
}
