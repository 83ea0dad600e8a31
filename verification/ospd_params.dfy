/** The scanner parameter table the daemon advertises (`OSPD_PARAMS`), the
    rendering of option values into the scanner's own vocabulary
    (`_from_bool_to_str`, `str`), and the parser that reads the scanner's
    `key = value` settings dump to refresh the table's defaults
    (`parse_param`, without the subprocess call that produces the text). */
module OspdParams {
  import opened Wrappers
  import opened Py
  import opened Dicts

  /** A scan option value as the daemon holds it: the base class converts
      booleans and integers to `int`; everything else stays a string. */
  datatype Value = IntVal(i: int) | StrVal(s: string) | BoolVal(b: bool)

  /** Python's `str(value)`. */
  function Str(v: Value): string {
    match v
    case IntVal(i) => IntToString(i)
    case StrVal(s) => s
    case BoolVal(b) => if b then "True" else "False"
  }

  /** Python's `value == 1` (`True == 1` holds, `'1' == 1` does not). */
  predicate EqualsOne(v: Value) {
    v == IntVal(1) || v == BoolVal(true)
  }

  /** `_from_bool_to_str`: the scanner says `yes`/`no` where the daemon says
      1/0; anything other than 1 reads as `no`. */
  function FromBoolToStr(v: Value): (r: string)
    ensures r == "yes" || r == "no"
    ensures r == "yes" <==> EqualsOne(v)
  {
    if v == IntVal(1) || v == BoolVal(true) then "yes" else "no"
  }

  datatype ParamType = Boolean | Integer | StringParam

  /** One entry of the parameter table. The human-readable description is
      not modelled. */
  datatype ParamSpec = ParamSpec(name: string, ptype: ParamType, default: Value, mandatory: bool)

  function Spec(name: string, t: ParamType, default: Value, mandatory: bool): (string, ParamSpec) {
    (name, ParamSpec(name, t, default, mandatory))
  }

  /** `OSPD_PARAMS` as shipped, before the scanner's settings refresh it. */
  const OspdParamsTable: Dict<string, ParamSpec> := [
    Spec("auto_enable_dependencies", Boolean, IntVal(1), true),
    Spec("cgi_path", StringParam, StrVal("/cgi-bin:/scripts"), true),
    Spec("checks_read_timeout", Integer, IntVal(5), true),
    Spec("drop_privileges", Boolean, IntVal(0), true),
    Spec("network_scan", Boolean, IntVal(0), true),
    Spec("non_simult_ports", StringParam, StrVal("139, 445, 3389, Services/irc"), true),
    Spec("open_sock_max_attempts", Integer, IntVal(5), false),
    Spec("timeout_retry", Integer, IntVal(5), false),
    Spec("optimize_test", Integer, IntVal(5), false),
    Spec("plugins_timeout", Integer, IntVal(5), false),
    Spec("report_host_details", Boolean, IntVal(1), true),
    Spec("safe_checks", Boolean, IntVal(1), true),
    Spec("scanner_plugins_timeout", Integer, IntVal(36000), true),
    Spec("time_between_request", Integer, IntVal(0), false),
    Spec("unscanned_closed", Boolean, IntVal(1), true),
    Spec("unscanned_closed_udp", Boolean, IntVal(1), true),
    Spec("use_mac_addr", Boolean, IntVal(0), false),
    Spec("vhosts", StringParam, StrVal(""), false),
    Spec("vhosts_ip", StringParam, StrVal(""), false)
  ]

  /** `OSPD_PARAMS[key].get('type')` when the key is known. */
  function TypeOf(params: Dict<string, ParamSpec>, key: string): Option<ParamType> {
    match Get(params, key)
    case Some(spec) => Some(spec.ptype)
    case None => None
  }

  /** Reference: the eight options `OSPD_PARAMS` declares boolean. */
  const BooleanParams: set<string> := {
    "auto_enable_dependencies", "drop_privileges", "network_scan", "report_host_details",
    "safe_checks", "unscanned_closed", "unscanned_closed_udp", "use_mac_addr" }

  /** Every boolean entry of `d` from index `n` on is named in `names`. */
  predicate BooleansNamed(d: Dict<string, ParamSpec>, names: set<string>, n: nat)
    decreases |d| - n
  {
    n >= |d| || ((d[n].1.ptype == Boolean ==> d[n].0 in names) && BooleansNamed(d, names, n + 1))
  }

  lemma {:induction false} BooleansNamedAt(d: Dict<string, ParamSpec>, names: set<string>, n: nat, i: nat)
    requires BooleansNamed(d, names, n)
    requires n <= i < |d| && d[i].1.ptype == Boolean
    ensures d[i].0 in names
    decreases i - n
  {
    if n < i {
      BooleansNamedAt(d, names, n + 1, i);
    }
  }

  /** Every boolean entry of the shipped table is one of the eight. */
  lemma ShippedBooleansNamed()
    ensures BooleansNamed(OspdParamsTable, BooleanParams, 0)
  {
    var t := OspdParamsTable;
    assert BooleansNamed(t, BooleanParams, 19);
    assert BooleansNamed(t, BooleanParams, 18);
    assert BooleansNamed(t, BooleanParams, 17);
    assert BooleansNamed(t, BooleanParams, 16);
    assert BooleansNamed(t, BooleanParams, 15);
    assert BooleansNamed(t, BooleanParams, 14);
    assert BooleansNamed(t, BooleanParams, 13);
    assert BooleansNamed(t, BooleanParams, 12);
    assert BooleansNamed(t, BooleanParams, 11);
    assert BooleansNamed(t, BooleanParams, 10);
    assert BooleansNamed(t, BooleanParams, 9);
    assert BooleansNamed(t, BooleanParams, 8);
    assert BooleansNamed(t, BooleanParams, 7);
    assert BooleansNamed(t, BooleanParams, 6);
    assert BooleansNamed(t, BooleanParams, 5);
    assert BooleansNamed(t, BooleanParams, 4);
    assert BooleansNamed(t, BooleanParams, 3);
    assert BooleansNamed(t, BooleanParams, 2);
    assert BooleansNamed(t, BooleanParams, 1);
    assert BooleansNamed(t, BooleanParams, 0);
  }

  /** The type a lookup finds is that of the first entry with the key. */
  lemma TypeAt(d: Dict<string, ParamSpec>, key: string, i: nat)
    requires i < |d| && d[i].0 == key
    requires forall j :: 0 <= j < i ==> d[j].0 != key
    ensures TypeOf(d, key) == Some(d[i].1.ptype)
  {
    GetAt(d, key, i);
  }

  lemma BooleanParamsCases(key: string)
    requires key in BooleanParams
    ensures key == "auto_enable_dependencies"
      || key == "drop_privileges"
      || key == "network_scan"
      || key == "report_host_details"
      || key == "safe_checks"
      || key == "unscanned_closed"
      || key == "unscanned_closed_udp"
      || key == "use_mac_addr"
  {
  }

  /** Each of the eight is typed boolean by the shipped table. */
  lemma ShippedNamedAreBoolean(key: string)
    requires key in BooleanParams
    ensures TypeOf(OspdParamsTable, key) == Some(Boolean)
  {
    BooleanParamsCases(key);
    var t := OspdParamsTable;
    if key == "auto_enable_dependencies" {
      TypeAt(t, key, 0);
    } else if key == "drop_privileges" {
      TypeAt(t, key, 3);
    } else if key == "network_scan" {
      TypeAt(t, key, 4);
    } else if key == "report_host_details" {
      TypeAt(t, key, 10);
    } else if key == "safe_checks" {
      TypeAt(t, key, 11);
    } else if key == "unscanned_closed" {
      TypeAt(t, key, 14);
    } else if key == "unscanned_closed_udp" {
      TypeAt(t, key, 15);
    } else {
      TypeAt(t, key, 16);
    }
  }

  /** The shipped table types an option boolean exactly when it is one of
      the eight boolean options. */
  lemma ShippedBooleanTypes(key: string)
    ensures TypeOf(OspdParamsTable, key) == Some(Boolean) <==> key in BooleanParams
  {
    if TypeOf(OspdParamsTable, key) == Some(Boolean) {
      ShippedBooleanIsNamed(key);
    }
    if key in BooleanParams {
      ShippedNamedAreBoolean(key);
    }
  }

  /** Only the eight are typed boolean by the shipped table. */
  lemma ShippedBooleanIsNamed(key: string)
    requires TypeOf(OspdParamsTable, key) == Some(Boolean)
    ensures key in BooleanParams
  {
    var t := OspdParamsTable;
    var spec := Get(t, key).value;
    var i :| 0 <= i < |t| && t[i] == (key, spec);
    ShippedBooleansNamed();
    BooleansNamedAt(t, BooleanParams, 0, i);
  }

  // ---------------------------------------------------------------------------
  // parse_param: the `key = value` settings dump
  // ---------------------------------------------------------------------------

  /** The value of one setting: stripped, with `no`/`yes` read as 0/1. */
  function ConfigValue(raw: string): Value {
    var v := Strip(raw);
    if v == "no" then IntVal(0)
    else if v == "yes" then IntVal(1)
    else StrVal(v)
  }

  /** Number of occurrences of `c` in `s`. */
  function CountChar(s: string, c: char): nat {
    if |s| == 0 then 0
    else (if s[0] == c then 1 else 0) + CountChar(s[1..], c)
  }

  lemma {:induction false} CountCharAppend(a: string, b: string, c: char)
    ensures CountChar(a + b, c) == CountChar(a, c) + CountChar(b, c)
    decreases |a|
  {
    if |a| == 0 {
      assert a + b == b;
    } else {
      assert (a + b)[1..] == a[1..] + b;
      CountCharAppend(a[1..], b, c);
    }
  }

  lemma {:induction false} CountCharAbsent(s: string, c: char)
    requires !Contains(s, [c])
    ensures CountChar(s, c) == 0
    decreases |s|
  {
    if |s| > 0 {
      assert s[0] != c by {
        assert !OccursAt(s, [c], 0);
        assert s[0..1] == [s[0]];
      }
      forall j | 0 <= j <= |s[1..]|
        ensures !OccursAt(s[1..], [c], j)
      {
        assert !OccursAt(s, [c], j + 1);
        if j + 1 <= |s[1..]| {
          assert s[1..][j..j + 1] == s[j + 1..j + 2];
        }
      }
      CountCharAbsent(s[1..], c);
    }
  }

  /** Splitting on one character yields one more piece than there are
      occurrences of it. */
  lemma {:induction false} SplitCount(s: string, c: char)
    ensures |Split(s, [c])| == CountChar(s, c) + 1
    decreases |s|
  {
    match Find(s, [c])
    case None =>
      CountCharAbsent(s, c);
    case Some(i) =>
      var pre, rest := s[..i], s[i + 1..];
      assert s == pre + ([c] + rest) by {
        assert s[i..i + 1] == [c];
      }
      CountCharAppend(pre, [c] + rest, c);
      CountCharAppend([c], rest, c);
      PrefixBeforeFirstOccurrence(s, [c], i);
      CountCharAbsent(pre, c);
      SplitCount(rest, c);
  }

  /** One line of the dump: `key = value` with exactly one `=`, both sides
      stripped; any other line is ignored. */
  function ParseLine(line: string): (r: Option<(string, Value)>)
    ensures r.Some? <==> CountChar(line, '=') == 1
    ensures r.Some? ==>
      && Find(line, "=").Some?
      && var i := Find(line, "=").value;
         r.value == (Strip(line[..i]), ConfigValue(line[i + 1..]))
  {
    var parts := Split(line, "=");
    SplitCount(line, '=');
    if |parts| == 2 then
      Some((Strip(parts[0]), ConfigValue(parts[1])))
    else None
  }

  /** `param_list[key] = value` for one line, when the line is a setting. */
  function AssignLine(d: Dict<string, Value>, line: string): Dict<string, Value> {
    match ParseLine(line)
    case None => d
    case Some((k, v)) => Set(d, k, v)
  }

  /** The dict built by the loop over the lines, in order. */
  function ParseLines(lines: seq<string>): Dict<string, Value> {
    if |lines| == 0 then []
    else AssignLine(ParseLines(lines[..|lines| - 1]), lines[|lines| - 1])
  }

  /** `param_list` for the whole dump. */
  function ParseConfig(text: string): Dict<string, Value> {
    ParseLines(Split(text, "\n"))
  }

  /** The value a single line gives to key `k`, if it sets `k`. */
  function Assigns(line: string, k: string): Option<Value> {
    match ParseLine(line)
    case Some((k', v)) => if k' == k then Some(v) else None
    case None => None
  }

  /** Reference reading of the dump: the value of a key is the one given by
      the last line that sets it. */
  function LastAssignment(lines: seq<string>, k: string): Option<Value> {
    if |lines| == 0 then None
    else
      var later := LastAssignment(lines[1..], k);
      if later.Some? then later else Assigns(lines[0], k)
  }

  lemma AssignLineGet(d: Dict<string, Value>, line: string, k: string)
    ensures Get(AssignLine(d, line), k) == if Assigns(line, k).Some? then Assigns(line, k) else Get(d, k)
  {
  }

  lemma {:induction false} LastAssignmentSnoc(init: seq<string>, line: string, k: string)
    ensures LastAssignment(init + [line], k) ==
      if Assigns(line, k).Some? then Assigns(line, k) else LastAssignment(init, k)
    decreases |init|
  {
    if |init| == 0 {
      assert init + [line] == [line];
      assert [line][1..] == [];
    } else {
      assert (init + [line])[1..] == init[1..] + [line];
      assert (init + [line])[0] == init[0];
      LastAssignmentSnoc(init[1..], line, k);
    }
  }

  /** The parsed settings hold, for every key, the value of the last line that
      sets it, and nothing for keys no line sets. */
  lemma {:induction false} ParseLinesLastWins(lines: seq<string>, k: string)
    ensures Get(ParseLines(lines), k) == LastAssignment(lines, k)
    decreases |lines|
  {
    if |lines| > 0 {
      var init, line := lines[..|lines| - 1], lines[|lines| - 1];
      assert lines == init + [line];
      ParseLinesLastWins(init, k);
      LastAssignmentSnoc(init, line, k);
      AssignLineGet(ParseLines(init), line, k);
    }
  }

  /** Reading `yes`/`no` as 1/0 and rendering them back with
      `_from_bool_to_str` returns the scanner's own word. */
  lemma ConfigBoolRoundTrip(raw: string)
    requires Strip(raw) == "yes" || Strip(raw) == "no"
    ensures FromBoolToStr(ConfigValue(raw)) == Strip(raw)
  {
  }

  /** The refresh of `OSPD_PARAMS`: every known parameter whose name the dump
      sets takes that value as its default; nothing else changes. */
  function UpdateDefaults(params: Dict<string, ParamSpec>, parsed: Dict<string, Value>): (r: Dict<string, ParamSpec>)
    ensures |r| == |params|
    ensures forall i :: 0 <= i < |r| ==> r[i].0 == params[i].0
    ensures forall i :: 0 <= i < |r| ==>
      r[i].1 == params[i].1.(default := Get(parsed, params[i].0).GetOr(params[i].1.default))
  {
    if |params| == 0 then []
    else
      var (name, spec) := params[0];
      var spec' := match Get(parsed, name)
        case Some(v) => spec.(default := v)
        case None => spec;
      [(name, spec')] + UpdateDefaults(params[1..], parsed)
  }

  /** `parse_param` on the text the scanner printed. */
  function ParseParam(params: Dict<string, ParamSpec>, text: string): Dict<string, ParamSpec> {
    UpdateDefaults(params, ParseConfig(text))
  }

  /** After the refresh, a parameter's default is the value of the last line
      of the dump that sets it (if any), while its type, name and mandatory
      flag are untouched. */
  lemma ParseParamDefaults(params: Dict<string, ParamSpec>, text: string, i: nat)
    requires i < |params|
    ensures ParseParam(params, text)[i].0 == params[i].0
    ensures ParseParam(params, text)[i].1.ptype == params[i].1.ptype
    ensures ParseParam(params, text)[i].1.name == params[i].1.name
    ensures ParseParam(params, text)[i].1.mandatory == params[i].1.mandatory
    ensures ParseParam(params, text)[i].1.default ==
      LastAssignment(Split(text, "\n"), params[i].0).GetOr(params[i].1.default)
  {
    ParseLinesLastWins(Split(text, "\n"), params[i].0);
  }

  /** The refresh never changes the type the scan-preference encoder looks up,
      so boolean rendering is the same before and after it. */
  lemma {:induction false} UpdateDefaultsKeepsTypes(params: Dict<string, ParamSpec>, parsed: Dict<string, Value>, key: string)
    ensures TypeOf(UpdateDefaults(params, parsed), key) == TypeOf(params, key)
    decreases |params|
  {
    if |params| > 0 {
      var r := UpdateDefaults(params, parsed);
      assert r[1..] == UpdateDefaults(params[1..], parsed);
      UpdateDefaultsKeepsTypes(params[1..], parsed, key);
    }
  }
}
