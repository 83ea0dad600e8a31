/** The start of a scan in `exec_scan`, up to the launch of the scanner:
    the rejection rules, and the store writes that hand the scan's
    preferences to the scanner. The store is reduced to the list of
    `add_single_item` calls; the new main KB's index and the internal scan
    id (a fresh UUID) are inputs. */
module ScanStart {
  import opened Wrappers
  import opened Py
  import opened Dicts
  import opened Prefs
  import opened OspdParams
  import opened Credentials
  import opened VtSelection
  import opened VtCache
  import opened Feed

  /** The VTs of a scan as the base class hands them over: the empty string
      when none were given, otherwise the request dict. */
  datatype ScanVts = NoVts | Vts(request: VtsRequest)

  /** Everything `exec_scan` reads about the scan before the launch. */
  datatype ScanRequest = ScanRequest(
    scanId: string,
    target: string,
    ports: string,
    options: Dict<string, Value>,
    credentials: Dict<string, CredParams>,
    vts: ScanVts)

  /** The daemon state `exec_scan` consults, and what the store hands out. */
  datatype Daemon = Daemon(
    pendingFeed: bool,
    params: Dict<string, ParamSpec>,
    cache: VtTable)

  /** One `add_single_item(key, values)` call. */
  datatype KbWrite = KbWrite(key: string, values: seq<string>)

  /** How the start ends. A rejection returns 2 and reports `message` as a
      scan error; `kbAllocated` tells whether a main KB had been taken, in
      which case it has been released again. An exception from
      `process_vts` escapes with the KB still taken. `LaunchFailed` is the
      `OSError` path (the scanner binary is missing), which returns `False`.
      `Launched` goes on to the polling loop. */
  datatype StartOutcome =
    | Rejected(message: string, kbAllocated: bool, writes: seq<KbWrite>)
    | Raised(error: Exception, writes: seq<KbWrite>)
    | LaunchFailed(writes: seq<KbWrite>)
    | Launched(writes: seq<KbWrite>)

  const PendingFeedMessage: string :=
    "It was not possible to start the scan,because a pending feed update. Please try later"
  const NoPortsMessage: string := "No port list defined."
  const NoVtsMessage: string := "No VTS to run."

  function StatusKey(ovasId: string): string { "internal/" + ovasId }
  function GlobalIdKey(scanId: string): string { "internal/" + scanId + "/globalscanid" }
  function PrefsKey(ovasId: string): string { "internal/" + ovasId + "/scanprefs" }

  /** How a scan option is written: a boolean-typed option of the parameter
      table as `yes`/`no`, anything else as `str(value)`. */
  function RenderOption(params: Dict<string, ParamSpec>, key: string, value: Value): (r: string)
    ensures TypeOf(params, key) == Some(Boolean) ==> (r == "yes" <==> EqualsOne(value)) && (r == "yes" || r == "no")
    ensures TypeOf(params, key) != Some(Boolean) ==> r == Str(value)
  {
    if TypeOf(params, key) == Some(Boolean) then FromBoolToStr(value) else Str(value)
  }

  /** With the shipped parameter table, before or after `parse_param`
      refreshes its defaults, exactly the eight boolean options are written
      as `yes`/`no`, and every other option, known or not, as `str(value)`. */
  lemma ShippedRendering(parsed: Dict<string, Value>, key: string, value: Value)
    ensures RenderOption(OspdParamsTable, key, value) ==
      if key in BooleanParams then FromBoolToStr(value) else Str(value)
    ensures RenderOption(UpdateDefaults(OspdParamsTable, parsed), key, value) ==
      if key in BooleanParams then FromBoolToStr(value) else Str(value)
  {
    ShippedBooleanTypes(key);
    UpdateDefaultsKeepsTypes(OspdParamsTable, parsed, key);
  }

  /** The option records, in the options' order. */
  function OptionRecords(params: Dict<string, ParamSpec>, options: Dict<string, Value>): (r: seq<string>)
    ensures |r| == |options|
    ensures forall i :: 0 <= i < |options| ==> r[i] == Record(options[i].0, RenderOption(params, options[i].0, options[i].1))
    decreases |options|
  {
    if |options| == 0 then []
    else [Record(options[0].0, RenderOption(params, options[0].0, options[0].1))] + OptionRecords(params, options[1..])
  }

  /** One write per VT parameter record, `name|||value`. */
  function ParamWrites(key: string, pairs: seq<(string, string)>): (r: seq<KbWrite>)
    ensures |r| == |pairs|
    ensures forall i :: 0 <= i < |pairs| ==> r[i] == KbWrite(key, [Record(pairs[i].0, pairs[i].1)])
    decreases |pairs|
  {
    if |pairs| == 0 then [] else [KbWrite(key, [Record(pairs[0].0, pairs[0].1)])] + ParamWrites(key, pairs[1..])
  }

  /** The writes made before the VT selection is examined. */
  function SetupWrites(d: Daemon, req: ScanRequest, mainIndex: int, ovasId: string): seq<KbWrite> {
    var pk := PrefsKey(ovasId);
    [ KbWrite(StatusKey(ovasId), ["new"]),
      KbWrite(GlobalIdKey(req.scanId), [ovasId]),
      KbWrite(pk, OptionRecords(d.params, req.options)),
      KbWrite(pk, [Record("ov_maindbid", IntToString(mainIndex))]),
      KbWrite(pk, [Record("TARGET", req.target)]),
      KbWrite(pk, [Record("port_range", req.ports)]) ]
    + (if |req.credentials| > 0 then [KbWrite(pk, BuildCredentialsAsPrefs(req.credentials))] else [])
  }

  /** `exec_scan` up to the launch. `scannerStarts` is whether starting the
      scanner process succeeds. */
  function StartScan(d: Daemon, req: ScanRequest, mainIndex: int, ovasId: string, scannerStarts: bool): StartOutcome {
    if d.pendingFeed then Rejected(PendingFeedMessage, false, [])
    else if req.ports == "" then Rejected(NoPortsMessage, false, [])
    else
      var setup := SetupWrites(d, req, mainIndex, ovasId);
      match req.vts
      case NoVts => Rejected(NoVtsMessage, true, setup)
      case Vts(request) =>
        match ProcessVts(d.cache, request)
        case Failure(e) => Raised(e, setup)
        case Success(p) =>
          var pk := PrefsKey(ovasId);
          var writes := setup + [KbWrite(pk, [Record("plugin_set", Join(p.oids, ";"))])] + ParamWrites(pk, p.params);
          if scannerStarts then Launched(writes) else LaunchFailed(writes)
  }

  /** The values written under a key, in write order. */
  function ValuesUnder(writes: seq<KbWrite>, key: string): seq<string>
    decreases |writes|
  {
    if |writes| == 0 then []
    else (if writes[0].key == key then writes[0].values else []) + ValuesUnder(writes[1..], key)
  }

  /** A start is refused exactly when a feed update is pending, the port
      list is empty, or no VTs were given. The first two refusals come
      before any KB is taken; the third releases the KB it took. Nothing
      else returns 2. */
  lemma StartScanRejections(d: Daemon, req: ScanRequest, mainIndex: int, ovasId: string, scannerStarts: bool)
    ensures StartScan(d, req, mainIndex, ovasId, scannerStarts).Rejected? <==>
      d.pendingFeed || req.ports == "" || req.vts.NoVts?
    ensures d.pendingFeed ==> StartScan(d, req, mainIndex, ovasId, scannerStarts) == Rejected(PendingFeedMessage, false, [])
    ensures !d.pendingFeed && req.ports == "" ==>
      StartScan(d, req, mainIndex, ovasId, scannerStarts) == Rejected(NoPortsMessage, false, [])
    ensures StartScan(d, req, mainIndex, ovasId, scannerStarts).Rejected? ==>
      (StartScan(d, req, mainIndex, ovasId, scannerStarts).kbAllocated <==> !d.pendingFeed && req.ports != "")
  {
  }

  /** The selection-side failure: an exception from `process_vts` escapes
      with the KB taken and the setup already written. */
  lemma StartScanRaises(d: Daemon, req: ScanRequest, mainIndex: int, ovasId: string, scannerStarts: bool)
    requires !d.pendingFeed && req.ports != "" && req.vts.Vts?
    ensures StartScan(d, req, mainIndex, ovasId, scannerStarts).Raised? <==> ProcessVts(d.cache, req.vts.request).Failure?
    ensures StartScan(d, req, mainIndex, ovasId, scannerStarts).Raised? ==>
      StartScan(d, req, mainIndex, ovasId, scannerStarts).error == ProcessVts(d.cache, req.vts.request).error
  {
  }

  lemma {:induction false} ValuesUnderAppend(a: seq<KbWrite>, b: seq<KbWrite>, key: string)
    ensures ValuesUnder(a + b, key) == ValuesUnder(a, key) + ValuesUnder(b, key)
    decreases |a|
  {
    if |a| == 0 {
      assert a + b == b;
    } else {
      assert (a + b)[1..] == a[1..] + b;
      assert (a + b)[0] == a[0];
      ValuesUnderAppend(a[1..], b, key);
    }
  }

  lemma ValuesUnderOne(w: KbWrite, key: string)
    ensures ValuesUnder([w], key) == if w.key == key then w.values else []
  {
    assert [w][1..] == [];
  }

  /** The three store keys a start writes are distinct, whatever the ids. */
  lemma KeysDistinct(scanId: string, ovasId: string)
    ensures StatusKey(ovasId) != PrefsKey(ovasId)
    ensures GlobalIdKey(scanId) != PrefsKey(ovasId)
  {
    var g, p := GlobalIdKey(scanId), PrefsKey(ovasId);
    assert |StatusKey(ovasId)| < |p|;
    assert g[|g| - 1] == 'd' && p[|p| - 1] == 's';
  }

  /** The status key and the global-id key differ whenever the internal id
      holds no `/`, as a UUID never does; an id of the form
      `<scanId>/globalscanid` would make them collide. */
  lemma StatusGlobalIdDistinct(scanId: string, ovasId: string)
    requires '/' !in ovasId
    ensures StatusKey(ovasId) != GlobalIdKey(scanId)
  {
    var n := |"internal/"|;
    var g := GlobalIdKey(scanId);
    assert StatusKey(ovasId)[n..] == ovasId;
    assert g[n..] == scanId + "/globalscanid";
    assert g[n..][|scanId|] == '/';
  }

  /** With an internal id of that form the two keys do coincide. */
  lemma StatusGlobalIdCollide(scanId: string)
    ensures StatusKey(scanId + "/globalscanid") == GlobalIdKey(scanId)
  {
    assert "internal/" + (scanId + "/globalscanid") == "internal/" + scanId + "/globalscanid";
  }

  function Records(pairs: seq<(string, string)>): (r: seq<string>)
    ensures |r| == |pairs|
    ensures forall i :: 0 <= i < |pairs| ==> r[i] == Record(pairs[i].0, pairs[i].1)
    decreases |pairs|
  {
    if |pairs| == 0 then [] else [Record(pairs[0].0, pairs[0].1)] + Records(pairs[1..])
  }

  lemma {:induction false} ParamWritesValues(key: string, pairs: seq<(string, string)>)
    ensures ValuesUnder(ParamWrites(key, pairs), key) == Records(pairs)
    decreases |pairs|
  {
    if |pairs| > 0 {
      var w := ParamWrites(key, pairs);
      assert w[1..] == ParamWrites(key, pairs[1..]);
      ParamWritesValues(key, pairs[1..]);
    }
  }

  lemma SetupShape(w0: KbWrite, w1: KbWrite, w2: KbWrite, w3: KbWrite, w4: KbWrite, w5: KbWrite,
                    creds: seq<KbWrite>, key: string)
    requires w0.key != key && w1.key != key
    requires w2.key == key && w3.key == key && w4.key == key && w5.key == key
    ensures ValuesUnder([w0, w1, w2, w3, w4, w5] + creds, key) ==
      w2.values + w3.values + w4.values + w5.values + ValuesUnder(creds, key)
  {
    var s5 := [w5] + creds;
    var s4 := [w4] + s5;
    var s3 := [w3] + s4;
    var s2 := [w2] + s3;
    var s1 := [w1] + s2;
    var s0 := [w0] + s1;
    assert s0 == [w0, w1, w2, w3, w4, w5] + creds;
    assert s5[1..] == creds && s4[1..] == s5 && s3[1..] == s4;
    assert s2[1..] == s3 && s1[1..] == s2 && s0[1..] == s1;
    assert ValuesUnder(s5, key) == w5.values + ValuesUnder(creds, key);
    assert ValuesUnder(s4, key) == w4.values + ValuesUnder(s5, key);
    assert ValuesUnder(s3, key) == w3.values + ValuesUnder(s4, key);
    assert ValuesUnder(s2, key) == w2.values + ValuesUnder(s3, key);
    assert ValuesUnder(s1, key) == ValuesUnder(s2, key);
    assert ValuesUnder(s0, key) == ValuesUnder(s1, key);
  }

  /** The preferences written before the VT selection is examined. */
  lemma SetupValues(d: Daemon, req: ScanRequest, mainIndex: int, ovasId: string)
    ensures ValuesUnder(SetupWrites(d, req, mainIndex, ovasId), PrefsKey(ovasId)) ==
      OptionRecords(d.params, req.options)
      + [Record("ov_maindbid", IntToString(mainIndex)), Record("TARGET", req.target), Record("port_range", req.ports)]
      + BuildCredentialsAsPrefs(req.credentials)
  {
    var pk := PrefsKey(ovasId);
    KeysDistinct(req.scanId, ovasId);
    var creds := if |req.credentials| > 0 then [KbWrite(pk, BuildCredentialsAsPrefs(req.credentials))] else [];
    SetupShape(KbWrite(StatusKey(ovasId), ["new"]), KbWrite(GlobalIdKey(req.scanId), [ovasId]),
      KbWrite(pk, OptionRecords(d.params, req.options)),
      KbWrite(pk, [Record("ov_maindbid", IntToString(mainIndex))]),
      KbWrite(pk, [Record("TARGET", req.target)]),
      KbWrite(pk, [Record("port_range", req.ports)]), creds, pk);
    if |req.credentials| > 0 {
      ValuesUnderOne(creds[0], pk);
    }
  }

  /** The values a launched scan writes under its prefs key, in write
      order: the options,
      the main KB index, the target, the port range, the credentials (when
      there are any), the `;`-joined OID list, then one record per VT
      parameter. */
  lemma ScanPrefsLayout(d: Daemon, req: ScanRequest, mainIndex: int, ovasId: string, scannerStarts: bool)
    requires !d.pendingFeed && req.ports != "" && req.vts.Vts?
    requires ProcessVts(d.cache, req.vts.request).Success?
    ensures var o := StartScan(d, req, mainIndex, ovasId, scannerStarts);
      var p := ProcessVts(d.cache, req.vts.request).value;
      && (o.Launched? || o.LaunchFailed?)
      && (o.Launched? <==> scannerStarts)
      && ValuesUnder(o.writes, PrefsKey(ovasId)) ==
           OptionRecords(d.params, req.options)
           + [Record("ov_maindbid", IntToString(mainIndex)), Record("TARGET", req.target), Record("port_range", req.ports)]
           + BuildCredentialsAsPrefs(req.credentials)
           + [Record("plugin_set", Join(p.oids, ";"))]
           + Records(p.params)
  {
    var pk := PrefsKey(ovasId);
    var p := ProcessVts(d.cache, req.vts.request).value;
    var setup := SetupWrites(d, req, mainIndex, ovasId);
    var plugin := [KbWrite(pk, [Record("plugin_set", Join(p.oids, ";"))])];
    var params := ParamWrites(pk, p.params);
    assert StartScan(d, req, mainIndex, ovasId, scannerStarts).writes == setup + plugin + params;
    SetupValues(d, req, mainIndex, ovasId);
    ValuesUnderOne(plugin[0], pk);
    ParamWritesValues(pk, p.params);
    ValuesUnderAppend(setup, plugin, pk);
    ValuesUnderAppend(setup + plugin, params, pk);
  }

  /** The scanner recovers the OID list from the `plugin_set` record when no
      OID holds a `;` (an empty list would come back as one empty name). */
  lemma PluginSetReadsBack(oids: seq<string>)
    requires |oids| >= 1
    requires forall i :: 0 <= i < |oids| ==> ';' !in oids[i]
    ensures ParseRecord(Record("plugin_set", Join(oids, ";"))) == Some(("plugin_set", Join(oids, ";")))
    ensures Split(Join(oids, ";"), ";") == oids
  {
    RecordRoundTrip("plugin_set", Join(oids, ";"));
    SplitJoin(oids, ';');
  }

  /** Each option record reads back as its key and its rendered value; for a
      boolean-typed option that value is `yes` exactly when the option
      equals 1. */
  lemma OptionRecordReadsBack(params: Dict<string, ParamSpec>, options: Dict<string, Value>, i: nat)
    requires i < |options| && '|' !in options[i].0
    ensures ParseRecord(OptionRecords(params, options)[i]) ==
      Some((options[i].0, RenderOption(params, options[i].0, options[i].1)))
    ensures TypeOf(params, options[i].0) == Some(Boolean) ==>
      (ParseRecord(OptionRecords(params, options)[i]).value.1 == "yes" <==> EqualsOne(options[i].1))
  {
    RecordRoundTrip(options[i].0, RenderOption(params, options[i].0, options[i].1));
  }

  /** A feed update deferred because scans are running keeps every new scan
      from starting, before any KB is taken. */
  lemma DeferredFeedBlocksStart(s: FeedState, o: Observation, params: Dict<string, ParamSpec>,
                                req: ScanRequest, mainIndex: int, ovasId: string, scannerStarts: bool)
    requires AnyRunning(o.alive) && UpdateDue(s, o.storeVersion)
    ensures var after := CheckFeed(s, o).state;
      StartScan(Daemon(after.pendingFeed, params, after.vts), req, mainIndex, ovasId, scannerStarts)
        == Rejected(PendingFeedMessage, false, [])
  {
  }
}
