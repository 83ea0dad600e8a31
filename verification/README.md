# ospd-openvas wrapper core, modelled in Dafny

This project models the logic of the ospd-openvas daemon wrapper
(`ospd_openvas/wrapper.py`). It proves properties of that model. The
modelled parts are:

- **Scanner parameters.** The shipped `OSPD_PARAMS` table and the `yes`/`no`
  rendering of booleans. Also `parse_param`, which refreshes the table's
  defaults from the scanner's `key = value` settings dump.
- **VT cache.** `load_vts` turns the metadata dict of every VT the store
  lists into a cache entry. It pops the mandatory header, the optional text
  fields, the severity and the dependencies, and keeps the rest as
  `custom`. A VT that cannot be read ends the load with its exception.
  `check_feed` reloads the cache when the feed version changes, but only
  while no scan runs. Otherwise it flags the update as pending.
- **VT selection.** `get_vts_in_groups` resolves family filters.
  `get_vt_param_type` and `check_param_type` look up and check parameter
  types. `process_vts` turns a scan's VT request into the OID list and the
  parameter records.
- **Scan start.** `build_credentials_as_prefs` expands credentials into
  preference records. `exec_scan` rejects a start, or writes the scan's
  preference list into the store before it launches the scanner.
- **Polling.** The loop of `exec_scan` waits for the scanner, then sweeps
  the auxiliary KBs. It releases those whose scan finished, and it ends when
  the scan is stopped or no KB of the scan is left.

Modelling choices:

- Python dicts are sequences of (key, value) pairs in insertion order
  (`Dicts`).
- Exceptions that escape the wrapper are `Failure` values of a `Result`:
  `KeyError`, `ValueError` with CPython's message, and `NameError`.
- A preference record is `key|||value`. The scanner, which is not part of
  this model, splits each record at its first `|||`. `Prefs.ParseRecord` is
  that reading, written out as the reference inverse of the record format.
  It models no line of the wrapper.
- The store (redis, the NVT cache) is reduced to inputs. These are the list
  of VT sources, one observation per scheduler or polling tick, and the list
  of `add_single_item` writes a scan start makes.

## Model

| member | source | states |
|---|---|---|
| OspdParams.FromBoolToStr | ospd_openvas/wrapper.py:199-202 | The result is `yes` or `no`. It is `yes` exactly when the value equals 1: integer 1 or `True`, but not the string `'1'`. |
| OspdParams.ParseLine | ospd_openvas/wrapper.py:244-250 | A line of the settings dump is a setting exactly when it holds one `=`. The key is the stripped text before it. The value is the stripped text after it, with `no`/`yes` read as 0/1. |
| OspdParams.SplitCount | ospd_openvas/wrapper.py:245-246 | Splitting at a character yields one more piece than there are occurrences of it. So `len(elem) == 2` means exactly one `=`. |
| OspdParams.ParseLinesLastWins | ospd_openvas/wrapper.py:243-250 | The parsed dict gives each key the value of the last line that sets it. A key no line sets has no value. |
| OspdParams.ConfigBoolRoundTrip | ospd_openvas/wrapper.py:238-249 | A `yes`/`no` setting read as 1/0 renders back to the scanner's own word. |
| OspdParams.UpdateDefaults | ospd_openvas/wrapper.py:251-253 | The refresh keeps every table entry and its order. An entry takes the parsed value as its default when the dump sets its name. Nothing else changes. |
| OspdParams.ParseParamDefaults | ospd_openvas/wrapper.py:235-253 | After `parse_param`, a parameter's default is the value of the last dump line that sets it, or else the old default. Its name, type and mandatory flag are unchanged. |
| OspdParams.UpdateDefaultsKeepsTypes | ospd_openvas/wrapper.py:251-253 | The refresh never changes the parameter type that the scan start uses for boolean rendering. |
| Prefs.RecordRoundTrip | ospd_openvas/wrapper.py:1001 | A record built as name, triple-bar separator, value reads back as exactly that name and value whenever the name holds no bar character. |
| Credentials.ServicePrefsCount | ospd_openvas/wrapper.py:897-955 | Records per credential: ssh gives 3 with type `up` and 4 otherwise; smb and esxi give 2; snmp gives 6; any other service gives none. |
| Credentials.BuildCount | ospd_openvas/wrapper.py:886-957 | The record count is the sum over the entries of the dict of each entry's count. |
| Credentials.BuildAppend | ospd_openvas/wrapper.py:893-957 | The output follows the dict's order: the records of two dicts joined are the records of the first, then those of the second. |
| Credentials.UnknownServicesIgnored | ospd_openvas/wrapper.py:894-957 | Entries with an unsupported service key contribute nothing. The output equals that of the dict with only the supported entries. |
| Credentials.SshPasswordCredential | ospd_openvas/wrapper.py:901-910 | An ssh credential of type `up` reads back as port, login name and password records, in that order. There is no private-key record. |
| Credentials.SshKeyCredential | ospd_openvas/wrapper.py:901-918 | Any other ssh credential reads back as port, login name, key passphrase (taken from `password`) and private key. |
| Credentials.SmbAndEsxiCredentials | ospd_openvas/wrapper.py:919-930 | smb and esxi credentials read back as their login and password records. |
| Credentials.SnmpRecordsLackSeparator | ospd_openvas/wrapper.py:932-955 | When no credential value holds a bar character, none of the six snmp strings reads back as a record, because they lack the separator. |
| VtCache.ResolveDependencies | ospd_openvas/wrapper.py:353-355 | Each dependency maps to the OID registered for `filename:<dep>`, or to `None` when no such file is known. |
| VtCache.PopHeader | ospd_openvas/wrapper.py:302-304 | `KeyError` for `name`, then `creation_date`, then `last_modification`, whichever is missing first. It succeeds exactly when all three are present. The rest of the dict is the metadata without them. |
| VtCache.PopTextsSpec | ospd_openvas/wrapper.py:306-334 | Each text field is the metadata's value or `None`. `solution_type` is taken only with a `solution`. `qod` is taken only without a `qod_type`. The dict loses exactly the popped keys. |
| VtCache.PopSeverity | ospd_openvas/wrapper.py:336-348 | `KeyError('cvss_base_vector')` when neither vector key is present. `NameError` when `severity_type` is present. Otherwise the vector prefers `severity_base_vector`, the type is `cvss_base_v2`, and the origin is kept if present. |
| VtCache.PopDependencies | ospd_openvas/wrapper.py:350-355 | No dependencies without the key. Otherwise its value is split at `, ` and resolved, and the key is popped. |
| VtCache.ExtractVtErrors | ospd_openvas/wrapper.py:302-355 | A VT's metadata loads exactly when the reference check `LoadError` finds nothing. A failure carries the exception that check names. |
| VtCache.ExtractVtHeader | ospd_openvas/wrapper.py:302-304 | A loaded VT has the metadata's name and creation and modification times, and the store's parameters and references. |
| VtCache.ExtractVtTexts | ospd_openvas/wrapper.py:306-334 | Each text field of a loaded VT is stated in terms of the original metadata, with the `solution_type` and `qod` conditions. |
| VtCache.ExtractVtSeverity | ospd_openvas/wrapper.py:336-348 | The severity of a loaded VT in terms of the original metadata. |
| VtCache.ExtractVtDependencies | ospd_openvas/wrapper.py:350-355 | The dependencies of a loaded VT in terms of the original metadata. |
| VtCache.ExtractVtCustom | ospd_openvas/wrapper.py:301-362 | `custom` is the metadata without exactly the popped keys, in order. |
| VtCache.CustomKeepsTheRest | ospd_openvas/wrapper.py:301-362 | A popped key is absent from `custom`. Every other key keeps its metadata value. |
| VtCache.AddVt | ospd_openvas/wrapper.py:357-378 | The first VT with an OID stays and a later duplicate is dropped. Other OIDs are untouched, and duplicate-free tables stay duplicate-free. |
| VtCache.LoadIntoError | ospd_openvas/wrapper.py:298-381 | The load stops with the exception of the first VT that cannot be read, or finishes without one. |
| VtCache.LoadIntoGet | ospd_openvas/wrapper.py:298-381 | An OID already in the table keeps its entry. Any other OID maps to the entry of its first readable occurrence before the first failing VT, and is absent when there is none. |
| VtCache.LoadIntoDistinct | ospd_openvas/wrapper.py:357-378 | The table never holds an OID twice. |
| VtCache.LoadVtsSpec | ospd_openvas/wrapper.py:293-381 | `load_vts` starts from an empty table. The error is that of the first unreadable VT. Each OID maps to its first readable occurrence before that VT. No OID is held twice. |
| Feed.CheckFeed | ospd_openvas/wrapper.py:264-287 | If a scan runs, the update is only flagged as pending. If none runs and an update is due, the table is rebuilt; on success it is current with the store, and on an exception the version and pending flag are untouched. With no update due, nothing changes. |
| Feed.CheckFeedSettles | ospd_openvas/wrapper.py:285-287 | A reload that completes leaves the daemon current, so the next tick changes nothing. |
| Feed.DeferIdempotent | ospd_openvas/wrapper.py:279-284 | A second tick while scans still run changes nothing more. |
| Feed.FrozenWhileScansRun | ospd_openvas/wrapper.py:269-284 | While a scan is alive at every tick, the table and its version stay as they are, no exception occurs, and a pending flag stays set. |
| Feed.ChangeSeenStaysPending | ospd_openvas/wrapper.py:274-284 | A feed change seen while scans run stays pending through every later tick on which scans run. |
| VtSelection.GroupByFamilyCorrect | ospd_openvas/wrapper.py:810-816 | The family index maps exactly the occurring families, `None` included, to all their OIDs in table order. |
| VtSelection.FilterMembersSpec | ospd_openvas/wrapper.py:818-821 | A filter with one `=` adds the members of the named family, or nothing. Any other filter raises the `ValueError` of a failed unpack. |
| VtSelection.GetVtsInGroupsCorrect | ospd_openvas/wrapper.py:802-822 | The result is the concatenation of each filter's selection, in order and without deduplication. The first malformed filter raises instead. |
| VtSelection.SelectsAllAppend | ospd_openvas/wrapper.py:818-821 | The selection of two filter lists joined is the selection of the first, then that of the second. |
| VtSelection.GetVtParamType | ospd_openvas/wrapper.py:824-829 | `KeyError` exactly for an OID not in the cache. A declared parameter gives its type; any other gives `False`. |
| VtSelection.CheckParamTypeCorrect | ospd_openvas/wrapper.py:832-852 | `check_param_type` returns `None` exactly for values that fit the type. Free-form types take anything. A checkbox takes `yes`/`no`. An integer takes whatever `int()` accepts. |
| VtSelection.SeparatorFailsIntegerCheck | ospd_openvas/wrapper.py:845-850 | An integer value that starts with an ASCII separator (`\x1c`-`\x1f`) fails the check. `int()` does not trim those characters, although `strip()` does. |
| VtSelection.PrintedIntegersFit | ospd_openvas/wrapper.py:845-850 | Every printed integer passes the integer check. |
| VtSelection.CheckboxOnlyYesNo | ospd_openvas/wrapper.py:842-844 | A checkbox value passes exactly when it is `yes` or `no`. |
| VtSelection.UnknownTypeRejects | ospd_openvas/wrapper.py:836-852 | A type outside the known ones rejects every value. |
| VtSelection.ParamRecordsInOrder | ospd_openvas/wrapper.py:866-882 | The records are exactly one `name[type]:id` record per parameter with a non-empty declared type, in the request's order, with duplicates kept. The warnings are one per such parameter whose value fails its check, in the same order. |
| VtSelection.ParamRecordsWarnings | ospd_openvas/wrapper.py:866-882 | A warning is logged exactly for each usable parameter whose value fails the check for its type, `integer` for `timeout`. |
| VtSelection.FirstMalformedSpec | ospd_openvas/wrapper.py:818-819 | When some filter lacks exactly one `=`, the one that raises is the first such filter. |
| VtSelection.ProcessExplicitSpec | ospd_openvas/wrapper.py:863-865 | The explicit VTs are listed in request order. The loop fails with `KeyError` exactly at the first OID the cache lacks. |
| VtSelection.ProcessVtsSpec | ospd_openvas/wrapper.py:854-883 | Errors come in this precedence: missing `vt_groups`, then a malformed filter, then an unknown explicit OID. Otherwise the OIDs are the group selection followed by the explicit OIDs |
| VtSelection.ProcessVtsParams | ospd_openvas/wrapper.py:854-883 | The records of a successful `process_vts` are those of the explicit VTs' usable parameters, VT after VT, in request order. The group filters add none. |
| VtSelection.TimeoutCheckedAsInteger | ospd_openvas/wrapper.py:872-882 | `timeout` is checked as an integer whatever its declared type. A failure is only logged, and the record still names the declared type. |
| VtSelection.ProcessExplicitInOrder | ospd_openvas/wrapper.py:863-882 | After a successful explicit loop every OID is known. The records are those of each VT's usable parameters, VT after VT, in request order, with duplicates kept. |
| OspdParams.ShippedBooleanTypes | ospd_openvas/wrapper.py:54-196 | The shipped table types an option boolean exactly when it is one of the eight boolean options. |
| ScanStart.ShippedRendering | ospd_openvas/wrapper.py:992-999 | With the shipped table, before or after `parse_param` refreshes it, exactly the eight boolean options are written as `yes`/`no`. Every other option, known or not, is written as `str(value)`. |
| ScanStart.RenderOption | ospd_openvas/wrapper.py:992-999 | A boolean-typed option is written `yes` exactly when it equals 1, and `no` otherwise. Any other option is written as `str(value)`. |
| ScanStart.OptionRecords | ospd_openvas/wrapper.py:992-1000 | There is one key/value record (joined by the triple-bar separator) per option, in option order. |
| ScanStart.StartScanRejections | ospd_openvas/wrapper.py:961-974 | A start is refused (returns 2) exactly when a feed update is pending, the port list is empty, or no VTs were given. Only the third refusal happens after a KB was taken. |
| ScanStart.StartScanRaises | ospd_openvas/wrapper.py:1025-1028 | An exception from `process_vts` escapes exactly when it raises. |
| ScanStart.KeysDistinct | ospd_openvas/wrapper.py:983-1002 | The preference key differs from both the status key and the global-id key, whatever the ids. |
| ScanStart.StatusGlobalIdDistinct | ospd_openvas/wrapper.py:985-990 | The status key and the global-id key differ whenever the internal id holds no `/`, as a UUID never does. |
| ScanStart.SetupValues | ospd_openvas/wrapper.py:992-1023 | The preferences written before the VT selection: options, `ov_maindbid`, `TARGET`, `port_range`, then the credential records. |
| ScanStart.ScanPrefsLayout | ospd_openvas/wrapper.py:978-1068 | A start that gets past the selection launches exactly when the scanner starts. The values written under the prefs key, in write order, are the setup records, `plugin_set`, then one record per VT parameter. |
| ScanStart.PluginSetReadsBack | ospd_openvas/wrapper.py:1029-1032 | The `plugin_set` record reads back, and splitting its value at `;` recovers the OID list. |
| ScanStart.OptionRecordReadsBack | ospd_openvas/wrapper.py:992-1000 | Each option record reads back as its key and rendered value. For a boolean it reads `yes` exactly when the option equals 1. |
| ScanStart.DeferredFeedBlocksStart | ospd_openvas/wrapper.py:961-969 | After `check_feed` defers an update, every new start is refused before any KB is taken. |
| Polling.WaitReady | ospd_openvas/wrapper.py:1073-1074 | The wait ends at the first observation whose status is not `new`. |
| Polling.ReleasedAreFinished | ospd_openvas/wrapper.py:1086-1102 | A sweep releases only KBs that belong to this scan and whose status is `finished`, and only KBs that are listed. |
| Polling.FoundAmongExists | ospd_openvas/wrapper.py:1086-1097 | The sweep's running flag is set exactly when some listed KB seen so far belongs to this scan. |
| Polling.Sweep | ospd_openvas/wrapper.py:1084-1102 | The sweep finds this scan exactly when some listed KB, other than the main KB, carries its non-empty id. It releases exactly the reference `Releases` list. |
| Polling.SweptExcludesMain | ospd_openvas/wrapper.py:1087-1088 | No sweep releases the main KB, because the sweep skips its index. |
| Polling.PollScan | ospd_openvas/wrapper.py:1076-1112 | The loop ends at the first tick where the scan is stopped, or where a sweep after the first finds no KB of the scan. The releases are those of the sweeps performed, in order. Only the second case then releases the main KB, as the last release; a stop or an unfinished run never releases it. |

## Left out

- Redis, the NVT cache and OpenvasDB are not modelled. The store is an input:
  the VT sources `load_vts` reads, the per-tick observations of the polling
  loop, and the list of writes a start makes. `db.py` and `nvticache.py` are
  not part of this model.
- The store's file-to-OID index is a dict, so each file appears once.
  `LoadVts` assumes the sources list each file once.
- The `OSPDaemon` base class is not part of this model. `add_vt` is modelled
  as "first OID wins". Its invalid-OID result (-2, only logged) is not
  modelled. `get_scan_ports`, `get_scan_options`, `get_scan_credentials` and
  `get_scan_vts` become fields of the scan request.
- `OspdParams.OspdParamsTable` leaves out the parameter descriptions (text
  only). The registration of the table in `__init__` (218-219) is not
  modelled.
- `parse_param` is modelled on the text the scanner prints. The subprocess
  call and its ASCII decoding are not.
- `redis_nvticache_init`, `check`, `scheduler` and `main` are not modelled.
  They are process and subprocess plumbing.
- The XML rendering helpers (387-618) are not modelled. They are output
  formatting and hold no decision logic.
- `update_progress`, `get_openvas_status`, `get_openvas_result`,
  `get_openvas_timestamp_scan_host` and `get_severity_score` (643-765) are
  not modelled. They drain results into the base class's result store and
  rely on CVSS scoring outside this file. An exception they raise ends the
  polling loop before the main KB is released (1111), and that path is not
  modelled: a result too short for `msg[3]` (700), a result OID missing from
  the VT cache (703), or a progress total `float()` rejects (657). The
  polling outcomes cover only the stop, finish and still-polling ends.
- `stop_scan` (782-800) is not modelled. It signals processes through
  `psutil`. The model sees its effect only as the `stopped` flag of a polling
  tick.
- Log messages and scan-log entries are not modelled, with one exception.
  The debug message `process_vts` logs for a parameter value that fails its
  type check (876-878) is modelled as a `ParamWarning`. A rejection keeps its
  error message; the `Launched` outcome stands for the three scan-log entries.
- The `internal/ovas_pid` write and the `time.sleep` pauses are not modelled.
  Concurrency between scan processes is not modelled either.
- Polling observations are arbitrary per tick. A release made by one sweep
  does not feed back into the next observation; the next tick's list is
  taken as given.
- `internal/dbindex` entries are integers in the model. The store's own
  typing of that list is not part of this model.
- `VtSelection.CheckParamTypeCorrect`: `int()` is modelled for ASCII digits,
  an optional sign, surrounding whitespace and single underscores between
  digits. Its whitespace is `isspace()` without the ASCII separators
  `\x1c`-`\x1f`, which `int()` does not trim. Non-ASCII Unicode digits
  are not modelled.
- `VtSelection.GetVtParamType`: every declared parameter counts as truthy.
  An empty parameter dict in the cache (which `.get()` would treat as
  falsy) cannot occur in the model, because a parameter always has a type
  field.
- `VtSelection.ProcessVtsSpec`: `vt_groups` present with the value `None`
  is not modelled. The request either lacks the key (`KeyError`) or holds
  a list.
- `Feed.CheckFeed`: the daemon's initial `pending_feed = None` is modelled
  as `false`. Both are falsy, and the code only tests truthiness.
- `Feed.CheckFeed`: the store's feed version is read once per tick. The
  source reads it twice, in `check_feed` (277) and again at the end of
  `load_vts` (382). An update that lands between the two reads is recorded
  at the later version, and the model does not capture that.
