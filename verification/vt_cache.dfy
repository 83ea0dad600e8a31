/** The VT metadata cache (`load_vts`): every VT the store lists is turned
    into a typed entry by popping the known fields out of its free-form
    metadata dict; whatever is not popped stays behind in `custom`. */
module VtCache {
  import opened Wrappers
  import opened Py
  import opened Dicts

  /** One declared parameter of a VT. */
  datatype VtParam = VtParam(ptype: string, name: string, default: string)

  /** The severity descriptor of a VT. */
  datatype Severity = Severity(vector: string, severityType: string, origin: Option<string>)

  /** A VT entry as the daemon keeps it after loading. */
  datatype Vt = Vt(
    name: string,
    params: Dict<string, VtParam>,
    refs: Dict<string, seq<string>>,
    custom: Dict<string, string>,
    creationTime: string,
    modificationTime: string,
    dependencies: seq<Option<string>>,
    summary: Option<string>,
    impact: Option<string>,
    affected: Option<string>,
    insight: Option<string>,
    solution: Option<string>,
    solutionType: Option<string>,
    detection: Option<string>,
    qodType: Option<string>,
    qod: Option<string>,
    severities: Severity)

  /** The in-memory table, keyed by OID, in load order. */
  type VtTable = Dict<string, Vt>

  /** What the store holds for one VT: the file it comes from, its OID, its
      parameter and reference tables and its metadata dict. */
  datatype NvtSource = NvtSource(
    filename: string,
    oid: string,
    params: Dict<string, VtParam>,
    refs: Dict<string, seq<string>>,
    metadata: Dict<string, string>)

  /** The severity type assumed when the metadata names none. */
  const DefaultSeverityType: string := "cvss_base_v2"

  /** The keys `load_vts` pops out of a metadata dict `m` that loads
      successfully. Popping an absent key changes nothing, so the set may
      name keys `m` does not have. */
  function PoppedKeys(m: Dict<string, string>): set<string> {
    HeaderKeys + TextKeys(m) + SeverityKeys(m) + {"dependencies"}
  }

  /** Each dependency is the OID registered for `filename:<dependency>`, or
      `None` when the store knows no such file. */
  function ResolveDependencies(deps: seq<string>, oids: Dict<string, string>): (r: seq<Option<string>>)
    ensures |r| == |deps|
    ensures forall i :: 0 <= i < |deps| ==> (r[i].Some? <==> HasKey(oids, "filename:" + deps[i]))
    ensures forall i :: 0 <= i < |deps| ==> r[i].Some? ==> ("filename:" + deps[i], r[i].value) in oids
  {
    if |deps| == 0 then []
    else [Get(oids, "filename:" + deps[0])] + ResolveDependencies(deps[1..], oids)
  }

  /** `Remove` is `RemoveAll` of one key; three pops in a row remove the
      three keys at once. */
  lemma RemoveThree(d: Dict<string, string>, a: string, b: string, c: string)
    ensures Remove(Remove(Remove(d, a), b), c) == RemoveAll(d, {a, b, c})
  {
    RemoveAllTwice(d, {a}, {b});
    assert {a} + {b} == {a, b};
    RemoveAllTwice(d, {a, b}, {c});
    assert {a, b} + {c} == {a, b, c};
  }

  datatype Header = Header(name: string, created: string, modified: string, rest: Dict<string, string>)

  /** The three fields every VT must have, popped in order: name, creation
      date, last modification. A missing one raises `KeyError`. */
  function PopHeader(m: Dict<string, string>): (r: Result<Header, Exception>)
    ensures !HasKey(m, "name") ==> r == Failure(KeyError("name"))
    ensures HasKey(m, "name") && !HasKey(m, "creation_date") ==> r == Failure(KeyError("creation_date"))
    ensures HasKey(m, "name") && HasKey(m, "creation_date") && !HasKey(m, "last_modification") ==>
      r == Failure(KeyError("last_modification"))
    ensures r.Success? <==> HasKey(m, "name") && HasKey(m, "creation_date") && HasKey(m, "last_modification")
    ensures r.Success? ==>
      && Some(r.value.name) == Get(m, "name")
      && Some(r.value.created) == Get(m, "creation_date")
      && Some(r.value.modified) == Get(m, "last_modification")
      && r.value.rest == RemoveAll(m, HeaderKeys)
  {
    if !HasKey(m, "name") then Failure(KeyError("name"))
    else
      var name, c1 := Get(m, "name").value, Remove(m, "name");
      if !HasKey(c1, "creation_date") then Failure(KeyError("creation_date"))
      else
        var created, c2 := Get(c1, "creation_date").value, Remove(c1, "creation_date");
        if !HasKey(c2, "last_modification") then Failure(KeyError("last_modification"))
        else
          var modified, c3 := Get(c2, "last_modification").value, Remove(c2, "last_modification");
          RemoveThree(m, "name", "creation_date", "last_modification");
          Success(Header(name, created, modified, c3))
  }

  const HeaderKeys: set<string> := {"name", "creation_date", "last_modification"}

  /** Popping a key the dict does not hold leaves it as it is. */
  lemma {:induction false} RemoveAllAbsent(d: Dict<string, string>, k: string)
    requires !HasKey(d, k)
    ensures RemoveAll(d, {k}) == d
  {
    if |d| > 0 {
      assert Keys(d) == [d[0].0] + Keys(d[1..]);
      RemoveAllAbsent(d[1..], k);
    }
  }

  /** `if k in d: x = d.pop(k)`: the value, if any, and the dict without it. */
  function PopIfPresent(c: Dict<string, string>, k: string): (r: (Option<string>, Dict<string, string>))
    ensures r.0 == Get(c, k)
    ensures r.1 == RemoveAll(c, {k})
  {
    if HasKey(c, k) then (Get(c, k), Remove(c, k))
    else
      RemoveAllAbsent(c, k);
      (None, c)
  }

  /** One more pop on a dict from which the keys `done` were popped before:
      it sees the original value of a key not popped yet. */
  lemma PopAfter(m: Dict<string, string>, done: set<string>, k: string)
    requires k !in done
    ensures PopIfPresent(RemoveAll(m, done), k).0 == Get(m, k)
    ensures PopIfPresent(RemoveAll(m, done), k).1 == RemoveAll(m, done + {k})
  {
    RemoveAllGet(m, done, k);
    RemoveAllTwice(m, done, {k});
  }

  datatype Texts = Texts(
    summary: Option<string>,
    impact: Option<string>,
    affected: Option<string>,
    insight: Option<string>,
    solution: Option<string>,
    solutionType: Option<string>,
    detection: Option<string>,
    qodType: Option<string>,
    qod: Option<string>)

  /** The five plain text fields, each popped only when present, in order:
      summary, impact, affected, insight, solution. */
  function PopPlainTexts(c: Dict<string, string>)
    : (Option<string>, Option<string>, Option<string>, Option<string>, Option<string>, Dict<string, string>)
  {
    var (summary, c4) := PopIfPresent(c, "summary");
    var (impact, c5) := PopIfPresent(c4, "impact");
    var (affected, c6) := PopIfPresent(c5, "affected");
    var (insight, c7) := PopIfPresent(c6, "insight");
    var (solution, c8) := PopIfPresent(c7, "solution");
    (summary, impact, affected, insight, solution, c8)
  }

  /** The optional text fields. The solution type is taken only along with
      a solution; a quality-of-detection type wins over a plain value, which
      then stays in the dict. */
  function PopTexts(c: Dict<string, string>): (Texts, Dict<string, string>) {
    var (summary, impact, affected, insight, solution, c8) := PopPlainTexts(c);
    var (solutionType, c9) := if solution.Some? then PopIfPresent(c8, "solution_type") else (None, c8);
    var (detection, c10) := PopIfPresent(c9, "vuldetect");
    var (qodType, c11) := PopIfPresent(c10, "qod_type");
    var (qod, c12) := if qodType.Some? then (None, c11) else PopIfPresent(c11, "qod");
    (Texts(summary, impact, affected, insight, solution, solutionType, detection, qodType, qod), c12)
  }

  // The keys popped so far, after each step of `PopTexts`.
  const AfterSummary: set<string> := {"summary"}
  const AfterImpact: set<string> := AfterSummary + {"impact"}
  const AfterAffected: set<string> := AfterImpact + {"affected"}
  const AfterInsight: set<string> := AfterAffected + {"insight"}
  const AfterSolution: set<string> := AfterInsight + {"solution"}
  const AfterSolutionType: set<string> := AfterSolution + {"solution_type"}

  /** The keys `PopTexts` removes from `c`: summary, impact, affected,
      insight, solution, the solution type when there is a solution,
      vuldetect, and the quality-of-detection type if present, else the
      plain value. */
  function TextKeys(c: Dict<string, string>): set<string> {
    (if HasKey(c, "solution") then AfterSolutionType else AfterSolution)
    + {"vuldetect"}
    + (if HasKey(c, "qod_type") then {"qod_type"} else {"qod"})
  }

  /** Each key `PopTexts` pops has not been popped before it. */
  lemma TextKeysFresh()
    ensures "impact" !in AfterSummary
    ensures "affected" !in AfterImpact
    ensures "insight" !in AfterAffected
    ensures "solution" !in AfterInsight
    ensures "solution_type" !in AfterSolution
    ensures "vuldetect" !in AfterSolution && "vuldetect" !in AfterSolutionType
  {
  }

  lemma QodKeysFresh()
    ensures "qod_type" !in AfterSolution + {"vuldetect"}
    ensures "qod_type" !in AfterSolutionType + {"vuldetect"}
    ensures "qod" !in AfterSolution + {"vuldetect"}
    ensures "qod" !in AfterSolutionType + {"vuldetect"}
  {
  }

  /** What the pops amount to: every text field is the value the metadata
      had for its key (the solution type only beside a solution, a plain
      quality-of-detection value only without a type), and the dict left
      behind is the input without exactly `TextKeys`. */
  lemma PopPlainTextsSpec(c: Dict<string, string>)
    ensures PopPlainTexts(c) ==
      (Get(c, "summary"), Get(c, "impact"), Get(c, "affected"), Get(c, "insight"), Get(c, "solution"),
       RemoveAll(c, AfterSolution))
  {
    TextKeysFresh();
    var p4 := PopIfPresent(c, "summary");
    var p5 := PopIfPresent(p4.1, "impact");
    PopAfter(c, AfterSummary, "impact");
    var p6 := PopIfPresent(p5.1, "affected");
    PopAfter(c, AfterImpact, "affected");
    var p7 := PopIfPresent(p6.1, "insight");
    PopAfter(c, AfterAffected, "insight");
    PopAfter(c, AfterInsight, "solution");
  }

  lemma PopTextsSpec(c: Dict<string, string>)
    ensures PopTexts(c).0 == Texts(
      Get(c, "summary"), Get(c, "impact"), Get(c, "affected"), Get(c, "insight"), Get(c, "solution"),
      if HasKey(c, "solution") then Get(c, "solution_type") else None,
      Get(c, "vuldetect"), Get(c, "qod_type"),
      if HasKey(c, "qod_type") then None else Get(c, "qod"))
    ensures PopTexts(c).1 == RemoveAll(c, TextKeys(c))
  {
    TextKeysFresh();
    QodKeysFresh();
    PopPlainTextsSpec(c);
    var c8 := RemoveAll(c, AfterSolution);
    var p9 := if HasKey(c, "solution") then PopIfPresent(c8, "solution_type") else (None, c8);
    PopAfter(c, AfterSolution, "solution_type");
    var s9 := if HasKey(c, "solution") then AfterSolutionType else AfterSolution;
    assert p9.1 == RemoveAll(c, s9);
    var p10 := PopIfPresent(p9.1, "vuldetect");
    PopAfter(c, s9, "vuldetect");
    var s10 := s9 + {"vuldetect"};
    var p11 := PopIfPresent(p10.1, "qod_type");
    PopAfter(c, s10, "qod_type");
    var p12 := if p11.0.Some? then (None, p11.1) else PopIfPresent(p11.1, "qod");
    PopAfter(c, s10, "qod");
    assert p12.1 == RemoveAll(c, TextKeys(c));
  }

  /** Every key the text stage may pop. */
  const AllTextKeys: set<string> := AfterSolutionType + {"vuldetect", "qod_type", "qod"}

  lemma TextKeysWithin(c: Dict<string, string>)
    ensures TextKeys(c) <= AllTextKeys
  {
  }

  /** The keys the severity stage pops from `c` when it succeeds. */
  function SeverityKeys(c: Dict<string, string>): set<string> {
    (if HasKey(c, "severity_base_vector") then {"severity_base_vector"} else {"cvss_base_vector"})
    + {"severity_origin"}
  }

  /** The severity descriptor. The vector is the `severity_base_vector` if
      there is one and otherwise the mandatory `cvss_base_vector`. A
      `severity_type` entry makes the code refer to an undefined name
      (`custom` instead of `_custom`) and so raises `NameError`; without one
      the type is `cvss_base_v2`. The origin is optional. */
  function PopSeverity(c: Dict<string, string>): (r: Result<(Severity, Dict<string, string>), Exception>)
    ensures !HasKey(c, "severity_base_vector") && !HasKey(c, "cvss_base_vector") ==>
      r == Failure(KeyError("cvss_base_vector"))
    ensures (HasKey(c, "severity_base_vector") || HasKey(c, "cvss_base_vector")) && HasKey(c, "severity_type") ==>
      r == Failure(NameError("custom"))
    ensures r.Success? <==>
      (HasKey(c, "severity_base_vector") || HasKey(c, "cvss_base_vector")) && !HasKey(c, "severity_type")
    ensures r.Success? ==>
      && Some(r.value.0.vector) == (if HasKey(c, "severity_base_vector") then Get(c, "severity_base_vector")
                                    else Get(c, "cvss_base_vector"))
      && r.value.0.severityType == DefaultSeverityType
      && r.value.0.origin == Get(c, "severity_origin")
      && r.value.1 == RemoveAll(c, SeverityKeys(c))
  {
    var vectorKey := if HasKey(c, "severity_base_vector") then "severity_base_vector" else "cvss_base_vector";
    if !HasKey(c, vectorKey) then Failure(KeyError("cvss_base_vector"))
    else
      var (vector, c13) := PopIfPresent(c, vectorKey);
      RemoveAllGet(c, {vectorKey}, "severity_type");
      if HasKey(c13, "severity_type") then Failure(NameError("custom"))
      else
        var (origin, c14) := PopIfPresent(c13, "severity_origin");
        PopAfter(c, {vectorKey}, "severity_origin");
        Success((Severity(vector.value, DefaultSeverityType, origin), c14))
  }

  /** The dependency list: the `dependencies` entry, if any, split at `, `,
      each name resolved through `oids`. */
  function PopDependencies(c: Dict<string, string>, oids: Dict<string, string>): (r: (seq<Option<string>>, Dict<string, string>))
    ensures r.1 == RemoveAll(c, {"dependencies"})
    ensures !HasKey(c, "dependencies") ==> r.0 == []
    ensures HasKey(c, "dependencies") ==> r.0 == ResolveDependencies(Split(Get(c, "dependencies").value, ", "), oids)
  {
    var (deps, c15) := PopIfPresent(c, "dependencies");
    match deps
    case None => ([], c15)
    case Some(d) => (ResolveDependencies(Split(d, ", "), oids), c15)
  }

  /** The body of the `load_vts` loop for one VT, up to the call to
      `add_vt`: the entry built from the store's data, or the exception that
      ends the load. */
  function ExtractVt(src: NvtSource, oids: Dict<string, string>): Result<Vt, Exception> {
    var h :- PopHeader(src.metadata);
    var (texts, c12) := PopTexts(h.rest);
    var sev :- PopSeverity(c12);
    var (deps, c15) := PopDependencies(sev.1, oids);
    Success(Vt(
      h.name, src.params, src.refs, c15, h.created, h.modified, deps,
      texts.summary, texts.impact, texts.affected, texts.insight, texts.solution, texts.solutionType,
      texts.detection, texts.qodType, texts.qod, sev.0))
  }

  /** Reference statement of when a metadata dict cannot be loaded, checked
      in the order the code touches the keys: the three mandatory keys, then
      a severity vector of either kind, then the absence of `severity_type`. */
  function LoadError(m: Dict<string, string>): Option<Exception> {
    if !HasKey(m, "name") then Some(KeyError("name"))
    else if !HasKey(m, "creation_date") then Some(KeyError("creation_date"))
    else if !HasKey(m, "last_modification") then Some(KeyError("last_modification"))
    else if !HasKey(m, "severity_base_vector") && !HasKey(m, "cvss_base_vector") then Some(KeyError("cvss_base_vector"))
    else if HasKey(m, "severity_type") then Some(NameError("custom"))
    else None
  }

  /** The keys read after the header, none of which the header pops. */
  lemma LaterKeysNotHeader()
    ensures "solution" !in HeaderKeys && "qod_type" !in HeaderKeys
    ensures "summary" !in HeaderKeys && "impact" !in HeaderKeys && "affected" !in HeaderKeys
    ensures "insight" !in HeaderKeys && "solution_type" !in HeaderKeys && "vuldetect" !in HeaderKeys
    ensures "qod" !in HeaderKeys
    ensures "severity_base_vector" !in HeaderKeys && "cvss_base_vector" !in HeaderKeys
    ensures "severity_type" !in HeaderKeys && "severity_origin" !in HeaderKeys
    ensures "dependencies" !in HeaderKeys
  {
  }

  /** The keys read after the text stage, none of which it pops. */
  lemma LaterKeysNotText()
    ensures "severity_base_vector" !in AllTextKeys && "cvss_base_vector" !in AllTextKeys
    ensures "severity_type" !in AllTextKeys && "severity_origin" !in AllTextKeys
    ensures "dependencies" !in AllTextKeys
  {
  }

  /** How the dict the text stage sees relates to the metadata. */
  lemma AfterHeader(m: Dict<string, string>, k: string)
    requires k !in HeaderKeys
    ensures Get(RemoveAll(m, HeaderKeys), k) == Get(m, k)
    ensures HasKey(RemoveAll(m, HeaderKeys), k) == HasKey(m, k)
  {
    RemoveAllGet(m, HeaderKeys, k);
  }

  /** How the dict the severity stage sees relates to the metadata. */
  lemma AfterTexts(m: Dict<string, string>, k: string)
    requires k !in HeaderKeys && k !in AllTextKeys
    ensures Get(RemoveAll(RemoveAll(m, HeaderKeys), TextKeys(RemoveAll(m, HeaderKeys))), k) == Get(m, k)
    ensures HasKey(RemoveAll(RemoveAll(m, HeaderKeys), TextKeys(RemoveAll(m, HeaderKeys))), k) == HasKey(m, k)
  {
    var h := RemoveAll(m, HeaderKeys);
    TextKeysWithin(h);
    RemoveAllGet(h, TextKeys(h), k);
    RemoveAllGet(m, HeaderKeys, k);
  }

  /** A VT loads exactly when the reference check finds nothing wrong, and a
      failed load raises the exception that check names. */
  lemma ExtractVtErrors(src: NvtSource, oids: Dict<string, string>)
    ensures ExtractVt(src, oids).Success? <==> LoadError(src.metadata).None?
    ensures ExtractVt(src, oids).Failure? ==> Some(ExtractVt(src, oids).error) == LoadError(src.metadata)
  {
    var m := src.metadata;
    LaterKeysNotHeader();
    LaterKeysNotText();
    var hd := PopHeader(m);
    if hd.Failure? {
      assert ExtractVt(src, oids) == Failure(hd.error);
    } else {
      var h := hd.value.rest;
      PopTextsSpec(h);
      var c12 := PopTexts(h).1;
      AfterTexts(m, "severity_base_vector");
      AfterTexts(m, "cvss_base_vector");
      AfterTexts(m, "severity_type");
      var sv := PopSeverity(c12);
      if sv.Failure? {
        assert ExtractVt(src, oids) == Failure(sv.error);
      } else {
        assert ExtractVt(src, oids).Success?;
      }
    }
  }

  /** The stages a successful load passes through, as `ExtractVt` composes
      them. */
  lemma ExtractVtStages(src: NvtSource, oids: Dict<string, string>)
    requires ExtractVt(src, oids).Success?
    ensures PopHeader(src.metadata).Success?
    ensures PopSeverity(PopTexts(PopHeader(src.metadata).value.rest).1).Success?
    ensures
      var h := PopHeader(src.metadata).value;
      var t := PopTexts(h.rest).0;
      var sv := PopSeverity(PopTexts(h.rest).1).value;
      var d := PopDependencies(sv.1, oids);
      ExtractVt(src, oids).value == Vt(
        h.name, src.params, src.refs, d.1, h.created, h.modified, d.0,
        t.summary, t.impact, t.affected, t.insight, t.solution, t.solutionType,
        t.detection, t.qodType, t.qod, sv.0)
  {
  }

  /** A loaded VT keeps the mandatory fields and the store's parameter and
      reference tables. */
  lemma ExtractVtHeader(src: NvtSource, oids: Dict<string, string>)
    ensures ExtractVt(src, oids).Success? ==>
      var m, v := src.metadata, ExtractVt(src, oids).value;
      && Some(v.name) == Get(m, "name")
      && Some(v.creationTime) == Get(m, "creation_date")
      && Some(v.modificationTime) == Get(m, "last_modification")
      && v.params == src.params && v.refs == src.refs
  {
    if ExtractVt(src, oids).Success? {
      ExtractVtStages(src, oids);
    }
  }

  /** Each optional text field of a loaded VT is the metadata's value under
      the same conditions as the pops. */
  lemma ExtractVtTexts(src: NvtSource, oids: Dict<string, string>)
    ensures ExtractVt(src, oids).Success? ==>
      var m, v := src.metadata, ExtractVt(src, oids).value;
      && v.summary == Get(m, "summary") && v.impact == Get(m, "impact")
      && v.affected == Get(m, "affected") && v.insight == Get(m, "insight")
      && v.solution == Get(m, "solution")
      && v.solutionType == (if HasKey(m, "solution") then Get(m, "solution_type") else None)
      && v.detection == Get(m, "vuldetect")
      && v.qodType == Get(m, "qod_type")
      && v.qod == (if HasKey(m, "qod_type") then None else Get(m, "qod"))
  {
    if ExtractVt(src, oids).Success? {
      ExtractVtStages(src, oids);
      var m := src.metadata;
      LaterKeysNotHeader();
      PopTextsSpec(PopHeader(m).value.rest);
      AfterHeader(m, "summary");
      AfterHeader(m, "impact");
      AfterHeader(m, "affected");
      AfterHeader(m, "insight");
      AfterHeader(m, "solution");
      AfterHeader(m, "solution_type");
      AfterHeader(m, "vuldetect");
      AfterHeader(m, "qod_type");
      AfterHeader(m, "qod");
    }
  }

  /** The severity of a loaded VT: the vector (the newer key preferred), the
      default type, the optional origin. */
  lemma ExtractVtSeverity(src: NvtSource, oids: Dict<string, string>)
    ensures ExtractVt(src, oids).Success? ==>
      var m, v := src.metadata, ExtractVt(src, oids).value;
      && Some(v.severities.vector) == (if HasKey(m, "severity_base_vector") then Get(m, "severity_base_vector")
                                       else Get(m, "cvss_base_vector"))
      && v.severities.severityType == DefaultSeverityType
      && v.severities.origin == Get(m, "severity_origin")
  {
    if ExtractVt(src, oids).Success? {
      ExtractVtStages(src, oids);
      var m := src.metadata;
      LaterKeysNotHeader();
      LaterKeysNotText();
      PopTextsSpec(PopHeader(m).value.rest);
      AfterTexts(m, "severity_base_vector");
      AfterTexts(m, "cvss_base_vector");
      AfterTexts(m, "severity_origin");
    }
  }

  lemma DependenciesNotSeverity(c: Dict<string, string>)
    ensures "dependencies" !in SeverityKeys(c)
  {
  }

  /** The dependencies of a loaded VT: none without a `dependencies` entry,
      else one lookup per `, `-separated name. */
  lemma ExtractVtDependencies(src: NvtSource, oids: Dict<string, string>)
    ensures ExtractVt(src, oids).Success? ==>
      var m, v := src.metadata, ExtractVt(src, oids).value;
      v.dependencies == if HasKey(m, "dependencies")
                        then ResolveDependencies(Split(Get(m, "dependencies").value, ", "), oids)
                        else []
  {
    if ExtractVt(src, oids).Success? {
      ExtractVtStages(src, oids);
      var m := src.metadata;
      LaterKeysNotHeader();
      LaterKeysNotText();
      var h := PopHeader(m).value.rest;
      PopTextsSpec(h);
      AfterTexts(m, "dependencies");
      var c12 := PopTexts(h).1;
      DependenciesNotSeverity(c12);
      RemoveAllGet(c12, SeverityKeys(c12), "dependencies");
    }
  }

  /** The key sets of the stages, read on the dicts the stages see, are the
      ones read on the metadata itself. */
  lemma StageKeysOfMetadata(m: Dict<string, string>)
    ensures TextKeys(RemoveAll(m, HeaderKeys)) == TextKeys(m)
    ensures SeverityKeys(RemoveAll(RemoveAll(m, HeaderKeys), TextKeys(RemoveAll(m, HeaderKeys)))) == SeverityKeys(m)
  {
    LaterKeysNotHeader();
    LaterKeysNotText();
    AfterHeader(m, "solution");
    AfterHeader(m, "qod_type");
    AfterTexts(m, "severity_base_vector");
  }

  /** What a loaded VT keeps as `custom` is the metadata without exactly the
      popped keys, in the metadata's order. */
  lemma ExtractVtCustom(src: NvtSource, oids: Dict<string, string>)
    ensures ExtractVt(src, oids).Success? ==>
      ExtractVt(src, oids).value.custom == RemoveAll(src.metadata, PoppedKeys(src.metadata))
  {
    if ExtractVt(src, oids).Success? {
      ExtractVtStages(src, oids);
      var m := src.metadata;
      var h := PopHeader(m).value.rest;
      assert h == RemoveAll(m, HeaderKeys);
      PopTextsSpec(h);
      var c12 := PopTexts(h).1;
      assert c12 == RemoveAll(h, TextKeys(h));
      StageKeysOfMetadata(m);
      var c14 := PopSeverity(c12).value.1;
      assert c14 == RemoveAll(c12, SeverityKeys(m));
      var c15 := PopDependencies(c14, oids).1;
      assert c15 == RemoveAll(c14, {"dependencies"});
      RemoveAllTwice(m, HeaderKeys, TextKeys(m));
      RemoveAllTwice(m, HeaderKeys + TextKeys(m), SeverityKeys(m));
      RemoveAllTwice(m, HeaderKeys + TextKeys(m) + SeverityKeys(m), {"dependencies"});
    }
  }

  /** Consequently no popped key is left in `custom`, and every other key of
      the metadata is there with its value. */
  lemma CustomKeepsTheRest(src: NvtSource, oids: Dict<string, string>, k: string)
    requires ExtractVt(src, oids).Success?
    ensures k in PoppedKeys(src.metadata) ==> !HasKey(ExtractVt(src, oids).value.custom, k)
    ensures k !in PoppedKeys(src.metadata) ==> Get(ExtractVt(src, oids).value.custom, k) == Get(src.metadata, k)
  {
    ExtractVtCustom(src, oids);
    RemoveAllGet(src.metadata, PoppedKeys(src.metadata), k);
  }

  // ---------------------------------------------------------------------------
  // load_vts: the whole table
  // ---------------------------------------------------------------------------

  /** `add_vt` of the daemon base class: an OID already in the table is
      rejected as a duplicate and the table keeps its first entry. */
  function AddVt(table: VtTable, oid: string, vt: Vt): (r: VtTable)
    ensures Get(r, oid) == if HasKey(table, oid) then Get(table, oid) else Some(vt)
    ensures forall k :: k != oid ==> Get(r, k) == Get(table, k)
    ensures DistinctKeys(table) ==> DistinctKeys(r)
  {
    if HasKey(table, oid) then table
    else
      var r := Set(table, oid, vt);
      assert DistinctKeys(table) ==> DistinctKeys(r) by {
        if DistinctKeys(table) {
          SetKeepsDistinct(table, oid, vt);
        }
      }
      r
  }

  /** The `filename -> oid` index the store hands out, in the sources' order;
      dependencies are resolved against it. */
  function OidIndex(sources: seq<NvtSource>): (r: Dict<string, string>)
    ensures |r| == |sources|
    ensures forall i :: 0 <= i < |r| ==> r[i] == (sources[i].filename, sources[i].oid)
  {
    if |sources| == 0 then [] else [(sources[0].filename, sources[0].oid)] + OidIndex(sources[1..])
  }

  /** Each source's OID with the outcome of extracting it. Extraction is
      pure, so computing every outcome up front and consuming them in order
      is the loop's behaviour. */
  function Extractions(sources: seq<NvtSource>, oids: Dict<string, string>): (r: seq<(string, Result<Vt, Exception>)>)
    ensures |r| == |sources|
    ensures forall i :: 0 <= i < |r| ==> r[i] == (sources[i].oid, ExtractVt(sources[i], oids))
  {
    if |sources| == 0 then [] else [(sources[0].oid, ExtractVt(sources[0], oids))] + Extractions(sources[1..], oids)
  }

  /** The result of a load: the table as far as it got, and the exception
      that stopped it, if any. */
  datatype LoadOutcome = LoadOutcome(table: VtTable, error: Option<Exception>)

  /** The loop of `load_vts` over the remaining outcomes, adding to `table`.
      The first VT that cannot be extracted ends the load with its
      exception; the entries added before it stay. */
  function LoadInto(table: VtTable, items: seq<(string, Result<Vt, Exception>)>): LoadOutcome
    decreases |items|
  {
    if |items| == 0 then LoadOutcome(table, None)
    else
      match items[0].1
      case Failure(e) => LoadOutcome(table, Some(e))
      case Success(vt) => LoadInto(AddVt(table, items[0].0, vt), items[1..])
  }

  /** `self.vts = dict(); self.load_vts()`: a fresh table from the store. */
  function LoadVts(sources: seq<NvtSource>): LoadOutcome {
    LoadInto([], Extractions(sources, OidIndex(sources)))
  }

  /** Reference: how many leading outcomes are entries, not exceptions. */
  function Loadable(items: seq<(string, Result<Vt, Exception>)>): (n: nat)
    ensures n <= |items|
    ensures forall i :: 0 <= i < n ==> items[i].1.Success?
    ensures n < |items| ==> items[n].1.Failure?
  {
    if |items| == 0 || items[0].1.Failure? then 0
    else 1 + Loadable(items[1..])
  }

  /** Reference: the entry of the first item with OID `k`, looking no
      further than the first failing item. */
  function FirstLoaded(items: seq<(string, Result<Vt, Exception>)>, k: string): Option<Vt> {
    if |items| == 0 || items[0].1.Failure? then None
    else if items[0].0 == k then Some(items[0].1.value)
    else FirstLoaded(items[1..], k)
  }

  /** The load stops with the exception of the first failing item, or with
      none when every item is an entry. */
  lemma {:induction false} LoadIntoError(table: VtTable, items: seq<(string, Result<Vt, Exception>)>)
    ensures var n := Loadable(items);
      LoadInto(table, items).error == (if n == |items| then None else Some(items[n].1.error))
    decreases |items|
  {
    if |items| > 0 && items[0].1.Success? {
      LoadIntoError(AddVt(table, items[0].0, items[0].1.value), items[1..]);
    }
  }

  /** Each OID maps to what the table had, or else to the entry of the first
      item with that OID before the first failing one. */
  lemma {:induction false} LoadIntoGet(table: VtTable, items: seq<(string, Result<Vt, Exception>)>, k: string)
    ensures Get(LoadInto(table, items).table, k) == if HasKey(table, k) then Get(table, k) else FirstLoaded(items, k)
    decreases |items|
  {
    if |items| > 0 && items[0].1.Success? {
      var t := AddVt(table, items[0].0, items[0].1.value);
      LoadIntoGet(t, items[1..], k);
      if !HasKey(table, k) && k != items[0].0 {
        assert !HasKey(t, k);
      }
    }
  }

  /** No OID appears twice in a table built from one without duplicates. */
  lemma {:induction false} LoadIntoDistinct(table: VtTable, items: seq<(string, Result<Vt, Exception>)>)
    requires DistinctKeys(table)
    ensures DistinctKeys(LoadInto(table, items).table)
    decreases |items|
  {
    if |items| > 0 && items[0].1.Success? {
      LoadIntoDistinct(AddVt(table, items[0].0, items[0].1.value), items[1..]);
    }
  }

  /** `load_vts` from scratch: it stops with the exception of the first VT
      that cannot be extracted, or with none; its table holds, for each OID,
      the entry of the first source with that OID before the stop, and no
      OID twice. */
  lemma LoadVtsSpec(sources: seq<NvtSource>, k: string)
    ensures var items := Extractions(sources, OidIndex(sources));
      var n := Loadable(items);
      && LoadVts(sources).error == (if n == |sources| then None else Some(ExtractVt(sources[n], OidIndex(sources)).error))
      && Get(LoadVts(sources).table, k) == FirstLoaded(items, k)
      && DistinctKeys(LoadVts(sources).table)
  {
    var items := Extractions(sources, OidIndex(sources));
    LoadIntoError([], items);
    LoadIntoGet([], items, k);
    LoadIntoDistinct([], items);
  }
}
