/** The tail of `exec_scan` once the scanner runs: the wait for the scanner
    to pick the scan up, and the polling loop that sweeps the auxiliary KBs
    until none of them carries this scan any more. The store is seen
    through one observation per tick; result draining is not modelled. */
module Polling {
  import opened Wrappers

  /** What an auxiliary KB holds: its `internal/scan_id` and the status
      under `internal/<scan id>`, each `None` when unset. */
  datatype AuxKb = AuxKb(scanId: Option<string>, status: Option<string>)

  /** One tick: whether the client stopped the scan (status `stop_all` in the
      main KB), the list under `internal/dbindex`, and the auxiliary KBs. */
  datatype Tick = Tick(stopped: bool, dbIndices: seq<int>, aux: map<int, AuxKb>)

  /** How the loop ends. Both ends return 1. `Polling` means the
      observations ran out first. `released` lists the KBs released on the
      way, in order; only `Finished` ends it with the main KB. */
  datatype PollOutcome =
    | Stopped(at: nat, released: seq<int>)
    | Finished(at: nat, released: seq<int>)
    | Polling(released: seq<int>)

  /** The wait before the loop: the first observation of the scan's status
      that is not `new`, if any. */
  function WaitReady(statuses: seq<Option<string>>): (r: Option<nat>)
    ensures r.Some? ==> r.value < |statuses| && statuses[r.value] != Some("new")
    ensures r.Some? ==> forall j :: 0 <= j < r.value ==> statuses[j] == Some("new")
    ensures r.None? ==> forall j :: 0 <= j < |statuses| ==> statuses[j] == Some("new")
    decreases |statuses|
  {
    if |statuses| == 0 then None
    else if statuses[0] != Some("new") then Some(0)
    else match WaitReady(statuses[1..])
      case None => None
      case Some(k) => Some(k + 1)
  }

  function AuxOf(t: Tick, i: int): AuxKb {
    if i in t.aux then t.aux[i] else AuxKb(None, None)
  }

  /** Auxiliary KB `i` belongs to this scan: it is not the main KB and its
      non-empty `internal/scan_id` is the scan's internal id. */
  predicate Matches(t: Tick, main: int, id: string, i: int) {
    i != main && AuxOf(t, i).scanId.Some? && AuxOf(t, i).scanId.value != "" && AuxOf(t, i).scanId.value == id
  }

  /** Some listed KB belongs to this scan at this tick. */
  predicate Found(t: Tick, main: int, id: string) {
    exists k :: 0 <= k < |t.dbIndices| && Matches(t, main, id, t.dbIndices[k])
  }

  /** Whether the sweep releases the `n`-th listed KB: it belongs to this
      scan and its own status is `finished`. */
  predicate ReleasedAt(t: Tick, main: int, id: string, n: nat)
    requires n < |t.dbIndices|
  {
    Matches(t, main, id, t.dbIndices[n]) && AuxOf(t, t.dbIndices[n]).status == Some("finished")
  }

  /** The KBs among the first `n` listed that a sweep releases, in list
      order. */
  function ReleasedAmong(t: Tick, main: int, id: string, n: nat): seq<int>
    requires n <= |t.dbIndices|
  {
    if n == 0 then []
    else ReleasedAmong(t, main, id, n - 1) + (if ReleasedAt(t, main, id, n - 1) then [t.dbIndices[n - 1]] else [])
  }

  /** The KBs a whole sweep releases. */
  function Releases(t: Tick, main: int, id: string): seq<int> {
    ReleasedAmong(t, main, id, |t.dbIndices|)
  }

  /** A sweep releases only listed KBs of this scan whose status is
      `finished`. */
  lemma {:induction false} ReleasedAreFinished(t: Tick, main: int, id: string, n: nat, x: int)
    requires n <= |t.dbIndices|
    requires x in ReleasedAmong(t, main, id, n)
    ensures Matches(t, main, id, x) && AuxOf(t, x).status == Some("finished")
    ensures exists k :: 0 <= k < n && t.dbIndices[k] == x
  {
    if x !in ReleasedAmong(t, main, id, n - 1) {
      assert ReleasedAt(t, main, id, n - 1) && x == t.dbIndices[n - 1];
    } else {
      ReleasedAreFinished(t, main, id, n - 1, x);
    }
  }

  /** Some of the first `n` listed KBs belongs to this scan. */
  predicate FoundAmong(t: Tick, main: int, id: string, n: nat)
    requires n <= |t.dbIndices|
  {
    n > 0 && (FoundAmong(t, main, id, n - 1) || Matches(t, main, id, t.dbIndices[n - 1]))
  }

  lemma {:induction false} FoundAmongExists(t: Tick, main: int, id: string, n: nat)
    requires n <= |t.dbIndices|
    ensures FoundAmong(t, main, id, n) <==> exists m :: 0 <= m < n && Matches(t, main, id, t.dbIndices[m])
  {
    if n > 0 {
      FoundAmongExists(t, main, id, n - 1);
      if Matches(t, main, id, t.dbIndices[n - 1]) {
        assert exists m :: 0 <= m < n && Matches(t, main, id, t.dbIndices[m]);
      }
    }
  }

  /** Reference: the loop ends at tick `k` when the scan was stopped, or when
      a sweep other than the first finds no KB of this scan. */
  predicate EndsAt(ticks: seq<Tick>, main: int, id: string, k: nat) {
    k < |ticks| && (ticks[k].stopped || (k >= 1 && !Found(ticks[k], main, id)))
  }

  /** The releases of the sweeps of the first `n` ticks. */
  function SweptReleases(ticks: seq<Tick>, main: int, id: string, n: nat): seq<int>
    requires n <= |ticks|
  {
    if n == 0 then [] else SweptReleases(ticks, main, id, n - 1) + Releases(ticks[n - 1], main, id)
  }

  /** No sweep releases the main KB. */
  lemma {:induction false} SweptExcludesMain(ticks: seq<Tick>, main: int, id: string, n: nat)
    requires n <= |ticks|
    ensures main !in SweptReleases(ticks, main, id, n)
  {
    if n > 0 {
      SweptExcludesMain(ticks, main, id, n - 1);
      var t := ticks[n - 1];
      if main in Releases(t, main, id) {
        ReleasedAreFinished(t, main, id, |t.dbIndices|, main);
      }
    }
  }

  /** One sweep over `internal/dbindex`: skip the main KB and KBs without a
      scan id; a KB of this scan counts as found and is released once its
      own status is `finished`. */
  method Sweep(t: Tick, main: int, id: string) returns (found: bool, released: seq<int>)
    ensures found <==> Found(t, main, id)
    ensures released == Releases(t, main, id)
  {
    found := false;
    released := [];
    var i := 0;
    while i < |t.dbIndices|
      invariant 0 <= i <= |t.dbIndices|
      invariant found == FoundAmong(t, main, id, i)
      invariant released == ReleasedAmong(t, main, id, i)
    {
      var idx := t.dbIndices[i];
      if idx != main {
        var aux := AuxOf(t, idx);
        if aux.scanId.Some? && aux.scanId.value != "" && aux.scanId.value == id {
          found := true;
          if aux.status == Some("finished") {
            released := released + [idx];
          }
        }
      }
      i := i + 1;
    }
    FoundAmongExists(t, main, id, |t.dbIndices|);
  }

  /** The polling loop as written: `no_id_found` starts false, is cleared by
      every sweep that meets this scan's KB and set after every sweep; the
      loop breaks when it is still set after a sweep. */
  method PollScan(ticks: seq<Tick>, main: int, id: string) returns (outcome: PollOutcome)
    ensures outcome.Stopped? ==>
      && EndsAt(ticks, main, id, outcome.at)
      && ticks[outcome.at].stopped
      && (forall j :: 0 <= j < outcome.at ==> !EndsAt(ticks, main, id, j))
      && outcome.released == SweptReleases(ticks, main, id, outcome.at)
      && main !in outcome.released
    ensures outcome.Finished? ==>
      && EndsAt(ticks, main, id, outcome.at)
      && !ticks[outcome.at].stopped
      && (forall j :: 0 <= j < outcome.at ==> !EndsAt(ticks, main, id, j))
      && outcome.released == SweptReleases(ticks, main, id, outcome.at + 1) + [main]
    ensures outcome.Polling? ==>
      && (forall j :: 0 <= j < |ticks| ==> !EndsAt(ticks, main, id, j))
      && outcome.released == SweptReleases(ticks, main, id, |ticks|)
      && main !in outcome.released
  {
    var noIdFound := false;
    var released: seq<int> := [];
    var k := 0;
    while k < |ticks|
      invariant 0 <= k <= |ticks|
      invariant noIdFound <==> k >= 1
      invariant forall j :: 0 <= j < k ==> !EndsAt(ticks, main, id, j)
      invariant released == SweptReleases(ticks, main, id, k)
    {
      if ticks[k].stopped {
        SweptExcludesMain(ticks, main, id, k);
        return Stopped(k, released);
      }
      var found, sweep := Sweep(ticks[k], main, id);
      if found {
        noIdFound := false;
      }
      released := released + sweep;
      if noIdFound {
        return Finished(k, released + [main]);
      }
      noIdFound := true;
      k := k + 1;
    }
    SweptExcludesMain(ticks, main, id, |ticks|);
    return Polling(released);
  }
}
