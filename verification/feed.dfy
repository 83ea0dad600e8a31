/** `check_feed`, run by the scheduler: a feed whose version differs from
    the loaded one (or an update already flagged as pending) is reloaded
    only when no scan process is alive; otherwise the update is flagged as
    pending, which keeps new scans from starting. */
module Feed {
  import opened Wrappers
  import opened Py
  import opened Dicts
  import opened VtCache

  /** The daemon state `check_feed` reads and writes. `vtsVersion` is `None`
      until the first successful load. */
  datatype FeedState = FeedState(vts: VtTable, vtsVersion: Option<string>, pendingFeed: bool)

  /** What one scheduler tick observes: the liveness of each scan process,
      the store's feed version, and the VTs the store holds. */
  datatype Observation = Observation(alive: seq<bool>, storeVersion: string, sources: seq<NvtSource>)

  /** The new state, and the exception `load_vts` let escape, if any. */
  datatype FeedOutcome = FeedOutcome(state: FeedState, error: Option<Exception>)

  predicate AnyRunning(alive: seq<bool>) {
    exists i :: 0 <= i < |alive| && alive[i]
  }

  /** An update is due: flagged earlier, or the versions differ. */
  predicate UpdateDue(s: FeedState, storeVersion: string) {
    s.pendingFeed || s.vtsVersion != Some(storeVersion)
  }

  /** The loaded table matches the store and nothing is pending. */
  predicate Current(s: FeedState, storeVersion: string) {
    !s.pendingFeed && s.vtsVersion == Some(storeVersion)
  }

  function CheckFeed(s: FeedState, o: Observation): (r: FeedOutcome)
    // Scans are running: the update waits, and the table is left alone.
    ensures AnyRunning(o.alive) ==>
      r == FeedOutcome(s.(pendingFeed := UpdateDue(s, o.storeVersion)), None)
    // Nothing runs and an update is due: the table is rebuilt from scratch;
    // only a complete load records the new version and clears the flag.
    ensures !AnyRunning(o.alive) && UpdateDue(s, o.storeVersion) ==>
      && r.state.vts == LoadVts(o.sources).table
      && r.error == LoadVts(o.sources).error
      && (r.error.None? ==> Current(r.state, o.storeVersion))
      && (r.error.Some? ==> r.state.vtsVersion == s.vtsVersion && r.state.pendingFeed == s.pendingFeed)
    // Nothing is due: no change at all.
    ensures !UpdateDue(s, o.storeVersion) ==> r == FeedOutcome(s, None)
  {
    var running := exists i :: 0 <= i < |o.alive| && o.alive[i];
    var pending := if s.pendingFeed then true else s.vtsVersion != Some(o.storeVersion);
    if running && pending then
      FeedOutcome(if !s.pendingFeed then s.(pendingFeed := true) else s, None)
    else if !running && pending then
      var load := LoadVts(o.sources);
      match load.error
      case Some(e) => FeedOutcome(s.(vts := load.table), Some(e))
      case None => FeedOutcome(FeedState(load.table, Some(o.storeVersion), false), None)
    else FeedOutcome(s, None)
  }

  /** A tick that completes with nothing running leaves the table current,
      and the same observation on the next tick changes nothing: the check
      is idempotent once it has caught up. */
  lemma CheckFeedSettles(s: FeedState, o: Observation)
    requires !AnyRunning(o.alive)
    requires CheckFeed(s, o).error.None?
    ensures Current(CheckFeed(s, o).state, o.storeVersion)
    ensures CheckFeed(CheckFeed(s, o).state, o) == CheckFeed(s, o)
  {
  }

  /** Deferring is idempotent too: a second tick while scans still run
      returns the same state. */
  lemma DeferIdempotent(s: FeedState, o: Observation)
    requires AnyRunning(o.alive)
    ensures CheckFeed(CheckFeed(s, o).state, o) == CheckFeed(s, o)
  {
  }

  /** The scheduler calling `check_feed` tick after tick; an exception
      ends the run. */
  function Run(s: FeedState, ticks: seq<Observation>): FeedOutcome
    decreases |ticks|
  {
    if |ticks| == 0 then FeedOutcome(s, None)
    else
      var r := CheckFeed(s, ticks[0]);
      if r.error.Some? then r else Run(r.state, ticks[1..])
  }

  /** As long as some scan is alive at every tick, the table and its version
      never change, nothing is raised, and a pending flag, once set, stays. */
  lemma {:induction false} FrozenWhileScansRun(s: FeedState, ticks: seq<Observation>)
    requires forall t :: 0 <= t < |ticks| ==> AnyRunning(ticks[t].alive)
    ensures Run(s, ticks).error.None?
    ensures Run(s, ticks).state.vts == s.vts
    ensures Run(s, ticks).state.vtsVersion == s.vtsVersion
    ensures s.pendingFeed ==> Run(s, ticks).state.pendingFeed
    decreases |ticks|
  {
    if |ticks| > 0 {
      assert AnyRunning(ticks[0].alive);
      FrozenWhileScansRun(CheckFeed(s, ticks[0]).state, ticks[1..]);
    }
  }

  /** A feed change seen while scans run is flagged and survives every later
      tick at which some scan is still alive, so new scans stay refused
      until the reload. */
  lemma ChangeSeenStaysPending(s: FeedState, ticks: seq<Observation>)
    requires |ticks| > 0
    requires forall t :: 0 <= t < |ticks| ==> AnyRunning(ticks[t].alive)
    requires UpdateDue(s, ticks[0].storeVersion)
    ensures Run(s, ticks).state.pendingFeed
  {
    var s1 := CheckFeed(s, ticks[0]).state;
    FrozenWhileScansRun(s1, ticks[1..]);
  }
}
