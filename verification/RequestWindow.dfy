/**
 The fixed-window request limiter of the GraphQL server and of the WebSocket server, with the
 timer that collects old windows.
 */
module RequestWindow {
  import opened Prelude

  const WINDOW: int := 60_000
  const RETENTION: int := 120_000

  datatype Window = Window(startedAt: int, count: nat)

  type Windows = map<string, Window>

  // ----- One request and one collection -----

  predicate StartsWindow(windows: Windows, key: string, now: int) {
    key !in windows || now - windows[key].startedAt >= WINDOW
  }

  function Next(windows: Windows, key: string, now: int): Windows {
    if StartsWindow(windows, key, now) then windows[key := Window(now, 1)]
    else windows[key := windows[key].(count := windows[key].count + 1)]
  }

  predicate Allowed(windows: Windows, key: string, now: int, limit: int) {
    StartsWindow(windows, key, now) || windows[key].count + 1 <= limit
  }

  function Collected(windows: Windows, now: int): Windows {
    map key | key in windows && windows[key].startedAt >= now - RETENTION :: windows[key]
  }

  class Limiter {
    var windows: Windows

    constructor ()
      ensures windows == map[]
    {
      windows := map[];
    }

    method AllowRequest(key: string, now: int, limit: int) returns (allowed: bool)
      modifies this
      ensures windows == Next(old(windows), key, now)
      ensures allowed == Allowed(old(windows), key, now, limit)
    {
      if key !in windows || now - windows[key].startedAt >= WINDOW {
        windows := windows[key := Window(now, 1)];
        return true;
      }
      windows := windows[key := windows[key].(count := windows[key].count + 1)];
      allowed := windows[key].count <= limit;
    }

    method CollectWindows(now: int)
      modifies this
      ensures windows == Collected(old(windows), now)
      ensures forall key :: key in windows <==> key in old(windows) && old(windows)[key].startedAt >= now - 120_000
    {
      var cutoff := now - RETENTION;
      var keys := windows.Keys;
      while keys != {}
        invariant keys <= old(windows).Keys
        invariant forall key :: key in windows <==>
          key in old(windows) && (key in keys || old(windows)[key].startedAt >= cutoff)
        invariant forall key :: key in windows ==> windows[key] == old(windows)[key]
        decreases keys
      {
        var key :| key in keys;
        keys := keys - {key};
        if windows[key].startedAt < cutoff {
          windows := windows - {key};
        }
      }
    }
  }

  // ----- Runs -----

  datatype Operation = Request(key: string, at: int) | Collect(at: int)

  function After(run: seq<Operation>): Windows {
    if run == [] then map[]
    else
      var n := |run| - 1;
      match run[n]
      case Request(key, at) => Next(After(run[..n]), key, at)
      case Collect(at) => Collected(After(run[..n]), at)
  }

  /** A request with the decision that was taken on it. */
  datatype Decision = Decision(key: string, at: int, allowed: bool)

  function Decisions(run: seq<Operation>, limit: int): seq<Decision> {
    if run == [] then []
    else
      var n := |run| - 1;
      match run[n]
      case Request(key, at) =>
        Decisions(run[..n], limit) + [Decision(key, at, Allowed(After(run[..n]), key, at, limit))]
      case Collect(_) => Decisions(run[..n], limit)
  }

  /** The clock does not go back during the run. */
  predicate Timed(run: seq<Operation>) {
    forall i, j :: 0 <= i < j < |run| ==> run[i].at <= run[j].at
  }

  function RequestsOnly(run: seq<Operation>): seq<Operation> {
    if run == [] then []
    else
      var n := |run| - 1;
      RequestsOnly(run[..n]) + if run[n].Request? then [run[n]] else []
  }

  // ----- Collection is invisible -----

  /** The window that a request at `now` would still be counted in. */
  function Live(windows: Windows, key: string, now: int): Option<Window> {
    if key in windows && now - windows[key].startedAt < WINDOW then Some(windows[key]) else None
  }

  lemma LiveDecides(windows: Windows, key: string, now: int, limit: int)
    ensures Allowed(windows, key, now, limit) <==>
      Live(windows, key, now).None? || Live(windows, key, now).value.count + 1 <= limit
    ensures Live(Next(windows, key, now), key, now) ==
      Some(if Live(windows, key, now).None? then Window(now, 1)
           else Live(windows, key, now).value.(count := Live(windows, key, now).value.count + 1))
  {
  }

  lemma LiveLater(a: Windows, b: Windows, key: string, now: int, later: int)
    requires Live(a, key, now) == Live(b, key, now) && now <= later
    ensures Live(a, key, later) == Live(b, key, later)
  {
  }

  lemma CollectionSparesLive(windows: Windows, key: string, at: int, now: int)
    requires at <= now
    ensures Live(Collected(windows, at), key, now) == Live(windows, key, now)
  {
  }

  lemma AfterOneMore(run: seq<Operation>)
    requires run != []
    ensures var before, last := run[..|run| - 1], run[|run| - 1];
      && After(run) == (if last.Request? then Next(After(before), last.key, last.at)
                        else Collected(After(before), last.at))
      && RequestsOnly(run) == RequestsOnly(before) + if last.Request? then [last] else []
  {
  }

  lemma RequestAgrees(a: Windows, b: Windows, caller: string, at: int, key: string, now: int)
    requires Live(a, key, at) == Live(b, key, at) && at <= now
    ensures Live(Next(a, caller, at), key, now) == Live(Next(b, caller, at), key, now)
  {
    if caller == key {
      LiveDecides(a, key, at, 0);
      LiveDecides(b, key, at, 0);
    }
    LiveLater(Next(a, caller, at), Next(b, caller, at), key, at, now);
  }

  /** With and without collection, the live windows agree from the end of the run on. */
  lemma {:induction false} CollectionKeepsLiveWindows(run: seq<Operation>, key: string, now: int)
    requires Timed(run) && (run != [] ==> run[|run| - 1].at <= now)
    ensures Live(After(run), key, now) == Live(After(RequestsOnly(run)), key, now)
  {
    if run != [] {
      var last := run[|run| - 1];
      var requests := RequestsOnly(run[..|run| - 1]);
      AfterOneMore(run);
      CollectionKeepsLiveWindows(run[..|run| - 1], key, last.at);
      hide After, RequestsOnly, Live, Next, Collected;
      var before, plain := After(run[..|run| - 1]), After(requests);
      if last.Request? {
        AfterOneMore(requests + [last]);
        assert (requests + [last])[..|requests|] == requests;
        RequestAgrees(before, plain, last.key, last.at, key, now);
      } else {
        assert RequestsOnly(run) == requests;
        CollectionSparesLive(before, key, last.at, now);
        LiveLater(before, plain, key, last.at, now);
      }
    }
  }

  /** Collections, at whatever moments they run, never change a decision. */
  lemma {:induction false} CollectionIsInvisible(run: seq<Operation>, limit: int)
    requires Timed(run)
    ensures Decisions(run, limit) == Decisions(RequestsOnly(run), limit)
  {
    if run != [] {
      var n := |run| - 1;
      CollectionIsInvisible(run[..n], limit);
      if run[n].Request? {
        var requests := RequestsOnly(run[..n]);
        assert RequestsOnly(run) == requests + [run[n]];
        assert (requests + [run[n]])[..|requests|] == requests;
        CollectionKeepsLiveWindows(run[..n], run[n].key, run[n].at);
        LiveDecides(After(run[..n]), run[n].key, run[n].at, limit);
        LiveDecides(After(requests), run[n].key, run[n].at, limit);
      } else {
        assert RequestsOnly(run) == RequestsOnly(run[..n]);
      }
    }
  }

  // ----- The rate bound -----

  /** How many requests of the key were allowed from `start` to a minute later, both included. */
  function AllowedWithin(decisions: seq<Decision>, key: string, start: int): nat {
    if decisions == [] then 0
    else
      var n := |decisions| - 1;
      var d := decisions[n];
      AllowedWithin(decisions[..n], key, start)
        + if d.key == key && d.allowed && start <= d.at <= start + 60_000 then 1 else 0
  }

  /** Allowed requests so far, in terms of the current window of the key. */
  predicate Bounded(windows: Windows, key: string, start: int, limit: int, allowed: nat) {
    var most := Max(1, limit);
    if key !in windows then allowed == 0
    else
      var window := windows[key];
      && window.count >= 1
      && allowed <= 2 * most
      && (window.startedAt + WINDOW <= start ==> allowed == 0)
      && (window.startedAt <= start ==> allowed <= Min(window.count, most))
      && (start < window.startedAt <= start + WINDOW ==> allowed <= most + Min(window.count, most))
  }

  /** One more request keeps the bound. */
  lemma RequestKeepsBounded(windows: Windows, key: string, at: int, start: int, limit: int, allowed: nat)
    requires Bounded(windows, key, start, limit, allowed)
    requires key in windows ==> windows[key].startedAt <= at
    requires at < start ==> allowed == 0
    ensures var more := if Allowed(windows, key, at, limit) && start <= at <= start + WINDOW then 1 else 0;
      Bounded(Next(windows, key, at), key, start, limit, allowed + more)
  {
  }

  /** What one more request at the end of a run does to the windows and to the count. */
  lemma RequestAtEnd(run: seq<Operation>, key: string, start: int, limit: int)
    requires run != [] && run[|run| - 1].Request?
    ensures var n := |run| - 1;
      && After(run) == Next(After(run[..n]), run[n].key, run[n].at)
      && AllowedWithin(Decisions(run, limit), key, start) == AllowedWithin(Decisions(run[..n], limit), key, start)
        + if run[n].key == key && Allowed(After(run[..n]), key, run[n].at, limit)
             && start <= run[n].at <= start + WINDOW then 1 else 0
  {
    var before := Decisions(run[..|run| - 1], limit);
    assert Decisions(run, limit)[..|before|] == before;
  }

  lemma OthersKeepBounded(windows: Windows, caller: string, at: int, key: string)
    requires caller != key
    ensures key in Next(windows, caller, at) <==> key in windows
    ensures key in windows ==> Next(windows, caller, at)[key] == windows[key]
  {
  }

  lemma {:induction false} RunIsBounded(run: seq<Operation>, key: string, start: int, limit: int)
    requires Timed(run) && forall i :: 0 <= i < |run| ==> run[i].Request?
    ensures Bounded(After(run), key, start, limit, AllowedWithin(Decisions(run, limit), key, start))
    ensures key in After(run) ==> run != [] && After(run)[key].startedAt <= run[|run| - 1].at
    ensures run != [] && run[|run| - 1].at < start ==> AllowedWithin(Decisions(run, limit), key, start) == 0
  {
    if run != [] {
      var n := |run| - 1;
      RequestAtEnd(run, key, start, limit);
      hide After, Decisions, AllowedWithin;
      RunIsBounded(run[..n], key, start, limit);
      if n > 0 {
        assert run[n - 1].at <= run[n].at;
      }
      if run[n].key == key {
        RequestKeepsBounded(
          After(run[..n]), key, run[n].at, start, limit, AllowedWithin(Decisions(run[..n], limit), key, start));
      } else {
        OthersKeepBounded(After(run[..n]), run[n].key, run[n].at, key);
        hide Next;
      }
    }
  }

  lemma {:induction false} RequestsOnlyAreTimed(run: seq<Operation>)
    requires Timed(run)
    ensures Timed(RequestsOnly(run))
    ensures forall i :: 0 <= i < |RequestsOnly(run)| ==> RequestsOnly(run)[i].Request?
    ensures forall i :: 0 <= i < |RequestsOnly(run)| ==> run != [] && RequestsOnly(run)[i].at <= run[|run| - 1].at
  {
    if run != [] {
      RequestsOnlyAreTimed(run[..|run| - 1]);
    }
  }

  /**
   The main result: in any run with a clock that does not go back, whatever is collected in
   between, one key gets at most twice the limit through in any interval of one window length.
   (The first request of a window is allowed even when the limit is below one.)
   */
  lemma {:induction false} RateBound(run: seq<Operation>, key: string, start: int, limit: int)
    requires Timed(run)
    ensures AllowedWithin(Decisions(run, limit), key, start) <= 2 * Max(1, limit)
  {
    CollectionIsInvisible(run, limit);
    RequestsOnlyAreTimed(run);
    RunIsBounded(RequestsOnly(run), key, start, limit);
  }

  function Burst(key: string, at: int, n: nat): seq<Operation> {
    seq(n, i => Request(key, at))
  }

  lemma OneMoreRequest(before: seq<Operation>, key: string, at: int, start: int, limit: int)
    requires start <= at <= start + WINDOW
    ensures var run := before + [Request(key, at)];
      && After(run) == Next(After(before), key, at)
      && AllowedWithin(Decisions(run, limit), key, start) == AllowedWithin(Decisions(before, limit), key, start)
        + if Allowed(After(before), key, at, limit) then 1 else 0
  {
    var run := before + [Request(key, at)];
    assert run[..|run| - 1] == before;
    var decisions := Decisions(before, limit);
    assert Decisions(run, limit)[..|decisions|] == decisions;
  }

  lemma {:induction false} BurstIsAllowed(before: seq<Operation>, key: string, at: int, n: nat, start: int, limit: int)
    requires StartsWindow(After(before), key, at) && n <= Max(1, limit) && start <= at <= start + WINDOW
    ensures var run := before + Burst(key, at, n);
      && (n > 0 ==> key in After(run) && After(run)[key] == Window(at, n))
      && AllowedWithin(Decisions(run, limit), key, start) == AllowedWithin(Decisions(before, limit), key, start) + n
    decreases n
  {
    var run := before + Burst(key, at, n);
    hide After, Decisions, AllowedWithin;
    if n == 0 {
      assert run == before;
    } else {
      BurstIsAllowed(before, key, at, n - 1, start, limit);
      var shorter := before + Burst(key, at, n - 1);
      assert run == shorter + [Request(key, at)];
      OneMoreRequest(shorter, key, at, start, limit);
      assert n == 1 ==> shorter == before;
    }
  }

  lemma TwoBurstsAreTimed(key: string, n: nat)
    ensures Timed(Burst(key, 0, n) + Burst(key, WINDOW, n))
  {
  }

  lemma FirstBurst(key: string, limit: int)
    ensures var run := Burst(key, 0, Max(1, limit));
      && StartsWindow(After(run), key, WINDOW)
      && AllowedWithin(Decisions(run, limit), key, 0) == Max(1, limit)
  {
    var empty: seq<Operation> := [];
    assert AllowedWithin(Decisions(empty, limit), key, 0) == 0 && StartsWindow(After(empty), key, 0);
    hide After, Decisions, AllowedWithin;
    BurstIsAllowed(empty, key, 0, Max(1, limit), 0, limit);
    assert empty + Burst(key, 0, Max(1, limit)) == Burst(key, 0, Max(1, limit));
  }

  /** The bound is sharp for every limit: so many requests do get through. */
  lemma {:induction false} RateBoundIsReached(key: string, limit: int) returns (run: seq<Operation>)
    ensures Timed(run) && AllowedWithin(Decisions(run, limit), key, 0) == 2 * Max(1, limit)
  {
    hide After, Decisions, AllowedWithin, Timed, StartsWindow;
    var most := Max(1, limit);
    run := Burst(key, 0, most) + Burst(key, WINDOW, most);
    TwoBurstsAreTimed(key, most);
    FirstBurst(key, limit);
    BurstIsAllowed(Burst(key, 0, most), key, WINDOW, most, 0, limit);
  }

  /** With a limit below one, a single request already gets more through than the limit says. */
  lemma {:induction false} OneRequestBeatsLowLimits(key: string, limit: int)
    requires limit < 1
    ensures Timed([Request(key, 0)]) && AllowedWithin(Decisions([Request(key, 0)], limit), key, 0) == 1 > 2 * limit
  {
    var empty: seq<Operation> := [];
    assert AllowedWithin(Decisions(empty, limit), key, 0) == 0;
    OneMoreRequest(empty, key, 0, 0, limit);
    assert empty + [Request(key, 0)] == [Request(key, 0)];
  }

  /** At most twice the limit gets through in every timed run and interval if and only if the limit is at least one. */
  lemma {:induction false} TwiceTheLimitExactlyIfPositive(key: string, limit: int)
    ensures (forall run, start :: Timed(run) ==> AllowedWithin(Decisions(run, limit), key, start) <= 2 * limit)
       <==> limit >= 1
  {
    hide After, Decisions, AllowedWithin, Timed;
    if limit >= 1 {
      forall run, start | Timed(run) ensures AllowedWithin(Decisions(run, limit), key, start) <= 2 * limit {
        RateBound(run, key, start, limit);
      }
    } else {
      OneRequestBeatsLowLimits(key, limit);
    }
  }
}
