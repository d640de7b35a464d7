/** The in-process fixed-window limiter: what it admits over any time interval of any request trace. */
module RateLimit {
  /** One minute in nanoseconds. */
  const WINDOW: nat := 60_000_000_000

  const DEFAULT_LIMIT: nat := 120

  /** The zero instant, which the limiter reads as "no window". */
  const ZERO: int := 0

  datatype Window = Window(start: int, count: int)

  datatype Request = Request(key: string, time: int)

  datatype Decision = Decision(ok: bool, retryAfter: int)

  function Lookup(windows: map<string, Window>, key: string): Window {
    if key in windows then windows[key] else Window(ZERO, 0)
  }

  predicate Fresh(window: Window, now: int) {
    window.start == ZERO || now - window.start >= WINDOW
  }

  function Decide(windows: map<string, Window>, limit: nat, r: Request): Decision {
    var window := Lookup(windows, r.key);
    if !Fresh(window, r.time) && window.count >= limit then Decision(false, WINDOW - (r.time - window.start))
    else Decision(true, 0)
  }

  /** Windows that started less than two window lengths ago. */
  function Cleanup(windows: map<string, Window>, now: int): map<string, Window> {
    map key | key in windows && now - windows[key].start < 2 * WINDOW :: windows[key]
  }

  /** One request; `tidy` says whether opening a window also cleans up. */
  function Next(windows: map<string, Window>, limit: nat, r: Request, tidy: bool): map<string, Window> {
    var window := Lookup(windows, r.key);
    if Fresh(window, r.time) then
      var begun := windows[r.key := Window(r.time, 1)];
      if tidy then Cleanup(begun, r.time) else begun
    else if window.count >= limit then windows
    else windows[r.key := window.(count := window.count + 1)]
  }

  function Run(limit: nat, trace: seq<Request>, tidy: bool): map<string, Window> {
    if trace == [] then map[]
    else Next(Run(limit, trace[..|trace| - 1], tidy), limit, trace[|trace| - 1], tidy)
  }

  /** The decision on the next request after a trace. */
  function Verdict(limit: nat, trace: seq<Request>, r: Request, tidy: bool): Decision {
    Decide(Run(limit, trace, tidy), limit, r)
  }

  /** A clock that never runs back and never shows the zero instant. */
  ghost predicate Clocked(trace: seq<Request>) {
    && (forall i :: 0 <= i < |trace| ==> trace[i].time != ZERO)
    && (forall i, j :: 0 <= i < j < |trace| ==> trace[i].time <= trace[j].time)
  }

  /** How many requests of the key were admitted in [from, to). */
  function Admitted(limit: nat, trace: seq<Request>, tidy: bool, key: string, from: int, to: int): nat {
    if trace == [] then 0
    else
      var front, r := trace[..|trace| - 1], trace[|trace| - 1];
      Admitted(limit, front, tidy, key, from, to)
      + (if r.key == key && from <= r.time < to && Verdict(limit, front, r, tidy).ok then 1 else 0)
  }

  // ----- cleaning up never changes a decision -----

  /** What the tidied table has lost is too old to matter at `now`. */
  ghost predicate OnlyStaleLost(tidied: map<string, Window>, full: map<string, Window>, now: int) {
    && (forall key :: key in tidied ==> key in full && tidied[key] == full[key])
    && (forall key :: key in full && key !in tidied ==> now - full[key].start >= 2 * WINDOW)
  }

  lemma ClockedFront(trace: seq<Request>)
    requires Clocked(trace) && trace != []
    ensures Clocked(trace[..|trace| - 1])
  {
  }

  lemma {:induction false} TablesAgree(limit: nat, trace: seq<Request>, now: int)
    requires Clocked(trace) && (trace != [] ==> trace[|trace| - 1].time <= now)
    ensures OnlyStaleLost(Run(limit, trace, true), Run(limit, trace, false), now)
  {
    if trace != [] {
      ClockedFront(trace);
      TablesAgree(limit, trace[..|trace| - 1], trace[|trace| - 1].time);
    }
  }

  /** The limiter decides every request as it would without cleaning up. */
  lemma CleanupRefines(limit: nat, trace: seq<Request>, r: Request)
    requires Clocked(trace + [r])
    ensures Verdict(limit, trace, r, true) == Verdict(limit, trace, r, false)
  {
    assert (trace + [r])[..|trace|] == trace;
    ClockedFront(trace + [r]);
    if trace != [] {
      assert (trace + [r])[|trace| - 1].time <= (trace + [r])[|trace|].time;
    }
    TablesAgree(limit, trace, r.time);
  }

  lemma {:induction false} AdmittedAlike(limit: nat, trace: seq<Request>, key: string, from: int, to: int)
    requires Clocked(trace)
    ensures Admitted(limit, trace, true, key, from, to) == Admitted(limit, trace, false, key, from, to)
  {
    if trace != [] {
      var front, r := trace[..|trace| - 1], trace[|trace| - 1];
      ClockedFront(trace);
      AdmittedAlike(limit, front, key, from, to);
      assert front + [r] == trace;
      CleanupRefines(limit, front, r);
    }
  }

  // ----- how much one window and many windows admit -----

  /** Admissions since `from`, for a key whose current window is known. */
  ghost predicate Counted(limit: nat, window: Window, from: int, admitted: nat) {
    && 1 <= window.count <= limit
    && (from >= window.start + WINDOW ==> admitted == 0)
    && (window.start < from < window.start + WINDOW ==> admitted < window.count)
    && (from == window.start ==> admitted == window.count)
    && (from < window.start ==> admitted <= window.count + limit * ((window.start - from) / WINDOW) + limit - 1)
  }

  function Since(limit: nat, trace: seq<Request>, key: string, from: int): nat {
    if trace == [] then 0
    else
      var front, r := trace[..|trace| - 1], trace[|trace| - 1];
      Since(limit, front, key, from)
      + (if r.key == key && from <= r.time && Verdict(limit, front, r, false).ok then 1 else 0)
  }

  lemma WindowsBetween(limit: nat, a: int, b: int, from: int)
    requires limit > 0 && from <= a && b >= a + WINDOW
    ensures limit * ((b - from) / WINDOW) >= limit * ((a - from) / WINDOW) + limit
  {
    assert (a - from + WINDOW) / WINDOW == (a - from) / WINDOW + 1;
    var p, q := (a - from) / WINDOW, (b - from) / WINDOW;
    assert q >= p + 1;
    assert limit * q >= limit * (p + 1);
  }

  lemma OpeningKeepsCount(limit: nat, before: Window, now: int, from: int, admitted: nat)
    requires limit > 0 && Counted(limit, before, from, admitted) && now >= before.start + WINDOW
    ensures Counted(limit, Window(now, 1), from, admitted + if from <= now then 1 else 0)
  {
    if from < now {
      assert limit * ((now - from) / WINDOW) >= 0;
      if from <= before.start {
        WindowsBetween(limit, before.start, now, from);
        if from == before.start {
          assert (before.start - from) / WINDOW == 0;
        }
      }
    }
  }

  /** The first window of a key. */
  lemma FirstWindowCounts(limit: nat, now: int, from: int)
    requires limit > 0
    ensures Counted(limit, Window(now, 1), from, if from <= now then 1 else 0)
  {
    if from < now {
      assert limit * ((now - from) / WINDOW) >= 0;
    }
  }

  lemma JoiningKeepsCount(limit: nat, window: Window, now: int, from: int, admitted: nat)
    requires Counted(limit, window, from, admitted) && window.count < limit
    requires window.start <= now < window.start + WINDOW
    ensures Counted(limit, window.(count := window.count + 1), from, admitted + if from <= now then 1 else 0)
  {
  }

  ghost predicate SinceOk(limit: nat, trace: seq<Request>, key: string, from: int) {
    var windows := Run(limit, trace, false);
    && (key !in windows ==> Since(limit, trace, key, from) == 0)
    && (key in windows ==>
          && windows[key].start != ZERO && trace != [] && windows[key].start <= trace[|trace| - 1].time
          && Counted(limit, windows[key], from, Since(limit, trace, key, from)))
  }

  lemma {:induction false} SinceIsCounted(limit: nat, trace: seq<Request>, key: string, from: int)
    requires limit > 0 && Clocked(trace)
    ensures SinceOk(limit, trace, key, from)
  {
    hide Counted;
    if trace != [] {
      var front, r := trace[..|trace| - 1], trace[|trace| - 1];
      ClockedFront(trace);
      SinceIsCounted(limit, front, key, from);
      var windows := Run(limit, front, false);
      if r.key == key {
        if key !in windows {
          FirstWindowCounts(limit, r.time, from);
        } else if Fresh(windows[key], r.time) {
          OpeningKeepsCount(limit, windows[key], r.time, from, Since(limit, front, key, from));
        } else if windows[key].count < limit {
          JoiningKeepsCount(limit, windows[key], r.time, from, Since(limit, front, key, from));
        }
      }
    }
  }

  lemma {:induction false} SinceIsAdmitted(limit: nat, trace: seq<Request>, key: string, from: int, to: int)
    requires Clocked(trace) && (trace != [] ==> trace[|trace| - 1].time < to)
    ensures Admitted(limit, trace, false, key, from, to) == Since(limit, trace, key, from)
  {
    if trace != [] {
      ClockedFront(trace);
      SinceIsAdmitted(limit, trace[..|trace| - 1], key, from, to);
    }
  }

  lemma ProductGrows(limit: nat, a: int, b: int)
    requires a <= b
    ensures limit * a <= limit * b
  {
  }

  lemma CountedBound(limit: nat, window: Window, from: int, k: nat, admitted: nat)
    requires limit > 0 && k > 0 && Counted(limit, window, from, admitted)
    requires window.start < from + k * WINDOW
    ensures admitted <= limit * k + limit - 1
  {
    ProductGrows(limit, 1, k);
    if from < window.start {
      var p := (window.start - from) / WINDOW;
      assert p <= k - 1;
      ProductGrows(limit, p, k - 1);
      assert limit * (k - 1) == limit * k - limit;
    }
  }

  lemma {:induction false} FullIntervalBound(limit: nat, trace: seq<Request>, key: string, from: int, k: nat)
    requires limit > 0 && k > 0 && Clocked(trace)
    ensures Admitted(limit, trace, false, key, from, from + k * WINDOW) <= limit * k + limit - 1
  {
    hide Counted, Next, Decide;
    var to := from + k * WINDOW;
    if trace != [] && trace[|trace| - 1].time >= to {
      ClockedFront(trace);
      FullIntervalBound(limit, trace[..|trace| - 1], key, from, k);
    } else {
      SinceIsAdmitted(limit, trace, key, from, to);
      SinceIsCounted(limit, trace, key, from);
      var windows := Run(limit, trace, false);
      if key in windows {
        CountedBound(limit, windows[key], from, k, Since(limit, trace, key, from));
      } else {
        assert limit * k >= 0;
      }
    }
  }

  /** Any half-open interval of k windows admits fewer than (k+1)·limit requests of a key, wherever it
      starts and whatever else is requested. */
  lemma IntervalBound(limit: nat, trace: seq<Request>, key: string, from: int, k: nat)
    requires limit > 0 && k > 0 && Clocked(trace)
    ensures Admitted(limit, trace, true, key, from, from + k * 60_000_000_000) <= (k + 1) * limit - 1
  {
    AdmittedAlike(limit, trace, key, from, from + k * WINDOW);
    FullIntervalBound(limit, trace, key, from, k);
    assert (k + 1) * limit == limit * k + limit;
  }

  // ----- a refusal is earned -----

  /** A refused request finds exactly `limit` requests of its key admitted since some instant less than
      one window ago, and is told to come back when that window ends. */
  lemma RefusalIsEarned(limit: nat, trace: seq<Request>, r: Request)
    requires limit > 0 && Clocked(trace + [r]) && !Verdict(limit, trace, r, true).ok
    ensures
      var start := r.time + Verdict(limit, trace, r, true).retryAfter - WINDOW;
      && r.time - WINDOW < start <= r.time
      && Admitted(limit, trace, true, r.key, start, r.time + 1) == limit
  {
    CleanupRefines(limit, trace, r);
    var all := trace + [r];
    assert all[..|trace|] == trace;
    ClockedFront(all);
    var window := Lookup(Run(limit, trace, false), r.key);
    if trace != [] {
      assert all[|trace| - 1].time <= all[|trace|].time;
    }
    SinceIsCounted(limit, trace, r.key, window.start);
    SinceIsAdmitted(limit, trace, r.key, window.start, r.time + 1);
    AdmittedAlike(limit, trace, r.key, window.start, r.time + 1);
  }

  // ----- keys do not disturb each other -----

  function Of(trace: seq<Request>, key: string): seq<Request> {
    if trace == [] then []
    else Of(trace[..|trace| - 1], key) + (if trace[|trace| - 1].key == key then [trace[|trace| - 1]] else [])
  }

  lemma NextOfOwn(a: map<string, Window>, b: map<string, Window>, limit: nat, r: Request)
    requires Lookup(a, r.key) == Lookup(b, r.key)
    ensures Lookup(Next(a, limit, r, false), r.key) == Lookup(Next(b, limit, r, false), r.key)
  {
  }

  lemma {:induction false} OwnWindow(limit: nat, trace: seq<Request>, key: string)
    ensures Lookup(Run(limit, trace, false), key) == Lookup(Run(limit, Of(trace, key), false), key)
  {
    if trace != [] {
      var front, r := trace[..|trace| - 1], trace[|trace| - 1];
      OwnWindow(limit, front, key);
      if r.key == key {
        var own := Of(front, key) + [r];
        assert own[..|own| - 1] == Of(front, key);
        assert Of(trace, key) == own;
        NextOfOwn(Run(limit, front, false), Run(limit, Of(front, key), false), limit, r);
      } else {
        assert Of(trace, key) == Of(front, key);
      }
    }
  }

  lemma {:induction false} OwnIsClocked(trace: seq<Request>, key: string)
    requires Clocked(trace)
    ensures Clocked(Of(trace, key))
    ensures forall r :: r in Of(trace, key) ==> r in trace
  {
    if trace != [] {
      var front, last := trace[..|trace| - 1], trace[|trace| - 1];
      ClockedFront(trace);
      OwnIsClocked(front, key);
      forall r | r in Of(front, key)
        ensures r in trace && r.time <= last.time
      {
        var i :| 0 <= i < |front| && front[i] == r;
        assert trace[i] == r;
      }
    }
  }

  lemma OfAppend(trace: seq<Request>, r: Request)
    ensures Of(trace + [r], r.key) == Of(trace, r.key) + [r]
  {
    assert (trace + [r])[..|trace|] == trace;
  }

  /** The decision on a request depends on the earlier requests of its own key alone. */
  lemma KeysAreIndependent(limit: nat, trace: seq<Request>, r: Request)
    requires Clocked(trace + [r])
    ensures Verdict(limit, trace, r, true) == Verdict(limit, Of(trace, r.key), r, true)
  {
    OwnIsClocked(trace + [r], r.key);
    OfAppend(trace, r);
    CleanupRefines(limit, trace, r);
    CleanupRefines(limit, Of(trace, r.key), r);
    OwnWindow(limit, trace, r.key);
  }

  /** A refused client that stays away is admitted exactly from the announced time on. */
  lemma RetryAfterIsExact(limit: nat, trace: seq<Request>, r: Request, others: seq<Request>, later: int)
    requires limit > 0 && Clocked(trace + [r] + others + [Request(r.key, later)])
    requires Of(others, r.key) == []
    requires !Verdict(limit, trace, r, true).ok
    ensures Verdict(limit, trace + [r] + others, Request(r.key, later), true).ok
      <==> later >= r.time + Verdict(limit, trace, r, true).retryAfter
  {
    var again, met := Request(r.key, later), trace + [r] + others;
    ClockedPrefix(trace + [r], others + [again], met + [again]);
    assert (trace + [r])[..|trace|] == trace;
    CleanupRefines(limit, trace, r);
    CleanupRefines(limit, met, again);
    OthersAway(limit, trace + [r], others, r.key);
  }

  lemma ClockedPrefix(a: seq<Request>, b: seq<Request>, all: seq<Request>)
    requires all == a + b && Clocked(all)
    ensures Clocked(a)
  {
    forall i, j | 0 <= i < j < |a|
      ensures a[i].time <= a[j].time
    {
      assert all[i].time <= all[j].time;
    }
    forall i | 0 <= i < |a|
      ensures a[i].time != ZERO
    {
      assert all[i].time != ZERO;
    }
  }

  lemma {:induction false} OthersAway(limit: nat, trace: seq<Request>, others: seq<Request>, key: string)
    requires Of(others, key) == []
    ensures Lookup(Run(limit, trace + others, false), key) == Lookup(Run(limit, trace, false), key)
  {
    if others == [] {
      assert trace + others == trace;
    } else {
      OthersAway(limit, trace, others[..|others| - 1], key);
      assert (trace + others)[..|trace + others| - 1] == trace + others[..|others| - 1];
    }
  }

  // ----- the bound is reached -----

  function Burst(key: string, time: int, n: nat): (s: seq<Request>)
    ensures |s| == n
    ensures forall i :: 0 <= i < n ==> s[i] == Request(key, time)
  {
    if n == 0 then [] else Burst(key, time, n - 1) + [Request(key, time)]
  }

  /** One early request, the rest of its window at the last moment, then full windows back to back. */
  function Worst(key: string, limit: nat, k: nat): seq<Request>
    requires limit > 0
  {
    if k == 0 then [Request(key, 1)] + Burst(key, WINDOW, limit - 1)
    else Worst(key, limit, k - 1) + Burst(key, k * WINDOW + 1, limit)
  }

  lemma OneJoins(limit: nat, trace: seq<Request>, r: Request, from: int, to: int)
    requires r.time != ZERO && from <= r.time < to && limit > 0
    requires
      var window := Lookup(Run(limit, trace, false), r.key);
      Fresh(window, r.time) || window.count < limit
    ensures
      var window := Lookup(Run(limit, trace, false), r.key);
      Lookup(Run(limit, trace + [r], false), r.key)
      == if Fresh(window, r.time) then Window(r.time, 1) else Window(window.start, window.count + 1)
    ensures Admitted(limit, trace + [r], false, r.key, from, to) == Admitted(limit, trace, false, r.key, from, to) + 1
  {
    assert (trace + [r])[..|trace|] == trace;
  }

  lemma {:induction false} BurstJoins(limit: nat, trace: seq<Request>, key: string, time: int, n: nat, from: int, to: int)
    requires time != ZERO && from <= time < to && limit > 0
    requires
      var window := Lookup(Run(limit, trace, false), key);
      if Fresh(window, time) then 0 < n <= limit else window.count + n <= limit
    ensures
      var window := Lookup(Run(limit, trace, false), key);
      Lookup(Run(limit, trace + Burst(key, time, n), false), key)
      == if Fresh(window, time) then Window(time, n) else Window(window.start, window.count + n)
    ensures Admitted(limit, trace + Burst(key, time, n), false, key, from, to)
      == Admitted(limit, trace, false, key, from, to) + n
  {
    hide Run, Admitted, Lookup;
    if n == 0 {
      assert trace + Burst(key, time, n) == trace;
    } else {
      var front := trace + Burst(key, time, n - 1);
      assert trace + Burst(key, time, n) == front + [Request(key, time)];
      if n == 1 {
        assert front == trace;
      } else {
        BurstJoins(limit, trace, key, time, n - 1, from, to);
      }
      OneJoins(limit, front, Request(key, time), from, to);
    }
  }

  lemma WorstStart(key: string, limit: nat, to: int)
    requires limit > 0 && to > WINDOW
    ensures Lookup(Run(limit, Worst(key, limit, 0), false), key) == Window(1, limit)
    ensures Admitted(limit, Worst(key, limit, 0), false, key, WINDOW, to) == limit - 1
  {
    var first := [Request(key, 1)];
    assert first[..0] == [];
    assert Run(limit, first, false) == Next(Run(limit, [], false), limit, first[0], false);
    assert Lookup(Run(limit, first, false), key) == Window(1, 1);
    assert Admitted(limit, first, false, key, WINDOW, to) == 0;
    BurstJoins(limit, first, key, WINDOW, limit - 1, WINDOW, to);
  }

  lemma {:induction false} WorstRuns(key: string, limit: nat, k: nat, to: int)
    requires limit > 0 && to >= WINDOW + k * WINDOW && to > WINDOW
    ensures Lookup(Run(limit, Worst(key, limit, k), false), key) == Window(k * WINDOW + 1, limit)
    ensures Admitted(limit, Worst(key, limit, k), false, key, WINDOW, to) == limit * k + limit - 1
  {
    hide Run, Admitted, Lookup;
    if k == 0 {
      WorstStart(key, limit, to);
    } else {
      WorstRuns(key, limit, k - 1, to);
      BurstJoins(limit, Worst(key, limit, k - 1), key, k * WINDOW + 1, limit, WINDOW, to);
      assert limit * k == limit * (k - 1) + limit;
    }
  }

  lemma {:induction false} WorstIsClocked(key: string, limit: nat, k: nat)
    requires limit > 0
    ensures Clocked(Worst(key, limit, k))
    ensures forall r :: r in Worst(key, limit, k) ==> 0 < r.time <= (k + 1) * WINDOW
  {
    if k > 0 {
      WorstIsClocked(key, limit, k - 1);
      var early, late := Worst(key, limit, k - 1), Burst(key, k * WINDOW + 1, limit);
      var all := early + late;
      forall i, j | 0 <= i < j < |all|
        ensures all[i].time <= all[j].time
      {
        if i < |early| <= j {
          assert early[i] in early;
        }
      }
    }
  }

  /** The bound is exact: for every limit and every k some trace reaches it. */
  lemma BoundIsReached(key: string, limit: nat, k: nat)
    requires limit > 0 && k > 0
    ensures Clocked(Worst(key, limit, k))
    ensures Admitted(limit, Worst(key, limit, k), true, key, WINDOW, WINDOW + k * WINDOW) == (k + 1) * limit - 1
  {
    hide Admitted, Worst, Clocked, Run;
    WorstIsClocked(key, limit, k);
    WorstRuns(key, limit, k, WINDOW + k * WINDOW);
    assert (k + 1) * limit == limit * k + limit;
    AdmittedAlike(limit, Worst(key, limit, k), key, WINDOW, WINDOW + k * WINDOW);
  }

  // ----- the limiter as it runs -----

  class FixedWindowLimiter {
    const limit: nat
    var windows: map<string, Window>

    constructor (limit: int)
      ensures this.limit == (if limit <= 0 then 120 else limit) && this.limit > 0
      ensures windows == Run(this.limit, [], true)
    {
      this.limit := if limit <= 0 then DEFAULT_LIMIT else limit;
      windows := map[];
    }

    /** Handling one more request extends the run by that request. */
    method Allow(key: string, now: int, ghost trace: seq<Request>) returns (ok: bool, retryAfter: int)
      requires windows == Run(limit, trace, true)
      modifies this
      ensures windows == Run(limit, trace + [Request(key, now)], true)
      ensures Decision(ok, retryAfter) == Verdict(limit, trace, Request(key, now), true)
    {
      assert (trace + [Request(key, now)])[..|trace|] == trace;
      var window := if key in windows then windows[key] else Window(ZERO, 0);
      if window.start == ZERO || now - window.start >= WINDOW {
        windows := windows[key := Window(now, 1)];
        CleanUp(now);
        return true, 0;
      }
      if window.count >= limit {
        return false, WINDOW - (now - window.start);
      }
      windows := windows[key := window.(count := window.count + 1)];
      return true, 0;
    }

    method CleanUp(now: int)
      modifies this
      ensures windows == Cleanup(old(windows), now)
    {
      var keys := windows.Keys;
      while keys != {}
        invariant keys <= old(windows).Keys
        invariant windows == map key | key in old(windows)
          && (key in keys || now - old(windows)[key].start < 2 * WINDOW) :: old(windows)[key]
        decreases |keys|
      {
        var key :| key in keys;
        if now - windows[key].start >= 2 * WINDOW {
          windows := windows - {key};
        }
        keys := keys - {key};
      }
    }
  }
}
