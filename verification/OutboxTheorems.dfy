/** What every interleaving of dispatchers keeps: fencing, the row life cycle, and retry timing. */
module OutboxTheorems {
  import opened Wrappers
  import opened OutboxRows
  import opened OutboxProtocol

  /** The table after some run from the empty table. */
  ghost predicate Reachable(s: State) {
    exists steps :: s == Run(Init(s.rowLocks), steps)
  }

  lemma ReachableInv(s: State)
    requires Reachable(s)
    ensures Inv(s)
  {
    var steps :| s == Run(Init(s.rowLocks), steps);
    RunKeepsInv(Init(s.rowLocks), steps);
  }

  lemma {:induction false} RunKeepsMode(s: State, steps: seq<Step>)
    ensures Run(s, steps).rowLocks == s.rowLocks
    decreases |steps|
  {
    if steps != [] {
      RunKeepsMode(s, steps[..|steps| - 1]);
    }
  }

  lemma ReachableExtends(s: State, steps: seq<Step>)
    requires Reachable(s)
    ensures Reachable(Run(s, steps))
  {
    var first :| s == Run(Init(s.rowLocks), first);
    RunConcat(Init(s.rowLocks), first, steps);
    RunKeepsMode(s, steps);
    assert Run(s, steps) == Run(Init(Run(s, steps).rowLocks), first + steps);
  }

  // ----- fencing -----

  /** A committed claim under `token` took attempt number `n` of row `id`. */
  predicate AwardedTo(s: State, token: string, id: nat, n: nat) {
    Dispatching(s, token, id) && id in s.claims[token].seen && s.claims[token].seen[id] + 1 == n
  }

  /** No attempt number of a row goes to two lock tokens, and numbers run up to the row's counter. */
  lemma Fencing(s: State, t: string, u: string, id: nat, n: nat)
    requires Reachable(s)
    requires AwardedTo(s, t, id, n) && AwardedTo(s, u, id, n)
    ensures t == u
    ensures id < |s.rows| && 1 <= n <= s.rows[id].attempts
  {
    ReachableInv(s);
    assert ClaimOk(s, t, s.claims[t]) && ClaimOk(s, u, s.claims[u]);
    assert WonOk(s.rows[id], s.history[id], t, s.claims[t], id);
    assert WonOk(s.rows[id], s.history[id], u, s.claims[u], id);
    assert HistoryOk(s.rows[id], s.history[id]);
  }

  lemma EveryAttemptIsAwarded(s: State, id: nat, n: nat)
    requires Reachable(s) && id < |s.rows| && 1 <= n <= s.rows[id].attempts
    ensures exists t :: AwardedTo(s, t, id, n)
  {
    ReachableInv(s);
    assert HistoryOk(s.rows[id], s.history[id]);
    assert AwardOk(s.claims, id, n - 1, s.history[id][n - 1]);
    assert AwardedTo(s, s.history[id][n - 1].token, id, n);
  }

  function Winners(s: State, id: nat): set<string> {
    set t | t in s.claims && Dispatching(s, t, id)
  }

  function Tokens(h: seq<Award>): set<string> {
    if h == [] then {} else Tokens(h[..|h| - 1]) + {h[|h| - 1].token}
  }

  lemma {:induction false} TokensMember(h: seq<Award>, t: string)
    ensures t in Tokens(h) <==> exists k :: 0 <= k < |h| && h[k].token == t
  {
    if h != [] {
      TokensMember(h[..|h| - 1], t);
    }
  }

  lemma {:induction false} DistinctTokens(h: seq<Award>)
    requires forall j, k :: 0 <= j < k < |h| ==> h[j].token != h[k].token
    ensures |Tokens(h)| == |h|
  {
    if h != [] {
      DistinctTokens(h[..|h| - 1]);
      TokensMember(h[..|h| - 1], h[|h| - 1].token);
    }
  }

  lemma WinnersAreTokens(s: State, id: nat)
    requires Inv(s) && id < |s.rows|
    ensures Winners(s, id) == Tokens(s.history[id])
  {
    var h := s.history[id];
    forall t
      ensures t in Winners(s, id) <==> t in Tokens(h)
    {
      TokensMember(h, t);
      if t in Winners(s, id) {
        assert ClaimOk(s, t, s.claims[t]);
        assert WonOk(s.rows[id], h, t, s.claims[t], id);
      }
      if t in Tokens(h) {
        var k :| 0 <= k < |h| && h[k].token == t;
        assert AwardOk(s.claims, id, k, h[k]);
      }
    }
  }

  /** The attempts column counts exactly the dispatchers that ever won the row, and stays within MaxAttempts. */
  lemma AttemptsCountWinners(s: State, id: nat)
    requires Reachable(s) && id < |s.rows|
    ensures |Winners(s, id)| == s.rows[id].attempts <= s.rows[id].maxAttempts
  {
    ReachableInv(s);
    var h := s.history[id];
    assert RowOk(s.rows[id]) && HistoryOk(s.rows[id], h);
    forall j, k | 0 <= j < k < |h|
      ensures h[j].token != h[k].token
    {
      assert AwardOk(s.claims, id, j, h[j]) && AwardOk(s.claims, id, k, h[k]);
    }
    DistinctTokens(h);
    WinnersAreTokens(s, id);
  }

  lemma BlockedMarkChangesNothing(s: State, token: string, id: nat, lastError: string)
    requires !MarkApplies(s, token, id)
    ensures Next(s, MarkPublished(token, id)) == s && Next(s, MarkFailed(token, id, lastError)) == s
  {
  }

  /** A mark takes effect exactly when the dispatcher's claim is still the latest one on a row in
      processing; every other mark leaves the whole table as it was. */
  lemma OnlyTheLatestClaimMarks(s: State, token: string, id: nat, n: nat, lastError: string)
    requires Reachable(s) && AwardedTo(s, token, id, n)
    ensures id < |s.rows|
    ensures MarkApplies(s, token, id) <==>
      s.rows[id].status.Processing? && s.rows[id].attempts == n && !LockedByOther(s, token, id)
    ensures !MarkApplies(s, token, id) ==>
      Next(s, MarkPublished(token, id)) == s && Next(s, MarkFailed(token, id, lastError)) == s
  {
    hide Next, LockedByOther, Reachable;
    ReachableInv(s);
    var h := s.history[id];
    assert ClaimOk(s, token, s.claims[token]);
    assert WonOk(s.rows[id], h, token, s.claims[token], id);
    assert HistoryOk(s.rows[id], h) && RowOk(s.rows[id]);
    if MarkApplies(s, token, id) {
      MarkerIsLatest(s, token, id);
    } else {
      BlockedMarkChangesNothing(s, token, id, lastError);
    }
  }

  /** The attempts counter only moves up. */
  lemma NextAttemptsMonotone(s: State, step: Step, id: nat)
    requires id < |s.rows|
    ensures id < |Next(s, step).rows| && s.rows[id].attempts <= Next(s, step).rows[id].attempts
  {
  }

  lemma NextKeepsAward(s: State, step: Step, token: string, id: nat, n: nat)
    requires AwardedTo(s, token, id, n)
    ensures AwardedTo(Next(s, step), token, id, n)
  {
  }

  /** Once a row has been re-claimed, its former dispatcher can never change it again. */
  lemma {:induction false} ReclaimedForGood(s: State, steps: seq<Step>, token: string, id: nat, n: nat, lastError: string)
    requires Reachable(s) && AwardedTo(s, token, id, n)
    requires id < |s.rows| && s.rows[id].attempts > n
    ensures
      var s' := Run(s, steps);
      && id < |s'.rows| && s'.rows[id].attempts > n && AwardedTo(s', token, id, n)
      && Next(s', MarkPublished(token, id)) == s' && Next(s', MarkFailed(token, id, lastError)) == s'
    decreases |steps|
  {
    if steps != [] {
      var front, step := steps[..|steps| - 1], steps[|steps| - 1];
      ReclaimedForGood(s, front, token, id, n, lastError);
      NextAttemptsMonotone(Run(s, front), step, id);
      NextKeepsAward(Run(s, front), step, token, id, n);
    }
    ReachableExtends(s, steps);
    OnlyTheLatestClaimMarks(Run(s, steps), token, id, n, lastError);
  }

  // ----- the life cycle of a row -----

  /** Status, attempts and lock columns agree in every reachable table. */
  lemma Lifecycle(s: State, id: nat)
    requires Reachable(s) && id < |s.rows|
    ensures
      var row := s.rows[id];
      && (row.status.Pending? ==> row.attempts == 0)
      && (row.status.Failed? ==> 0 < row.attempts < row.maxAttempts)
      && (row.status.DeadLetter? ==> row.attempts == row.maxAttempts)
      && (row.status.Published? || row.status.Processing? ==> 1 <= row.attempts <= row.maxAttempts)
      && (row.status.Processing? <==> row.lockToken != "" && row.lockedAt.Some?)
      && (row.lockToken != "" <==> row.lockedAt.Some?)
      && (row.status.Processing? ==> AwardedTo(s, row.lockToken, id, row.attempts))
  {
    ReachableInv(s);
    var h := s.history[id];
    assert RowOk(s.rows[id]) && HistoryOk(s.rows[id], h);
    if s.rows[id].status.Processing? {
      assert AwardOk(s.claims, id, |h| - 1, h[|h| - 1]);
    }
  }

  predicate Terminal(row: Row) {
    row.status.Published? || row.status.DeadLetter?
  }

  /** The one way a terminal row can change: a claim that read the row before it was published
      commits its compare-and-set afterwards, which only a select without row locks allows. */
  predicate Revives(s: State, step: Step, id: nat)
    requires id < |s.rows|
  {
    && !s.rowLocks && step.Commit? && IsOpen(s, step.token) && id in s.claims[step.token].won
    && s.rows[id].status.Published?
  }

  lemma TerminalChangesOnlyByRevival(s: State, step: Step, id: nat)
    requires Reachable(s) && id < |s.rows| && Terminal(s.rows[id])
    ensures Next(s, step).rows[id] != s.rows[id] <==> Revives(s, step, id)
  {
    ReachableInv(s);
    assert RowOk(s.rows[id]) && HistoryOk(s.rows[id], s.history[id]);
    if step.Commit? && IsOpen(s, step.token) && id in s.claims[step.token].won {
      var c := s.claims[step.token];
      assert ClaimOk(s, step.token, c);
      assert WonOk(s.rows[id], s.history[id], step.token, c, id);
      assert SeenOk(s.rowLocks, s.rows[id], s.history[id], c, id);
    }
  }

  /** With row locks, published and dead-letter rows never change again. */
  lemma {:induction false} TerminalIsForever(s: State, steps: seq<Step>, id: nat)
    requires Reachable(s) && s.rowLocks && id < |s.rows| && Terminal(s.rows[id])
    ensures id < |Run(s, steps).rows| && Run(s, steps).rows[id] == s.rows[id]
    decreases |steps|
  {
    if steps != [] {
      var front := steps[..|steps| - 1];
      TerminalIsForever(s, front, id);
      ReachableExtends(s, front);
      RunKeepsMode(s, front);
      TerminalChangesOnlyByRevival(Run(s, front), steps[|steps| - 1], id);
      NextAttemptsMonotone(Run(s, front), steps[|steps| - 1], id);
    }
  }

  /** Dead letters are final even without row locks. */
  lemma {:induction false} DeadLetterIsForever(s: State, steps: seq<Step>, id: nat)
    requires Reachable(s) && id < |s.rows| && s.rows[id].status.DeadLetter?
    ensures id < |Run(s, steps).rows| && Run(s, steps).rows[id] == s.rows[id]
    decreases |steps|
  {
    if steps != [] {
      var front := steps[..|steps| - 1];
      DeadLetterIsForever(s, front, id);
      ReachableExtends(s, front);
      TerminalChangesOnlyByRevival(Run(s, front), steps[|steps| - 1], id);
      NextAttemptsMonotone(Run(s, front), steps[|steps| - 1], id);
    }
  }

  // ----- isolated transactions -----

  predicate Opens(s: State, step: Step) {
    step.Select? && CanSelect(s, step.token, step.now, step.picked)
  }

  /** No statement changes the rows between the i-th and the j-th. */
  ghost predicate QuietBetween(s: State, steps: seq<Step>, i: nat, j: nat) {
    forall m: nat :: i < m < j <= |steps| ==> Run(s, steps[..m + 1]).rows == Run(s, steps[..m]).rows
  }

  /** Statement i opens a claim that statement j commits. */
  predicate Spans(s: State, steps: seq<Step>, i: nat, j: nat) {
    && i < j < |steps| && Opens(Run(s, steps[..i]), steps[i]) && steps[j] == Commit(steps[i].token)
    && IsOpen(Run(s, steps[..j]), steps[i].token)
  }

  /** Every claim that commits has seen the table unchanged since its select, as in a database whose
      transactions are isolated: others may read meanwhile, or try and roll back. */
  ghost predicate Isolated(s: State, steps: seq<Step>) {
    forall i: nat, j: nat :: Spans(s, steps, i, j) ==> QuietBetween(s, steps, i, j)
  }

  /** The statement that opened a claim, and what it found. */
  ghost predicate OpenedAt(s: State, steps: seq<Step>, token: string, i: nat)
    requires token in Run(s, steps).claims
  {
    && i < |steps| && Opens(Run(s, steps[..i]), steps[i]) && steps[i].token == token
    && steps[i].picked == Run(s, steps).claims[token].seen.Keys
  }

  lemma StepKeepsSeen(s: State, step: Step, token: string)
    requires IsOpen(s, token)
    ensures token in Next(s, step).claims && Next(s, step).claims[token].seen == s.claims[token].seen
  {
    hide LockedByOther;
  }

  lemma OpenedByStep(s: State, step: Step, token: string)
    requires !IsOpen(s, token) && IsOpen(Next(s, step), token)
    ensures Opens(s, step) && step.token == token && step.picked == Next(s, step).claims[token].seen.Keys
  {
    hide LockedByOther;
  }

  lemma {:induction false} OpenClaimsWereOpened(s: State, steps: seq<Step>, token: string)
    requires s.claims == map[] && IsOpen(Run(s, steps), token)
    ensures exists i: nat :: OpenedAt(s, steps, token, i)
    decreases |steps|
  {
    hide Next, Opens;
    var front, step := steps[..|steps| - 1], steps[|steps| - 1];
    var mid := Run(s, front);
    if IsOpen(mid, token) {
      OpenClaimsWereOpened(s, front, token);
      var i: nat :| OpenedAt(s, front, token, i);
      assert steps[..i] == front[..i];
      StepKeepsSeen(mid, step, token);
      assert OpenedAt(s, steps, token, i);
    } else {
      assert steps[..|front|] == front;
      OpenedByStep(mid, step, token);
      assert OpenedAt(s, steps, token, |front|);
    }
  }

  lemma {:induction false} QuietRows(s: State, steps: seq<Step>, i: nat, j: nat)
    requires i < j <= |steps| && QuietBetween(s, steps, i, j) && steps[i].Select?
    ensures Run(s, steps[..j]).rows == Run(s, steps[..i]).rows
    decreases j
  {
    hide CanSelect;
    if j == i + 1 {
      RunPrefix(s, steps, i);
    } else {
      QuietRows(s, steps, i, j - 1);
      assert Run(s, steps[..j - 1 + 1]).rows == Run(s, steps[..j - 1]).rows;
    }
  }

  /** What an isolated claim commits was claimable, so it revives nothing. */
  lemma IsolatedCommitRevivesNothing(s: State, steps: seq<Step>, step: Step, id: nat)
    requires s.claims == map[] && Inv(Run(s, steps)) && Isolated(s, steps + [step])
    requires id < |Run(s, steps).rows|
    ensures !Revives(Run(s, steps), step, id)
  {
    hide Run, LockedByOther;
    var all, e := steps + [step], Run(s, steps);
    assert all[..|steps|] == steps;
    if step.Commit? && IsOpen(e, step.token) && id in e.claims[step.token].won {
      assert ClaimOk(e, step.token, e.claims[step.token]);
      assert WonOk(e.rows[id], e.history[id], step.token, e.claims[step.token], id);
      OpenClaimsWereOpened(s, steps, step.token);
      var i: nat :| OpenedAt(s, steps, step.token, i);
      assert all[..i] == steps[..i];
      assert Spans(s, all, i, |steps|);
      QuietRows(s, all, i, |steps|);
    }
  }

  lemma IsolatedFront(s: State, steps: seq<Step>)
    requires steps != [] && Isolated(s, steps)
    ensures Isolated(s, steps[..|steps| - 1])
  {
    hide Run, Opens, IsOpen;
    var front := steps[..|steps| - 1];
    forall i: nat, j: nat | Spans(s, front, i, j)
      ensures QuietBetween(s, front, i, j)
    {
      assert front[..i] == steps[..i] && front[..j] == steps[..j];
      assert Spans(s, steps, i, j);
      forall m: nat | i < m < j
        ensures Run(s, front[..m + 1]).rows == Run(s, front[..m]).rows
      {
        assert front[..m] == steps[..m] && front[..m + 1] == steps[..m + 1];
      }
    }
  }

  /** With isolated transactions, published and dead-letter rows never change again, with or without row
      locks. */
  lemma {:induction false} IsolatedTerminalIsForever(rowLocks: bool, steps: seq<Step>, k: nat, id: nat)
    requires Isolated(Init(rowLocks), steps) && k <= |steps|
    requires
      var s := Run(Init(rowLocks), steps[..k]);
      id < |s.rows| && Terminal(s.rows[id])
    ensures
      var s, e := Run(Init(rowLocks), steps[..k]), Run(Init(rowLocks), steps);
      id < |e.rows| && e.rows[id] == s.rows[id]
    decreases |steps|
  {
    hide Next, Isolated, Revives;
    var s0 := Init(rowLocks);
    if k == |steps| {
      assert steps[..k] == steps;
    } else {
      var front, step := steps[..|steps| - 1], steps[|steps| - 1];
      assert front[..k] == steps[..k] && front + [step] == steps;
      IsolatedFront(s0, steps);
      IsolatedTerminalIsForever(rowLocks, front, k, id);
      var mid := Run(s0, front);
      RunKeepsMode(s0, front);
      assert Reachable(mid);
      ReachableInv(mid);
      IsolatedCommitRevivesNothing(s0, front, step, id);
      TerminalChangesOnlyByRevival(mid, step, id);
      NextAttemptsMonotone(mid, step, id);
    }
  }

  // ----- the compare-and-set alone -----

  /** Dispatcher "a" is slow; "b" selects its stale row, then "a" publishes, then "b" commits. */
  function RevivalRun(): seq<Step> {
    [ Append("evt", "type", 0, 8),
      Select("a", 0, {0}), Cas("a", 0), Commit("a"),
      Select("b", LOCK_TIMEOUT + 1, {0}),
      MarkPublished("a", 0),
      Cas("b", 0), Commit("b") ]
  }

  function OnceClaimed(): Row {
    Claimed(NewRow("evt", "type", 0, 8), 0, "a")
  }

  lemma RevivalUpToTheWin()
    ensures Run(Init(false), RevivalRun()[..3]) ==
      State(false, [NewRow("evt", "type", 0, 8)], [[]], map["a" := Claim(0, map[0 := 0], {0}, Open)])
  {
    var s0, r := Init(false), RevivalRun();
    assert r[..0] == [];
    assert Run(s0, []) == s0;
    hide Run;
    RunPrefix(s0, r, 0);
    var s1 := Next(s0, r[0]);
    assert s1.rows == [NewRow("evt", "type", 0, 8)] && s1.history == [[]];
    RunPrefix(s0, r, 1);
    assert SeenAttempts(s1.rows, {0}) == map[0 := 0];
    var s2 := Next(s1, r[1]);
    assert s2.claims == map["a" := Claim(0, map[0 := 0], {}, Open)];
    assert CasWins(s2, "a", 0);
    RunPrefix(s0, r, 2);
    assert s2.claims["a"].won + {0} == {0};
    assert Next(s2, r[2]).claims == map["a" := Claim(0, map[0 := 0], {0}, Open)];
  }

  function AfterCommit(): State {
    State(false, [OnceClaimed()], [[Award("a", 0)]], map["a" := Claim(0, map[0 := 0], {0}, Committed)])
  }

  lemma RevivalUpToTheCommit()
    ensures Run(Init(false), RevivalRun()[..4]) == AfterCommit()
  {
    hide Run;
    RevivalUpToTheWin();
    var s3 := Run(Init(false), RevivalRun()[..3]);
    RunPrefix(Init(false), RevivalRun(), 3);
    var s4 := Next(s3, Commit("a"));
    assert s4.rows == [OnceClaimed()];
    assert s4.history[0] == [Award("a", 0)] && s4.history == [[Award("a", 0)]];
  }

  lemma RevivalUpToTheStaleSelect()
    ensures
      var s := Run(Init(false), RevivalRun()[..5]);
      && !s.rowLocks && s.rows == [OnceClaimed()]
      && Dispatching(s, "a", 0)
      && IsOpen(s, "b") && s.claims["b"] == Claim(LOCK_TIMEOUT + 1, map[0 := 1], {}, Open)
      && forall t :: t in s.claims ==> t == "a" || t == "b"
  {
    hide Run;
    RevivalUpToTheCommit();
    RunPrefix(Init(false), RevivalRun(), 4);
    assert SeenAttempts(AfterCommit().rows, {0}) == map[0 := 1];
  }

  /** Without row locks and without isolation a published row can return to processing: the
      compare-and-set tests the attempts column but not the status. */
  lemma CasAloneRevivesAPublishedRow()
    ensures
      var s := Run(Init(false), RevivalRun()[..6]);
      |s.rows| == 1 && s.rows[0].status.Published?
    ensures
      var s := Run(Init(false), RevivalRun());
      |s.rows| == 1 && s.rows[0].status.Processing? && s.rows[0].lockToken == "b" && s.rows[0].attempts == 2
    ensures !Isolated(Init(false), RevivalRun())
  {
    hide Isolated;
    var s0, r := Init(false), RevivalRun();
    RevivalUpToTheStaleSelect();
    var s5 := Run(s0, r[..5]);
    RunPrefix(s0, r, 5);
    assert MarkApplies(s5, "a", 0);
    RunPrefix(s0, r, 6);
    var s6 := Next(s5, r[5]);
    assert CasWins(s6, "b", 0);
    RunPrefix(s0, r, 7);
    assert r[..8] == r;
    if Isolated(s0, r) {
      IsolatedTerminalIsForever(false, r, 6, 0);
    }
  }

  // ----- which rows can still be claimed -----

  lemma {:induction false} Longest(ks: set<string>) returns (n: nat)
    ensures forall k :: k in ks ==> |k| <= n
    decreases |ks|
  {
    n := 0;
    if ks != {} {
      var k :| k in ks;
      var m := Longest(ks - {k});
      n := if m > |k| then m else |k|;
    }
  }

  lemma UnusedToken(s: State) returns (token: string)
    ensures token != "" && token !in s.claims
  {
    var n := Longest(s.claims.Keys);
    token := seq(n + 1, _ => 'x');
  }

  lemma RollbackReleases(s: State, u: string, id: nat)
    requires LocksOk(s) && u in s.claims && Holds(s.rowLocks, s.claims[u], id)
    ensures
      var s' := Next(s, Rollback(u));
      s'.rows == s.rows && s'.claims.Keys == s.claims.Keys && Free(s', id)
  {
    forall t | t in s.claims && t != u
      ensures !Holds(s.rowLocks, s.claims[t], id)
    {
    }
  }

  /** No open claim keeps other statements off the row. */
  predicate Free(s: State, id: nat) {
    forall t :: t in s.claims ==> !Holds(s.rowLocks, s.claims[t], id)
  }

  /** Whoever holds a row can let it go without changing the table. */
  lemma Release(s: State, id: nat) returns (steps: seq<Step>)
    requires LocksOk(s)
    ensures
      var s' := Run(s, steps);
      s'.rows == s.rows && s'.claims.Keys == s.claims.Keys && Free(s', id)
  {
    steps := [];
    if !Free(s, id) {
      var u :| u in s.claims && Holds(s.rowLocks, s.claims[u], id);
      steps := [Rollback(u)];
      assert steps[..0] == [];
      assert Run(s, steps) == Next(s, Rollback(u));
      hide Next, Run;
      RollbackReleases(s, u, id);
    }
  }

  lemma ClaimOne(s: State, token: string, now: int, id: nat) returns (steps: seq<Step>)
    requires token != "" && token !in s.claims && id < |s.rows| && ClaimableAt(s.rows[id], now)
    requires Free(s, id)
    ensures
      var s' := Run(s, steps);
      |s'.rows| == |s.rows| && s'.rows[id].attempts == s.rows[id].attempts + 1
  {
    steps := [Select(token, now, {id}), Cas(token, id), Commit(token)];
    assert steps[..0] == [] && steps[..3] == steps;
    RunPrefix(s, steps, 0);
    RunPrefix(s, steps, 1);
    RunPrefix(s, steps, 2);
    var s1 := Next(s, steps[0]);
    assert !LockedByOther(s1, token, id);
    assert CasWins(s1, token, id);
  }

  /** Some clock reading makes a live row eligible, unless it is in processing on its last attempt. */
  lemma EligibleAtSomeTime(row: Row) returns (now: int)
    requires RowOk(row) && !Terminal(row)
    ensures !(row.status.Processing? && row.attempts == row.maxAttempts) ==> ClaimableAt(row, now)
  {
    now := if row.status.Processing? then row.lockedAt.value + LOCK_TIMEOUT + 1 else row.availableAt;
  }

  lemma {:induction false} MaxAttemptsStay(s: State, steps: seq<Step>, id: nat)
    requires id < |s.rows|
    ensures id < |Run(s, steps).rows| && Run(s, steps).rows[id].maxAttempts == s.rows[id].maxAttempts
    decreases |steps|
  {
    if steps != [] {
      MaxAttemptsStay(s, steps[..|steps| - 1], id);
    }
  }

  ghost predicate ClaimedLater(s: State, id: nat)
    requires id < |s.rows|
  {
    exists steps :: id < |Run(s, steps).rows| && Run(s, steps).rows[id].attempts > s.rows[id].attempts
  }

  /** A live row is claimed again in some continuation exactly when it is not in processing on its last
      attempt. */
  lemma ClaimableUnlessOnLastAttempt(s: State, id: nat)
    requires Reachable(s) && id < |s.rows| && !Terminal(s.rows[id])
    ensures ClaimedLater(s, id) <==> !(s.rows[id].status.Processing? && s.rows[id].attempts == s.rows[id].maxAttempts)
  {
    hide Run, LockedByOther, Eligible;
    ReachableInv(s);
    assert RowOk(s.rows[id]);
    if s.rows[id].status.Processing? && s.rows[id].attempts == s.rows[id].maxAttempts {
      forall steps
        ensures id < |Run(s, steps).rows| && Run(s, steps).rows[id].attempts <= s.rows[id].attempts
      {
        MaxAttemptsStay(s, steps, id);
        RunKeepsInv(s, steps);
        assert RowOk(Run(s, steps).rows[id]);
      }
    } else {
      var released := Release(s, id);
      var free := Run(s, released);
      var token := UnusedToken(free);
      var now := EligibleAtSomeTime(s.rows[id]);
      var claim := ClaimOne(free, token, now, id);
      RunConcat(s, released, claim);
      assert Run(s, released + claim).rows[id].attempts > s.rows[id].attempts;
    }
  }

  // ----- retry timing -----

  lemma {:induction false} GapsAddUp(h: seq<Award>, k: nat)
    requires forall i :: 1 <= i < |h| ==> h[i].at - h[i - 1].at >= Gap(i)
    requires k < |h|
    ensures h[k].at - h[0].at >= TotalGap(k + 1)
  {
    if k > 0 {
      GapsAddUp(h, k - 1);
    }
  }

  /** Attempt n of a row is claimed at least TotalGap(n) after attempt 1, whether each re-claim
      followed a recorded failure or a stale lock; a dead letter has used every attempt. */
  lemma RetryTiming(s: State, id: nat, t: string, u: string, n: nat)
    requires Reachable(s)
    requires AwardedTo(s, t, id, 1) && AwardedTo(s, u, id, n) && n >= 1
    ensures s.claims[u].now - s.claims[t].now >= TotalGap(n)
    ensures n == 8 ==> s.claims[u].now - s.claims[t].now >= 127 * SECOND
  {
    ReachableInv(s);
    var h := s.history[id];
    assert ClaimOk(s, t, s.claims[t]) && ClaimOk(s, u, s.claims[u]);
    assert WonOk(s.rows[id], h, t, s.claims[t], id);
    assert WonOk(s.rows[id], h, u, s.claims[u], id);
    assert HistoryOk(s.rows[id], h);
    GapsAddUp(h, n - 1);
    DefaultTotalGap();
  }

  lemma DeadLetterUsedEveryAttempt(s: State, id: nat, n: nat)
    requires Reachable(s) && id < |s.rows| && s.rows[id].status.DeadLetter?
    requires 1 <= n <= s.rows[id].maxAttempts
    ensures exists t :: AwardedTo(s, t, id, n)
  {
    Lifecycle(s, id);
    EveryAttemptIsAwarded(s, id, n);
  }
}
