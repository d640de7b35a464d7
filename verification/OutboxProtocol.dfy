/** Several dispatchers working on one outbox table, one database statement at a time.

    A claim is a transaction: it selects rows, runs one compare-and-set per row, and commits or
    rolls back. An update locks its row until the transaction ends, so the model applies the
    updates at commit and lets no other statement touch a locked row. With `rowLocks` the select
    itself locks what it reads and skips what others hold (FOR UPDATE SKIP LOCKED); without it,
    only the compare-and-set protects a row. A dispatcher that takes no further step has crashed. */
module OutboxProtocol {
  import opened Wrappers
  import opened OutboxRows

  datatype Phase = Open | Committed | RolledBack

  /** One ClaimBatch call, named by its lock token: the attempts it read and the rows it won. */
  datatype Claim = Claim(now: int, seen: map<nat, nat>, won: set<nat>, phase: Phase)

  /** `history[id]` records, in commit order, who won row `id` and at what time. */
  datatype Award = Award(token: string, at: int)

  datatype State = State(
    rowLocks: bool,
    rows: seq<Row>,
    history: seq<seq<Award>>,
    claims: map<string, Claim>)

  datatype Step =
    | Append(eventId: string, eventType: string, occurredAt: int, maxAttempts: int)
    | Select(token: string, now: int, picked: set<nat>)
    | Cas(token: string, id: nat)
    | Commit(token: string)
    | Rollback(token: string)
    | MarkPublished(token: string, id: nat)
    | MarkFailed(token: string, id: nat, lastError: string)

  const EMPTY_TABLE: seq<Row> := []

  function Init(rowLocks: bool): State {
    State(rowLocks, EMPTY_TABLE, [], map[])
  }

  // ----- steps -----

  /** Whether an unfinished claim keeps other statements off row `id`. */
  predicate Holds(rowLocks: bool, c: Claim, id: nat) {
    c.phase.Open? && (if rowLocks then id in c.seen else id in c.won)
  }

  predicate LockedByOther(s: State, token: string, id: nat) {
    exists u :: u in s.claims && u != token && Holds(s.rowLocks, s.claims[u], id)
  }

  /** A dispatcher reading its clock at `now` counts locks older than the timeout as stale. */
  predicate ClaimableAt(row: Row, now: int) {
    Eligible(row, now, now - LOCK_TIMEOUT)
  }

  predicate CanSelect(s: State, token: string, now: int, picked: set<nat>) {
    && token != "" && token !in s.claims
    && forall id :: id in picked ==>
         && id < |s.rows|
         && ClaimableAt(s.rows[id], now)
         && (s.rowLocks ==> !LockedByOther(s, token, id))
  }

  predicate IsOpen(s: State, token: string) {
    token in s.claims && s.claims[token].phase.Open?
  }

  /** The compare-and-set statement runs on this row and finds the attempts it expects. */
  predicate CasWins(s: State, token: string, id: nat) {
    && IsOpen(s, token) && id in s.claims[token].seen && id < |s.rows|
    && !LockedByOther(s, token, id)
    && s.rows[id].attempts == s.claims[token].seen[id]
  }

  /** A committed claim handed row `id` to this dispatcher, which may now publish and mark it. */
  predicate Dispatching(s: State, token: string, id: nat) {
    && token in s.claims && s.claims[token].phase.Committed? && id in s.claims[token].won
  }

  /** The mark statement reaches the row and its lock token still matches. */
  predicate MarkApplies(s: State, token: string, id: nat) {
    && Dispatching(s, token, id) && id < |s.rows|
    && !LockedByOther(s, token, id)
    && Owns(s.rows[id], token)
  }

  function CommitRows(rows: seq<Row>, c: Claim, token: string): (r: seq<Row>) {
    seq(|rows|, i requires 0 <= i < |rows| => if i in c.won then Claimed(rows[i], c.now, token) else rows[i])
  }

  function CommitHistory(history: seq<seq<Award>>, c: Claim, token: string): (r: seq<seq<Award>>) {
    seq(|history|, i requires 0 <= i < |history| =>
      if i in c.won then history[i] + [Award(token, c.now)] else history[i])
  }

  function SeenAttempts(rows: seq<Row>, picked: set<nat>): map<nat, nat>
    requires forall id :: id in picked ==> id < |rows|
  {
    map id | id in picked :: rows[id].attempts
  }

  /** A statement that is blocked, or whose guard matches no row, changes nothing. */
  function Next(s: State, step: Step): State {
    match step
    case Append(eventId, eventType, occurredAt, maxAttempts) =>
      s.(rows := s.rows + [NewRow(eventId, eventType, occurredAt, maxAttempts)], history := s.history + [[]])
    case Select(token, now, picked) =>
      if CanSelect(s, token, now, picked)
      then s.(claims := s.claims[token := Claim(now, SeenAttempts(s.rows, picked), {}, Open)])
      else s
    case Cas(token, id) =>
      if CasWins(s, token, id)
      then s.(claims := s.claims[token := s.claims[token].(won := s.claims[token].won + {id})])
      else s
    case Commit(token) =>
      if IsOpen(s, token)
      then var c := s.claims[token];
           s.(rows := CommitRows(s.rows, c, token),
              history := CommitHistory(s.history, c, token),
              claims := s.claims[token := c.(phase := Committed)])
      else s
    case Rollback(token) =>
      if IsOpen(s, token)
      then s.(claims := s.claims[token := s.claims[token].(won := {}, phase := RolledBack)])
      else s
    case MarkPublished(token, id) =>
      if MarkApplies(s, token, id)
      then s.(rows := s.rows[id := PublishedRow(s.rows[id], s.claims[token].now)])
      else s
    case MarkFailed(token, id, lastError) =>
      if MarkApplies(s, token, id) && id in s.claims[token].seen
      then s.(rows := s.rows[id := FailureOf(s.rows[id], s.claims[token].seen[id] + 1, s.claims[token].now, lastError)])
      else s
  }

  function Run(s: State, steps: seq<Step>): State
    decreases |steps|
  {
    if steps == [] then s else Next(Run(s, steps[..|steps| - 1]), steps[|steps| - 1])
  }

  lemma RunPrefix(s: State, steps: seq<Step>, k: nat)
    requires k < |steps|
    ensures Run(s, steps[..k + 1]) == Next(Run(s, steps[..k]), steps[k])
  {
    assert steps[..k + 1][..k] == steps[..k];
  }

  lemma {:induction false} RunConcat(s: State, a: seq<Step>, b: seq<Step>)
    ensures Run(s, a + b) == Run(Run(s, a), b)
    decreases |b|
  {
    if b == [] {
      assert a + b == a;
    } else {
      var n := |b| - 1;
      RunConcat(s, a, b[..n]);
      assert (a + b)[..|a + b| - 1] == a + b[..n];
      assert (a + b)[|a + b| - 1] == b[n];
    }
  }

  // ----- the invariant -----

  /** The status of a row fixes what its counters and lock columns hold. */
  ghost predicate RowOk(row: Row) {
    && row.attempts <= row.maxAttempts && 1 <= row.maxAttempts
    && (row.status.Pending? ==> row.attempts == 0)
    && (row.status.Failed? ==> 0 < row.attempts < row.maxAttempts)
    && (row.status.DeadLetter? ==> row.attempts == row.maxAttempts)
    && (row.status.Published? || row.status.Processing? ==> 1 <= row.attempts)
    && (row.status.Processing? <==> row.lockToken != "")
    && (row.status.Processing? <==> row.lockedAt.Some?)
  }

  /** The row's award history explains its counters, and consecutive awards keep their distance. */
  ghost predicate HistoryOk(row: Row, h: seq<Award>) {
    && |h| == row.attempts
    && (row.status.Processing? ==> h != [] && h[|h| - 1] == Award(row.lockToken, row.lockedAt.GetOr(0)))
    && (row.status.Failed? ==> h != [] && row.availableAt == h[|h| - 1].at + RetryDelay(|h|))
    && forall k :: 1 <= k < |h| ==> h[k].at - h[k - 1].at >= Gap(k)
  }

  ghost predicate SeenOk(rowLocks: bool, row: Row, h: seq<Award>, c: Claim, id: nat)
    requires id in c.seen
  {
    var n := c.seen[id];
    && n <= |h| && n < row.maxAttempts
    && (n >= 1 ==> c.now >= h[n - 1].at + Gap(n))
    && (rowLocks && c.phase.Open? ==> n == row.attempts && ClaimableAt(row, c.now))
  }

  ghost predicate WonOk(row: Row, h: seq<Award>, token: string, c: Claim, id: nat) {
    && id in c.seen && !c.phase.RolledBack?
    && (c.phase.Open? ==> c.seen[id] == row.attempts)
    && (c.phase.Committed? ==> c.seen[id] < |h| && h[c.seen[id]] == Award(token, c.now))
  }

  ghost predicate ClaimOk(s: State, token: string, c: Claim)
    requires |s.history| == |s.rows|
  {
    && token != ""
    && (forall id :: id in c.seen ==> id < |s.rows| && SeenOk(s.rowLocks, s.rows[id], s.history[id], c, id))
    && (forall id :: id in c.won ==> id < |s.rows| && WonOk(s.rows[id], s.history[id], token, c, id))
  }

  /** Every award was made by a committed claim that won the row at exactly that attempt. */
  ghost predicate AwardOk(claims: map<string, Claim>, id: nat, k: nat, a: Award) {
    && a.token in claims && claims[a.token].phase.Committed?
    && id in claims[a.token].won && id in claims[a.token].seen && claims[a.token].seen[id] == k
  }

  ghost predicate RowsOk(s: State) {
    && |s.history| == |s.rows|
    && forall id :: 0 <= id < |s.rows| ==> RowOk(s.rows[id]) && HistoryOk(s.rows[id], s.history[id])
  }

  ghost predicate ClaimsOk(s: State)
    requires |s.history| == |s.rows|
  {
    forall t :: t in s.claims ==> ClaimOk(s, t, s.claims[t])
  }

  ghost predicate AwardsOk(s: State) {
    forall id, k :: 0 <= id < |s.history| && 0 <= k < |s.history[id]| ==> AwardOk(s.claims, id, k, s.history[id][k])
  }

  ghost predicate LocksOk(s: State) {
    forall t, u, id: nat :: t in s.claims && u in s.claims && t != u ==>
      !(Holds(s.rowLocks, s.claims[t], id) && Holds(s.rowLocks, s.claims[u], id))
  }

  ghost predicate Inv(s: State) {
    RowsOk(s) && ClaimsOk(s) && AwardsOk(s) && LocksOk(s)
  }

  lemma AppendKeepsInv(s: State, step: Step)
    requires Inv(s) && step.Append?
    ensures Inv(Next(s, step))
  {
    var s' := Next(s, step);
    assert forall id :: 0 <= id < |s.rows| ==> s'.rows[id] == s.rows[id] && s'.history[id] == s.history[id];
    forall t | t in s'.claims
      ensures ClaimOk(s', t, s'.claims[t])
    {
      assert ClaimOk(s, t, s.claims[t]);
    }
  }

  // Select, Cas and Rollback only touch the claim they belong to.

  lemma OtherClaimsOk(s: State, token: string, c': Claim)
    requires |s.history| == |s.rows| && ClaimsOk(s)
    requires ClaimOk(s, token, c')
    ensures ClaimsOk(s.(claims := s.claims[token := c']))
  {
    var s' := s.(claims := s.claims[token := c']);
    forall t | t in s'.claims
      ensures ClaimOk(s', t, s'.claims[t])
    {
      if t != token {
        assert ClaimOk(s, t, s.claims[t]);
      } else {
        assert ClaimOk(s, token, c');
      }
    }
  }

  lemma OtherAwardsOk(s: State, token: string, c': Claim)
    requires AwardsOk(s)
    requires token in s.claims ==> !s.claims[token].phase.Committed?
    ensures AwardsOk(s.(claims := s.claims[token := c']))
  {
    var s' := s.(claims := s.claims[token := c']);
    forall id, k | 0 <= id < |s'.history| && 0 <= k < |s'.history[id]|
      ensures AwardOk(s'.claims, id, k, s'.history[id][k])
    {
      assert AwardOk(s.claims, id, k, s.history[id][k]);
    }
  }

  lemma OtherLocksOk(s: State, token: string, c': Claim)
    requires LocksOk(s)
    requires forall id: nat :: Holds(s.rowLocks, c', id) ==> !LockedByOther(s, token, id)
    ensures LocksOk(s.(claims := s.claims[token := c']))
  {
  }

  lemma ClaimStepKeepsInv(s: State, token: string, c': Claim)
    requires Inv(s)
    requires token in s.claims ==> !s.claims[token].phase.Committed?
    requires ClaimOk(s, token, c')
    requires forall id: nat :: Holds(s.rowLocks, c', id) ==> !LockedByOther(s, token, id)
    ensures Inv(s.(claims := s.claims[token := c']))
  {
    OtherClaimsOk(s, token, c');
    OtherAwardsOk(s, token, c');
    OtherLocksOk(s, token, c');
  }

  lemma EligibleSeenOk(s: State, now: int, id: nat, c: Claim)
    requires RowsOk(s) && id < |s.rows| && id in c.seen
    requires ClaimableAt(s.rows[id], now)
    requires c.now == now && c.seen[id] == s.rows[id].attempts
    ensures SeenOk(s.rowLocks, s.rows[id], s.history[id], c, id)
  {
    assert RowOk(s.rows[id]) && HistoryOk(s.rows[id], s.history[id]);
  }

  lemma SelectKeepsInv(s: State, step: Step)
    requires Inv(s) && step.Select?
    ensures Inv(Next(s, step))
  {
    if CanSelect(s, step.token, step.now, step.picked) {
      var c := Claim(step.now, SeenAttempts(s.rows, step.picked), {}, Open);
      forall id | id in c.seen
        ensures id < |s.rows| && SeenOk(s.rowLocks, s.rows[id], s.history[id], c, id)
      {
        EligibleSeenOk(s, step.now, id, c);
      }
      ClaimStepKeepsInv(s, step.token, c);
    }
  }

  lemma CasKeepsClaim(s: State, token: string, c: Claim, id: nat)
    requires |s.history| == |s.rows| && ClaimOk(s, token, c) && c.phase.Open?
    requires id in c.seen && id < |s.rows| && s.rows[id].attempts == c.seen[id]
    ensures ClaimOk(s, token, c.(won := c.won + {id}))
  {
    var c' := c.(won := c.won + {id});
    forall i | i in c'.seen
      ensures i < |s.rows| && SeenOk(s.rowLocks, s.rows[i], s.history[i], c', i)
    {
      assert SeenOk(s.rowLocks, s.rows[i], s.history[i], c, i);
    }
    forall i | i in c'.won
      ensures i < |s.rows| && WonOk(s.rows[i], s.history[i], token, c', i)
    {
      if i != id {
        assert WonOk(s.rows[i], s.history[i], token, c, i);
      }
    }
  }

  lemma CasKeepsLocks(s: State, token: string, id: nat, i: nat)
    requires Inv(s) && CasWins(s, token, id)
    requires Holds(s.rowLocks, s.claims[token].(won := s.claims[token].won + {id}), i)
    ensures !LockedByOther(s, token, i)
  {
    if i != id {
      assert Holds(s.rowLocks, s.claims[token], i);
    }
  }

  lemma CasKeepsInv(s: State, step: Step)
    requires Inv(s) && step.Cas?
    ensures Inv(Next(s, step))
  {
    if CasWins(s, step.token, step.id) {
      var c' := s.claims[step.token].(won := s.claims[step.token].won + {step.id});
      CasKeepsClaim(s, step.token, s.claims[step.token], step.id);
      forall i: nat | Holds(s.rowLocks, c', i)
        ensures !LockedByOther(s, step.token, i)
      {
        CasKeepsLocks(s, step.token, step.id, i);
      }
      ClaimStepKeepsInv(s, step.token, c');
    }
  }

  lemma RolledBackSeenOk(rowLocks: bool, row: Row, h: seq<Award>, c: Claim, id: nat)
    requires id in c.seen && SeenOk(rowLocks, row, h, c, id)
    ensures SeenOk(rowLocks, row, h, c.(won := {}, phase := RolledBack), id)
  {
  }

  lemma RollbackKeepsInv(s: State, step: Step)
    requires Inv(s) && step.Rollback?
    ensures Inv(Next(s, step))
  {
    if IsOpen(s, step.token) {
      var c := s.claims[step.token];
      var c' := c.(won := {}, phase := RolledBack);
      assert ClaimOk(s, step.token, c);
      forall id | id in c'.seen
        ensures id < |s.rows| && SeenOk(s.rowLocks, s.rows[id], s.history[id], c', id)
      {
        assert SeenOk(s.rowLocks, s.rows[id], s.history[id], c, id);
        RolledBackSeenOk(s.rowLocks, s.rows[id], s.history[id], c, id);
      }
      ClaimStepKeepsInv(s, step.token, c');
    }
  }

  // Commit and the marks change rows; every claim must survive that.

  /** A row may change under a claim that holds no lock on it, as long as its history only grows. */
  lemma ClaimSurvives(s: State, s': State, token: string, c: Claim)
    requires |s.history| == |s.rows| == |s'.rows| == |s'.history| && s'.rowLocks == s.rowLocks
    requires ClaimOk(s, token, c)
    requires forall id :: 0 <= id < |s.rows| ==>
      s.history[id] <= s'.history[id] && s'.rows[id].maxAttempts == s.rows[id].maxAttempts
    requires forall id :: 0 <= id < |s.rows| && Holds(s.rowLocks, c, id) ==> s'.rows[id] == s.rows[id]
    requires c.phase.Open? ==> forall id :: id in c.won ==> Holds(s.rowLocks, c, id)
    ensures ClaimOk(s', token, c)
  {
    forall id | id in c.seen
      ensures id < |s'.rows| && SeenOk(s'.rowLocks, s'.rows[id], s'.history[id], c, id)
    {
      assert SeenOk(s.rowLocks, s.rows[id], s.history[id], c, id);
    }
    forall id | id in c.won
      ensures id < |s'.rows| && WonOk(s'.rows[id], s'.history[id], token, c, id)
    {
      assert WonOk(s.rows[id], s.history[id], token, c, id);
    }
  }

  lemma WonIsHeld(s: State, token: string)
    requires |s.history| == |s.rows| && ClaimsOk(s) && IsOpen(s, token)
    ensures forall id :: id in s.claims[token].won ==> id < |s.rows| && Holds(s.rowLocks, s.claims[token], id)
  {
    assert ClaimOk(s, token, s.claims[token]);
  }

  lemma CommitRowOk(row: Row, h: seq<Award>, token: string, c: Claim, id: nat, rowLocks: bool)
    requires RowOk(row) && HistoryOk(row, h) && token != ""
    requires id in c.seen && c.seen[id] == row.attempts && SeenOk(rowLocks, row, h, c, id)
    ensures RowOk(Claimed(row, c.now, token))
    ensures HistoryOk(Claimed(row, c.now, token), h + [Award(token, c.now)])
  {
  }

  lemma CommitKeepsRows(s: State, token: string)
    requires Inv(s) && IsOpen(s, token)
    ensures RowsOk(Next(s, Commit(token)))
  {
    var c, s' := s.claims[token], Next(s, Commit(token));
    assert ClaimOk(s, token, c);
    forall id | 0 <= id < |s'.rows|
      ensures RowOk(s'.rows[id]) && HistoryOk(s'.rows[id], s'.history[id])
    {
      assert RowOk(s.rows[id]) && HistoryOk(s.rows[id], s.history[id]);
      if id in c.won {
        assert WonOk(s.rows[id], s.history[id], token, c, id);
        CommitRowOk(s.rows[id], s.history[id], token, c, id, s.rowLocks);
      }
    }
  }

  lemma CommitRowClaim(row: Row, h: seq<Award>, token: string, c: Claim, id: nat, rowLocks: bool)
    requires |h| == row.attempts && c.phase.Open? && id in c.seen && SeenOk(rowLocks, row, h, c, id)
    requires id in c.won ==> WonOk(row, h, token, c, id)
    ensures
      var c' := c.(phase := Committed);
      var row' := if id in c.won then Claimed(row, c.now, token) else row;
      var h' := if id in c.won then h + [Award(token, c.now)] else h;
      SeenOk(rowLocks, row', h', c', id) && (id in c.won ==> WonOk(row', h', token, c', id))
  {
  }

  lemma CommitKeepsOwnClaim(s: State, token: string)
    requires Inv(s) && IsOpen(s, token)
    ensures ClaimOk(Next(s, Commit(token)), token, s.claims[token].(phase := Committed))
  {
    var c, s' := s.claims[token], Next(s, Commit(token));
    var c' := c.(phase := Committed);
    assert ClaimOk(s, token, c);
    forall id | id in c'.seen
      ensures id < |s'.rows| && SeenOk(s'.rowLocks, s'.rows[id], s'.history[id], c', id)
      ensures id in c'.won ==> WonOk(s'.rows[id], s'.history[id], token, c', id)
    {
      assert HistoryOk(s.rows[id], s.history[id]);
      CommitRowClaim(s.rows[id], s.history[id], token, c, id, s.rowLocks);
    }
  }

  lemma CommitKeepsClaims(s: State, token: string)
    requires Inv(s) && IsOpen(s, token)
    ensures ClaimsOk(Next(s, Commit(token)))
  {
    var s' := Next(s, Commit(token));
    forall t | t in s'.claims
      ensures ClaimOk(s', t, s'.claims[t])
    {
      if t == token {
        CommitKeepsOwnClaim(s, token);
      } else {
        var c := s.claims[t];
        assert ClaimOk(s, t, c);
        WonIsHeld(s, token);
        assert forall id: nat :: Holds(s.rowLocks, c, id) ==> !Holds(s.rowLocks, s.claims[token], id);
        if c.phase.Open? {
          WonIsHeld(s, t);
        }
        ClaimSurvives(s, s', t, c);
      }
    }
  }

  lemma CommitKeepsAwards(s: State, token: string)
    requires Inv(s) && IsOpen(s, token)
    ensures AwardsOk(Next(s, Commit(token)))
  {
    var c, s' := s.claims[token], Next(s, Commit(token));
    assert ClaimOk(s, token, c);
    forall id, k | 0 <= id < |s'.history| && 0 <= k < |s'.history[id]|
      ensures AwardOk(s'.claims, id, k, s'.history[id][k])
    {
      if k < |s.history[id]| {
        assert AwardOk(s.claims, id, k, s.history[id][k]);
      } else {
        assert WonOk(s.rows[id], s.history[id], token, c, id);
        assert HistoryOk(s.rows[id], s.history[id]);
      }
    }
  }

  lemma CommitKeepsInv(s: State, step: Step)
    requires Inv(s) && step.Commit?
    ensures Inv(Next(s, step))
  {
    if IsOpen(s, step.token) {
      CommitKeepsRows(s, step.token);
      CommitKeepsClaims(s, step.token);
      CommitKeepsAwards(s, step.token);
    }
  }

  /** A mark that applies comes from the latest award of the row. */
  lemma MarkerIsLatest(s: State, token: string, id: nat)
    requires Inv(s) && MarkApplies(s, token, id)
    ensures id in s.claims[token].seen
    ensures s.claims[token].seen[id] + 1 == s.rows[id].attempts == |s.history[id]|
    ensures s.history[id][|s.history[id]| - 1] == Award(token, s.claims[token].now)
  {
    var h := s.history[id];
    assert HistoryOk(s.rows[id], h) && RowOk(s.rows[id]);
    assert AwardOk(s.claims, id, |h| - 1, h[|h| - 1]);
    assert ClaimOk(s, token, s.claims[token]);
    assert WonOk(s.rows[id], h, token, s.claims[token], id);
  }

  /** Replacing one unlocked row by a marked one keeps the invariant. */
  lemma MarkStepKeepsInv(s: State, token: string, id: nat, row': Row)
    requires Inv(s) && MarkApplies(s, token, id)
    requires RowOk(row') && HistoryOk(row', s.history[id])
    requires row'.maxAttempts == s.rows[id].maxAttempts
    ensures Inv(s.(rows := s.rows[id := row']))
  {
    var s' := s.(rows := s.rows[id := row']);
    forall i | 0 <= i < |s'.rows|
      ensures RowOk(s'.rows[i]) && HistoryOk(s'.rows[i], s'.history[i])
    {
      assert RowOk(s.rows[i]) && HistoryOk(s.rows[i], s.history[i]);
    }
    forall t | t in s'.claims
      ensures ClaimOk(s', t, s'.claims[t])
    {
      var c := s.claims[t];
      assert ClaimOk(s, t, c);
      if c.phase.Open? {
        WonIsHeld(s, t);
      }
      assert t != token ==> !Holds(s.rowLocks, c, id);
      ClaimSurvives(s, s', t, c);
    }
  }

  lemma MarkPublishedKeepsInv(s: State, step: Step)
    requires Inv(s) && step.MarkPublished?
    ensures Inv(Next(s, step))
  {
    if MarkApplies(s, step.token, step.id) {
      var row := s.rows[step.id];
      assert RowOk(row) && HistoryOk(row, s.history[step.id]);
      MarkStepKeepsInv(s, step.token, step.id, PublishedRow(row, s.claims[step.token].now));
    }
  }

  lemma MarkFailedKeepsInv(s: State, step: Step)
    requires Inv(s) && step.MarkFailed?
    ensures Inv(Next(s, step))
  {
    if MarkApplies(s, step.token, step.id) {
      var row, c := s.rows[step.id], s.claims[step.token];
      MarkerIsLatest(s, step.token, step.id);
      assert RowOk(row) && HistoryOk(row, s.history[step.id]);
      MarkStepKeepsInv(s, step.token, step.id, FailureOf(row, c.seen[step.id] + 1, c.now, step.lastError));
    }
  }

  lemma NextKeepsInv(s: State, step: Step)
    requires Inv(s)
    ensures Inv(Next(s, step))
  {
    match step
    case Append(_, _, _, _) => AppendKeepsInv(s, step);
    case Select(_, _, _) => SelectKeepsInv(s, step);
    case Cas(_, _) => CasKeepsInv(s, step);
    case Commit(_) => CommitKeepsInv(s, step);
    case Rollback(_) => RollbackKeepsInv(s, step);
    case MarkPublished(_, _) => MarkPublishedKeepsInv(s, step);
    case MarkFailed(_, _, _) => MarkFailedKeepsInv(s, step);
  }

  lemma {:induction false} RunKeepsInv(s: State, steps: seq<Step>)
    requires Inv(s)
    ensures Inv(Run(s, steps))
    decreases |steps|
  {
    if steps != [] {
      RunKeepsInv(s, steps[..|steps| - 1]);
      NextKeepsInv(Run(s, steps[..|steps| - 1]), steps[|steps| - 1]);
    }
  }
}
