/** The repository and the dispatcher loop as they run, proved to be runs of the outbox protocol. */
module OutboxStore {
  import opened Wrappers
  import opened OutboxRows
  import opened OutboxProtocol
  import opened OutboxTheorems

  /** A row as the dispatcher holds it after the claim. */
  datatype Event = Event(id: nat, row: Row)

  // ----- the claim query -----

  /** ORDER BY available_at ASC, id ASC. */
  predicate Before(rows: seq<Row>, a: nat, b: nat)
    requires a < |rows| && b < |rows|
  {
    rows[a].availableAt < rows[b].availableAt || (rows[a].availableAt == rows[b].availableAt && a < b)
  }

  predicate InTable(rows: seq<Row>, ids: seq<nat>) {
    forall k :: 0 <= k < |ids| ==> ids[k] < |rows|
  }

  function EligibleIds(rows: seq<Row>, now: int, staleBefore: int, skip: set<nat>, n: nat): (ids: seq<nat>)
    requires n <= |rows|
    ensures InTable(rows, ids)
    ensures forall id: nat :: id in ids <==> id < n && Eligible(rows[id], now, staleBefore) && id !in skip
  {
    if n == 0 then []
    else
      EligibleIds(rows, now, staleBefore, skip, n - 1)
      + (if Eligible(rows[n - 1], now, staleBefore) && n - 1 !in skip then [n - 1] else [])
  }

  lemma {:induction false} EligibleIdsDistinct(rows: seq<Row>, now: int, staleBefore: int, skip: set<nat>, n: nat)
    requires n <= |rows|
    ensures forall j, k :: 0 <= j < k < |EligibleIds(rows, now, staleBefore, skip, n)| ==>
      EligibleIds(rows, now, staleBefore, skip, n)[j] != EligibleIds(rows, now, staleBefore, skip, n)[k]
  {
    if n > 0 {
      EligibleIdsDistinct(rows, now, staleBefore, skip, n - 1);
      var front := EligibleIds(rows, now, staleBefore, skip, n - 1);
      assert forall k :: 0 <= k < |front| ==> front[k] in front;
    }
  }

  function Insert(rows: seq<Row>, id: nat, ids: seq<nat>): (r: seq<nat>)
    requires id < |rows| && InTable(rows, ids)
    ensures InTable(rows, r) && |r| == |ids| + 1
    ensures forall i: nat :: i in r <==> i == id || i in ids
  {
    if ids == [] then [id]
    else if Before(rows, id, ids[0]) then [id] + ids
    else
      var rest := Insert(rows, id, ids[1..]);
      assert forall i: nat :: i in ids <==> i == ids[0] || i in ids[1..];
      [ids[0]] + rest
  }

  function Sorted(rows: seq<Row>, ids: seq<nat>): (r: seq<nat>)
    requires InTable(rows, ids)
    ensures InTable(rows, r) && |r| == |ids|
    ensures forall i: nat :: i in r <==> i in ids
  {
    if ids == [] then []
    else
      assert forall i: nat :: i in ids <==> i == ids[0] || i in ids[1..];
      Insert(rows, ids[0], Sorted(rows, ids[1..]))
  }

  predicate IsOrdered(rows: seq<Row>, ids: seq<nat>)
    requires InTable(rows, ids)
  {
    forall j, k :: 0 <= j < k < |ids| ==> Before(rows, ids[j], ids[k])
  }

  lemma {:induction false} InsertKeepsOrder(rows: seq<Row>, id: nat, ids: seq<nat>)
    requires id < |rows| && InTable(rows, ids) && IsOrdered(rows, ids) && id !in ids
    ensures IsOrdered(rows, Insert(rows, id, ids))
  {
    if ids != [] && !Before(rows, id, ids[0]) {
      InsertKeepsOrder(rows, id, ids[1..]);
      var rest := Insert(rows, id, ids[1..]);
      forall k | 0 <= k < |rest|
        ensures Before(rows, ids[0], rest[k])
      {
        assert rest[k] in rest;
      }
    }
  }

  lemma {:induction false} SortedIsOrdered(rows: seq<Row>, ids: seq<nat>)
    requires InTable(rows, ids)
    requires forall j, k :: 0 <= j < k < |ids| ==> ids[j] != ids[k]
    ensures IsOrdered(rows, Sorted(rows, ids))
  {
    if ids != [] {
      SortedIsOrdered(rows, ids[1..]);
      InsertKeepsOrder(rows, ids[0], Sorted(rows, ids[1..]));
    }
  }

  /** The ids the claim query returns, skipping what other transactions have locked. */
  function SelectIds(rows: seq<Row>, now: int, staleBefore: int, skip: set<nat>, limit: nat): (r: seq<nat>)
    ensures InTable(rows, r) && |r| <= limit
    ensures forall id: nat :: id in r ==> id < |rows| && Eligible(rows[id], now, staleBefore) && id !in skip
  {
    var ids := Sorted(rows, EligibleIds(rows, now, staleBefore, skip, |rows|));
    if |ids| <= limit then ids else
      assert forall id: nat :: id in ids[..limit] ==> id in ids;
      ids[..limit]
  }

  /** The query returns distinct claimable rows, oldest first, and leaves an unlocked one out only when
      the batch is full of older ones. */
  lemma SelectionIsOldestFirst(rows: seq<Row>, now: int, staleBefore: int, skip: set<nat>, limit: nat)
    ensures IsOrdered(rows, SelectIds(rows, now, staleBefore, skip, limit))
    ensures forall id: nat :: id < |rows| && Eligible(rows[id], now, staleBefore) && id !in skip && id !in SelectIds(rows, now, staleBefore, skip, limit) ==>
      && |SelectIds(rows, now, staleBefore, skip, limit)| == limit
      && forall picked: nat :: picked in SelectIds(rows, now, staleBefore, skip, limit) ==> Before(rows, picked, id)
  {
    hide Eligible, EligibleIds, Sorted, Before;
    var all := EligibleIds(rows, now, staleBefore, skip, |rows|);
    EligibleIdsDistinct(rows, now, staleBefore, skip, |rows|);
    SortedIsOrdered(rows, all);
    var sorted := Sorted(rows, all);
    var r := SelectIds(rows, now, staleBefore, skip, limit);
    forall id: nat | id < |rows| && Eligible(rows[id], now, staleBefore) && id !in skip && id !in r
      ensures |r| == limit && forall picked: nat :: picked in r ==> Before(rows, picked, id)
    {
      assert id in sorted;
      assert |sorted| > limit ==> forall m :: 0 <= m < limit ==> sorted[m] == r[m] && r[m] in r;
      var k :| 0 <= k < |sorted| && sorted[k] == id;
      assert |sorted| > limit && r == sorted[..limit];
    }
  }

  // ----- a claim and a batch as protocol steps -----

  function IdSet(ids: seq<nat>): set<nat> {
    set k | 0 <= k < |ids| :: ids[k]
  }

  lemma IdSetSnoc(ids: seq<nat>, n: nat)
    requires n < |ids|
    ensures IdSet(ids[..n + 1]) == IdSet(ids[..n]) + {ids[n]}
  {
    assert ids[..n + 1] == ids[..n] + [ids[n]];
    forall i | i in IdSet(ids[..n])
      ensures i in IdSet(ids[..n + 1])
    {
      var k :| 0 <= k < n && ids[..n][k] == i;
      assert ids[..n + 1][k] == i;
    }
    assert ids[..n + 1][n] == ids[n];
  }

  function CasSteps(token: string, ids: seq<nat>): seq<Step> {
    seq(|ids|, k requires 0 <= k < |ids| => Cas(token, ids[k]))
  }

  /** The statements of one ClaimBatch transaction. */
  function ClaimSteps(token: string, now: int, ids: seq<nat>): seq<Step> {
    [Select(token, now, IdSet(ids))] + CasSteps(token, ids) + [Commit(token)]
  }

  predicate NoOpenClaims(s: State) {
    forall t :: t in s.claims ==> !s.claims[t].phase.Open?
  }

  /** No other transaction holds any of these rows. */
  predicate Unhindered(s: State, token: string, ids: seq<nat>) {
    forall id :: id in ids ==> !LockedByOther(s, token, id)
  }

  /** The rows a locking select skips; a database without row locks lets one claim run at a time. */
  function LockedRows(s: State, token: string): set<nat> {
    set id: nat | id < |s.rows| && s.rowLocks && LockedByOther(s, token, id)
  }

  function Selected(s: State, token: string, now: int, staleBefore: int, limit: nat): (ids: seq<nat>)
    ensures InTable(s.rows, ids)
  {
    SelectIds(s.rows, now, staleBefore, LockedRows(s, token), limit)
  }

  /** The table once a claim of exactly `ids` has committed. */
  function AfterClaim(s: State, token: string, now: int, ids: seq<nat>): State
    requires InTable(s.rows, ids)
  {
    var c := Claim(now, SeenAttempts(s.rows, IdSet(ids)), IdSet(ids), Committed);
    s.(rows := CommitRows(s.rows, c, token),
       history := CommitHistory(s.history, c, token),
       claims := s.claims[token := c])
  }

  function WithClaim(s: State, token: string, c: Claim): State {
    s.(claims := s.claims[token := c])
  }

  lemma CasWinsAlone(s: State, token: string, c: Claim, id: nat)
    requires !LockedByOther(s, token, id) && c.phase.Open? && id < |s.rows|
    requires id in c.seen && c.seen[id] == s.rows[id].attempts
    ensures Next(WithClaim(s, token, c), Cas(token, id)) == WithClaim(s, token, c.(won := c.won + {id}))
  {
    assert CasWins(WithClaim(s, token, c), token, id);
    assert s.claims[token := c][token := c.(won := c.won + {id})] == s.claims[token := c.(won := c.won + {id})];
  }

  lemma {:induction false} CasRun(s: State, token: string, c: Claim, ids: seq<nat>, n: nat)
    requires InTable(s.rows, ids) && Unhindered(s, token, ids) && n <= |ids|
    requires c.phase.Open? && c.won == {} && c.seen == SeenAttempts(s.rows, IdSet(ids))
    ensures Run(WithClaim(s, token, c), CasSteps(token, ids)[..n]) == WithClaim(s, token, c.(won := IdSet(ids[..n])))
  {
    if n == 0 {
      assert IdSet(ids[..0]) == {};
      assert CasSteps(token, ids)[..0] == [];
    } else {
      CasRun(s, token, c, ids, n - 1);
      RunPrefix(WithClaim(s, token, c), CasSteps(token, ids), n - 1);
      assert ids[n - 1] in IdSet(ids);
      CasWinsAlone(s, token, c.(won := IdSet(ids[..n - 1])), ids[n - 1]);
      IdSetSnoc(ids, n - 1);
    }
  }

  lemma RunOne(s: State, step: Step)
    ensures Run(s, [step]) == Next(s, step)
  {
    assert [step][..0] == [];
  }

  lemma CommitAlone(s: State, token: string, c: Claim)
    requires c.phase.Open?
    ensures
      var c' := c.(phase := Committed);
      Next(WithClaim(s, token, c), Commit(token)) ==
        s.(rows := CommitRows(s.rows, c', token), history := CommitHistory(s.history, c', token), claims := s.claims[token := c'])
  {
    var c' := c.(phase := Committed);
    assert s.claims[token := c][token := c'] == s.claims[token := c'];
    assert CommitRows(s.rows, c, token) == CommitRows(s.rows, c', token);
    assert CommitHistory(s.history, c, token) == CommitHistory(s.history, c', token);
  }

  /** The rows a claim batch leaves behind are those of a protocol run of its statements. */
  lemma ClaimIsARun(s: State, token: string, now: int, ids: seq<nat>)
    requires InTable(s.rows, ids) && Unhindered(s, token, ids)
    requires CanSelect(s, token, now, IdSet(ids))
    ensures Run(s, ClaimSteps(token, now, ids)) == AfterClaim(s, token, now, ids)
  {
    var select, cas := Select(token, now, IdSet(ids)), CasSteps(token, ids);
    var c := Claim(now, SeenAttempts(s.rows, IdSet(ids)), {}, Open);
    RunConcat(s, [select] + cas, [Commit(token)]);
    RunConcat(s, [select], cas);
    RunOne(s, select);
    assert Next(s, select) == WithClaim(s, token, c);
    CasRun(s, token, c, ids, |ids|);
    assert cas[..|ids|] == cas && ids[..|ids|] == ids;
    var c' := c.(won := IdSet(ids));
    RunOne(WithClaim(s, token, c'), Commit(token));
    CommitAlone(s, token, c');
  }

  // ----- what the query takes, column by column -----

  /** The batch comes in order of available time and then of id, and what a full batch leaves out comes after
      all of it. */
  lemma SelectedInOrder(s: State, token: string, now: int, staleBefore: int, limit: nat, id: nat)
    ensures
      var ids := Selected(s, token, now, staleBefore, limit);
      && |ids| <= limit
      && (forall j, k :: 0 <= j < k < |ids| ==>
            && s.rows[ids[j]].availableAt <= s.rows[ids[k]].availableAt
            && (s.rows[ids[j]].availableAt == s.rows[ids[k]].availableAt ==> ids[j] < ids[k]))
      && (id < |s.rows| && Eligible(s.rows[id], now, staleBefore) && !SkippedByLock(s, token, id) && id !in ids ==>
            |ids| == limit && forall k :: 0 <= k < |ids| ==>
              && s.rows[ids[k]].availableAt <= s.rows[id].availableAt
              && (s.rows[ids[k]].availableAt == s.rows[id].availableAt ==> ids[k] < id))
  {
    hide Eligible, SelectIds;
    SelectionIsOldestFirst(s.rows, now, staleBefore, LockedRows(s, token), limit);
    assert id < |s.rows| ==> (id in LockedRows(s, token) <==> SkippedByLock(s, token, id));
    var ids := Selected(s, token, now, staleBefore, limit);
    forall k | 0 <= k < |ids|
      ensures ids[k] in ids
    {
    }
  }

  /** Another transaction's select has locked the row. */
  ghost predicate SkippedByLock(s: State, token: string, id: nat) {
    s.rowLocks && exists u :: u in s.claims && u != token && s.claims[u].phase.Open? && id in s.claims[u].seen
  }

  /** A batch with room takes exactly the rows with attempts left that are not locked and either wait since
      `now` at the latest, pending or failed, or are in processing under a lock older than `staleBefore`. */
  lemma SelectedColumns(s: State, token: string, now: int, staleBefore: int, limit: nat, id: nat)
    requires |Selected(s, token, now, staleBefore, limit)| < limit && id < |s.rows|
    ensures id in Selected(s, token, now, staleBefore, limit) <==>
      && s.rows[id].attempts < s.rows[id].maxAttempts && !SkippedByLock(s, token, id)
      && (|| ((s.rows[id].status == Pending || s.rows[id].status == Failed) && s.rows[id].availableAt <= now)
          || (s.rows[id].status == Processing && s.rows[id].lockedAt.Some? && s.rows[id].lockedAt.value < staleBefore))
  {
    hide IsOrdered, Before;
    SelectionIsOldestFirst(s.rows, now, staleBefore, LockedRows(s, token), limit);
    assert id in LockedRows(s, token) <==> SkippedByLock(s, token, id);
    var ids := Selected(s, token, now, staleBefore, limit);
    assert Eligible(s.rows[id], now, staleBefore) && id !in LockedRows(s, token) ==> id in ids;
  }

  /** The exact times. A batch with room takes an unlocked row: a pending one from its available time on; a
      failed one from its last attempt plus that attempt's retry delay on; one in processing with attempts left
      once its last attempt is more than five minutes old; and a terminal one never. */
  lemma DueIsTaken(s: State, token: string, now: int, limit: nat, id: nat, t: string)
    requires Reachable(s) && id < |s.rows| && !SkippedByLock(s, token, id)
    requires |Selected(s, token, now, now - LOCK_TIMEOUT, limit)| < limit
    requires s.rows[id].attempts > 0 ==> AwardedTo(s, t, id, s.rows[id].attempts)
    ensures
      var row, taken := s.rows[id], id in Selected(s, token, now, now - LOCK_TIMEOUT, limit);
      match row.status
      case Pending => taken <==> now >= row.availableAt
      case Failed => t in s.claims && (taken <==> now >= s.claims[t].now + RetryDelay(row.attempts))
      case Processing =>
        t in s.claims && (taken <==> row.attempts < row.maxAttempts && now > s.claims[t].now + 300_000_000_000)
      case _ => !taken
  {
    hide Selected, Reachable, RetryDelay;
    SelectedColumns(s, token, now, now - LOCK_TIMEOUT, limit, id);
    LastAward(s, id, t);
  }

  lemma LastAward(s: State, id: nat, t: string)
    requires Reachable(s) && id < |s.rows|
    requires s.rows[id].attempts > 0 ==> AwardedTo(s, t, id, s.rows[id].attempts)
    ensures s.rows[id].status.Failed? ==> t in s.claims && s.rows[id].availableAt == s.claims[t].now + RetryDelay(s.rows[id].attempts)
    ensures s.rows[id].status.Processing? ==> t in s.claims && s.rows[id].lockedAt == Some(s.claims[t].now)
    ensures s.rows[id].status.Failed? || s.rows[id].status.Pending? ==> s.rows[id].attempts < s.rows[id].maxAttempts
  {
    hide Reachable, RetryDelay, RowOk, HistoryOk, ClaimOk, WonOk, SeenOk, AwardOk, LocksOk;
    ReachableInv(s);
    var row, h := s.rows[id], s.history[id];
    assert RowOk(row) && HistoryOk(row, h);
    if row.attempts > 0 {
      assert ClaimOk(s, t, s.claims[t]);
      ClaimWon(s, t, id);
      LastAwardOfRow(row, h, t, s.claims[t], id);
    } else {
      NoAwardYet(row);
    }
  }

  lemma ClaimWon(s: State, t: string, id: nat)
    requires |s.history| == |s.rows| && t in s.claims && ClaimOk(s, t, s.claims[t]) && id in s.claims[t].won
    ensures id < |s.rows| && WonOk(s.rows[id], s.history[id], t, s.claims[t], id)
  {
  }

  lemma LastAwardOfRow(row: Row, h: seq<Award>, t: string, c: Claim, id: nat)
    requires RowOk(row) && HistoryOk(row, h) && WonOk(row, h, t, c, id)
    requires c.phase.Committed? && id in c.seen && c.seen[id] + 1 == row.attempts
    ensures row.status.Failed? ==> row.availableAt == c.now + RetryDelay(row.attempts)
    ensures row.status.Processing? ==> row.lockedAt == Some(c.now)
    ensures row.status.Failed? || row.status.Pending? ==> row.attempts < row.maxAttempts
  {
    hide RetryDelay;
  }

  lemma NoAwardYet(row: Row)
    requires RowOk(row) && row.attempts == 0
    ensures !row.status.Failed? && !row.status.Processing? && row.attempts < row.maxAttempts
  {
  }

  lemma NotYetWon(rows: seq<Row>, ids: seq<nat>, k: nat)
    requires InTable(rows, ids) && IsOrdered(rows, ids) && k < |ids|
    ensures ids[k] !in IdSet(ids[..k])
  {
  }

  class Repository {
    var db: State

    constructor (rowLocks: bool)
      ensures db == Init(rowLocks)
    {
      db := Init(rowLocks);
    }

    method Append(eventId: string, eventType: string, occurredAt: int, maxAttempts: int)
      modifies this
      ensures db == Next(old(db), OutboxProtocol.Append(eventId, eventType, occurredAt, maxAttempts))
      ensures |db.rows| == |old(db).rows| + 1 && db.rows[..|old(db).rows|] == old(db).rows
      ensures
        var row := db.rows[|old(db).rows|];
        && row.eventId == eventId && row.eventType == eventType && row.status == Pending
        && row.availableAt == occurredAt && row.attempts == 0 && row.maxAttempts == (if maxAttempts <= 0 then 8 else maxAttempts)
        && row.lockedAt == None && row.lockToken == "" && row.lastError == "" && row.publishedAt == None
    {
      db := db.(rows := db.rows + [NewRow(eventId, eventType, occurredAt, maxAttempts)], history := db.history + [[]]);
    }

    /** Claims a batch. With row locks other claims may be open and their rows are skipped; without them
        the database runs one claim at a time. */
    method ClaimBatch(now: int, staleBefore: int, limit: nat, lockToken: string) returns (claimed: seq<Event>)
      requires db.rowLocks || NoOpenClaims(db)
      modifies this
      ensures
        var ids := Selected(old(db), lockToken, now, staleBefore, limit);
        && db == AfterClaim(old(db), lockToken, now, ids)
        && |claimed| == |ids|
        && forall k :: 0 <= k < |ids| ==> claimed[k] == Event(ids[k], Claimed(old(db).rows[ids[k]], now, lockToken))
      ensures forall k :: 0 <= k < |claimed| ==>
        && claimed[k].id < |old(db).rows| && claimed[k].row == db.rows[claimed[k].id]
        && claimed[k].row.status == Processing && claimed[k].row.attempts == old(db).rows[claimed[k].id].attempts + 1
        && claimed[k].row.lockToken == lockToken && claimed[k].row.lockedAt == Some(now)
        && claimed[k].row.eventId == old(db).rows[claimed[k].id].eventId
        && claimed[k].row.eventType == old(db).rows[claimed[k].id].eventType
    {
      var ids := Selected(db, lockToken, now, staleBefore, limit);
      SelectionIsOldestFirst(db.rows, now, staleBefore, LockedRows(db, lockToken), limit);
      var work, won;
      work, won, claimed := ClaimRows(db.rows, ids, now, lockToken);
      var claim := Claim(now, SeenAttempts(db.rows, won), won, Committed);
      assert work == CommitRows(db.rows, claim, lockToken);
      db := db.(rows := work, history := CommitHistory(db.history, claim, lockToken), claims := db.claims[lockToken := claim]);
    }

    /** A mark statement waits while another claim holds its row. `meanwhile` is what others run until it
        gets the row; then it matches the row or reports a lost lock. */
    method MarkPublished(id: nat, lockToken: string, publishedAt: int, meanwhile: seq<Step>) returns (lost: bool)
      requires Proceeds(db, meanwhile, lockToken, id)
      modifies this
      ensures
        var met := Run(old(db), meanwhile);
        && (lost <==> !Matches(met, id, lockToken))
        && db == if lost then met else met.(rows := met.rows[id := PublishedRow(met.rows[id], publishedAt)])
      ensures !lost <==>
        && id < |db.rows| && Run(old(db), meanwhile).rows[id].status == Processing
        && Run(old(db), meanwhile).rows[id].lockToken == lockToken
      ensures !lost ==>
        && db.rows[id].status == Published && db.rows[id].publishedAt == Some(publishedAt)
        && db.rows[id].lockToken == "" && db.rows[id].lockedAt == None && db.rows[id].lastError == ""
        && db.rows[id].attempts == Run(old(db), meanwhile).rows[id].attempts
    {
      db := Run(db, meanwhile);
      lost := !Matches(db, id, lockToken);
      if !lost {
        db := db.(rows := db.rows[id := PublishedRow(db.rows[id], publishedAt)]);
      }
    }

    method MarkFailed(id: nat, lockToken: string, status: Status, availableAt: int, lastError: string, meanwhile: seq<Step>)
        returns (lost: bool)
      requires Proceeds(db, meanwhile, lockToken, id)
      modifies this
      ensures
        var met := Run(old(db), meanwhile);
        && (lost <==> !Matches(met, id, lockToken))
        && db == if lost then met else met.(rows := met.rows[id := FailedRow(met.rows[id], status, availableAt, lastError)])
      ensures !lost <==>
        && id < |db.rows| && Run(old(db), meanwhile).rows[id].status == Processing
        && Run(old(db), meanwhile).rows[id].lockToken == lockToken
      ensures !lost ==>
        && db.rows[id].status == status && db.rows[id].availableAt == availableAt && db.rows[id].lastError == lastError
        && db.rows[id].lockToken == "" && db.rows[id].lockedAt == None
        && db.rows[id].attempts == Run(old(db), meanwhile).rows[id].attempts
    {
      db := Run(db, meanwhile);
      lost := !Matches(db, id, lockToken);
      if !lost {
        db := db.(rows := db.rows[id := FailedRow(db.rows[id], status, availableAt, lastError)]);
      }
    }
  }

  /** After these statements no other claim holds the row, so a waiting mark goes ahead. */
  predicate Proceeds(s: State, meanwhile: seq<Step>, token: string, id: nat) {
    !LockedByOther(Run(s, meanwhile), token, id)
  }

  /** A mark statement finds its row: present and still under this token. */
  predicate Matches(s: State, id: nat, lockToken: string) {
    id < |s.rows| && Owns(s.rows[id], lockToken)
  }

  /** The compare-and-set loop over the selected rows, on the transaction's own view of the table. */
  method ClaimRows(rows: seq<Row>, ids: seq<nat>, now: int, lockToken: string)
      returns (work: seq<Row>, won: set<nat>, claimed: seq<Event>)
    requires InTable(rows, ids) && IsOrdered(rows, ids)
    ensures |work| == |rows| && won == IdSet(ids) && |claimed| == |ids|
    ensures forall i :: 0 <= i < |rows| ==> work[i] == if i in won then Claimed(rows[i], now, lockToken) else rows[i]
    ensures forall k :: 0 <= k < |ids| ==> claimed[k] == Event(ids[k], Claimed(rows[ids[k]], now, lockToken))
  {
    work, won, claimed := rows, {}, [];
    for index := 0 to |ids|
      invariant |work| == |rows| && |claimed| == index
      invariant won == IdSet(ids[..index])
      invariant forall i :: 0 <= i < |rows| ==> work[i] == if i in won then Claimed(rows[i], now, lockToken) else rows[i]
      invariant forall k :: 0 <= k < index ==> claimed[k] == Event(ids[k], Claimed(rows[ids[k]], now, lockToken))
    {
      var id := ids[index];
      NotYetWon(rows, ids, index);
      if work[id].attempts != rows[id].attempts {
        continue;
      }
      work := work[id := Claimed(work[id], now, lockToken)];
      claimed := claimed + [Event(id, Claimed(rows[id], now, lockToken))];
      won := won + {id};
      IdSetSnoc(ids, index);
    }
    assert ids[..|ids|] == ids;
  }

  // ----- the dispatcher loop -----

  /** What one Publish call brings: its error, and the statements other dispatchers ran until the mark got
      its row. */
  datatype Reply = Reply(error: Option<string>, others: seq<Step>)

  datatype DispatchResult = DispatchResult(claimed: nat, published: nat, retrying: nat, deadLetter: nat)

  function MarkStep(token: string, id: nat, reply: Reply): Step {
    match reply.error
    case None => Step.MarkPublished(token, id)
    case Some(message) => Step.MarkFailed(token, id, TruncateError(message))
  }

  /** The statements that run while the first n events of a batch are published and marked. */
  function BatchSteps(token: string, ids: seq<nat>, publish: nat -> Reply, n: nat): seq<Step>
    requires n <= |ids|
  {
    if n == 0 then []
    else BatchSteps(token, ids, publish, n - 1) + publish(n - 1).others + [MarkStep(token, ids[n - 1], publish(n - 1))]
  }

  function Tally(rows: seq<Row>, ids: seq<nat>, publish: nat -> Reply, n: nat): (r: DispatchResult)
    requires n <= |ids| && InTable(rows, ids)
    ensures r.claimed == |ids| && r.published + r.retrying + r.deadLetter == n
  {
    if n == 0 then DispatchResult(|ids|, 0, 0, 0)
    else
      var r, row := Tally(rows, ids, publish, n - 1), rows[ids[n - 1]];
      if publish(n - 1).error.None? then r.(published := r.published + 1)
      else if row.attempts + 1 >= row.maxAttempts then r.(deadLetter := r.deadLetter + 1)
      else r.(retrying := r.retrying + 1)
  }

  /** The mark of one event, column by column: published at the batch's time; or, on an error, the error's
      first 2000 characters, and a retry after the delay of this attempt, unless it was the last one. */
  lemma MarkedColumns(met: State, token: string, id: nat, reply: Reply)
    requires MarkApplies(met, token, id) && id in met.claims[token].seen
    ensures
      var row, after := met.rows[id], Next(met, MarkStep(token, id, reply)).rows;
      var now, attempt := met.claims[token].now, met.claims[token].seen[id] + 1;
      && |after| == |met.rows| && after[id].lockToken == "" && after[id].lockedAt == None && after[id].attempts == row.attempts
      && match reply.error
         case None => after[id].status == Published && after[id].publishedAt == Some(now) && after[id].lastError == ""
         case Some(message) =>
           && after[id].lastError == (if |message| <= 2000 then message else message[..2000])
           && if attempt >= row.maxAttempts then after[id].status == DeadLetter && after[id].availableAt == now
              else after[id].status == Failed && after[id].availableAt == now + RetryDelay(attempt)
  {
  }

  function PublishedOnes(publish: nat -> Reply, n: nat): set<nat> {
    set k | 0 <= k < n && publish(k).error == None
  }

  function LastOnes(rows: seq<Row>, ids: seq<nat>, publish: nat -> Reply, n: nat): set<nat>
    requires n <= |ids| && InTable(rows, ids)
  {
    set k | 0 <= k < n && publish(k).error != None && rows[ids[k]].attempts + 1 >= rows[ids[k]].maxAttempts
  }

  lemma OneMorePublished(publish: nat -> Reply, n: nat)
    requires n > 0
    ensures |PublishedOnes(publish, n)| == |PublishedOnes(publish, n - 1)| + if publish(n - 1).error == None then 1 else 0
  {
    var before := PublishedOnes(publish, n - 1);
    assert PublishedOnes(publish, n) == if publish(n - 1).error == None then before + {n - 1} else before;
  }

  lemma OneMoreLast(rows: seq<Row>, ids: seq<nat>, publish: nat -> Reply, n: nat)
    requires 0 < n <= |ids| && InTable(rows, ids)
    ensures |LastOnes(rows, ids, publish, n)| == |LastOnes(rows, ids, publish, n - 1)|
      + if publish(n - 1).error != None && rows[ids[n - 1]].attempts + 1 >= rows[ids[n - 1]].maxAttempts then 1 else 0
  {
    var before := LastOnes(rows, ids, publish, n - 1);
    if publish(n - 1).error != None && rows[ids[n - 1]].attempts + 1 >= rows[ids[n - 1]].maxAttempts {
      assert LastOnes(rows, ids, publish, n) == before + {n - 1};
    } else {
      assert LastOnes(rows, ids, publish, n) == before;
    }
  }

  /** The counters: events without error, events that failed on their last attempt, and the other failures. */
  lemma {:induction false} TallyCounts(rows: seq<Row>, ids: seq<nat>, publish: nat -> Reply, n: nat)
    requires n <= |ids| && InTable(rows, ids)
    ensures
      var r := Tally(rows, ids, publish, n);
      && r.claimed == |ids| && r.published == |PublishedOnes(publish, n)|
      && r.deadLetter == |LastOnes(rows, ids, publish, n)|
      && r.retrying == n - |PublishedOnes(publish, n)| - |LastOnes(rows, ids, publish, n)|
  {
    if n > 0 {
      hide PublishedOnes, LastOnes;
      TallyCounts(rows, ids, publish, n - 1);
      OneMorePublished(publish, n);
      OneMoreLast(rows, ids, publish, n);
    } else {
      assert PublishedOnes(publish, 0) == {} && LastOnes(rows, ids, publish, 0) == {};
    }
  }

  lemma NextKeepsClaimed(s: State, step: Step, token: string, id: nat)
    requires Dispatching(s, token, id) && id < |s.rows|
    ensures
      var s' := Next(s, step);
      && Dispatching(s', token, id) && s'.claims[token] == s.claims[token]
      && id < |s'.rows| && s'.rows[id].maxAttempts == s.rows[id].maxAttempts
  {
  }

  lemma {:induction false} RunKeepsClaimed(s: State, steps: seq<Step>, token: string, id: nat)
    requires Dispatching(s, token, id) && id < |s.rows|
    ensures
      var s' := Run(s, steps);
      && Dispatching(s', token, id) && s'.claims[token] == s.claims[token]
      && id < |s'.rows| && s'.rows[id].maxAttempts == s.rows[id].maxAttempts
    decreases |steps|
  {
    if steps != [] {
      RunKeepsClaimed(s, steps[..|steps| - 1], token, id);
      NextKeepsClaimed(Run(s, steps[..|steps| - 1]), steps[|steps| - 1], token, id);
    }
  }

  /** The table once a batch has claimed `ids` and worked through the first n of them. */
  function BatchState(s: State, token: string, now: int, ids: seq<nat>, publish: nat -> Reply, n: nat): State
    requires n <= |ids|
  {
    Run(s, ClaimSteps(token, now, ids) + BatchSteps(token, ids, publish, n))
  }

  /** When event k came to be marked, another claim or nobody owned it. */
  predicate LostAt(s: State, token: string, now: int, ids: seq<nat>, publish: nat -> Reply, k: nat)
    requires k < |ids|
  {
    !Matches(Run(BatchState(s, token, now, ids, publish, k), publish(k).others), ids[k], token)
  }

  /** Every mark of the batch gets its row in the end. */
  ghost predicate AllProceed(s: State, token: string, now: int, ids: seq<nat>, publish: nat -> Reply) {
    forall k: nat :: k < |ids| ==> Proceeds(BatchState(s, token, now, ids, publish, k), publish(k).others, token, ids[k])
  }

  lemma BatchStart(s: State, token: string, now: int, ids: seq<nat>, publish: nat -> Reply)
    requires InTable(s.rows, ids) && Unhindered(s, token, ids)
    requires CanSelect(s, token, now, IdSet(ids))
    ensures BatchState(s, token, now, ids, publish, 0) == AfterClaim(s, token, now, ids)
  {
    ClaimIsARun(s, token, now, ids);
    assert ClaimSteps(token, now, ids) + BatchSteps(token, ids, publish, 0) == ClaimSteps(token, now, ids);
  }

  lemma BatchAdvances(s: State, token: string, now: int, ids: seq<nat>, publish: nat -> Reply, k: nat)
    requires k < |ids|
    ensures BatchState(s, token, now, ids, publish, k + 1) ==
      Next(Run(BatchState(s, token, now, ids, publish, k), publish(k).others), MarkStep(token, ids[k], publish(k)))
  {
    var claim, steps := ClaimSteps(token, now, ids), BatchSteps(token, ids, publish, k);
    var others, mark := publish(k).others, MarkStep(token, ids[k], publish(k));
    RunTail(s, claim + steps, others, mark);
    assert claim + (steps + others + [mark]) == claim + steps + others + [mark];
  }

  lemma RunTail(s: State, a: seq<Step>, b: seq<Step>, step: Step)
    ensures Run(s, a + b + [step]) == Next(Run(Run(s, a), b), step)
  {
    RunConcat(s, a, b);
    RunConcat(s, a + b, [step]);
    RunOne(Run(s, a + b), step);
  }

  lemma SelectedAreFree(s: State, token: string, now: int, staleBefore: int, ids: seq<nat>, limit: nat)
    requires s.rowLocks || NoOpenClaims(s)
    requires ids == Selected(s, token, now, staleBefore, limit)
    ensures Unhindered(s, token, ids)
  {
    forall id | id in ids
      ensures !LockedByOther(s, token, id)
    {
      assert id < |s.rows| && id !in LockedRows(s, token);
    }
  }

  lemma BatchSelectable(s: State, token: string, now: int, ids: seq<nat>, limit: nat)
    requires (s.rowLocks || NoOpenClaims(s)) && token != "" && token !in s.claims
    requires ids == Selected(s, token, now, now - LOCK_TIMEOUT, limit)
    ensures CanSelect(s, token, now, IdSet(ids)) && Unhindered(s, token, ids)
  {
    SelectedAreFree(s, token, now, now - LOCK_TIMEOUT, ids, limit);
    forall id | id in IdSet(ids)
      ensures id < |s.rows| && ClaimableAt(s.rows[id], now) && !LockedByOther(s, token, id)
    {
      assert id in ids;
    }
  }

  /** However far the batch has run, the event it turns to is still the one its claim won. */
  lemma StillDispatching(s: State, token: string, now: int, ids: seq<nat>, publish: nat -> Reply, k: nat)
    requires InTable(s.rows, ids) && Unhindered(s, token, ids) && k < |ids|
    requires CanSelect(s, token, now, IdSet(ids))
    ensures
      var s' := BatchState(s, token, now, ids, publish, k);
      && Dispatching(s', token, ids[k]) && ids[k] < |s'.rows|
      && s'.claims[token].now == now
      && ids[k] in s'.claims[token].seen && s'.claims[token].seen[ids[k]] == s.rows[ids[k]].attempts
      && s'.rows[ids[k]].maxAttempts == s.rows[ids[k]].maxAttempts
  {
    ClaimIsARun(s, token, now, ids);
    var more := BatchSteps(token, ids, publish, k);
    RunConcat(s, ClaimSteps(token, now, ids), more);
    assert ids[k] in IdSet(ids);
    RunKeepsClaimed(AfterClaim(s, token, now, ids), more, token, ids[k]);
  }

  /** A batch size outside 1..100 becomes 100. */
  function BatchLimit(batchSize: int): (limit: nat)
    ensures 1 <= limit <= DEFAULT_BATCH_SIZE
    ensures limit == batchSize || (limit == DEFAULT_BATCH_SIZE && !(1 <= batchSize <= DEFAULT_BATCH_SIZE))
  {
    if batchSize <= 0 || batchSize > DEFAULT_BATCH_SIZE then DEFAULT_BATCH_SIZE else batchSize
  }

  class Service {
    const repo: Repository

    constructor (repo: Repository)
      ensures this.repo == repo
    {
      this.repo := repo;
    }

    /** Publishes one claimed event and marks it, which is one protocol step. */
    method Dispatch(event: Event, now: int, lockToken: string, reply: Reply) returns (lost: bool)
      requires Dispatching(repo.db, lockToken, event.id) && event.id < |repo.db.rows|
      requires event.id in repo.db.claims[lockToken].seen && repo.db.claims[lockToken].now == now
      requires event.row.attempts == repo.db.claims[lockToken].seen[event.id] + 1
      requires event.row.maxAttempts == repo.db.rows[event.id].maxAttempts
      requires Proceeds(repo.db, reply.others, lockToken, event.id)
      modifies repo
      ensures
        var met := Run(old(repo.db), reply.others);
        && repo.db == Next(met, MarkStep(lockToken, event.id, reply))
        && (lost <==> !Matches(met, event.id, lockToken))
    {
      RunKeepsClaimed(repo.db, reply.others, lockToken, event.id);
      match reply.error
      case Some(message) =>
        var status, availableAt := Failed, now + RetryDelay(event.row.attempts);
        if event.row.attempts >= event.row.maxAttempts {
          status, availableAt := DeadLetter, now;
        }
        lost := repo.MarkFailed(event.id, lockToken, status, availableAt, TruncateError(message), reply.others);
      case None =>
        lost := repo.MarkPublished(event.id, lockToken, now, reply.others);
    }

    /** The loop over the claimed events. */
    method DispatchEvents(events: seq<Event>, now: int, lockToken: string, publish: nat -> Reply,
                          ghost s0: State, ghost ids: seq<nat>)
        returns (result: DispatchResult, lost: bool, ghost done: nat)
      requires InTable(s0.rows, ids) && Unhindered(s0, lockToken, ids) && CanSelect(s0, lockToken, now, IdSet(ids))
      requires repo.db == BatchState(s0, lockToken, now, ids, publish, 0)
      requires |events| == |ids| && AllProceed(s0, lockToken, now, ids, publish)
      requires forall k :: 0 <= k < |ids| ==> events[k] == Event(ids[k], Claimed(s0.rows[ids[k]], now, lockToken))
      modifies repo
      ensures done <= |ids| && repo.db == BatchState(s0, lockToken, now, ids, publish, done)
      ensures !lost ==> done == |ids| && result == Tally(s0.rows, ids, publish, done)
      ensures lost ==> done > 0 && LostAt(s0, lockToken, now, ids, publish, done - 1)
    {
      hide Next, CanSelect, BatchState, ClaimSteps, Run, Unhindered;
      result := DispatchResult(|events|, 0, 0, 0);
      done, lost := 0, false;
      for index := 0 to |events|
        invariant done == index && !lost
        invariant repo.db == BatchState(s0, lockToken, now, ids, publish, index)
        invariant result == Tally(s0.rows, ids, publish, index)
      {
        var event := events[index];
        StillDispatching(s0, lockToken, now, ids, publish, index);
        BatchAdvances(s0, lockToken, now, ids, publish, index);
        lost := Dispatch(event, now, lockToken, publish(index));
        done := index + 1;
        if publish(index).error.Some? {
          if event.row.attempts >= event.row.maxAttempts {
            result := result.(deadLetter := result.deadLetter + 1);
          } else {
            result := result.(retrying := result.retrying + 1);
          }
          if lost {
            return;
          }
          continue;
        }
        if lost {
          return;
        }
        result := result.(published := result.published + 1);
      }
    }

    /** A batch is a protocol run: its claim, then each event's mark after whatever other dispatchers
        did meanwhile. It stops at the first lost lock; otherwise every claimed event is accounted for. */
    method DispatchBatch(now: int, lockToken: string, batchSize: int, publish: nat -> Reply)
        returns (result: DispatchResult, lost: bool, ghost ids: seq<nat>, ghost done: nat)
      requires repo.db.rowLocks || NoOpenClaims(repo.db)
      requires lockToken != "" && lockToken !in repo.db.claims
      requires AllProceed(repo.db, lockToken, now, Selected(repo.db, lockToken, now, now - LOCK_TIMEOUT, BatchLimit(batchSize)), publish)
      modifies repo
      ensures ids == Selected(old(repo.db), lockToken, now, now - LOCK_TIMEOUT, BatchLimit(batchSize)) && done <= |ids|
      ensures repo.db == BatchState(old(repo.db), lockToken, now, ids, publish, done)
      ensures !lost ==> done == |ids| && result == Tally(old(repo.db).rows, ids, publish, done)
      ensures lost ==> done > 0 && LostAt(old(repo.db), lockToken, now, ids, publish, done - 1)
    {
      var limit := BatchLimit(batchSize);
      ghost var s0 := repo.db;
      ids := Selected(repo.db, lockToken, now, now - LOCK_TIMEOUT, limit);
      BatchSelectable(s0, lockToken, now, ids, limit);
      BatchStart(s0, lockToken, now, ids, publish);
      var events := repo.ClaimBatch(now, now - LOCK_TIMEOUT, limit, lockToken);
      result, lost, done := DispatchEvents(events, now, lockToken, publish, s0, ids);
    }
  }
}
