/** The outbox row and the row-level effect of each repository statement.
    Instants are integers in nanoseconds; a row's id is its index in the table. */
module OutboxRows {
  import opened Wrappers

  const SECOND: int := 1_000_000_000
  const HOUR: int := 3600 * SECOND
  const LOCK_TIMEOUT: int := 300 * SECOND
  const DEFAULT_MAX_ATTEMPTS: int := 8
  const DEFAULT_BATCH_SIZE: int := 100
  const MAX_ERROR_LENGTH: nat := 2000

  datatype Status = Pending | Processing | Published | Failed | DeadLetter

  datatype Row = Row(
    eventId: string,
    eventType: string,
    status: Status,
    attempts: nat,
    maxAttempts: int,
    availableAt: int,
    lockedAt: Option<int>,
    lockToken: string,
    lastError: string,
    publishedAt: Option<int>)

  /** The row that Append inserts: a non-positive attempt limit becomes the default. */
  function NewRow(eventId: string, eventType: string, occurredAt: int, maxAttempts: int): Row {
    Row(eventId, eventType, Pending, 0,
        if maxAttempts <= 0 then DEFAULT_MAX_ATTEMPTS else maxAttempts,
        occurredAt, None, "", "", None)
  }

  /** The WHERE clause of the claim query. */
  predicate Eligible(row: Row, now: int, staleBefore: int) {
    && row.attempts < row.maxAttempts
    && (|| ((row.status.Pending? || row.status.Failed?) && row.availableAt <= now)
        || (row.status.Processing? && row.lockedAt.Some? && row.lockedAt.value < staleBefore))
  }

  /** The columns written by a successful compare-and-set. */
  function Claimed(row: Row, now: int, token: string): Row {
    row.(status := Processing, attempts := row.attempts + 1, lockedAt := Some(now), lockToken := token)
  }

  /** The WHERE clause of both mark statements. */
  predicate Owns(row: Row, token: string) {
    row.status.Processing? && row.lockToken == token
  }

  function PublishedRow(row: Row, at: int): Row {
    row.(status := Published, publishedAt := Some(at), lockedAt := None, lockToken := "", lastError := "")
  }

  function FailedRow(row: Row, status: Status, availableAt: int, lastError: string): Row {
    row.(status := status, availableAt := availableAt, lastError := lastError, lockedAt := None, lockToken := "")
  }

  /** The dispatcher's retry-or-dead-letter decision for a claimed event. */
  function FailureOf(row: Row, attempts: nat, now: int, lastError: string): Row {
    if attempts >= row.maxAttempts then FailedRow(row, DeadLetter, now, lastError)
    else FailedRow(row, Failed, now + RetryDelay(attempts), lastError)
  }

  function TruncateError(value: string): (r: string)
    ensures |r| <= MAX_ERROR_LENGTH && r <= value
    ensures |value| <= MAX_ERROR_LENGTH ==> r == value
  {
    if |value| <= MAX_ERROR_LENGTH then value else value[..MAX_ERROR_LENGTH]
  }

  function Pow2(n: nat): nat {
    if n == 0 then 1 else 2 * Pow2(n - 1)
  }

  /** Exponential backoff, clamped to attempts 1..10 and then to one hour. */
  function RetryDelay(attempt: int): int {
    var clamped := if attempt < 1 then 1 else if attempt > 10 then 10 else attempt;
    var delay := SECOND * Pow2(clamped - 1);
    if delay > HOUR then HOUR else delay
  }

  lemma {:induction false} Pow2Monotone(m: nat, n: nat)
    requires m <= n
    ensures 1 <= Pow2(m) <= Pow2(n)
    decreases n
  {
    if m < n {
      Pow2Monotone(m, n - 1);
    } else if m > 0 {
      Pow2Monotone(m - 1, n - 1);
    }
  }

  /** The backoff never reaches its one-hour cap: it tops out at 512 seconds. */
  lemma RetryDelayBelowCap(attempt: int)
    ensures SECOND <= RetryDelay(attempt) <= 512 * SECOND < HOUR
    ensures attempt >= 10 ==> RetryDelay(attempt) == 512 * SECOND
    ensures 1 <= attempt <= 10 ==> RetryDelay(attempt) == SECOND * Pow2(attempt - 1)
  {
    var clamped := if attempt < 1 then 1 else if attempt > 10 then 10 else attempt;
    Pow2Monotone(clamped - 1, 9);
    assert Pow2(9) == 512 by {
      assert Pow2(3) == 8;
      assert Pow2(6) == 64;
    }
  }

  /** What a re-claim after attempt k has to wait: the backoff, or a stale lock, whichever is shorter. */
  function Gap(k: int): int {
    if RetryDelay(k) < LOCK_TIMEOUT then RetryDelay(k) else LOCK_TIMEOUT
  }

  /** The sum of the first n - 1 gaps. */
  function TotalGap(n: nat): int {
    if n <= 1 then 0 else TotalGap(n - 1) + Gap(n - 1)
  }

  lemma DefaultTotalGap()
    ensures TotalGap(DEFAULT_MAX_ATTEMPTS) == 127 * SECOND
  {
    assert Gap(1) == 1 * SECOND && Gap(2) == 2 * SECOND && Gap(3) == 4 * SECOND;
    assert Pow2(3) == 8 && Pow2(4) == 16 && Pow2(5) == 32 && Pow2(6) == 64;
    assert Gap(4) == 8 * SECOND && Gap(5) == 16 * SECOND && Gap(6) == 32 * SECOND && Gap(7) == 64 * SECOND;
    assert TotalGap(2) == 1 * SECOND && TotalGap(4) == 7 * SECOND && TotalGap(6) == 31 * SECOND;
  }
}
