# Verified model of nova-lib's protocols, codecs and ledgers

nova-lib is mostly thin wrappers around payment and messaging SDKs. This project models the six places
where it keeps promises of its own, and proves them in Dafny:

- **Transactional outbox** (`event/`). Dispatchers claim rows under a lock token, re-claim stale locks, retry
  with backoff and dead-letter; a local publisher hands events to consumers through an idempotent
  consumption table. `OutboxRows` holds the rows, `OutboxProtocol` the interleaved transition system
  (select, per-row compare-and-set, commit, rollback or crash, marks), `OutboxTheorems` its safety properties,
  `OutboxStore` the repository and the dispatcher loop, `Delivery` the outbox together with publishing and
  consumption, and `LocalPublisher` the publisher and the consumption store.
- **AccessToken2 codec** (`shengwang/official/accesstoken2`). `TokenBytes`, `TokenServices` and `AccessToken` are the
  byte format as functions with its round trips; `TokenFormat` lays the format out as a flat list of numbers and
  strings and says what a signature rests on; `TokenCodec` and `TokenObject` are the writers, the moving reader and
  the token object. HMAC (RFC 2104, section 2) is an uninterpreted function with 32-byte
  results; zlib (RFC 1950, section 2.2) and Base64 (RFC 4648, section 4) are pairs with decoding after encoding
  equal to the identity. Timestamps and salts come from the caller.
- **Plan subscriptions and quotas** (`plan/engine.go`). `Calendar` is civil time with Go's month arithmetic,
  `PlanOrders` the purchase orders and the windows they grant, `Quota` the monthly counted entitlements.
- **Profit sharing** (`tenantpay/`). `Commission` is the 64-bit commission arithmetic, `ProfitSharing` the local
  records against a remote service that is idempotent by order number, with lost requests, lost replies and
  failing writes, `Executor` the executor itself, and `SharingProgress` what its calls achieve when they are
  answered.
- **Ledger and vouchers** (`member/`, `coupon/`, `sessioncard/`, `settle/`). `Transactions` is the common shape of
  their transactions (read, guarded update that holds the row, commit or roll back) interleaved statement by
  statement, with a proof that every run is serial; `Wallet`, `Coupons` and `SessionCards` instantiate it;
  `CouponStore` and `CardStore` are the stores call by call with lazy expiry, `CouponCalls` and `CardCalls` what each
  call does to their columns; `Settle` is the orchestration.
  `LazyExpiry` is the argument that late sweeps are invisible, `Numbering` inserts rows under consecutive ids.
- **Fixed-window limiter** (`middleware/rate_limit.go`). `RateLimit`.

`Wrappers` holds the option and result types. Code that updates state in place is a class whose methods are
proved against functions of the old state; the theorems are about those functions and their runs. Clock
readings, generated ids, network behaviour and the failure of individual writes are inputs, so every
theorem holds for all of them.

Findings that differ from the code's own comments or from what one would expect are stated as lemmas:

- The comment at `event/repository.go:41` credits the compare-and-set with the safety of a database that ignores
  row locks. The compare-and-set alone does not keep a published event published
  (`CasAloneRevivesAPublishedRow`); what does is the row locks (`TerminalIsForever`) or, without them, the
  isolation of the claim's transaction (`IsolatedTerminalIsForever`).
- A late failure record can undo a completed consumption, after which the handler runs again
  (`FailureRecordIsUnguarded`; `EffectsAreCounted` says exactly how often).
- The comment at `tenantpay/executor.go:179` says that cancelling the record prevents a later share. It does not: an
  order can come to be shared exactly as long as its share has not finished unsuccessfully
  (`CancelledShareStillLaunches`). And the refund hook can let a refund through while the commission is held, exactly
  when its query got no answer, because the query's error is swallowed (`ReleaseIsSafeUnlessUnanswered`,
  `LostQueryReleasesRefund`).
- Past the 64-bit range one more cent drops the commission to its minimum (`OverflowDrops`).
- A session-card use reports a remainder too high by the number of uses that committed since it read the card
  (`ReportIsTrueWhenUndisturbed`), and a card used up across its expiry is listed as expired (`InterleavedListing`).
- A settlement that fails at the balance, which needs another transaction of the holder in between, keeps its coupon
  used (`FailureAtTheBalance`, `RefusalMeansInterference`).

## Model

| member | source | states |
|---|---|---|
| OutboxRows.TruncateError | event/service.go:205-211 | the stored error is a prefix of the message of at most the column's length, and the whole message when it fits |
| OutboxRows.RetryDelayBelowCap | event/service.go:190-202 | the backoff doubles from one second over attempts 1 to 10, stays at 512 seconds, and never reaches its one-hour cap |
| OutboxRows.DefaultTotalGap | event/service.go:101-132 | the waits between the eight default attempts add up to 127 seconds |
| OutboxProtocol.NextKeepsInv | event/repository.go:42-143 | every statement of every dispatcher keeps rows, award history, open claims and row locks consistent |
| OutboxProtocol.MarkerIsLatest | event/repository.go:96-143 | a mark that matches its row comes from the dispatcher that won the row's latest attempt |
| OutboxTheorems.Fencing | event/repository.go:53-92 | in every interleaving an attempt number of a row is awarded to at most one lock token, and lies between 1 and the row's attempts |
| OutboxTheorems.EveryAttemptIsAwarded | event/repository.go:70-83 | each attempt counted on a row was won by some claim |
| OutboxTheorems.AttemptsCountWinners | event/repository.go:55-83 | the attempts column is the number of distinct dispatchers that ever won the row, and never exceeds MaxAttempts |
| OutboxTheorems.OnlyTheLatestClaimMarks | event/repository.go:96-143 | a dispatcher's mark takes effect if and only if the row is processing, its attempt is still the latest and no open claim locks the row; otherwise nothing changes |
| OutboxTheorems.ReclaimedForGood | event/repository.go:96-143 | once its row was re-claimed a dispatcher can never change it again, whatever else runs |
| OutboxTheorems.Lifecycle | event/repository.go:55-143 | in every reachable table status, attempts, lock token and lock time agree: pending has no attempt, failed is below the maximum, dead letter is at it, processing exactly when token and lock time are set |
| OutboxTheorems.TerminalChangesOnlyByRevival | event/repository.go:55-83 | a step changes a published or dead-letter row if and only if it is the commit of a claim that selected the row before it was marked, without row locks |
| OutboxTheorems.TerminalIsForever | event/repository.go:55-83 | with row locks, which the claim query asks for, published and dead-letter rows never change again over any run |
| OutboxTheorems.IsolatedTerminalIsForever | event/repository.go:41-92 | with or without row locks, published and dead-letter rows never change again when each claim's transaction is isolated: nobody else changes the table between its select and its commit |
| OutboxTheorems.IsolatedCommitRevivesNothing | event/repository.go:54-92 | an isolated claim commits only rows that were claimable, so it never takes a published one |
| OutboxTheorems.DeadLetterIsForever | event/service.go:120-132 | dead-letter rows never change again, with or without row locks |
| OutboxTheorems.CasAloneRevivesAPublishedRow | event/repository.go:70-83 | a concrete run, neither locked nor isolated, in which the compare-and-set lets a published event return to processing |
| OutboxTheorems.ClaimableUnlessOnLastAttempt | event/repository.go:55-83 | some continuation claims a live row again if and only if it is not processing on its last attempt |
| OutboxTheorems.RetryTiming | event/service.go:101-132 | attempt n is claimed at least the sum of the first n-1 waits after attempt 1, whether a failure or a stale lock led to each re-claim; 127 seconds for n = 8 |
| OutboxTheorems.DeadLetterUsedEveryAttempt | event/service.go:120-132 | every attempt of a dead letter was claimed |
| OutboxStore.SelectionIsOldestFirst | event/repository.go:55-66 | the claim query returns claimable rows in order of availability and id, and leaves an unlocked one out only for a full batch of older ones |
| OutboxStore.SelectedInOrder | event/repository.go:55-66 | a batch comes by available time and then by id, and what a full batch leaves out comes after all of it |
| OutboxStore.SelectedColumns | event/repository.go:57-63 | a batch with room takes a row if and only if it has attempts left, no other claim has locked it, and it is pending or failed and due by now, or processing under a lock older than the stale limit |
| OutboxStore.DueIsTaken | event/service.go:101-132 | the exact times: with room, a failed row is taken exactly from its last attempt plus that attempt's delay on, a processing one once its last attempt is over five minutes old and attempts are left, a pending one from its available time on, a terminal one never |
| OutboxStore.ClaimIsARun | event/repository.go:42-93 | a claim batch leaves exactly what its statements leave when run as protocol steps, with other claims open on other rows |
| OutboxStore.ClaimRows | event/repository.go:67-90 | the compare-and-set loop claims every selected row, changes no other, and returns the rows as claimed |
| OutboxStore.Repository.Append | event/repository.go:33-38 | appending adds one pending row with the event's id, type and time, eight attempts unless another number is given, and all other columns empty |
| OutboxStore.Repository.ClaimBatch | event/repository.go:42-93 | a claim takes exactly the selected rows, skipping those that other open claims have locked, and returns them in order: processing, one attempt more, under this token and time |
| OutboxStore.Repository.MarkPublished | event/repository.go:96-114 | after waiting for its row the mark publishes it with its time and clears the lock, or reports a lost lock and changes nothing; the lock is lost unless the row is processing under the token |
| OutboxStore.Repository.MarkFailed | event/repository.go:117-143 | after waiting for its row the mark stores the given status, time and error, or reports a lost lock and changes nothing |
| OutboxStore.MarkedColumns | event/service.go:114-139 | a mark leaves status, publish time or first 2000 characters of the error, retry time and cleared lock, by column; the last attempt makes a dead letter |
| OutboxStore.BatchLimit | event/service.go:101-108 | a batch size from 1 to 100 is kept, any other becomes 100 |
| OutboxStore.Tally | event/service.go:101-141 | the counters of a batch add up to the events handled |
| OutboxStore.TallyCounts | event/service.go:114-140 | published counts the events without error, dead letters those that failed on their last attempt, retries the other failures |
| OutboxStore.RunKeepsClaimed | event/service.go:101-141 | whatever other dispatchers do, a dispatcher's committed claim stays as it was |
| OutboxStore.Service.Dispatch | event/service.go:114-139 | publishing one claimed event is one mark: published on success, otherwise failed with backoff, or dead letter on the last attempt |
| OutboxStore.Service.DispatchEvents | event/service.go:114-140 | the loop marks the claimed events in order, stops at the first lost lock, and otherwise counts every event |
| OutboxStore.Service.DispatchBatch | event/service.go:101-141 | a batch, with other claims open and other dispatchers acting in between, is a run of the protocol: its claim, then one mark per event |
| Delivery.Matching | event/publisher.go:59-70 | an event goes to exactly the subscriptions whose type is the event's or "*" |
| Delivery.MatchingJoins | event/publisher.go:59-70 | every such subscription is matched once, in registration order |
| Delivery.OutboxIsAProtocolRun | event/service.go:101-141 | the outbox part of any run with publishing and consumption is a protocol run, so all protocol theorems hold of it |
| Delivery.EffectsAreCounted | event/repository.go:146-223 | in every run a handler has taken effect once if its row is completed, and once more for each failure record that undid a completion |
| Delivery.AtMostOnce | event/repository.go:146-203 | a handler takes effect at most once for an event if and only if no failure record has undone its completion, or one has and the handler has not run again |
| Delivery.MarkedMeansDeliveredOnce | event/publisher.go:59-82 | when an event is marked published, every consumer that had subscribed to its type or to "*" when the publish call began has exactly one committed effect |
| Delivery.PublishedMeansDeliveredOnce | event/service.go:101-166 | at every later moment a published event still has exactly one effect for each captured subscription to its type or to "*" |
| Delivery.SubscribedBeforeIsDelivered | event/publisher.go:59-82 | whoever subscribed to the event's type or to "*" before a delivery begins has received it, once, when that delivery may mark it published |
| Delivery.FailureRecordIsUnguarded | event/repository.go:206-223 | a failure record keeps effects and table in agreement if and only if the consumption is not yet completed; on a completed one the next call runs the handler a second time |
| LocalPublisher.CompletedAccumulate | event/publisher.go:71-81 | consumers already reached stay reached while the publisher goes on |
| LocalPublisher.SuccessCompletesAll | event/publisher.go:59-82 | when every call succeeds, everybody subscribed to the type or to "*" has completed the event |
| LocalPublisher.RedeliveryIsSilent | event/repository.go:146-203 | delivering a completed event again runs no handler and changes nothing |
| LocalPublisher.ConsumptionStore.RunInTransaction | event/repository.go:146-203 | the handler's effect and the completed row commit together or not at all |
| LocalPublisher.ConsumptionStore.ConsumeOnce | event/service.go:144-166 | a consumption runs the handler unless completed, records a handler failure, and reports an error exactly when it did not complete; by column it counts one attempt more, stores times and truncated error, and touches no other row |
| LocalPublisher.Publisher.Subscribe | event/publisher.go:39-56 | a subscription is added at the end unless it is empty or already registered |
| LocalPublisher.Publisher.Publish | event/publisher.go:59-82 | matching consumers are called in order up to the first failure; success means somebody subscribed to the type or to "*" and all of those completed the event |
| LocalPublisher.Publisher.CallConsumers | event/publisher.go:71-81 | the loop stops at the first consumer that fails and otherwise calls them all |
| LocalPublisher.Publisher.MatchingLoop | event/publisher.go:60-67 | the matching subscriptions are collected in registration order |
| TokenBytes.U16RoundTrip | shengwang/official/accesstoken2/util.go:79-87 | a packed uint16 followed by any bytes reads back with those bytes |
| TokenBytes.U32RoundTrip | shengwang/official/accesstoken2/util.go:90-98 | the same for uint32 |
| TokenBytes.I16RoundTrip | shengwang/official/accesstoken2/util.go:101-109 | the same for signed int16 |
| TokenBytes.StringRoundTripIff | shengwang/official/accesstoken2/util.go:112-136 | a string survives packing if and only if it is shorter than 65536 bytes |
| TokenBytes.StringExtends | shengwang/official/accesstoken2/util.go:122-136 | a string that reads from some bytes reads the same with more bytes appended |
| TokenBytes.KeysFacts | shengwang/official/accesstoken2/util.go:145-149 | the packed key list holds each key of the map once, in ascending order |
| TokenBytes.AscendingIsUnique | shengwang/official/accesstoken2/util.go:145-149 | sorting makes the key list, and so the encoding, independent of map order |
| TokenBytes.MapRoundTrip | shengwang/official/accesstoken2/util.go:139-187 | a privilege map with fewer than 65536 entries reads back exactly |
| TokenServices.DetailsRoundTrip | shengwang/official/accesstoken2/accesstoken.go:367-463 | a nested permission table reads back without its empty resource types and with everything else intact |
| TokenServices.DropEmptyIdentityIff | shengwang/official/accesstoken2/accesstoken.go:420-463 | exactly the tables without an empty inner map survive packing; what is lost of the others is those inner maps and nothing else |
| TokenServices.AddKeepsNoEmptyInner | shengwang/official/accesstoken2/accesstoken.go:345-350 | tables built through Add have no empty inner map and hold what was added |
| TokenServices.OverwrittenErrorsStillFail | shengwang/official/accesstoken2/accesstoken.go:148-156 | overwriting an earlier read error loses nothing: RTC and APaaS accept exactly what a reader that checks each error accepts |
| TokenServices.Received | shengwang/official/accesstoken2/accesstoken.go:420-463 | what a receiver gets of a service is that service, except for empty RTM2 resource types |
| TokenServices.BodyRoundTrip | shengwang/official/accesstoken2/accesstoken.go:96-499 | any of the eight services followed by any bytes decodes to that service and those bytes |
| TokenServices.BodyExtends | shengwang/official/accesstoken2/accesstoken.go:106-499 | appending bytes after a decodable service changes nothing but the rest |
| TokenServices.DetailsExtend | shengwang/official/accesstoken2/accesstoken.go:420-463 | appending bytes after a decodable permission table changes nothing but the rest |
| AccessToken.ForPackingFacts | shengwang/official/accesstoken2/accesstoken.go:706-714 | packing order is a permutation of the services, sorted by type, keeping each type's own order |
| AccessToken.SortedIsDetermined | shengwang/official/accesstoken2/accesstoken.go:706-714 | a type-sorted list is determined by its per-type lists |
| AccessToken.ServicesRoundTrip | shengwang/official/accesstoken2/accesstoken.go:650-680 | a packed service list reads back up to its first unknown type, to the end if there is none |
| AccessToken.RawRoundTrip | shengwang/official/accesstoken2/accesstoken.go:605-681 | signature, signed bytes, header and services of a raw token read back |
| AccessToken.RawExtends | shengwang/official/accesstoken2/accesstoken.go:605-681 | bytes appended to a readable raw token only join the signed part |
| AccessToken.AcceptedPrefixCoversParse | shengwang/official/accesstoken2/accesstoken.go:605-681 | a prefix of raw bytes is accepted only when it covers all that the full parse consumed |
| AccessToken.TruncationIsRejected | shengwang/official/accesstoken2/accesstoken.go:605-681 | every strict prefix of the raw bytes of a token with known services is rejected |
| AccessToken.ParseBuild | shengwang/official/accesstoken2/accesstoken.go:545-681 | parsing a built token gives the expected decoding, for all tokens within the length limits |
| AccessToken.TokenRoundTrip | shengwang/official/accesstoken2/accesstoken.go:545-714 | parsing a built token returns its header and, type by type, its services in order; the signature verifies under the signing certificate, and under another one if and only if hmac under the salt of hmac under the timestamp of both certificates signs these bytes alike |
| AccessToken.UnknownTypesStillVerify | shengwang/official/accesstoken2/accesstoken.go:662-703 | with unknown service types the token still parses and verifies, with the services before the first unknown one |
| AccessToken.CanonicalForm | shengwang/official/accesstoken2/accesstoken.go:545-714 | two tokens have the same string if and only if they agree on the header and on each type's services in order |
| TokenFormat.StringFormat | shengwang/official/accesstoken2/util.go:112-119 | a string is its length modulo 65536, least significant byte first, and then its bytes |
| TokenFormat.OnlyPackedStringsRead | shengwang/official/accesstoken2/util.go:122-136 | bytes read as a string if and only if they hold the two length bytes and that many more, and then they are the packed string and the rest |
| TokenFormat.OnlyPackedHeadersRead | shengwang/official/accesstoken2/accesstoken.go:646-657 | a header that reads has consumed exactly its packed form |
| TokenFormat.EntriesFormat | shengwang/official/accesstoken2/util.go:139-161 | privileges are key and value one after another in the order of the keys |
| TokenFormat.TableFormat | shengwang/official/accesstoken2/accesstoken.go:367-417 | a permission table is, per resource type, the number of its permission types and, per permission type, the number of its resources and the resources |
| TokenFormat.ServiceFormat | shengwang/official/accesstoken2/accesstoken.go:96-487 | a service is its number from 1 to 8, its privileges under ascending keys, and its own fields in their order; a receiver knows exactly these eight numbers |
| TokenFormat.InfoFormat | shengwang/official/accesstoken2/accesstoken.go:545-588 | the signed part is application id, issue time, expiry, salt, the number of services and the services by ascending type |
| TokenFormat.UnderstoodUpToForeign | shengwang/official/accesstoken2/accesstoken.go:662-677 | a receiver gets the services before the first one whose number is not from 1 to 8, each without its empty resource types |
| TokenFormat.UuidFormat | shengwang/official/accesstoken2/accesstoken.go:778-786 | an identifier is 32 hexadecimal digits |
| TokenFormat.BuiltToken | shengwang/official/accesstoken2/accesstoken.go:545-602 | the built string is 007 and the encoded, compressed signature and signed part, signed under hmac by the salt of hmac by the timestamp of the certificate; it fails exactly for malformed identifiers or without services |
| TokenFormat.AnotherCertificateFails | shengwang/official/accesstoken2/accesstoken.go:684-738 | a token signed under one certificate is refused under every other one that the three hmac steps tell apart from it |
| TokenFormat.SaltOutsideTimestampInside | shengwang/official/accesstoken2/accesstoken.go:717-738 | with a transparent stand-in for hmac the key reads salt, timestamp, certificate, so the timestamp keys the inner step and the salt the outer one |
| TokenCodec.Buffer.Write | shengwang/official/accesstoken2/util.go:79-119 | writing appends |
| TokenCodec.PackStringTo | shengwang/official/accesstoken2/util.go:112-119 | appends the length-prefixed string |
| TokenCodec.SortedKeys | shengwang/official/accesstoken2/util.go:145-149 | sorting the keys taken from a map in any order gives its one ascending list |
| TokenCodec.PackMapUint32 | shengwang/official/accesstoken2/util.go:139-161 | the writer loop appends the encoding of the map |
| TokenCodec.PackPermissionTable | shengwang/official/accesstoken2/accesstoken.go:367-417 | the three nested loops append the encoding of the table |
| TokenCodec.PackService | shengwang/official/accesstoken2/accesstoken.go:96-487 | each service's Pack appends its encoding |
| TokenCodec.Reader.ReadFull | shengwang/official/accesstoken2/util.go:122-136 | a full read takes its bytes; a short one drains the reader and fails |
| TokenCodec.Reader.UnPackString | shengwang/official/accesstoken2/util.go:122-136 | reads what the format says and moves past it |
| TokenCodec.Reader.UnPackMapUint32 | shengwang/official/accesstoken2/util.go:164-187 | the reading loop fills the map the format says |
| TokenCodec.Reader.UnPackRtcPair | shengwang/official/accesstoken2/accesstoken.go:148-156 | both strings are read whatever the first read returned |
| TokenCodec.Reader.UnPackRoom | shengwang/official/accesstoken2/accesstoken.go:490-499 | all three APaaS fields are read whatever the earlier reads returned |
| TokenCodec.Reader.UnPackPermissionTable | shengwang/official/accesstoken2/accesstoken.go:420-463 | the nested loops rebuild the table through Add |
| TokenCodec.Reader.UnPackService | shengwang/official/accesstoken2/accesstoken.go:106-499 | each service's UnPack fills the fields the format says and leaves the reader after them |
| TokenObject.AccessTokenObject.AddService | shengwang/official/accesstoken2/accesstoken.go:528-530 | services keep the order in which they were added |
| TokenObject.AccessTokenObject.GetServices | shengwang/official/accesstoken2/accesstoken.go:533-542 | returns the services of one type in order |
| TokenObject.AccessTokenObject.BuildToken | shengwang/official/accesstoken2/accesstoken.go:545-602 | produces the signed token string, or fails for malformed identifiers or without services |
| TokenObject.FilledWhenParsed | shengwang/official/accesstoken2/accesstoken.go:605-681 | a successful parse has filled in exactly what the token decodes to |
| TokenObject.ServicesReadGrow | shengwang/official/accesstoken2/accesstoken.go:662-677 | the services a broken-off parse has filled are the beginning of those it fills from more bytes |
| TokenObject.AccessTokenObject.ParseToken | shengwang/official/accesstoken2/accesstoken.go:605-681 | whatever the object held before, it then holds what was read of this token up to the failure, and counts as parsed exactly when nothing failed |
| TokenObject.AccessTokenObject.Verify | shengwang/official/accesstoken2/accesstoken.go:684-703 | checks the signature as hmac of the parsed bytes under the key that salt, timestamp and certificate give, and refuses exactly what was not parsed or is malformed |
| Commission.ProductFits | tenantpay/commission.go:11 | for accepted rates the product stays within 64 bits up to (2^63-1)/3000 |
| Commission.ProductFitsIff | tenantpay/commission.go:11 | that bound is exact at the highest accepted rate |
| Commission.Bounds | tenantpay/commission.go:7-23 | the commission is never negative and never more than was paid, even after overflow |
| Commission.Meaning | tenantpay/commission.go:7-23 | the commission is the rate part rounded down, raised to the minimum and capped at the payment |
| Commission.Monotone | tenantpay/commission.go:7-23 | paying more never lowers the commission as long as the product fits 64 bits |
| Commission.MonotoneExactly | tenantpay/commission.go:7-23 | up to a payment of n the commission never falls if and only if n's product fits, the commission is off, or its minimum is already the largest rate part |
| Commission.OverflowDrops | tenantpay/commission.go:11 | the last payment in range earns the largest rate part, one cent more only the minimum |
| Commission.Splitting | tenantpay/commission.go:7-23 | without a minimum, splitting a payment into n parts changes the total commission by at most n-1 cents, downwards |
| ProfitSharing.NextKeepsInv | tenantpay/executor.go:70-291 | every executor call, lost message, failed write and remote transition keeps local records and remote service in agreement |
| ProfitSharing.Agreement | tenantpay/executor.go:70-151 | over any run each remote share belongs to a local record and carries its commission, and a succeeded record has exactly that share finished |
| ProfitSharing.ReturnAgreement | tenantpay/executor.go:164-220 | over any run each return belongs to a record, carries its commission and follows a finished share; a refunded record has its return succeeded |
| ProfitSharing.PaidAtMostOnce | tenantpay/executor.go:70-220 | the platform holds an order's commission once or not at all, and nothing of a refunded order |
| ProfitSharing.RefundReportIsTrue | tenantpay/executor.go:164-220 | when the refund hook reports (true, nil) the return has succeeded for the full commission |
| ProfitSharing.RefundedIsForever | tenantpay/executor.go:116-220 | a refunded record never changes again |
| ProfitSharing.ShareableUnlessClosed | tenantpay/executor.go:116-151 | an order with a record can still come to be shared if and only if its share has not finished unsuccessfully |
| ProfitSharing.CancelledShareStillLaunches | tenantpay/executor.go:175-187 | a refund let through without a return changes nothing remotely, so a later share stays possible exactly as before |
| ProfitSharing.ReleaseIsSafeUnlessUnanswered | tenantpay/executor.go:164-244 | the hook lets a refund through while the platform holds the commission if and only if the share had gone through unreturned, the record did not say so, and the query got no answer |
| ProfitSharing.LostQueryReleasesRefund | tenantpay/executor.go:175-231 | a concrete run in which the hook reports (false, nil) with the commission held |
| Executor.SnapshotStaysCurrent | tenantpay/executor.go:133-151 | records listed before a sync pass are still current when their turn comes |
| Executor.PSExecutor.Launch | tenantpay/executor.go:247-291 | opens or finds the share and saves the status it reports |
| Executor.PSExecutor.QueryAndUpdate | tenantpay/executor.go:223-244 | saves a final remote state and ignores everything else |
| Executor.PSExecutor.Submit | tenantpay/executor.go:70-113 | records the order and launches its share; a repeated submit changes nothing |
| Executor.PSExecutor.Retry | tenantpay/executor.go:116-130 | launches again unless the record succeeded or was refunded |
| Executor.PSExecutor.Sync | tenantpay/executor.go:133-151 | a pass over the listed records is a run of single syncs |
| Executor.PSExecutor.SendReturn | tenantpay/executor.go:187-220 | sends the return once per order and records its outcome |
| Executor.PSExecutor.ReturnForRefund | tenantpay/executor.go:164-220 | the refund hook returns what happened and leaves the world of the model |
| SharingProgress.ProcessingIsSynced | tenantpay/executor.go:147-148 | syncing a processing record whose query is answered and write stored takes over outcome and order id of its finished share, waits while it is in progress, and changes nothing remotely |
| SharingProgress.PendingIsLaunched | tenantpay/executor.go:142-146 | syncing a pending or failed record whose launch is answered and stored leaves its share open, for the commission when new, and the record in the share's state |
| SharingProgress.UnansweredChangesNoState | tenantpay/executor.go:133-151 | without an answer a sync changes no state: a launch notes its failure, its share open exactly when it was or the request arrived, and a query changes nothing |
| SharingProgress.RetryLaunches | tenantpay/executor.go:116-130 | a retry does the same for every record neither succeeded nor refunded, and nothing for the others |
| SharingProgress.SubmitRecords | tenantpay/executor.go:70-113 | a new order with a commission is recorded with payment, commission and rate of the moment and its share opened for the commission, or waits as pending; incomplete orders and those without commission leave no trace |
| SharingProgress.RefundOutcome | tenantpay/executor.go:164-220 | with its query answered the refund hook lets an order through that was never shared, reports one already returned, returns a taken commission first, cancels a share that has not started, and lets the rest through unchanged |
| SharingProgress.SendReturnOutcome | tenantpay/executor.go:187-220 | a return is opened for the commission against a finished share, once, and reports success exactly when the remote return succeeded; the record is then refunded with its return number |
| SharingProgress.PassSyncsEveryRecord | tenantpay/executor.go:133-151 | a whole pass does to each listed record what syncing it alone would do |
| Calendar.MonthLength | plan/engine.go:594-611 | months follow one another without a gap |
| Calendar.DirectCount | plan/engine.go:594-611 | counting month by month agrees with the leap-year formula |
| Calendar.CivilRoundTrip | plan/engine.go:594-611 | instants and civil dates correspond one to one |
| Calendar.MonthMembership | plan/engine.go:556-562 | the half-open interval between two first-of-month midnights holds exactly the instants of that month |
| Calendar.ZeroIsYearOne | plan/engine.go:583-591 | the zero time, which stands for "no time", reads as midnight on 1 January of year 1 |
| Calendar.MonthlyWindow | plan/engine.go:610 | a monthly window lasts exactly as many days as the month it starts in |
| Calendar.YearlyWindow | plan/engine.go:607-609 | a yearly window lasts 366 days when a 29 February lies ahead, otherwise 365 |
| Calendar.MonthlyAgainstYearly | plan/engine.go:594-611 | twelve monthly windows never end before one yearly window, and end with it if and only if the starting day exists in the eleven months between |
| Calendar.EarlyDaysAgree | plan/engine.go:594-611 | from the first 28 days of a month both always end together |
| PlanOrders.SettledForever | plan/engine.go:381-466 | paid and closed orders never change again |
| PlanOrders.PaymentTakesEffectOnce | plan/engine.go:381-440 | a payment changes something if and only if the order was pending, valid and its plan exists; every replay succeeds and returns the order as first paid |
| PlanOrders.PaymentOutcome | plan/engine.go:381-440 | a payment that takes effect starts the window at the old expiry if and only if the subscription is of the same plan, finite and later than the payment, and in every other case exactly at the payment, which is now when no time is given; order and subscription store plan, window, transaction and time |
| PlanOrders.OrdersArePriced | plan/engine.go:298-340 | no run holds a free order or one of unknown cycle, so a payment of a pending order takes effect exactly as long as its plan exists |
| PlanOrders.OrderWasSold | plan/engine.go:298-336 | every order of a run was created while its plan was on sale, at the yearly price for a yearly cycle and the monthly price otherwise, with two hours to pay unless another deadline was given |
| PlanOrders.SaleOutcome | plan/engine.go:298-336 | an order is created if and only if tenant, plan and number are given, the number is new, and the plan is on sale at a positive price for a known cycle; other orders stay |
| PlanOrders.FirstWins | plan/engine.go:381-466 | payment and closing exclude one another: after either, the other is refused for good |
| PlanOrders.CloseOutcome | plan/engine.go:443-466 | closing stores status and reason on a pending order and touches nothing else, leaves a closed one, and refuses a paid or unknown one |
| PlanOrders.CycleLength | plan/engine.go:594-611 | windows last 28 to 31 days, or 365 to 366 for a yearly cycle |
| PlanOrders.NextKeepsInv | plan/engine.go:381-466 | every call keeps a tenant's orders, grants, windows and subscription in step |
| PlanOrders.WindowsFollowOneAnother | plan/engine.go:381-440 | over any run each paid order has one window, windows are ordered without overlap, and each starts at the later of its payment and its predecessor's end |
| PlanOrders.PaidWindowsAreDisjoint | plan/engine.go:594-646 | two paid orders of one tenant and plan never cover the same instant |
| PlanOrders.NoPaidTimeIsLost | plan/engine.go:594-646 | the subscription runs at least as long as all paid windows together |
| PlanOrders.ExpiryOnlyMovesLater | plan/engine.go:381-440 | a finite expiry only moves later, and moves exactly when a payment takes effect |
| PlanOrders.PlanEngine.NextWindow | plan/engine.go:594-611 | the next window starts at the expiry of a subscription of the same plan that is finite and later than the pay time, otherwise at the pay time; an unknown cycle is refused |
| PlanOrders.PlanEngine.UpsertSubscription | plan/engine.go:614-646 | the tenant's subscription becomes the given plan and window |
| PlanOrders.PlanEngine.MarkPurchasePaid | plan/engine.go:381-440 | leaves the state and the result of the payment function, errors included |
| PlanOrders.PlanEngine.ClosePurchase | plan/engine.go:443-466 | leaves the state and the result of the closing function |
| PlanOrders.PlanEngine.CreatePurchase | plan/engine.go:298-340 | adds a pending order at the plan's price with its deadline, or refuses the input, an unknown, disabled or free plan, or a number in use |
| Quota.ChargedAtMostOnce | plan/engine.go:528-579 | no run records two events for one non-blank source |
| Quota.ReplaySucceeds | plan/engine.go:537-549 | replays of a recorded source add nothing and succeed as long as there is a subscription, even when the entitlement is gone or used up |
| Quota.RecordedWithinLimit | plan/engine.go:550-578 | right after a recorded consumption the month's total is one more than before and within the limit in force |
| Quota.MonthWithinBound | plan/engine.go:528-579 | no run takes a month over the highest limit ever in force |
| Quota.LimitIsMet | plan/engine.go:662-673 | under a fixed limit exactly that many of n calls in a month are recorded |
| Quota.ConsumeOutcome | plan/engine.go:528-579 | a call without its particulars or a subscription is refused; beyond a replay, a consumption is recorded with all its columns if and only if the tenant's plan grants the entitlement as an enabled count with something left this month; each error names what is missing |
| Quota.MonthIsCounted | plan/engine.go:556-566 | in every run a month's consumption is the number of the tenant's recorded events for the entitlement from the month's first midnight up to the next month's |
| Quota.BlankMeansWhiteSpace | plan/engine.go:537 | a source key is blank when it is nothing but Unicode white space |
| Quota.UsageEngine.CountSource | plan/engine.go:538-544 | counts whether the source is on record |
| Quota.UsageEngine.SumMonth | plan/engine.go:557-566 | the sum between the two midnights is the consumption of the calendar month |
| Quota.UsageEngine.ConsumeMonthly | plan/engine.go:528-579 | leaves the state and the result of the consumption function, errors included |
| RateLimit.CleanupRefines | middleware/rate_limit.go:117-142 | the limiter decides every request as it would without cleaning up |
| RateLimit.IntervalBound | middleware/rate_limit.go:117-133 | any half-open interval of k windows admits fewer than (k+1) times the limit of a key |
| RateLimit.BoundIsReached | middleware/rate_limit.go:117-133 | that bound is exact: for every limit and k some trace reaches it |
| RateLimit.RefusalIsEarned | middleware/rate_limit.go:127-129 | a refused request finds exactly limit admissions of its key within the current window |
| RateLimit.KeysAreIndependent | middleware/rate_limit.go:117-133 | a decision depends on the earlier requests of its own key alone |
| RateLimit.RetryAfterIsExact | middleware/rate_limit.go:127-129 | a refused client that stays away is admitted exactly from the announced time on |
| RateLimit.FixedWindowLimiter.constructor | middleware/rate_limit.go:109-114 | a limit of zero or less becomes 120 |
| RateLimit.FixedWindowLimiter.Allow | middleware/rate_limit.go:117-133 | handling one request extends the run by it and returns its decision |
| RateLimit.FixedWindowLimiter.CleanUp | middleware/rate_limit.go:136-142 | exactly the windows older than two window lengths are deleted |
| Transactions.RunIsSerial | member/store.go:108-155 | every interleaving of guarded transactions leaves what their committed updates leave one after another, and each of them affects its row when its turn comes |
| Transactions.OpenWasBegun | member/store.go:108-135 | every open transaction was begun by one statement of the run, read its row there, and has been open since |
| Transactions.EffectsSplit | member/store.go:108-155 | the effects of a run fall into those before a statement and those since |
| Transactions.ReadsWereCommitted | member/store.go:108-155 | what a transaction had read was a committed row at an earlier moment |
| Transactions.AloneIsApplied | member/store.go:108-155 | a transaction nobody disturbs commits what its operation makes of the row it read, and rolled back leaves everything as it was |
| LazyExpiry.SameAnswers | coupon/store.go:187-218 | for any store that tolerates sweeps, call sequences that differ only in sweeps give the same answers |
| LazyExpiry.StaysAlike | coupon/store.go:187-218 | what such a store keeps through single calls and sweeps it keeps through every sequence of them |
| Wallet.ApplyKeepsInv | member/store.go:68-155 | every committed recharge or deduction keeps accounts and ledger in step |
| Wallet.BalanceIsLedger | member/store.go:68-155 | over any interleaving the balance is what was recharged less what was spent, equals the ledger's sum, is never negative, and each ledger row shows the running balance |
| Wallet.ChangesAreCommitted | member/store.go:68-155 | an account changes between two moments of a run only if a transaction of its holder commits between them |
| Wallet.ReadsAreNotOverdrawn | member/store.go:51-65 | no transaction of any run reads a negative balance |
| Wallet.DeductionIsCovered | member/store.go:108-135 | a deduction takes the lesser of the amount and the balance it read, was covered when it was made, and fails if and only if the balance has meanwhile dropped below that |
| Wallet.MemberStore.EnsureAccount | member/store.go:51-65 | returns the account, opening it empty if missing |
| Wallet.MemberStore.Recharge | member/store.go:68-104 | an amount of 1 to 100 million is credited to balance and recharged total and logged with balance, reference and remark; any other changes nothing |
| Wallet.MemberStore.Deduct | member/store.go:108-155 | takes the lesser of amount and balance from balance into the spent total, logs it with balance and reference when positive, and never fails when run alone |
| Coupons.ApplyKeepsInv | coupon/store.go:140-286 | every committed claim, expiry, issue and template change keeps both counters right |
| Coupons.CountersMatchAlways | coupon/store.go:140-286 | over any interleaving a template's issued and used counts are the numbers of its coupons and of its used coupons |
| Coupons.IssueWithinLimit | coupon/store.go:143-180 | an issue that goes through stays within the template's limit and creates one coupon per holder |
| Coupons.OnlyUpdatesExceed | coupon/engine.go:92-116 | one operation takes a template over its limit if and only if it is an update that sets the limit below what has been issued |
| Coupons.IssuedWithinLimit | coupon/store.go:143-180 | over any interleaving a template has issued more than its limit only if some update set the limit below what had been issued |
| Coupons.SweepStopsAClaim | coupon/store.go:187-265 | a claim whose check has passed loses to a sweep in between if and only if the sweep comes after the coupon's validity |
| Coupons.ClaimedAtMostOnce | coupon/store.go:234-286 | no interleaving commits two claims of a coupon, and it keeps the reference of the one that won |
| CouponStore.ListingShowsComputedStatus | coupon/store.go:194-218 | a listing shows a coupon's status computed from use and validity, swept or not, if and only if the coupon was not marked expired before its time |
| CouponStore.HonestAlways | coupon/store.go:187-286 | calls that run one after another never mark a coupon expired before its time |
| CouponStore.ClaimableIffListed | coupon/store.go:234-286 | a claim succeeds if and only if a listing at that moment shows the coupon unused and holder, minimum spend and shop are right |
| CouponStore.SweepsAreInvisible | coupon/store.go:187-218 | inserting or removing expiry sweeps changes no answer to any caller |
| CouponStore.GormStore.IssueCoupons | coupon/store.go:140-184 | creates all coupons and raises the counter, or does nothing |
| CouponStore.GormStore.CreateCoupons | coupon/store.go:158-176 | the loop creates one coupon per holder under consecutive ids |
| CouponStore.GormStore.ExpireStaleCoupons | coupon/store.go:187-191 | exactly the tenant's unused coupons past their validity become expired |
| CouponStore.GormStore.ListCoupons | coupon/store.go:194-218 | sweeps, then lists by holder and status |
| CouponStore.GormStore.ClaimCoupon | coupon/store.go:223-286 | leaves the state and the result of the claim function, errors included |
| CouponCalls.IssueHandsOut | coupon/store.go:140-184 | an issue goes through if and only if the tenant's template is enabled and has enough left; each holder gets one coupon with the template's name, amount, minimum spend, shop and days of validity, and nothing else changes but the counter |
| CouponCalls.ListingIsExact | coupon/store.go:187-218 | a listing shows exactly the tenant's coupons of the given holder, or of all, in the given state, unused ones past their validity as expired |
| CouponCalls.ClaimOutcome | coupon/store.go:234-286 | a claim goes through if and only if the coupon is this tenant's and holder's, unused, valid, met by the order and not kept from the shop; it stores time and reference and counts the use |
| CouponCalls.IssuedCanBeClaimed | coupon/store.go:140-286 | a coupon just issued can be claimed by its holder while its days last, at the template's minimum and shop, and is worth the template's amount |
| CouponCalls.TemplateOutcome | coupon/engine.go:77-131 | a new template starts its counters at zero, an update keeps them, and one with coupons is not deleted |
| SessionCards.ApplyKeepsInv | sessioncard/store.go:137-279 | every committed use, expiry and issue keeps counters, log and status in step |
| SessionCards.CardsAreCounted | sessioncard/store.go:219-279 | over any interleaving remaining and used times make up the total, neither is negative, the log has one row per use, and an active card has a use left |
| SessionCards.NeverOverused | sessioncard/store.go:240-252 | the uses that committed are exactly the card's used times, never more than its total |
| SessionCards.RemainingSince | sessioncard/store.go:240-252 | between two moments of a run a card loses exactly the uses that commit between them |
| SessionCards.ReportIsTrueWhenUndisturbed | sessioncard/store.go:219-274 | in any interleaved run the remainder a use reports exceeds the one its commit leaves by the number of other uses of the card that committed since it read the card, so it is true exactly when there was none |
| SessionCards.SweepDoesNotStopAUse | sessioncard/store.go:230-258 | a use that read the card before a sweep expired it still goes through |
| CardStore.ListingShowsComputedStatus | sessioncard/store.go:190-214 | a listing shows a card's status computed from remaining uses and validity if and only if the card is honest: exhausted exactly when used up, expired only after its validity |
| CardStore.InterleavedListing | sessioncard/store.go:183-258 | after any interleaved run a listing shows every card's computed status, except that a card used up across its expiry is listed as expired |
| CardStore.HonestAlways | sessioncard/store.go:183-279 | calls that run one after another leave every card honest |
| CardStore.UsableIffListed | sessioncard/store.go:219-279 | a use succeeds if and only if a listing at that moment shows the card active and holder and shop are right, and takes one use |
| CardStore.SweepsAreInvisible | sessioncard/store.go:183-235 | inserting or removing expiry sweeps changes no answer to any caller |
| CardStore.GormStore.IssueCards | sessioncard/store.go:137-180 | creates all cards and raises the counter, or does nothing |
| CardStore.GormStore.CreateCards | sessioncard/store.go:155-173 | the loop creates one full card per holder under consecutive ids |
| CardStore.GormStore.ExpireStaleCards | sessioncard/store.go:183-187 | exactly the tenant's active cards past their validity become expired |
| CardStore.GormStore.ListCards | sessioncard/store.go:190-214 | sweeps, then lists by holder and status |
| CardStore.GormStore.ConsumeCard | sessioncard/store.go:219-279 | leaves the state and the result of the use function, and run alone reports the true remainder |
| CardCalls.IssueHandsOut | sessioncard/store.go:137-180 | an issue goes through if and only if the tenant's template is enabled and has enough left; each holder gets one card with the template's name, shop, uses and days of validity, and nothing else changes but the counter |
| CardCalls.ListingIsExact | sessioncard/store.go:183-214 | a listing shows exactly the tenant's cards of the given holder, or of all, in the given state, active ones past their validity as expired |
| CardCalls.UseOutcome | sessioncard/store.go:219-279 | a use goes through if and only if the card is this tenant's and holder's, active, valid, good at the shop and not used up; it counts one use, exhausts the card with the last, and logs shop and reference |
| CardCalls.IssuedCanBeUsed | sessioncard/store.go:137-279 | a card just issued can be used by its holder while its days last, and then has one use less than its template gives |
| CardCalls.TemplateOutcome | sessioncard/engine.go:71-163 | a template gives between one and a thousand uses; a new one starts its counter at zero, an update takes the tenant's own and keeps it |
| Settle.SettlementAddsUp | settle/settle.go:45-67 | whatever commits meanwhile, total = discount + balance used + paid, the spend row equals the balance used, and paid is negative exactly when the coupon is worth more than the order |
| Settle.SpendRowMatchesReport | member/store.go:123-150 | in any interleaved run, when a settlement's deduction commits the ledger gains exactly the spend it reports, with the balance it leaves |
| Settle.BalanceIsUsedUp | settle/settle.go:58-65 | run alone, money is left to pay only when the balance has been used up |
| Settle.FailureAtTheBalance | settle/settle.go:48-64 | a settlement fails at the balance if and only if its coupon went through, the balance was wanted, and between read and update the account was opened or fell below both the amount and the balance read; its coupon then stays used |
| Settle.FailureAtTheCoupon | settle/settle.go:48-57 | a settlement fails at its coupon if and only if the coupon is not the holder's own, unused, valid and met by the total, at whichever shop, or is taken meanwhile; otherwise time and reference are stored on it |
| Settle.RefusalMeansInterference | member/store.go:108-135 | in any interleaved run the deduction is refused on exactly those balances, another transaction of the holder has then committed since the read, and the refusal changes nothing |
| Settle.Checkout.Apply | settle/settle.go:45-67 | claims, deducts and returns as the two transactions do, and leaves both stores accordingly |

## Left out

- All network, SDK, file, Redis, HTTP, logging and configuration code, and the vendor calls behind the payment executor: the remote service is a map keyed by order number.
- Real hashing, compression and text encoding; only the equations named above are used.
- Paging, view conversion, metrics, backlog counts, input trimming and validation of free-text fields.
- Plan catalogue management: plans change only by a step that replaces them all.
- AssignWithExpiry, Assign and Revoke appear only as steps that set or remove a subscription; windows across plan switches and after them are not claimed to be disjoint.
- PlanOrders.WindowsFollowOneAnother: states the order of windows for a tenant whose orders are all for one plan, because switching plans deliberately restarts the window.
- Calendar: one fixed zone without daylight-saving changes.
- Quota.RecordedWithinLimit: does not look at the subscription's expiry, because the code does not either.
- Delivery.MarkedMeansDeliveredOnce: is stated for runs in which a failure record that arrives apart from its call does not meet a completed consumption, because the record is not guarded; EffectsAreCounted covers the other runs.
- OutboxTheorems.TerminalIsForever: is stated with row locks, and IsolatedTerminalIsForever with isolated transactions; TerminalChangesOnlyByRevival gives the exact step that neither allows.
- OutboxStore.Repository.ClaimBatch: runs its statements without others in between, since it is one method call, and a database without row locks runs one claim at a time; claims interleaved statement by statement are the protocol's steps.
- A mark statement that waits for a locked row is given what the others do until it gets the row; a row that stays locked for ever is not modelled.
- Each profit-sharing call works on one order and is one step, because saving rewrites the whole row; two calls on the same order at the same moment are not modelled. Returns are found by return number rather than by the remote order id, and the texts of failure reasons are abbreviated.
- Services are values, so the aliasing of service pointers is not modelled; of a service whose own fields fail to read, nothing is kept, as in the code.
- Account, coupon and card amounts are unbounded integers; overflow of stored 64-bit totals is not modelled.
- Transactions.RunIsSerial: assumes that a guarded update re-reads the current row and holds it until commit, as the supported databases do.
- A sweep is one statement over many rows; in the interleaved model its rows are updated one by one, which allows more interleavings.
- Coupons.IssuedWithinLimit: an issue is one step, because the template's counters are read without a lock; two issues at the same moment can exceed the limit.
- Deleting a template and counting its coupons are one step as well.
- Numeric limits of template fields other than a card's total times, and the deduplication of holders before an issue.
- The session-card template's own use counter, which the code never writes, and the removal of session-card templates.
- CouponStore.SweepsAreInvisible: is stated for calls that run one after another; under interleaving a claim can lose to a sweep, exactly as SweepStopsAClaim says.
- CardStore.SweepsAreInvisible: is stated for calls that run one after another; under interleaving SweepDoesNotStopAUse and InterleavedListing say what a sweep changes.
- The Redis variant of the limiter and the choice of the client's address as key.
- Which records a sync pass lists is an input: SharingProgress.PassSyncsEveryRecord holds for every list of current records.
