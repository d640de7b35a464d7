/** The in-process publisher and the consumption store as they run: subscriptions are appended under
    a duplicate check, and Publish walks the matching consumers in order until one of them fails. */
module LocalPublisher {
  import opened Wrappers
  import opened Delivery
  import OutboxRows

  /** The ledger after the first n consumers of one event were called. */
  function ConsumeAll(l: Ledger, subs: seq<Subscription>, eventId: string, now: int, outcomes: nat -> Outcome, n: nat): Ledger
    requires n <= |subs|
  {
    if n == 0 then l
    else Consume(ConsumeAll(l, subs, eventId, now, outcomes, n - 1), Key(subs[n - 1].consumerCode, eventId), now, outcomes(n - 1))
  }

  /** Whether the k-th call succeeds, given the calls before it. */
  predicate CallSucceeds(l: Ledger, subs: seq<Subscription>, eventId: string, now: int, outcomes: nat -> Outcome, k: nat)
    requires k < |subs|
  {
    ConsumeSucceeds(ConsumeAll(l, subs, eventId, now, outcomes, k), Key(subs[k].consumerCode, eventId), outcomes(k))
  }

  predicate AllSucceed(l: Ledger, subs: seq<Subscription>, eventId: string, now: int, outcomes: nat -> Outcome, n: nat)
    requires n <= |subs|
  {
    forall k :: 0 <= k < n ==> CallSucceeds(l, subs, eventId, now, outcomes, k)
  }

  lemma {:induction false} CompletedAccumulate(l: Ledger, subs: seq<Subscription>, eventId: string, now: int,
                                               outcomes: nat -> Outcome, n: nat)
    requires n <= |subs|
    requires AllSucceed(l, subs, eventId, now, outcomes, n)
    ensures forall k :: 0 <= k < n ==> IsCompleted(ConsumeAll(l, subs, eventId, now, outcomes, n), Key(subs[k].consumerCode, eventId))
    ensures forall key :: IsCompleted(l, key) ==> IsCompleted(ConsumeAll(l, subs, eventId, now, outcomes, n), key)
  {
    if n > 0 {
      CompletedAccumulate(l, subs, eventId, now, outcomes, n - 1);
      assert CallSucceeds(l, subs, eventId, now, outcomes, n - 1);
    }
  }

  /** Publish gives up: nobody matches, or the last consumer it called failed. */
  predicate StopsAt(l: Ledger, matched: seq<Subscription>, eventId: string, now: int, outcomes: nat -> Outcome, called: nat)
    requires called <= |matched|
  {
    matched == [] || (called > 0 && !CallSucceeds(l, matched, eventId, now, outcomes, called - 1))
  }

  /** After a publish that succeeded, everybody subscribed to the type or to "*" has completed the event. */
  lemma SuccessCompletesAll(l: Ledger, subs: seq<Subscription>, eventType: string, eventId: string, now: int,
                            outcomes: nat -> Outcome)
    requires AllSucceed(l, Matching(subs, eventType), eventId, now, outcomes, |Matching(subs, eventType)|)
    ensures
      var matched := Matching(subs, eventType);
      forall sub :: sub in subs && (sub.eventType == "*" || sub.eventType == eventType) ==>
        IsCompleted(ConsumeAll(l, matched, eventId, now, outcomes, |matched|), Key(sub.consumerCode, eventId))
  {
    var matched := Matching(subs, eventType);
    CompletedAccumulate(l, matched, eventId, now, outcomes, |matched|);
    forall sub | sub in subs && (sub.eventType == "*" || sub.eventType == eventType)
      ensures IsCompleted(ConsumeAll(l, matched, eventId, now, outcomes, |matched|), Key(sub.consumerCode, eventId))
    {
      var k :| 0 <= k < |matched| && matched[k] == sub;
    }
  }

  /** Handing an event to the same consumers again after a full success runs no handler at all. */
  lemma {:induction false} RedeliveryIsSilent(l: Ledger, subs: seq<Subscription>, eventId: string, now: int,
                                              outcomes: nat -> Outcome, n: nat)
    requires n <= |subs|
    requires forall k :: 0 <= k < |subs| ==> IsCompleted(l, Key(subs[k].consumerCode, eventId))
    ensures ConsumeAll(l, subs, eventId, now, outcomes, n) == l
  {
    if n > 0 {
      RedeliveryIsSilent(l, subs, eventId, now, outcomes, n - 1);
    }
  }

  class ConsumptionStore {
    var ledger: Ledger

    constructor ()
      ensures ledger == Ledger(map[], multiset{})
    {
      ledger := Ledger(map[], multiset{});
    }

    /** The consumer transaction: it commits the handler's effect with the completed row, or nothing. */
    method RunInTransaction(key: Key, now: int, outcome: Outcome) returns (processed: bool, error: Option<string>)
      modifies this
      ensures processed <==> !IsCompleted(old(ledger), key) && outcome.Succeeds?
      ensures error.None? <==> ConsumeSucceeds(old(ledger), key, outcome)
      ensures ledger == if processed then Consume(old(ledger), key, now, outcome) else old(ledger)
      ensures outcome.HandlerFails? && error.Some? ==> error.value == outcome.message
    {
      if key in ledger.table && ledger.table[key].status.Completed? {
        return false, None;
      }
      var attempts := 1;
      if key in ledger.table {
        attempts := ledger.table[key].attempts + 1;
      }
      match outcome
      case HandlerFails(message) =>
        return false, Some(message);
      case FailsUnrecorded =>
        return false, Some("");
      case Succeeds =>
        var row := Consumption(Completed, attempts, "", now, Some(now));
        ledger := Ledger(ledger.table[key := row], ledger.effects + multiset{key});
        return true, None;
    }

    method ConsumeOnce(key: Key, now: int, outcome: Outcome) returns (processed: bool, error: Option<string>)
      modifies this
      ensures ledger == Consume(old(ledger), key, now, outcome)
      ensures processed <==> !IsCompleted(old(ledger), key) && outcome.Succeeds?
      ensures error.None? <==> ConsumeSucceeds(old(ledger), key, outcome)
      ensures forall other :: other != key ==>
        && (other in ledger.table <==> other in old(ledger).table)
        && (other in ledger.table ==> ledger.table[other] == old(ledger).table[other])
      ensures ledger.effects == old(ledger).effects + if processed then multiset{key} else multiset{}
      ensures IsCompleted(old(ledger), key) || outcome.FailsUnrecorded? ==> ledger == old(ledger)
      ensures !IsCompleted(old(ledger), key) && !outcome.FailsUnrecorded? ==>
        && key in ledger.table
        && ledger.table[key].attempts == (if key in old(ledger).table then old(ledger).table[key].attempts else 0) + 1
        && (processed ==>
              ledger.table[key] == Consumption(Completed, ledger.table[key].attempts, "", now, Some(now)))
        && (outcome.HandlerFails? ==>
              && ledger.table[key].status.Failed? && ledger.table[key].lastError <= outcome.message
              && ledger.table[key].startedAt == (if key in old(ledger).table then old(ledger).table[key].startedAt else now)
              && ledger.table[key].completedAt == (if key in old(ledger).table then old(ledger).table[key].completedAt else None)
              && |ledger.table[key].lastError| == if |outcome.message| < 2000 then |outcome.message| else 2000)
    {
      processed, error := RunInTransaction(key, now, outcome);
      if error.None? {
        return;
      }
      if outcome.HandlerFails? {
        ledger := RecordFailure(ledger, key, now, OutboxRows.TruncateError(error.value));
      }
      processed := false;
    }
  }

  class Publisher {
    const store: ConsumptionStore
    var subscriptions: seq<Subscription>
    var keys: set<Subscription>

    ghost predicate Valid()
      reads this
    {
      && keys == (set k | 0 <= k < |subscriptions| :: subscriptions[k])
      && forall j, k :: 0 <= j < k < |subscriptions| ==> subscriptions[j] != subscriptions[k]
    }

    constructor (store: ConsumptionStore)
      ensures Valid() && this.store == store && subscriptions == []
    {
      this.store := store;
      subscriptions, keys := [], {};
    }

    /** Registers a consumer; empty arguments and repeated registrations are refused. */
    method Subscribe(eventType: string, consumerCode: string) returns (ok: bool)
      requires Valid()
      modifies this
      ensures Valid()
      ensures ok <==> eventType != "" && consumerCode != "" && Subscription(eventType, consumerCode) !in old(subscriptions)
      ensures subscriptions ==
        if ok then old(subscriptions) + [Subscription(eventType, consumerCode)] else old(subscriptions)
    {
      var sub := Subscription(eventType, consumerCode);
      if eventType == "" || consumerCode == "" || sub in keys {
        return false;
      }
      keys := keys + {sub};
      subscriptions := subscriptions + [sub];
      ok := true;
      assert subscriptions[..|subscriptions| - 1] == old(subscriptions);
      assert forall k :: 0 <= k < |old(subscriptions)| ==> subscriptions[k] == old(subscriptions)[k];
      assert subscriptions[|subscriptions| - 1] == sub;
    }

    /** Calls the matching consumers in registration order; it fails when nobody matches or at the
        first consumer that fails, and otherwise every one of them has completed the event. */
    method Publish(eventType: string, eventId: string, now: int, outcomes: nat -> Outcome)
        returns (failed: bool, ghost called: nat)
      requires Valid()
      modifies store
      ensures called <= |Matching(subscriptions, eventType)|
      ensures store.ledger == ConsumeAll(old(store.ledger), Matching(subscriptions, eventType), eventId, now, outcomes, called)
      ensures failed <==> StopsAt(old(store.ledger), Matching(subscriptions, eventType), eventId, now, outcomes, called)
      ensures !failed ==> forall sub :: sub in subscriptions && (sub.eventType == "*" || sub.eventType == eventType) ==>
        IsCompleted(store.ledger, Key(sub.consumerCode, eventId))
      ensures !failed ==> exists sub :: sub in subscriptions && (sub.eventType == "*" || sub.eventType == eventType)
    {
      var matched := MatchingLoop(eventType);
      if matched == [] {
        return true, 0;
      }
      failed, called := CallConsumers(matched, eventId, now, outcomes);
      if !failed {
        SuccessCompletesAll(old(store.ledger), subscriptions, eventType, eventId, now, outcomes);
        assert matched[0] in matched;
      }
    }

    method CallConsumers(matched: seq<Subscription>, eventId: string, now: int, outcomes: nat -> Outcome)
        returns (failed: bool, ghost called: nat)
      modifies store
      ensures called <= |matched| && store.ledger == ConsumeAll(old(store.ledger), matched, eventId, now, outcomes, called)
      ensures failed ==> called > 0 && !CallSucceeds(old(store.ledger), matched, eventId, now, outcomes, called - 1)
      ensures !failed ==> called == |matched| && AllSucceed(old(store.ledger), matched, eventId, now, outcomes, called)
    {
      called := 0;
      for k := 0 to |matched|
        invariant called == k
        invariant store.ledger == ConsumeAll(old(store.ledger), matched, eventId, now, outcomes, k)
        invariant AllSucceed(old(store.ledger), matched, eventId, now, outcomes, k)
      {
        var processed, error := store.ConsumeOnce(Key(matched[k].consumerCode, eventId), now, outcomes(k));
        called := k + 1;
        if error.Some? {
          return true, called;
        }
      }
      failed := false;
    }

    method MatchingLoop(eventType: string) returns (matched: seq<Subscription>)
      ensures matched == Matching(subscriptions, eventType)
    {
      matched := [];
      for k := 0 to |subscriptions|
        invariant matched == Matching(subscriptions[..k], eventType)
      {
        assert subscriptions[..k + 1][..k] == subscriptions[..k];
        if subscriptions[k].eventType == "*" || subscriptions[k].eventType == eventType {
          matched := matched + [subscriptions[k]];
        }
      }
      assert subscriptions[..|subscriptions|] == subscriptions;
    }
  }
}
