/** Fan-out of claimed events to subscribed consumers through the idempotent consumption table,
    on top of the outbox protocol: dispatchers may crash or retry at any point, and the handler of
    each consumer still takes effect exactly once per event. */
module Delivery {
  import opened Wrappers
  import opened OutboxRows
  import OP = OutboxProtocol

  // ----- the consumption table -----

  datatype ConsumptionStatus = Completed | Failed

  /** A committed consumption row; the processing status is only visible inside its transaction. */
  datatype Consumption = Consumption(
    status: ConsumptionStatus, attempts: nat, lastError: string, startedAt: int, completedAt: Option<int>)

  /** The consumption rows, and how often each consumer's handler has committed for each event. */
  datatype Key = Key(consumerCode: string, eventId: string)
  datatype Ledger = Ledger(table: map<Key, Consumption>, effects: multiset<Key>)

  /** How one ConsumeOnce call goes when the handler has to run. */
  datatype Outcome =
    | Succeeds
    | HandlerFails(message: string)            // rolled back, then recorded as failed
    | FailsUnrecorded                          // rolled back, and the failure record fails too

  predicate IsCompleted(l: Ledger, key: Key) {
    key in l.table && l.table[key].status.Completed?
  }

  /** The failure upsert: it inserts or overwrites, whatever the row says. */
  function RecordFailure(l: Ledger, key: Key, now: int, message: string): Ledger {
    var row := if key in l.table
               then l.table[key].(status := ConsumptionStatus.Failed, attempts := l.table[key].attempts + 1, lastError := message)
               else Consumption(ConsumptionStatus.Failed, 1, message, now, None);
    l.(table := l.table[key := row])
  }

  function CompletedRow(l: Ledger, key: Key, now: int): Consumption {
    Consumption(Completed, if key in l.table then l.table[key].attempts + 1 else 1, "", now, Some(now))
  }

  /** One ConsumeOnce call with its failure record: a completed row skips the handler. */
  function Consume(l: Ledger, key: Key, now: int, outcome: Outcome): Ledger {
    if IsCompleted(l, key) then l
    else match outcome
      case Succeeds => Ledger(l.table[key := CompletedRow(l, key, now)], l.effects + multiset{key})
      case HandlerFails(message) => RecordFailure(l, key, now, TruncateError(message))
      case FailsUnrecorded => l
  }

  /** Whether that call returns without error. */
  predicate ConsumeSucceeds(l: Ledger, key: Key, outcome: Outcome) {
    IsCompleted(l, key) || outcome.Succeeds?
  }

  // ----- the world of dispatchers and consumers -----

  datatype Subscription = Subscription(eventType: string, consumerCode: string)

  /** The subscriptions to this type or to every type, in registration order. */
  function Matching(subs: seq<Subscription>, eventType: string): (r: seq<Subscription>)
    ensures forall sub :: sub in r <==> sub in subs && (sub.eventType == "*" || sub.eventType == eventType)
  {
    if subs == [] then []
    else
      var front, last := Matching(subs[..|subs| - 1], eventType), subs[|subs| - 1];
      assert subs == subs[..|subs| - 1] + [last];
      if last.eventType == "*" || last.eventType == eventType then front + [last] else front
  }

  lemma MatchingLast(subs: seq<Subscription>, sub: Subscription, eventType: string)
    ensures Matching(subs + [sub], eventType) ==
      Matching(subs, eventType) + if sub.eventType == "*" || sub.eventType == eventType then [sub] else []
  {
    assert (subs + [sub])[..|subs|] == subs;
  }

  /** Everybody who subscribed to the type or to "*" is matched once, in registration order. */
  lemma {:induction false} MatchingJoins(a: seq<Subscription>, b: seq<Subscription>, eventType: string)
    ensures Matching(a + b, eventType) == Matching(a, eventType) + Matching(b, eventType)
    ensures forall sub :: Matching([sub], eventType) == if sub.eventType == "*" || sub.eventType == eventType then [sub] else []
    decreases |b|, 1
  {
    hide Matching;
    forall sub
      ensures Matching([sub], eventType) == if sub.eventType == "*" || sub.eventType == eventType then [sub] else []
    {
      MatchingLast([], sub, eventType);
      NobodyMatches(eventType);
      assert [] + [sub] == [sub];
    }
    if b == [] {
      NobodyMatches(eventType);
      assert a + b == a;
    } else {
      MatchingJoinsLast(a, b[..|b| - 1], b[|b| - 1], eventType);
      assert b == b[..|b| - 1] + [b[|b| - 1]];
    }
  }

  lemma NobodyMatches(eventType: string)
    ensures Matching([], eventType) == []
  {
  }

  lemma MatchingJoinsLast(a: seq<Subscription>, b: seq<Subscription>, sub: Subscription, eventType: string)
    ensures Matching(a + (b + [sub]), eventType) == Matching(a, eventType) + Matching(b + [sub], eventType)
    decreases |b| + 1, 0
  {
    hide Matching;
    MatchingJoins(a, b, eventType);
    MatchingLast(b, sub, eventType);
    MatchingLast(a + b, sub, eventType);
    assert a + (b + [sub]) == a + b + [sub];
  }

  /** A Publish call in progress: the subscriptions it captured, and how many consumers are done. */
  datatype Progress = Progress(captured: seq<Subscription>, matched: seq<Subscription>, done: nat, failed: bool)

  datatype Delivering = Delivering(token: string, id: nat)

  datatype World = World(
    outbox: OP.State, subs: seq<Subscription>, ledger: Ledger, publishing: map<Delivering, Progress>)

  datatype Step =
    | Outbox(step: OP.Step)
    | Subscribe(sub: Subscription)
    | BeginPublish(d: Delivering)
    | ConsumeNext(d: Delivering, now: int, outcome: Outcome)
    | LateFailure(key: Key, now: int, message: string)
    | MarkPublished(d: Delivering)
    | MarkFailed(d: Delivering, message: string)

  function Start(rowLocks: bool): World {
    World(OP.Init(rowLocks), [], Ledger(map[], multiset{}), map[])
  }

  function KeyOf(w: World, d: Delivering, k: nat): Key
    requires d in w.publishing && k < |w.publishing[d].matched| && d.id < |w.outbox.rows|
  {
    Key(w.publishing[d].matched[k].consumerCode, w.outbox.rows[d.id].eventId)
  }

  predicate CanConsume(w: World, d: Delivering) {
    && d in w.publishing && d.id < |w.outbox.rows|
    && !w.publishing[d].failed && w.publishing[d].done < |w.publishing[d].matched|
  }

  /** Publish returned nil: somebody was subscribed, and every consumer call succeeded. */
  predicate PublishSucceeded(w: World, d: Delivering) {
    && d in w.publishing && !w.publishing[d].failed
    && w.publishing[d].matched != [] && w.publishing[d].done == |w.publishing[d].matched|
  }

  predicate PublishFailed(w: World, d: Delivering) {
    d in w.publishing && (w.publishing[d].failed || w.publishing[d].matched == [])
  }

  function Next(w: World, step: Step): World {
    match step
    case Outbox(s) =>
      if s.MarkPublished? || s.MarkFailed? then w else w.(outbox := OP.Next(w.outbox, s))
    case Subscribe(sub) =>
      if sub in w.subs then w else w.(subs := w.subs + [sub])
    case BeginPublish(d) =>
      if OP.Dispatching(w.outbox, d.token, d.id) && d.id < |w.outbox.rows| && d !in w.publishing
      then w.(publishing := w.publishing[d := Progress(w.subs, Matching(w.subs, w.outbox.rows[d.id].eventType), 0, false)])
      else w
    case ConsumeNext(d, now, outcome) =>
      if CanConsume(w, d)
      then
        var p, key := w.publishing[d], KeyOf(w, d, w.publishing[d].done);
        var p' := if ConsumeSucceeds(w.ledger, key, outcome) then p.(done := p.done + 1) else p.(failed := true);
        w.(ledger := Consume(w.ledger, key, now, outcome), publishing := w.publishing[d := p'])
      else w
    case LateFailure(key, now, message) =>
      w.(ledger := RecordFailure(w.ledger, key, now, TruncateError(message)))
    case MarkPublished(d) =>
      if PublishSucceeded(w, d) then w.(outbox := OP.Next(w.outbox, OP.MarkPublished(d.token, d.id))) else w
    case MarkFailed(d, message) =>
      if PublishFailed(w, d) then w.(outbox := OP.Next(w.outbox, OP.MarkFailed(d.token, d.id, TruncateError(message)))) else w
  }

  function Run(w: World, steps: seq<Step>): World
    decreases |steps|
  {
    if steps == [] then w else Next(Run(w, steps[..|steps| - 1]), steps[|steps| - 1])
  }

  /** A failure record that runs apart from its call must not land on a completed row. */
  predicate Guarded(w: World, step: Step) {
    step.LateFailure? ==> !IsCompleted(w.ledger, step.key)
  }

  predicate GuardedRun(w: World, steps: seq<Step>)
    decreases |steps|
  {
    steps != [] ==>
      GuardedRun(w, steps[..|steps| - 1]) && Guarded(Run(w, steps[..|steps| - 1]), steps[|steps| - 1])
  }

  // ----- the outbox underneath is the outbox protocol -----

  /** The outbox steps hidden in a run of this world. */
  function OutboxSteps(w: World, steps: seq<Step>): seq<OP.Step>
    decreases |steps|
  {
    if steps == [] then []
    else
      var front, step := steps[..|steps| - 1], steps[|steps| - 1];
      OutboxSteps(w, front) + OutboxStep(Run(w, front), step)
  }

  function OutboxStep(w: World, step: Step): seq<OP.Step> {
    match step
    case Outbox(s) => if s.MarkPublished? || s.MarkFailed? then [] else [s]
    case MarkPublished(d) => if PublishSucceeded(w, d) then [OP.MarkPublished(d.token, d.id)] else []
    case MarkFailed(d, message) => if PublishFailed(w, d) then [OP.MarkFailed(d.token, d.id, TruncateError(message))] else []
    case _ => []
  }

  lemma OutboxStepIsAProtocolRun(w: World, step: Step)
    ensures Next(w, step).outbox == OP.Run(w.outbox, OutboxStep(w, step))
  {
    var more := OutboxStep(w, step);
    if more != [] {
      assert more[..0] == [];
      assert OP.Run(w.outbox, more) == OP.Next(w.outbox, more[0]);
    }
  }

  /** Every theorem about the outbox protocol therefore holds of the outbox of this world. */
  lemma {:induction false} OutboxIsAProtocolRun(w: World, steps: seq<Step>)
    ensures Run(w, steps).outbox == OP.Run(w.outbox, OutboxSteps(w, steps))
    decreases |steps|
  {
    if steps != [] {
      var front, step := steps[..|steps| - 1], steps[|steps| - 1];
      OutboxIsAProtocolRun(w, front);
      OutboxStepIsAProtocolRun(Run(w, front), step);
      OP.RunConcat(w.outbox, OutboxSteps(w, front), OutboxStep(Run(w, front), step));
    }
  }

  // ----- exactly once -----

  /** A handler has committed once where the table says completed, and never elsewhere. */
  ghost predicate LedgerOk(l: Ledger) {
    forall key :: l.effects[key] == if IsCompleted(l, key) then 1 else 0
  }

  ghost predicate ProgressOk(w: World, d: Delivering, p: Progress) {
    && d.id < |w.outbox.rows|
    && p.captured <= w.subs
    && p.matched == Matching(p.captured, w.outbox.rows[d.id].eventType)
    && p.done <= |p.matched|
    && forall k :: 0 <= k < p.done ==> IsCompleted(w.ledger, Key(p.matched[k].consumerCode, w.outbox.rows[d.id].eventId))
  }

  ghost predicate PublishedOk(w: World) {
    forall id :: 0 <= id < |w.outbox.rows| && w.outbox.rows[id].status.Published? ==>
      exists token :: PublishSucceeded(w, Delivering(token, id))
  }

  ghost predicate Inv(w: World) {
    && LedgerOk(w.ledger)
    && (forall d :: d in w.publishing ==> ProgressOk(w, d, w.publishing[d]))
    && PublishedOk(w)
  }

  lemma ConsumeKeepsLedger(l: Ledger, key: Key, now: int, outcome: Outcome)
    requires LedgerOk(l)
    ensures LedgerOk(Consume(l, key, now, outcome))
    ensures ConsumeSucceeds(l, key, outcome) ==> IsCompleted(Consume(l, key, now, outcome), key)
    ensures forall other :: IsCompleted(l, other) ==> IsCompleted(Consume(l, key, now, outcome), other)
  {
  }

  /** Outbox steps keep the envelope of a row. */
  lemma OutboxKeepsEnvelope(s: OP.State, step: OP.Step, id: nat)
    requires id < |s.rows|
    ensures id < |OP.Next(s, step).rows|
    ensures OP.Next(s, step).rows[id].eventId == s.rows[id].eventId
    ensures OP.Next(s, step).rows[id].eventType == s.rows[id].eventType
  {
  }

  /** Only a MarkPublished statement makes a row published. */
  lemma OutboxPublishes(s: OP.State, step: OP.Step, id: nat)
    requires id < |OP.Next(s, step).rows| && OP.Next(s, step).rows[id].status.Published?
    ensures (id < |s.rows| && s.rows[id].status.Published?) || (step.MarkPublished? && step.id == id)
  {
  }

  lemma OutboxChangeKeepsInv(w: World, step: OP.Step)
    requires Inv(w)
    requires step.MarkPublished? ==> PublishSucceeded(w, Delivering(step.token, step.id))
    ensures Inv(w.(outbox := OP.Next(w.outbox, step)))
  {
    var w' := w.(outbox := OP.Next(w.outbox, step));
    forall d | d in w'.publishing
      ensures ProgressOk(w', d, w'.publishing[d])
    {
      assert ProgressOk(w, d, w.publishing[d]);
      OutboxKeepsEnvelope(w.outbox, step, d.id);
    }
    forall id | 0 <= id < |w'.outbox.rows| && w'.outbox.rows[id].status.Published?
      ensures exists token :: PublishSucceeded(w', Delivering(token, id))
    {
      OutboxPublishes(w.outbox, step, id);
      if id < |w.outbox.rows| && w.outbox.rows[id].status.Published? {
        var token :| PublishSucceeded(w, Delivering(token, id));
        assert PublishSucceeded(w', Delivering(token, id));
      } else {
        assert PublishSucceeded(w', Delivering(step.token, id));
      }
    }
  }

  /** Completed consumptions only accumulate, so other deliveries keep what they have reached. */
  lemma ProgressSurvives(w: World, w': World, d: Delivering, p: Progress)
    requires ProgressOk(w, d, p)
    requires w'.outbox == w.outbox && w.subs <= w'.subs
    requires forall key :: IsCompleted(w.ledger, key) ==> IsCompleted(w'.ledger, key)
    ensures ProgressOk(w', d, p)
  {
  }

  lemma PublishedSurvives(w: World, w': World)
    requires PublishedOk(w) && w'.outbox == w.outbox
    requires forall d :: PublishSucceeded(w, d) ==> PublishSucceeded(w', d)
    ensures PublishedOk(w')
  {
    forall id | 0 <= id < |w'.outbox.rows| && w'.outbox.rows[id].status.Published?
      ensures exists token :: PublishSucceeded(w', Delivering(token, id))
    {
      var token :| PublishSucceeded(w, Delivering(token, id));
      assert PublishSucceeded(w', Delivering(token, id));
    }
  }

  lemma ConsumeNextKeepsInv(w: World, step: Step)
    requires Inv(w) && step.ConsumeNext?
    ensures Inv(Next(w, step))
  {
    hide Matching, Consume, OP.Dispatching;
    var w' := Next(w, step);
    if CanConsume(w, step.d) {
      var key := KeyOf(w, step.d, w.publishing[step.d].done);
      ConsumeKeepsLedger(w.ledger, key, step.now, step.outcome);
      forall d | d in w'.publishing
        ensures ProgressOk(w', d, w'.publishing[d])
      {
        ProgressSurvives(w, w', d, w.publishing[d]);
      }
      PublishedSurvives(w, w');
    }
  }

  lemma OtherStepKeepsInv(w: World, step: Step)
    requires Inv(w) && Guarded(w, step)
    requires step.Subscribe? || step.BeginPublish? || step.LateFailure?
    ensures Inv(Next(w, step))
  {
    hide LedgerOk, Matching, OP.Dispatching;
    var w' := Next(w, step);
    OtherStepKeepsLedger(w, step);
    forall d | d in w'.publishing
      ensures ProgressOk(w', d, w'.publishing[d])
    {
      if d in w.publishing {
        ProgressSurvives(w, w', d, w.publishing[d]);
      }
    }
    PublishedSurvives(w, w');
  }

  lemma OtherStepKeepsLedger(w: World, step: Step)
    requires LedgerOk(w.ledger) && Guarded(w, step)
    requires step.Subscribe? || step.BeginPublish? || step.LateFailure?
    ensures LedgerOk(Next(w, step).ledger)
    ensures forall key :: IsCompleted(w.ledger, key) ==> IsCompleted(Next(w, step).ledger, key)
  {
  }

  lemma NextKeepsInv(w: World, step: Step)
    requires Inv(w) && Guarded(w, step)
    ensures Inv(Next(w, step))
  {
    hide Inv;
    match step
    case Outbox(s) =>
      if !s.MarkPublished? && !s.MarkFailed? {
        OutboxChangeKeepsInv(w, s);
      }
    case MarkPublished(d) =>
      if PublishSucceeded(w, d) {
        OutboxChangeKeepsInv(w, OP.MarkPublished(d.token, d.id));
      }
    case MarkFailed(d, message) =>
      if PublishFailed(w, d) {
        OutboxChangeKeepsInv(w, OP.MarkFailed(d.token, d.id, TruncateError(message)));
      }
    case ConsumeNext(_, _, _) =>
      ConsumeNextKeepsInv(w, step);
    case _ =>
      OtherStepKeepsInv(w, step);
  }

  lemma {:induction false} RunKeepsInv(w: World, steps: seq<Step>)
    requires Inv(w) && GuardedRun(w, steps)
    ensures Inv(Run(w, steps))
    decreases |steps|
  {
    if steps != [] {
      RunKeepsInv(w, steps[..|steps| - 1]);
      NextKeepsInv(Run(w, steps[..|steps| - 1]), steps[|steps| - 1]);
    }
  }

  /** How often a failure record of this consumption has landed on a completed row. */
  function LateHits(w: World, steps: seq<Step>, key: Key): nat
    decreases |steps|
  {
    if steps == [] then 0
    else
      var front, step := steps[..|steps| - 1], steps[|steps| - 1];
      LateHits(w, front, key)
      + if step.LateFailure? && step.key == key && IsCompleted(Run(w, front).ledger, key) then 1 else 0
  }

  lemma StepCountsEffects(w: World, step: Step, key: Key, hits: nat)
    requires w.ledger.effects[key] == hits + if IsCompleted(w.ledger, key) then 1 else 0
    ensures
      var w' := Next(w, step);
      var hit := if step.LateFailure? && step.key == key && IsCompleted(w.ledger, key) then 1 else 0;
      w'.ledger.effects[key] == hits + hit + if IsCompleted(w'.ledger, key) then 1 else 0
  {
  }

  /** In every run, guarded or not: a handler has taken effect once for the completed row, and once more for
      each failure record that undid a completion. */
  lemma {:induction false} EffectsAreCounted(rowLocks: bool, steps: seq<Step>, key: Key)
    ensures
      var w := Run(Start(rowLocks), steps);
      w.ledger.effects[key] == LateHits(Start(rowLocks), steps, key) + if IsCompleted(w.ledger, key) then 1 else 0
    decreases |steps|
  {
    hide Next;
    if steps != [] {
      var front := steps[..|steps| - 1];
      EffectsAreCounted(rowLocks, front, key);
      StepCountsEffects(Run(Start(rowLocks), front), steps[|steps| - 1], key, LateHits(Start(rowLocks), front, key));
    }
  }

  /** A handler takes effect at most once for a consumer and event exactly when no failure record has landed
      on its completed row, or only one has and the handler has not run again since. */
  lemma AtMostOnce(rowLocks: bool, steps: seq<Step>, key: Key)
    ensures
      var w, hits := Run(Start(rowLocks), steps), LateHits(Start(rowLocks), steps, key);
      w.ledger.effects[key] <= 1 <==> hits == 0 || (hits == 1 && !IsCompleted(w.ledger, key))
  {
    EffectsAreCounted(rowLocks, steps, key);
  }

  /** When a delivery's MarkPublished statement runs, every consumer subscribed to the event's type or
      to "*" when its Publish call began has exactly one committed handler effect. */
  lemma MarkedMeansDeliveredOnce(rowLocks: bool, steps: seq<Step>, d: Delivering, sub: Subscription)
    requires GuardedRun(Start(rowLocks), steps)
    requires PublishSucceeded(Run(Start(rowLocks), steps), d)
    ensures
      var w := Run(Start(rowLocks), steps);
      && d.id < |w.outbox.rows|
      && (sub in w.publishing[d].captured && (sub.eventType == "*" || sub.eventType == w.outbox.rows[d.id].eventType) ==>
            w.ledger.effects[Key(sub.consumerCode, w.outbox.rows[d.id].eventId)] == 1)
  {
    var w := Run(Start(rowLocks), steps);
    RunKeepsInv(Start(rowLocks), steps);
    var p := w.publishing[d];
    assert ProgressOk(w, d, p);
    if sub in p.captured && (sub.eventType == "*" || sub.eventType == w.outbox.rows[d.id].eventType) {
      var k :| 0 <= k < |p.matched| && p.matched[k] == sub;
      assert IsCompleted(w.ledger, Key(p.matched[k].consumerCode, w.outbox.rows[d.id].eventId));
    }
  }

  /** At every later moment, a published event still shows a delivery that reached all its consumers,
      each of them with exactly one effect, however many attempts failed or crashed on the way. */
  lemma PublishedMeansDeliveredOnce(rowLocks: bool, steps: seq<Step>, id: nat)
    requires GuardedRun(Start(rowLocks), steps)
    requires id < |Run(Start(rowLocks), steps).outbox.rows|
    requires Run(Start(rowLocks), steps).outbox.rows[id].status.Published?
    ensures
      var w := Run(Start(rowLocks), steps);
      exists token :: PublishSucceeded(w, Delivering(token, id))
        && forall sub :: sub in w.publishing[Delivering(token, id)].captured && (sub.eventType == "*" || sub.eventType == w.outbox.rows[id].eventType) ==>
             w.ledger.effects[Key(sub.consumerCode, w.outbox.rows[id].eventId)] == 1
  {
    var w := Run(Start(rowLocks), steps);
    RunKeepsInv(Start(rowLocks), steps);
    var token :| PublishSucceeded(w, Delivering(token, id));
    var d := Delivering(token, id);
    forall sub | sub in w.publishing[d].captured && (sub.eventType == "*" || sub.eventType == w.outbox.rows[id].eventType)
      ensures w.ledger.effects[Key(sub.consumerCode, w.outbox.rows[id].eventId)] == 1
    {
      MarkedMeansDeliveredOnce(rowLocks, steps, d, sub);
    }
  }

  lemma {:induction false} RunJoin(w: World, a: seq<Step>, b: seq<Step>)
    ensures Run(w, a + b) == Run(Run(w, a), b)
    decreases |b|
  {
    if b == [] {
      assert a + b == a;
    } else {
      var front := b[..|b| - 1];
      RunJoin(w, a, front);
      assert (a + b)[..|a + b| - 1] == a + front;
    }
  }

  lemma StepCaptures(w: World, step: Step, base: seq<Subscription>, d: Delivering)
    requires base <= w.subs
    requires d in w.publishing ==> base <= w.publishing[d].captured
    ensures base <= Next(w, step).subs
    ensures d in Next(w, step).publishing ==> base <= Next(w, step).publishing[d].captured
  {
    hide Matching, OP.Dispatching;
  }

  lemma {:induction false} LaterCaptures(w: World, steps: seq<Step>, d: Delivering)
    requires d !in w.publishing
    ensures w.subs <= Run(w, steps).subs
    ensures d in Run(w, steps).publishing ==> w.subs <= Run(w, steps).publishing[d].captured
    decreases |steps|
  {
    hide Next;
    if steps != [] {
      LaterCaptures(w, steps[..|steps| - 1], d);
      StepCaptures(Run(w, steps[..|steps| - 1]), steps[|steps| - 1], w.subs, d);
    }
  }

  /** Whoever is subscribed to the event's type or to "*" before a delivery begins has received the event, once,
      when that delivery may mark it published. */
  lemma SubscribedBeforeIsDelivered(rowLocks: bool, before: seq<Step>, after: seq<Step>, d: Delivering, sub: Subscription)
    requires GuardedRun(Start(rowLocks), before + after)
    requires d !in Run(Start(rowLocks), before).publishing && sub in Run(Start(rowLocks), before).subs
    requires PublishSucceeded(Run(Start(rowLocks), before + after), d)
    ensures
      var w := Run(Start(rowLocks), before + after);
      && d.id < |w.outbox.rows|
      && (sub.eventType == "*" || sub.eventType == w.outbox.rows[d.id].eventType ==>
            w.ledger.effects[Key(sub.consumerCode, w.outbox.rows[d.id].eventId)] == 1)
  {
    hide Inv, Next;
    RunJoin(Start(rowLocks), before, after);
    LaterCaptures(Run(Start(rowLocks), before), after, d);
    MarkedMeansDeliveredOnce(rowLocks, before + after, d, sub);
  }

  // ----- why the failure record has to stay with its call -----

  /** A failure record keeps the table and the effects in agreement exactly when the row it meets is
      not completed; on a completed row it makes the next call run the handler again. */
  lemma FailureRecordIsUnguarded(l: Ledger, key: Key, now: int, message: string)
    requires LedgerOk(l)
    ensures LedgerOk(RecordFailure(l, key, now, message)) <==> !IsCompleted(l, key)
    ensures IsCompleted(l, key) ==>
      Consume(RecordFailure(l, key, now, message), key, now, Succeeds).effects[key] == 2
  {
    var l' := RecordFailure(l, key, now, message);
    assert !IsCompleted(l', key);
    if IsCompleted(l, key) {
      assert l'.effects[key] == 1;
    }
  }
}
