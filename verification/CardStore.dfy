/** The session-card store call by call, and its lazy expiry. */
module CardStore {
  import opened Wrappers
  import opened Transactions
  import opened Numbering
  import opened LazyExpiry
  import opened SessionCards

  datatype Store = Store(rows: Rows, books: Books)

  /** A holder of 0 lists every holder. */
  datatype Call =
    | DoConsume(use: Use)
    | DoIssue(templateId: nat, tenantId: nat, holders: seq<nat>, firstId: nat, now: int)
    | DoList(tenantId: nat, holderId: nat, status: Option<Status>, now: int)
    | DoSweep(tenantId: nat, now: int)

  datatype Outcome =
    | Consumed(consumed: Result<int, Error>)
    | Issued(issued: Result<nat, Error>)
    | Listed(cards: Rows)
    | Quiet

  // ----- one call at a time -----

  function SweptRow(card: Card, tenantId: nat, now: int): Card {
    if Stale(card, tenantId, now) then card.(status := Expired) else card
  }

  function Swept(rows: Rows, tenantId: nat, now: int): Rows {
    map id | id in rows :: SweptRow(rows[id], tenantId, now)
  }

  predicate Wanted(card: Card, tenantId: nat, holderId: nat, status: Option<Status>) {
    card.tenantId == tenantId && (holderId > 0 ==> card.holderId == holderId)
    && (status.Some? ==> card.status == status.value)
  }

  function Listing(rows: Rows, tenantId: nat, holderId: nat, status: Option<Status>): Rows {
    map id | id in rows && Wanted(rows[id], tenantId, holderId, status) :: rows[id]
  }

  function ConsumeResult(rows: Rows, u: Use): Result<int, Error> {
    var seen := Find(rows, u.cardId);
    match Refusal(seen, u)
    case Some(error) => Failure(error)
    case None => if seen.value.remaining <= 0 then Failure(CardNotAvailable) else Success(Reported(seen.value))
  }

  function IssueResult(templates: map<nat, Template>, templateId: nat, tenantId: nat, n: nat): Result<nat, Error> {
    match IssueRefusal(templates, templateId, tenantId, n)
    case Some(error) => Failure(error)
    case None => Success(n)
  }

  /** The state a call leaves, and what it returns. */
  function Do(s: Store, call: Call): (Store, Outcome) {
    match call
    case DoConsume(u) =>
      var after := Apply(CardRules(), s.rows, s.books, Committed(Consume(u), Find(s.rows, u.cardId)));
      (Store(after.0, after.1), Consumed(ConsumeResult(s.rows, u)))
    case DoIssue(id, tenantId, holders, firstId, now) =>
      var after := Apply(CardRules(), s.rows, s.books, Done(Issue(id, tenantId, holders, firstId, now)));
      (Store(after.0, after.1), Issued(IssueResult(s.books.templates, id, tenantId, |holders|)))
    case DoList(tenantId, holderId, status, now) =>
      var rows := Swept(s.rows, tenantId, now);
      (s.(rows := rows), Listed(Listing(rows, tenantId, holderId, status)))
    case DoSweep(tenantId, now) => (s.(rows := Swept(s.rows, tenantId, now)), Quiet)
  }

  function Time(call: Call): int {
    match call
    case DoConsume(u) => u.now
    case _ => call.now
  }

  function CardMachine(): Machine<Store, Call, Outcome> {
    Machine((s: Store, call: Call) => Do(s, call), (call: Call) => call.DoSweep?, (call: Call) => Time(call))
  }

  // ----- the status computed from use and validity -----

  function Shown(card: Card, now: int): Card {
    card.(status := if card.remaining <= 0 then Exhausted else if card.validUntil < now then Expired else Active)
  }

  /** When calls do not interleave, exhausted means run out, and expired means out of date with uses left. */
  predicate HonestRow(card: Card, now: int) {
    && (card.status.Exhausted? <==> card.remaining <= 0)
    && (card.status.Expired? ==> card.validUntil < now)
  }

  ghost predicate Honest(rows: Rows, now: int) {
    forall id :: id in rows ==> HonestRow(rows[id], now)
  }

  /** Templates hand out at least one use. */
  predicate FullTemplates(books: Books) {
    forall t :: t in books.templates ==> books.templates[t].totalTimes >= 1
  }

  /** Two stores that differ only in which out-of-date cards have been swept. */
  ghost predicate Alike(a: Store, b: Store, now: int) {
    && a.books == b.books && FullTemplates(a.books) && a.rows.Keys == b.rows.Keys
    && Honest(a.rows, now) && Honest(b.rows, now)
    && (forall id :: id in a.rows ==> Shown(a.rows[id], now) == Shown(b.rows[id], now))
  }

  lemma LaterAlike(a: Store, b: Store, now: int, later: int)
    requires Alike(a, b, now) && now <= later
    ensures Alike(a, b, later)
  {
    forall id | id in a.rows
      ensures HonestRow(a.rows[id], later) && HonestRow(b.rows[id], later)
      ensures Shown(a.rows[id], later) == Shown(b.rows[id], later)
    {
      assert HonestRow(a.rows[id], now) && HonestRow(b.rows[id], now);
      assert Shown(a.rows[id], now) == Shown(b.rows[id], now);
    }
  }

  lemma SweptAlike(a: Store, b: Store, tenantId: nat, now: int)
    requires Alike(a, b, now)
    ensures Alike(a.(rows := Swept(a.rows, tenantId, now)), b, now)
  {
  }

  lemma SweepIsInvisible(a: Store, b: Store, call: Call)
    requires call.DoSweep? && Alike(a, b, call.now)
    ensures Alike(Do(a, call).0, b, call.now)
  {
    SweptAlike(a, b, call.tenantId, call.now);
  }

  lemma AlikeIsSymmetric(a: Store, b: Store, now: int)
    requires Alike(a, b, now)
    ensures Alike(b, a, now)
  {
  }

  /** A listing shows a card of the tenant under the computed status exactly when the card is honest; when all
      are, it is the listing of the computed ones, swept or not. */
  lemma ListingShowsComputedStatus(s: Store, tenantId: nat, holderId: nat, status: Option<Status>, now: int)
    ensures forall id :: id in s.rows && s.rows[id].tenantId == tenantId ==>
      && id in Do(s, DoList(tenantId, 0, None, now)).1.cards
      && (Do(s, DoList(tenantId, 0, None, now)).1.cards[id] == Shown(s.rows[id], now) <==> HonestRow(s.rows[id], now))
    ensures Honest(s.rows, now) ==>
      Do(s, DoList(tenantId, holderId, status, now)).1
      == Listed(map id | id in s.rows && Wanted(Shown(s.rows[id], now), tenantId, holderId, status) :: Shown(s.rows[id], now))
  {
    var rows := Swept(s.rows, tenantId, now);
    forall id | id in s.rows && s.rows[id].tenantId == tenantId
      ensures rows[id] == Shown(s.rows[id], now) <==> HonestRow(s.rows[id], now)
    {
      ShownIffHonest(s.rows[id], now);
    }
    if Honest(s.rows, now) {
      HonestListing(s, tenantId, holderId, status, now);
    }
  }

  lemma ShownIffHonest(card: Card, now: int)
    ensures SweptRow(card, card.tenantId, now) == Shown(card, now) <==> HonestRow(card, now)
  {
  }

  lemma HonestListing(s: Store, tenantId: nat, holderId: nat, status: Option<Status>, now: int)
    requires Honest(s.rows, now)
    ensures Do(s, DoList(tenantId, holderId, status, now)).1 ==
      Listed(map id | id in s.rows && Wanted(Shown(s.rows[id], now), tenantId, holderId, status) :: Shown(s.rows[id], now))
  {
    var rows := Swept(s.rows, tenantId, now);
    forall id | id in s.rows && s.rows[id].tenantId == tenantId
      ensures rows[id] == Shown(s.rows[id], now)
    {
      assert HonestRow(s.rows[id], now);
    }
  }

  /** A use succeeds exactly for the cards that a listing made at the same moment shows as active, when the
      holder and the shop are right, and takes one use. */
  lemma UsableIffListed(s: Store, u: Use)
    requires Honest(s.rows, u.now)
    ensures
      var listed := Do(s, DoList(u.tenantId, 0, Some(Active), u.now)).1.cards;
      Do(s, DoConsume(u)).1.consumed.Success? <==>
        && u.cardId in listed
        && listed[u.cardId].holderId == u.holderId
        && (listed[u.cardId].shopId > 0 ==> listed[u.cardId].shopId == u.shopId)
    ensures Do(s, DoConsume(u)).1.consumed.Success? ==>
      var before, after := s.rows[u.cardId], Do(s, DoConsume(u)).0.rows[u.cardId];
      && Do(s, DoConsume(u)).1.consumed.value == after.remaining == before.remaining - 1
      && after.used == before.used + 1
      && (after.status.Exhausted? <==> after.remaining == 0) && (after.status.Active? <==> after.remaining > 0)
    ensures Do(s, DoConsume(u)).1.consumed.Failure? ==> Do(s, DoConsume(u)).0 == s
  {
    HonestListing(s, u.tenantId, 0, Some(Active), u.now);
    if u.cardId in s.rows {
      assert HonestRow(s.rows[u.cardId], u.now);
    }
  }

  lemma ListsAlike(a: Store, b: Store, tenantId: nat, holderId: nat, status: Option<Status>, now: int)
    requires Alike(a, b, now)
    ensures
      var call := DoList(tenantId, holderId, status, now);
      Do(a, call).1 == Do(b, call).1 && Alike(Do(a, call).0, Do(b, call).0, now)
  {
    HonestListing(a, tenantId, holderId, status, now);
    HonestListing(b, tenantId, holderId, status, now);
    var call := DoList(tenantId, holderId, status, now);
    SweptAlike(a, b, tenantId, now);
    AlikeIsSymmetric(Do(a, call).0, b, now);
    SweptAlike(b, Do(a, call).0, tenantId, now);
    AlikeIsSymmetric(Do(b, call).0, Do(a, call).0, now);
    assert Listed(Do(a, call).1.cards) == Listed(Do(b, call).1.cards) by {
      assert Do(a, call).1.cards.Keys == Do(b, call).1.cards.Keys;
    }
  }

  lemma RefusedAlike(x: Card, y: Card, u: Use)
    requires Shown(x, u.now) == Shown(y, u.now) && HonestRow(x, u.now) && HonestRow(y, u.now)
    ensures Refusal(Some(x), u) == Refusal(Some(y), u)
    ensures Refusal(Some(x), u).None? ==> x == y && x.remaining > 0
  {
  }

  lemma AfterUseHonest(card: Card, now: int)
    requires HonestRow(card, now) && card.remaining > 0
    ensures card.status.Active? ==> HonestRow(AfterUse(card), now)
  {
  }

  lemma ConsumesAlike(a: Store, b: Store, u: Use)
    requires Alike(a, b, u.now)
    ensures Do(a, DoConsume(u)).1 == Do(b, DoConsume(u)).1
    ensures Alike(Do(a, DoConsume(u)).0, Do(b, DoConsume(u)).0, u.now)
  {
    hide Shown;
    var id := u.cardId;
    if id in a.rows {
      RefusedAlike(a.rows[id], b.rows[id], u);
      SameOwner(a.rows[id], b.rows[id], u.now);
      if Refusal(Some(a.rows[id]), u).None? {
        AfterUseHonest(a.rows[id], u.now);
      }
    }
  }

  lemma SameOwner(x: Card, y: Card, now: int)
    requires Shown(x, now) == Shown(y, now)
    ensures x.tenantId == y.tenantId && x.holderId == y.holderId
  {
  }

  lemma AddedAlike(a: Store, b: Store, added: Rows, books: Books, now: int)
    requires Alike(a, b, now) && FullTemplates(books)
    requires forall id :: id in added ==> added[id].status.Active? && added[id].remaining > 0
    ensures Alike(Store(a.rows + added, books), Store(b.rows + added, books), now)
  {
    hide Shown;
  }

  /** What an issue adds depends on the template alone. */
  lemma IssueIgnoresRows(op: Op, x: Rows, y: Rows, books: Books, added: Rows)
    requires op.Issue? && FullTemplates(books) && added == AtOnce(op, x, books).0
    ensures AtOnce(op, x, books) == AtOnce(op, y, books) && FullTemplates(AtOnce(op, x, books).1)
    ensures forall id :: id in added ==> added[id].status.Active? && added[id].remaining > 0
  {
    hide Numbered, NewCards;
    if IssueRefusal(books.templates, op.templateId, op.tenantId, |op.holders|).None? {
      NewRows(books.templates[op.templateId], op.templateId, op.holders, op.firstId, op.now, added);
    }
  }

  lemma IssuesAlike(a: Store, b: Store, call: Call)
    requires call.DoIssue? && Alike(a, b, call.now)
    ensures Do(a, call).1 == Do(b, call).1 && Alike(Do(a, call).0, Do(b, call).0, call.now)
  {
    hide AtOnce, Shown, FullTemplates;
    var op := Issue(call.templateId, call.tenantId, call.holders, call.firstId, call.now);
    var (added, books) := AtOnce(op, a.rows, a.books);
    IssueIgnoresRows(op, a.rows, b.rows, a.books, added);
    AddedAlike(a, b, added, books, call.now);
  }

  lemma CallsAlike(a: Store, b: Store, call: Call)
    requires Alike(a, b, Time(call)) && !call.DoSweep?
    ensures Do(a, call).1 == Do(b, call).1 && Alike(Do(a, call).0, Do(b, call).0, Time(call))
  {
    hide Alike, Do;
    match call
    case DoConsume(u) => ConsumesAlike(a, b, u);
    case DoIssue(_, _, _, _, _) => IssuesAlike(a, b, call);
    case DoList(tenantId, holderId, status, now) => ListsAlike(a, b, tenantId, holderId, status, now);
  }

  ghost function AlikeAt(): (Store, Store, int) -> bool {
    (a: Store, b: Store, now: int) => Alike(a, b, now)
  }

  lemma ToleratesSweeps()
    ensures Tolerates(CardMachine(), AlikeAt())
  {
    hide Alike, Do;
    forall a, b, t, u | AlikeAt()(a, b, t) && t <= u
      ensures AlikeAt()(a, b, u)
    {
      LaterAlike(a, b, t, u);
    }
    var m := CardMachine();
    forall a, b, call: Call | AlikeAt()(a, b, m.time(call)) && m.isSweep(call)
      ensures AlikeAt()(m.call(a, call).0, b, m.time(call))
    {
      SweepIsInvisible(a, b, call);
    }
    forall a, b, call: Call | AlikeAt()(a, b, m.time(call)) && !m.isSweep(call)
      ensures m.call(a, call).1 == m.call(b, call).1 && AlikeAt()(m.call(a, call).0, m.call(b, call).0, m.time(call))
    {
      CallsAlike(a, b, call);
    }
  }

  /** Under a clock that never runs back, two call sequences that differ only in their sweeps give every
      caller the same answers. */
  lemma SweepsAreInvisible(s: Store, calls: seq<Call>, others: seq<Call>, from: int)
    requires Honest(s.rows, from) && FullTemplates(s.books)
    requires Ascending(CardMachine(), calls, from) && Ascending(CardMachine(), others, from)
    requires WithoutSweeps(CardMachine(), calls) == WithoutSweeps(CardMachine(), others)
    ensures Outcomes(CardMachine(), s, calls) == Outcomes(CardMachine(), s, others)
  {
    hide Ascending, WithoutSweeps, Outcomes, Tolerates;
    ToleratesSweeps();
    SameAnswers(CardMachine(), AlikeAt(), s, calls, others, from);
  }

  // ----- the cards that interleaving leaves behind -----

  /** No sweep of the run is later than `now`. */
  ghost predicate SweptBy(steps: seq<Step<Op>>, now: int) {
    forall i :: 0 <= i < |steps| && (steps[i].Begin? || steps[i].Direct?) && steps[i].op.Expire? ==> steps[i].op.now <= now
  }

  ghost predicate ExpiredInTime(rows: Rows, now: int) {
    forall id :: id in rows && rows[id].status.Expired? ==> rows[id].validUntil < now
  }

  lemma ApplyKeepsExpired(rows: Rows, books: Books, e: Effect<Op, Card>, now: int)
    requires ExpiredInTime(rows, now) && FullTemplates(books) && (e.op.Expire? ==> e.op.now <= now)
    ensures
      var after := Apply(CardRules(), rows, books, e);
      ExpiredInTime(after.0, now) && FullTemplates(after.1)
  {
    hide Numbered, NewCards;
    match e
    case Committed(op, seen) =>
    case Done(op) =>
      if op.Issue? && IssueRefusal(books.templates, op.templateId, op.tenantId, |op.holders|).None? {
        NewRows(books.templates[op.templateId], op.templateId, op.holders, op.firstId, op.now, AtOnce(op, rows, books).0);
      }
  }

  lemma {:induction false} SerialKeepsExpired(rows: Rows, books: Books, es: seq<Effect<Op, Card>>, now: int)
    requires ExpiredInTime(rows, now) && FullTemplates(books)
    requires forall e :: e in es && e.op.Expire? ==> e.op.now <= now
    ensures
      var after := Serial(CardRules(), rows, books, es);
      ExpiredInTime(after.0, now) && FullTemplates(after.1)
    decreases |es|
  {
    hide Apply, ExpiredInTime, FullTemplates;
    if es != [] {
      var before := Serial(CardRules(), rows, books, es[..|es| - 1]);
      SerialKeepsExpired(rows, books, es[..|es| - 1], now);
      assert es[|es| - 1] in es;
      ApplyKeepsExpired(before.0, before.1, es[|es| - 1], now);
    }
  }

  /** After any interleaved run whose clocks have not passed `now`, a listing shows each card's computed status,
      with one exception: a card used up by a call that overlapped its expiry is listed as expired. */
  lemma InterleavedListing(steps: seq<Step<Op>>, id: nat, now: int)
    requires SweptBy(steps, now) && id in Run(CardRules(), Start, steps).rows
    ensures
      var s := Run(CardRules(), Start, steps);
      var card := s.rows[id];
      var listed := Do(Store(s.rows, s.side), DoList(card.tenantId, 0, None, now)).1.cards;
      && id in listed
      && listed[id] == (if card.status.Expired? && card.remaining == 0 then card else Shown(card, now))
      && (HonestRow(card, now) <==> !(card.status.Expired? && card.remaining == 0))
  {
    hide Run, Serial, Effects;
    var s := Run(CardRules(), Start, steps);
    StartIsOk();
    RunIsSerial(CardRules(), Start, steps);
    var es := Effects(CardRules(), Start, steps);
    forall e | e in es && e.op.Expire?
      ensures e.op.now <= now
    {
      EffectsAreNamed(CardRules(), Start, steps, e);
    }
    SerialKeepsExpired(Start.rows, Start.side, es, now);
    CardsAreCounted(steps, id);
  }

  /** Calls that run one after another keep a store honest that starts without cards. */
  lemma HonestAlways(books: Books, calls: seq<Call>, from: int)
    requires Ascending(CardMachine(), calls, from) && FullTemplates(books)
    ensures Honest(Final(CardMachine(), Store(map[], books), calls).rows, LastTime(CardMachine(), calls, from))
  {
    hide Final, Ascending, LastTime, Tolerates;
    ToleratesSweeps();
    forall a, b, t | AlikeAt()(a, b, t)
      ensures AlikeAt()(b, a, t)
    {
      AlikeIsSymmetric(a, b, t);
    }
    StaysAlike(CardMachine(), AlikeAt(), Store(map[], books), calls, from);
  }

  // ----- issuing -----

  lemma IssueKeepsCounters(s: Store, call: Call)
    requires call.DoIssue? && Inv(s.rows, s.books)
    ensures Inv(Do(s, call).0.rows, Do(s, call).0.books)
  {
    hide Inv, Apply;
    ApplyKeepsInv(s.rows, s.books, Done(Issue(call.templateId, call.tenantId, call.holders, call.firstId, call.now)));
  }

  /** The store after an issue whose ids are new. */
  function IssuedStore(s: Store, call: Call): Store
    requires call.DoIssue?
  {
    if IssueRefusal(s.books.templates, call.templateId, call.tenantId, |call.holders|).Some? then s
    else
      var t := s.books.templates[call.templateId];
      Store(Grown(s.rows, NewCards(t, call.templateId, call.holders, call.now), call.firstId),
            s.books.(templates := s.books.templates[call.templateId := t.(issuedCount := t.issuedCount + |call.holders|)]))
  }

  lemma IssueOutcome(s: Store, call: Call)
    requires call.DoIssue? && forall id :: id in s.rows ==> id < call.firstId
    ensures Do(s, call) ==
      (IssuedStore(s, call), Issued(IssueResult(s.books.templates, call.templateId, call.tenantId, |call.holders|)))
  {
    hide Apply, Numbered, NewCards, IssueResult;
    var op := Issue(call.templateId, call.tenantId, call.holders, call.firstId, call.now);
    var (added, books) := AtOnce(op, s.rows, s.books);
    if IssueRefusal(s.books.templates, call.templateId, call.tenantId, |call.holders|).None? {
      GrownIds(s.rows, NewCards(s.books.templates[call.templateId], call.templateId, call.holders, call.now), call.firstId);
    }
    DoneAdds(CardRules(), s.rows, s.books, op, added, books);
    NothingAdded(s.rows);
  }

  // ----- the store as it runs -----

  class GormStore {
    var rows: Rows
    var books: Books
    var nextId: nat

    ghost predicate Valid()
      reads this
    {
      Inv(rows, books) && forall id :: id in rows ==> id < nextId
    }

    ghost function State(): Store
      reads this
    {
      Store(rows, books)
    }

    constructor ()
      ensures Valid() && rows == map[] && books == Books(map[], [])
    {
      rows, books, nextId := map[], Books(map[], []), 1;
    }

    method CreateCards(template: Template, templateId: nat, holders: seq<nat>, now: int) returns (issued: nat)
      modifies this`rows, this`nextId
      ensures issued == |holders| && nextId == old(nextId) + |holders|
      ensures rows == Grown(old(rows), NewCards(template, templateId, holders, now), old(nextId))
    {
      hide NewCard, Grown;
      ghost var before, firstId, cards := rows, nextId, NewCards(template, templateId, holders, now);
      issued := 0;
      GrownStart(before, cards, firstId);
      while issued < |holders|
        invariant 0 <= issued <= |holders| && nextId == firstId + issued
        invariant rows == Grown(before, cards[..issued], firstId)
      {
        GrownStep(before, cards, issued, firstId);
        rows := rows[nextId := NewCard(template, templateId, holders[issued], now)];
        nextId := nextId + 1;
        issued := issued + 1;
      }
      assert cards[..|holders|] == cards;
    }

    /** All cards and the counter together, or nothing. */
    method IssueCards(tenantId: nat, templateId: nat, holders: seq<nat>, now: int) returns (result: Result<nat, Error>)
      requires Valid()
      modifies this
      ensures Valid()
      ensures (State(), Issued(result)) == Do(old(State()), DoIssue(templateId, tenantId, holders, old(nextId), now))
      ensures nextId == old(nextId) + if result.Success? then |holders| else 0
    {
      hide Do, Grown, Inv;
      ghost var call := DoIssue(templateId, tenantId, holders, nextId, now);
      IssueKeepsCounters(State(), call);
      IssueOutcome(State(), call);
      if templateId !in books.templates || books.templates[templateId].tenantId != tenantId {
        return Failure(TemplateNotFound);
      }
      var template := books.templates[templateId];
      if !template.enabled {
        return Failure(TemplateDisabled);
      }
      if template.totalCount > 0 && template.issuedCount + |holders| > template.totalCount {
        return Failure(IssueLimit);
      }
      GrownIds(rows, NewCards(template, templateId, holders, now), nextId);
      var issued := CreateCards(template, templateId, holders, now);
      books := books.(templates := books.templates[templateId := template.(issuedCount := template.issuedCount + |holders|)]);
      result := Success(issued);
    }

    method ExpireStaleCards(tenantId: nat, now: int)
      requires Valid()
      modifies this`rows
      ensures Valid()
      ensures State() == Do(old(State()), DoSweep(tenantId, now)).0
    {
      hide Inv;
      ghost var before := rows;
      var ids := rows.Keys;
      while ids != {}
        invariant ids <= before.Keys == rows.Keys
        invariant Inv(rows, books)
        invariant forall id :: id in before ==> rows[id] == if id in ids then before[id] else Swept(before, tenantId, now)[id]
        decreases |ids|
      {
        var id :| id in ids;
        if Stale(rows[id], tenantId, now) {
          UpdateKeepsInv(rows, books, Expire(id, tenantId, now), None);
          rows := rows[id := rows[id].(status := Expired)];
        }
        ids := ids - {id};
      }
      assert rows == Swept(before, tenantId, now);
    }

    method ListCards(tenantId: nat, holderId: nat, status: Option<Status>, now: int) returns (cards: Rows)
      requires Valid()
      modifies this`rows
      ensures Valid()
      ensures (State(), Listed(cards)) == Do(old(State()), DoList(tenantId, holderId, status, now))
    {
      ExpireStaleCards(tenantId, now);
      cards := Listing(rows, tenantId, holderId, status);
    }

    /** Run alone, the number returned is the card's true remainder. */
    method ConsumeCard(u: Use) returns (result: Result<int, Error>)
      requires Valid()
      modifies this
      ensures Valid() && nextId == old(nextId)
      ensures (State(), Consumed(result)) == Do(old(State()), DoConsume(u))
      ensures result.Success? ==> u.cardId in rows && result.value == rows[u.cardId].remaining
    {
      if u.cardId !in rows || rows[u.cardId].tenantId != u.tenantId {
        return Failure(CardNotFound);
      }
      var card := rows[u.cardId];
      if card.holderId != u.holderId || !card.status.Active? {
        return Failure(CardNotAvailable);
      }
      if card.validUntil < u.now {
        return Failure(CardNotAvailable);
      }
      if card.shopId > 0 && card.shopId != u.shopId {
        return Failure(CardShopMismatch);
      }
      ghost var before := rows;
      if rows[u.cardId].remaining <= 0 {
        return Failure(CardNotAvailable);
      }
      UpdateKeepsInv(rows, books, Consume(u), Find(rows, u.cardId));
      rows := rows[u.cardId := rows[u.cardId].(remaining := rows[u.cardId].remaining - 1, used := rows[u.cardId].used + 1)];
      if rows[u.cardId].remaining == 0 && rows[u.cardId].status.Active? {
        rows := rows[u.cardId := rows[u.cardId].(status := Exhausted)];
      }
      books := books.(logs := books.logs + [LogOf(u)]);
      result := Success(card.remaining - 1);
      assert rows == before[u.cardId := AfterUse(before[u.cardId])];
    }
  }
}
