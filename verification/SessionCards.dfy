/** Session cards: consumption as interleaved transactions, with counters, log and status in step. */
module SessionCards {
  import opened Wrappers
  import opened Transactions
  import opened Numbering
  import Calendar
  import Wallet

  datatype Template = Template(
    tenantId: nat, shopId: nat, name: string, totalTimes: int, validDays: nat, totalCount: int,
    enabled: bool, issuedCount: int)

  datatype Status = Active | Exhausted | Expired

  /** A shop of 0 means the card is good at every shop. */
  datatype Card = Card(
    tenantId: nat, templateId: nat, holderId: nat, shopId: nat, name: string,
    total: int, remaining: int, used: int, status: Status, validUntil: int)

  datatype Log = Log(tenantId: nat, cardId: nat, holderId: nat, shopId: nat, ref: Wallet.Ref)

  datatype Books = Books(templates: map<nat, Template>, logs: seq<Log>)

  datatype Error =
    TemplateNotFound | TemplateDisabled | IssueLimit | CardNotFound | CardNotAvailable | CardShopMismatch

  datatype Use = Use(cardId: nat, tenantId: nat, holderId: nat, shopId: nat, ref: Wallet.Ref, now: int)

  datatype Op =
    | Consume(use: Use)
    | Expire(cardId: nat, tenantId: nat, now: int)
    | Issue(templateId: nat, tenantId: nat, holders: seq<nat>, firstId: nat, now: int)
    | CreateTemplate(templateId: nat, template: Template)
    | UpdateTemplate(templateId: nat, tenantId: nat, template: Template)

  const MAX_TOTAL_TIMES: int := 1000

  type Rows = map<nat, Card>

  // ----- consuming -----

  /** The check on the card as read. */
  function Refusal(seen: Option<Card>, u: Use): Option<Error> {
    if seen.None? || seen.value.tenantId != u.tenantId then Some(CardNotFound)
    else
      var card := seen.value;
      if card.holderId != u.holderId || !card.status.Active? || card.validUntil < u.now then Some(CardNotAvailable)
      else if card.shopId > 0 && card.shopId != u.shopId then Some(CardShopMismatch)
      else None
  }

  /** One use less; an active card that has run out is marked exhausted. */
  function AfterUse(card: Card): Card {
    var counted := card.(remaining := card.remaining - 1, used := card.used + 1);
    if counted.remaining == 0 && counted.status.Active? then counted.(status := Exhausted) else counted
  }

  predicate Stale(card: Card, tenantId: nat, now: int) {
    card.tenantId == tenantId && card.status.Active? && card.validUntil < now
  }

  /** The guarded update looks only at the remaining uses; it does not look at the status again. */
  function Updated(op: Op, seen: Option<Card>, current: Option<Card>): Option<Card> {
    match op
    case Consume(u) =>
      if Refusal(seen, u).Some? || current.None? || current.value.remaining <= 0 then None
      else Some(AfterUse(current.value))
    case Expire(_, tenantId, now) =>
      if current.Some? && Stale(current.value, tenantId, now) then Some(current.value.(status := Expired)) else None
    case _ => None
  }

  function LogOf(u: Use): Log {
    Log(u.tenantId, u.cardId, u.holderId, u.shopId, u.ref)
  }

  function Logged(op: Op, books: Books): Books {
    if op.Consume? then books.(logs := books.logs + [LogOf(op.use)]) else books
  }

  // ----- issuing and templates -----

  function IssueRefusal(templates: map<nat, Template>, templateId: nat, tenantId: nat, n: nat): Option<Error> {
    if templateId !in templates || templates[templateId].tenantId != tenantId then Some(TemplateNotFound)
    else
      var t := templates[templateId];
      if !t.enabled then Some(TemplateDisabled)
      else if t.totalCount > 0 && t.issuedCount + n > t.totalCount then Some(IssueLimit)
      else None
  }

  function NewCard(t: Template, templateId: nat, holder: nat, now: int): Card {
    Card(t.tenantId, templateId, holder, t.shopId, t.name, t.totalTimes, t.totalTimes, 0, Active,
         now + t.validDays * Calendar.DAY)
  }

  function NewCards(t: Template, templateId: nat, holders: seq<nat>, now: int): seq<Card> {
    seq(|holders|, i requires 0 <= i < |holders| => NewCard(t, templateId, holders[i], now))
  }

  predicate ValidTimes(t: Template) {
    1 <= t.totalTimes <= MAX_TOTAL_TIMES
  }

  /** Templates allow between one and a thousand uses; an update keeps the issue counter. */
  function AtOnce(op: Op, rows: Rows, books: Books): (Rows, Books) {
    match op
    case Issue(id, tenantId, holders, firstId, now) =>
      if IssueRefusal(books.templates, id, tenantId, |holders|).Some? then (map[], books)
      else
        var t := books.templates[id];
        (Numbered(NewCards(t, id, holders, now), firstId),
         books.(templates := books.templates[id := t.(issuedCount := t.issuedCount + |holders|)]))
    case CreateTemplate(id, t) =>
      if !ValidTimes(t) || id in books.templates then (map[], books)
      else (map[], books.(templates := books.templates[id := t.(issuedCount := 0, enabled := true)]))
    case UpdateTemplate(id, tenantId, t) =>
      if !ValidTimes(t) || id !in books.templates || books.templates[id].tenantId != tenantId then (map[], books)
      else
        var kept := books.templates[id];
        (map[], books.(templates := books.templates[id := t.(tenantId := tenantId, issuedCount := kept.issuedCount)]))
    case _ => (map[], books)
  }

  function KeyOf(op: Op): nat {
    match op
    case Consume(u) => u.cardId
    case Expire(id, _, _) => id
    case _ => 0
  }

  function CardRules(): Rules<nat, Op, Card, Books> {
    Rules((op: Op) => KeyOf(op),
          (op: Op, seen: Option<Card>, current: Option<Card>) => Updated(op, seen, current),
          (op: Op, seen: Option<Card>, row: Card, books: Books) => Logged(op, books),
          (op: Op, rows: Rows, books: Books) => AtOnce(op, rows, books))
  }

  // ----- counters, log and status in step -----

  function LogCount(logs: seq<Log>, cardId: nat): nat {
    if logs == [] then 0
    else LogCount(logs[..|logs| - 1], cardId) + if logs[|logs| - 1].cardId == cardId then 1 else 0
  }

  lemma LogCountAppend(logs: seq<Log>, log: Log, cardId: nat)
    ensures LogCount(logs + [log], cardId) == LogCount(logs, cardId) + if log.cardId == cardId then 1 else 0
  {
    assert (logs + [log])[..|logs|] == logs;
  }

  predicate CardOk(card: Card) {
    && card.remaining + card.used == card.total && card.remaining >= 0 && card.used >= 0
    && (card.status.Active? ==> card.remaining > 0)
    && (card.status.Exhausted? ==> card.remaining == 0)
  }

  predicate InStep(rows: Rows, logs: seq<Log>, id: nat) {
    if id in rows then CardOk(rows[id]) && rows[id].used == LogCount(logs, id) else LogCount(logs, id) == 0
  }

  ghost predicate Inv(rows: Rows, books: Books) {
    && (forall id :: InStep(rows, books.logs, id))
    && (forall t :: t in books.templates ==> books.templates[t].totalTimes >= 1)
  }

  lemma UpdateKeepsInv(rows: Rows, books: Books, op: Op, seen: Option<Card>)
    requires Inv(rows, books) && Updated(op, seen, Find(rows, KeyOf(op))).Some?
    ensures Inv(rows[KeyOf(op) := Updated(op, seen, Find(rows, KeyOf(op))).value], Logged(op, books))
  {
    hide LogCount;
    var rows' := rows[KeyOf(op) := Updated(op, seen, Find(rows, KeyOf(op))).value];
    var logs' := Logged(op, books).logs;
    forall id: nat
      ensures InStep(rows', logs', id)
    {
      assert InStep(rows, books.logs, id);
      if op.Consume? {
        LogCountAppend(books.logs, LogOf(op.use), id);
      }
    }
  }

  lemma NewRows(t: Template, id: nat, holders: seq<nat>, firstId: nat, now: int, added: Rows)
    requires t.totalTimes >= 1 && added == Numbered(NewCards(t, id, holders, now), firstId)
    ensures forall c :: c in added ==> CardOk(added[c]) && added[c].used == 0 && added[c].status.Active?
  {
    hide Numbered;
    forall c | c in added
      ensures CardOk(added[c]) && added[c].used == 0 && added[c].status.Active?
    {
      NumberedRows(NewCards(t, id, holders, now), firstId, c);
    }
  }

  lemma AddedKeepInStep(rows: Rows, added: Rows, logs: seq<Log>, id: nat)
    requires added.Keys !! rows.Keys && InStep(rows, logs, id)
    requires forall c :: c in added ==> CardOk(added[c]) && added[c].used == 0
    ensures InStep(rows + added, logs, id)
  {
    hide LogCount, CardOk;
  }

  /** Whatever is added is fresh and full. */
  lemma AddedAreFresh(rows: Rows, books: Books, op: Op)
    requires Inv(rows, books)
    ensures
      var added := AtOnce(op, rows, books).0;
      forall c :: c in added ==> CardOk(added[c]) && added[c].used == 0
    ensures AtOnce(op, rows, books).1.logs == books.logs
  {
    hide Numbered, NewCards, CardOk, InStep;
    if op.Issue? && IssueRefusal(books.templates, op.templateId, op.tenantId, |op.holders|).None? {
      var t := books.templates[op.templateId];
      NewRows(t, op.templateId, op.holders, op.firstId, op.now, AtOnce(op, rows, books).0);
    }
  }

  lemma AtOnceKeepsInv(rows: Rows, books: Books, op: Op)
    requires Inv(rows, books) && AtOnce(op, rows, books).0.Keys !! rows.Keys
    ensures Inv(rows + AtOnce(op, rows, books).0, AtOnce(op, rows, books).1)
  {
    hide Numbered, NewCards, InStep;
    var (added, books') := AtOnce(op, rows, books);
    var rows' := rows + added;
    AddedAreFresh(rows, books, op);
    forall id: nat
      ensures InStep(rows', books'.logs, id)
    {
      assert InStep(rows, books.logs, id);
      AddedKeepInStep(rows, added, books.logs, id);
    }
  }

  lemma ApplyKeepsInv(rows: Rows, books: Books, e: Effect<Op, Card>)
    requires Inv(rows, books)
    ensures
      var after := Apply(CardRules(), rows, books, e);
      Inv(after.0, after.1)
  {
    hide Inv, AtOnce, Updated, Logged;
    match e
    case Committed(op, seen) =>
      if Updated(op, seen, Find(rows, KeyOf(op))).Some? {
        UpdateKeepsInv(rows, books, op, seen);
      }
    case Done(op) =>
      if AtOnce(op, rows, books).0.Keys !! rows.Keys {
        AtOnceKeepsInv(rows, books, op);
      }
  }

  lemma {:induction false} SerialKeepsInv(rows: Rows, books: Books, es: seq<Effect<Op, Card>>)
    requires Inv(rows, books)
    ensures
      var after := Serial(CardRules(), rows, books, es);
      Inv(after.0, after.1)
    decreases |es|
  {
    hide Inv, Apply;
    if es != [] {
      var before := Serial(CardRules(), rows, books, es[..|es| - 1]);
      SerialKeepsInv(rows, books, es[..|es| - 1]);
      ApplyKeepsInv(before.0, before.1, es[|es| - 1]);
    }
  }

  const Start: Db<nat, Op, Card, Books> := Db(map[], Books(map[], []), map[])

  lemma StartIsOk()
    ensures Inv(Start.rows, Start.side) && LocksOk(CardRules(), Start)
  {
  }

  /** In every interleaved run a card's remaining and used times make up its total, neither is negative, the
      log has one row per use, and a card that still reads active has a use left. */
  lemma CardsAreCounted(steps: seq<Step<Op>>, id: nat)
    ensures
      var s := Run(CardRules(), Start, steps);
      if id in s.rows then
        var card := s.rows[id];
        && card.remaining + card.used == card.total && card.remaining >= 0 && card.used >= 0
        && card.used == LogCount(s.side.logs, id)
        && (card.status.Active? ==> card.remaining > 0)
        && (card.status.Exhausted? ==> card.remaining == 0)
      else
        LogCount(s.side.logs, id) == 0
  {
    hide Run, Serial, Effects, LogCount;
    StartIsOk();
    RunIsSerial(CardRules(), Start, steps);
    SerialKeepsInv(Start.rows, Start.side, Effects(CardRules(), Start, steps));
    var s := Run(CardRules(), Start, steps);
    assert InStep(s.rows, s.side.logs, id);
  }

  // ----- total uses and refusals over whole runs -----

  predicate Consumes(e: Effect<Op, Card>, id: nat) {
    e.Committed? && e.op.Consume? && e.op.use.cardId == id
  }

  /** How many committed consumptions a run holds for a card. */
  function Uses(es: seq<Effect<Op, Card>>, id: nat): nat {
    if es == [] then 0 else Uses(es[..|es| - 1], id) + if Consumes(es[|es| - 1], id) then 1 else 0
  }

  lemma ApplyLogs(rows: Rows, books: Books, e: Effect<Op, Card>, id: nat)
    requires Bites(CardRules(), rows, e)
    ensures LogCount(Apply(CardRules(), rows, books, e).1.logs, id) ==
      LogCount(books.logs, id) + if Consumes(e, id) then 1 else 0
  {
    hide LogCount;
    if e.Committed? && e.op.Consume? {
      LogCountAppend(books.logs, LogOf(e.op.use), id);
    }
  }

  lemma FrontBites(rows: Rows, books: Books, es: seq<Effect<Op, Card>>)
    requires es != [] && AllBite(CardRules(), rows, books, es)
    ensures AllBite(CardRules(), rows, books, es[..|es| - 1])
    ensures Bites(CardRules(), Serial(CardRules(), rows, books, es[..|es| - 1]).0, es[|es| - 1])
  {
    hide Bites, Serial;
    var front := es[..|es| - 1];
    forall i: nat | i < |front|
      ensures Bites(CardRules(), Serial(CardRules(), rows, books, front[..i]).0, front[i])
    {
      assert front[..i] == es[..i];
      assert Bites(CardRules(), Serial(CardRules(), rows, books, es[..i]).0, es[i]);
    }
  }

  lemma {:induction false} SerialLogs(rows: Rows, books: Books, es: seq<Effect<Op, Card>>, id: nat)
    requires AllBite(CardRules(), rows, books, es)
    ensures LogCount(Serial(CardRules(), rows, books, es).1.logs, id) == LogCount(books.logs, id) + Uses(es, id)
    decreases |es|
  {
    hide Apply, Bites, AllBite, LogCount;
    if es != [] {
      FrontBites(rows, books, es);
      SerialLogs(rows, books, es[..|es| - 1], id);
      var before := Serial(CardRules(), rows, books, es[..|es| - 1]);
      ApplyLogs(before.0, before.1, es[|es| - 1], id);
    }
  }

  /** The consumptions that committed are exactly the card's used times, so never more than its total. */
  lemma NeverOverused(steps: seq<Step<Op>>, id: nat)
    requires id in Run(CardRules(), Start, steps).rows
    ensures
      var card := Run(CardRules(), Start, steps).rows[id];
      Uses(Effects(CardRules(), Start, steps), id) == card.used <= card.total
  {
    hide Run, Serial, Effects, AllBite, Uses;
    StartIsOk();
    RunIsSerial(CardRules(), Start, steps);
    SerialLogs(Start.rows, Start.side, Effects(CardRules(), Start, steps), id);
    CardsAreCounted(steps, id);
  }

  // ----- what the caller is told -----

  /** The number of remaining times a successful call returns: one less than it had read. */
  function Reported(seen: Card): int {
    seen.remaining - 1
  }

  lemma {:induction false} UsesConcat(a: seq<Effect<Op, Card>>, b: seq<Effect<Op, Card>>, id: nat)
    ensures Uses(a + b, id) == Uses(a, id) + Uses(b, id)
    decreases |b|
  {
    if b == [] {
      assert a + b == a;
    } else {
      UsesConcat(a, b[..|b| - 1], id);
      assert (a + b)[..|a + b| - 1] == a + b[..|b| - 1];
    }
  }

  lemma {:induction false} NoUses(es: seq<Effect<Op, Card>>, id: nat)
    ensures Uses(es, id) == 0 <==> forall e :: e in es ==> !Consumes(e, id)
  {
    if es != [] {
      NoUses(es[..|es| - 1], id);
      assert es == es[..|es| - 1] + [es[|es| - 1]];
    }
  }

  lemma ApplyKeepsTotal(rows: Rows, books: Books, e: Effect<Op, Card>, id: nat)
    requires id in rows
    ensures
      var after := Apply(CardRules(), rows, books, e).0;
      id in after && after[id].total == rows[id].total
  {
    hide AtOnce;
  }

  lemma {:induction false} SerialKeepsTotal(rows: Rows, books: Books, es: seq<Effect<Op, Card>>, id: nat)
    requires id in rows
    ensures
      var after := Serial(CardRules(), rows, books, es).0;
      id in after && after[id].total == rows[id].total
    decreases |es|
  {
    hide Apply;
    if es != [] {
      var before := Serial(CardRules(), rows, books, es[..|es| - 1]);
      SerialKeepsTotal(rows, books, es[..|es| - 1], id);
      ApplyKeepsTotal(before.0, before.1, es[|es| - 1], id);
    }
  }

  /** From any moment of a run to its end a card loses exactly the uses that committed since. */
  lemma RemainingSince(steps: seq<Step<Op>>, k: nat, id: nat)
    requires k <= |steps| && id in Run(CardRules(), Start, steps[..k]).rows
    ensures
      var before, after := Run(CardRules(), Start, steps[..k]).rows, Run(CardRules(), Start, steps).rows;
      id in after && after[id].remaining == before[id].remaining - Uses(EffectsSince(CardRules(), Start, steps, k), id)
  {
    hide Run, Serial, Effects, Uses, EffectsSince;
    StartIsOk();
    RunIsSerial(CardRules(), Start, steps[..k]);
    var mid := Run(CardRules(), Start, steps[..k]);
    RunConcat(CardRules(), Start, steps[..k], steps[k..]);
    assert steps[..k] + steps[k..] == steps;
    RunIsSerial(CardRules(), mid, steps[k..]);
    SerialKeepsTotal(mid.rows, mid.side, Effects(CardRules(), mid, steps[k..]), id);
    NeverOverused(steps[..k], id);
    NeverOverused(steps, id);
    CardsAreCounted(steps[..k], id);
    CardsAreCounted(steps, id);
    EffectsSplit(CardRules(), Start, steps, k);
    UsesConcat(Effects(CardRules(), Start, steps[..k]), EffectsSince(CardRules(), Start, steps, k), id);
  }

  /** The remainder a call reports exceeds the one its own commit leaves by the number of other uses of the
      card that committed since it read the card. So the report is true exactly when there was none. */
  lemma ReportIsTrueWhenUndisturbed(steps: seq<Step<Op>>, id: nat, k: nat)
    requires BegunAt(CardRules(), Start, steps, id, k)
    requires Run(CardRules(), Start, steps).txs[id].Holding? && Run(CardRules(), Start, steps).txs[id].op.Consume?
    ensures
      var s := Run(CardRules(), Start, steps);
      var tx, card := s.txs[id], s.txs[id].op.use.cardId;
      var since, after := EffectsSince(CardRules(), Start, steps, k), Next(CardRules(), s, Commit(id)).rows;
      && tx.seen.Some? && card in after
      && Reported(tx.seen.value) == after[card].remaining + Uses(since, card)
      && (Reported(tx.seen.value) == after[card].remaining <==> forall e :: e in since ==> !Consumes(e, card))
  {
    hide Run, Effects, Uses, EffectsSince;
    StartIsOk();
    RunIsSerial(CardRules(), Start, steps);
    var s := Run(CardRules(), Start, steps);
    var card := s.txs[id].op.use.cardId;
    assert card in Run(CardRules(), Start, steps[..k]).rows;
    RemainingSince(steps, k, card);
    NoUses(EffectsSince(CardRules(), Start, steps, k), card);
  }

  /** A call that read the card before a sweep expired it still takes a use, and the card stays expired. */
  lemma SweepDoesNotStopAUse(u: Use, seen: Card)
    requires Refusal(Some(seen), u).None? && CardOk(seen)
    ensures
      var swept := seen.(status := Expired);
      Updated(Consume(u), Some(seen), Some(swept)) == Some(swept.(remaining := seen.remaining - 1, used := seen.used + 1))
  {
  }
}
