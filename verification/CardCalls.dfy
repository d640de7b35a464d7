/** What each call of the session-card store does to the columns of its rows. */
module CardCalls {
  import opened Wrappers
  import opened Transactions
  import opened Numbering
  import opened SessionCards
  import opened CardStore

  // ----- issuing -----

  lemma HandedOut(t: Template, id: nat, holders: seq<nat>, now: int)
    ensures |NewCards(t, id, holders, now)| == |holders|
    ensures forall i :: 0 <= i < |holders| ==>
      NewCards(t, id, holders, now)[i] ==
        Card(t.tenantId, id, holders[i], t.shopId, t.name, t.totalTimes, t.totalTimes, 0, Active,
              now + t.validDays * 86_400_000_000_000)
  {
  }

  /** An issue goes through exactly for the tenant's own enabled template with enough left. It hands each holder one
      full active card with the template's name, shop and uses, valid for the template's days, and raises the
      template's counter; everything else stays. Otherwise nothing happens. */
  lemma IssueHandsOut(s: Store, call: Call)
    requires call.DoIssue? && forall id :: id in s.rows ==> id < call.firstId
    ensures
      var (after, answer), templates := Do(s, call), s.books.templates;
      answer.Issued? && (answer.issued.Success? <==>
        && call.templateId in templates && templates[call.templateId].tenantId == call.tenantId
        && templates[call.templateId].enabled
        && (templates[call.templateId].totalCount <= 0
            || templates[call.templateId].issuedCount + |call.holders| <= templates[call.templateId].totalCount))
    ensures
      var (after, answer) := Do(s, call);
      if answer.issued.Success? then
        var t := s.books.templates[call.templateId];
        && answer.issued.value == |call.holders| && after.books.logs == s.books.logs
        && after.books.templates == s.books.templates[call.templateId := t.(issuedCount := t.issuedCount + |call.holders|)]
        && (forall id :: id in s.rows ==> id in after.rows && after.rows[id] == s.rows[id])
        && (forall id :: id in after.rows <==> id in s.rows || call.firstId <= id < call.firstId + |call.holders|)
        && forall i: nat :: i < |call.holders| ==>
             after.rows[call.firstId + i] ==
               Card(call.tenantId, call.templateId, call.holders[i], t.shopId, t.name, t.totalTimes, t.totalTimes, 0, Active,
                    call.now + t.validDays * 86_400_000_000_000)
      else after == s
  {
    hide Do, Grown, NewCards;
    IssueOutcome(s, call);
    if IssueRefusal(s.books.templates, call.templateId, call.tenantId, |call.holders|).None? {
      var t := s.books.templates[call.templateId];
      GrownRows(s.rows, NewCards(t, call.templateId, call.holders, call.now), call.firstId);
      HandedOut(t, call.templateId, call.holders, call.now);
    }
  }

  // ----- listing -----

  /** A card as it stands after a sweep. */
  function AtTime(card: Card, now: int): Card {
    if card.status == Active && card.validUntil < now then card.(status := Expired) else card
  }

  /** A listing shows exactly the tenant's cards of the given holder, or of every holder when none is given, in the
      given state, if any: active ones past their validity count as expired, and are so from then on. */
  lemma ListingIsExact(s: Store, tenantId: nat, holderId: nat, status: Option<Status>, now: int)
    ensures
      var (after, answer) := Do(s, DoList(tenantId, holderId, status, now));
      && answer.Listed? && after.books == s.books && after.rows.Keys == s.rows.Keys
      && (forall id :: id in s.rows ==>
            after.rows[id] == if s.rows[id].tenantId == tenantId then AtTime(s.rows[id], now) else s.rows[id])
      && (forall id :: id in answer.cards <==>
            && id in s.rows && s.rows[id].tenantId == tenantId
            && (holderId == 0 || s.rows[id].holderId == holderId)
            && (status == None || AtTime(s.rows[id], now).status == status.value))
      && (forall id :: id in answer.cards ==> answer.cards[id] == AtTime(s.rows[id], now))
  {
  }

  // ----- using a card -----

  /** A use goes through exactly for an active card of this tenant and holder that is still valid, good at this shop
      and not used up. It counts one use, marks the card exhausted with the last one, logs the use with its shop and
      reference, and reports what remains; a refused one changes nothing. */
  lemma UseOutcome(s: Store, u: Use)
    ensures
      var (after, answer) := Do(s, DoConsume(u));
      answer.Consumed? && (answer.consumed.Success? <==>
        && u.cardId in s.rows && s.rows[u.cardId].tenantId == u.tenantId && s.rows[u.cardId].holderId == u.holderId
        && s.rows[u.cardId].status == Active && u.now <= s.rows[u.cardId].validUntil
        && (s.rows[u.cardId].shopId == 0 || s.rows[u.cardId].shopId == u.shopId) && s.rows[u.cardId].remaining > 0)
    ensures
      var (after, answer) := Do(s, DoConsume(u));
      if answer.consumed.Success? then
        var card := s.rows[u.cardId];
        && answer.consumed.value == card.remaining - 1
        && after.rows == s.rows[u.cardId := card.(remaining := card.remaining - 1, used := card.used + 1,
                                                  status := if card.remaining == 1 then Exhausted else Active)]
        && after.books == s.books.(logs := s.books.logs + [Log(u.tenantId, u.cardId, u.holderId, u.shopId, u.ref)])
      else
        && after == s
        && (answer.consumed.error == CardNotFound <==> u.cardId !in s.rows || s.rows[u.cardId].tenantId != u.tenantId)
        && (answer.consumed.error == CardShopMismatch <==>
              && u.cardId in s.rows && s.rows[u.cardId].tenantId == u.tenantId && s.rows[u.cardId].holderId == u.holderId
              && s.rows[u.cardId].status == Active && u.now <= s.rows[u.cardId].validUntil
              && s.rows[u.cardId].shopId != 0 && s.rows[u.cardId].shopId != u.shopId)
  {
    hide AtOnce;
  }

  /** A card just issued allows its first use at any shop it is not kept from, as long as its days have not passed,
      and then has one use less than its template gives. */
  lemma IssuedCanBeUsed(s: Store, call: Call, i: nat, u: Use)
    requires call.DoIssue? && forall id :: id in s.rows ==> id < call.firstId
    requires Do(s, call).1.issued.Success? && i < |call.holders|
    requires u.cardId == call.firstId + i && u.tenantId == call.tenantId && u.holderId == call.holders[i]
    ensures
      var t, answer := s.books.templates[call.templateId], Do(Do(s, call).0, DoConsume(u)).1;
      && (answer.consumed.Success? <==>
            && u.now <= call.now + t.validDays * 86_400_000_000_000 && t.totalTimes > 0
            && (t.shopId == 0 || t.shopId == u.shopId))
      && (answer.consumed.Success? ==> answer.consumed.value == t.totalTimes - 1)
  {
    hide Do;
    IssueHandsOut(s, call);
    UseOutcome(Do(s, call).0, u);
    var after := Do(s, call).0;
    assert after.rows[call.firstId + i].holderId == call.holders[i];
  }

  /** Templates give between one and a thousand uses. Creating takes a free id and starts the counter at zero; an update
      takes the tenant's own template and keeps its counter. */
  lemma TemplateOutcome(rows: Rows, books: Books, op: Op)
    requires op.CreateTemplate? || op.UpdateTemplate?
    ensures
      var (added, after) := AtOnce(op, rows, books);
      && added == map[] && after.logs == books.logs
      && match op
         case CreateTemplate(id, t) =>
           if 1 <= t.totalTimes <= 1000 && id !in books.templates
           then after.templates == books.templates[id := t.(issuedCount := 0, enabled := true)]
           else after == books
         case UpdateTemplate(id, tenantId, t) =>
           if 1 <= t.totalTimes <= 1000 && id in books.templates && books.templates[id].tenantId == tenantId then
             && after.templates.Keys == books.templates.Keys
             && (forall other :: other in books.templates && other != id ==> after.templates[other] == books.templates[other])
             && after.templates[id].issuedCount == books.templates[id].issuedCount && after.templates[id].tenantId == tenantId
             && after.templates[id] == t.(tenantId := tenantId, issuedCount := after.templates[id].issuedCount)
           else after == books
         case _ => true
  {
  }
}
