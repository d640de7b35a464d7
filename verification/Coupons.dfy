/** Coupons: claims as interleaved transactions, counters that match the coupons, and lazy expiry. */
module Coupons {
  import opened Wrappers
  import opened Transactions
  import opened Numbering
  import Calendar
  import Wallet

  datatype Template = Template(
    tenantId: nat, name: string, amount: int, minSpend: int, validDays: nat, totalCount: int,
    shopScoped: bool, verifyShopId: nat, enabled: bool, issuedCount: int, usedCount: int)

  datatype Status = Unused | Used | Expired

  datatype Coupon = Coupon(
    tenantId: nat, templateId: nat, holderId: nat, name: string, amount: int, minSpend: int,
    shopScoped: bool, verifyShopId: nat, status: Status, validUntil: int,
    usedAt: Option<int>, ref: Wallet.Ref)

  const NO_REF: Wallet.Ref := Wallet.Ref("", 0, "")

  datatype Error =
    | TemplateNotFound | TemplateDisabled | IssueLimit | TemplateHasCoupons
    | CouponNotFound | CouponNotAvailable | CouponShopMismatch

  /** A claim at a shop checks the shop of shop-scoped coupons; a plain one does not. */
  datatype Claim = Claim(
    couponId: nat, tenantId: nat, holderId: nat, orderAmount: int, ref: Wallet.Ref, shop: Option<nat>, now: int)

  datatype Op =
    | Redeem(claim: Claim)
    | Expire(couponId: nat, tenantId: nat, now: int)
    | Issue(templateId: nat, tenantId: nat, holders: seq<nat>, firstId: nat, now: int)
    | CreateTemplate(templateId: nat, template: Template)
    | UpdateTemplate(templateId: nat, tenantId: nat, template: Template)
    | DeleteTemplate(templateId: nat, tenantId: nat)

  type Rows = map<nat, Coupon>

  type Templates = map<nat, Template>

  // ----- claiming -----

  /** The check on the coupon as read. */
  function Refusal(seen: Option<Coupon>, c: Claim): Option<Error> {
    if seen.None? || seen.value.tenantId != c.tenantId then Some(CouponNotFound)
    else
      var coupon := seen.value;
      if coupon.holderId != c.holderId || !coupon.status.Unused? || coupon.validUntil < c.now || coupon.minSpend > c.orderAmount
      then Some(CouponNotAvailable)
      else if c.shop.Some? && coupon.shopScoped && coupon.verifyShopId != c.shop.value then Some(CouponShopMismatch)
      else None
  }

  function AsUsed(coupon: Coupon, c: Claim): Coupon {
    coupon.(status := Used, usedAt := Some(c.now), ref := c.ref)
  }

  /** The guarded update looks at the current status again, and at nothing else. */
  function Updated(op: Op, seen: Option<Coupon>, current: Option<Coupon>): Option<Coupon> {
    match op
    case Redeem(c) =>
      if Refusal(seen, c).Some? || current.None? || !current.value.status.Unused? then None
      else Some(AsUsed(current.value, c))
    case Expire(_, tenantId, now) =>
      if current.Some? && Stale(current.value, tenantId, now) then Some(current.value.(status := Expired)) else None
    case _ => None
  }

  predicate Stale(coupon: Coupon, tenantId: nat, now: int) {
    coupon.tenantId == tenantId && coupon.status.Unused? && coupon.validUntil < now
  }

  function CountUse(templates: Templates, id: nat): Templates {
    if id in templates then templates[id := templates[id].(usedCount := templates[id].usedCount + 1)] else templates
  }

  function Counted(op: Op, row: Coupon, templates: Templates): Templates {
    if op.Redeem? then CountUse(templates, row.templateId) else templates
  }

  // ----- issuing and templates -----

  function IssueRefusal(templates: Templates, templateId: nat, tenantId: nat, n: nat): Option<Error> {
    if templateId !in templates || templates[templateId].tenantId != tenantId then Some(TemplateNotFound)
    else
      var t := templates[templateId];
      if !t.enabled then Some(TemplateDisabled)
      else if t.totalCount > 0 && t.issuedCount + n > t.totalCount then Some(IssueLimit)
      else None
  }

  function NewCoupon(t: Template, templateId: nat, holder: nat, now: int): Coupon {
    Coupon(t.tenantId, templateId, holder, t.name, t.amount, t.minSpend, t.shopScoped, t.verifyShopId,
           Unused, now + t.validDays * Calendar.DAY, None, NO_REF)
  }

  /** One coupon per holder. */
  function NewCoupons(t: Template, templateId: nat, holders: seq<nat>, now: int): seq<Coupon> {
    seq(|holders|, i requires 0 <= i < |holders| => NewCoupon(t, templateId, holders[i], now))
  }

  /** Counters belong to the store: a caller's template starts at zero and an update keeps them. */
  function AtOnce(op: Op, rows: Rows, templates: Templates): (Rows, Templates) {
    match op
    case Issue(id, tenantId, holders, firstId, now) =>
      if IssueRefusal(templates, id, tenantId, |holders|).Some? then (map[], templates)
      else
        var t := templates[id];
        (Numbered(NewCoupons(t, id, holders, now), firstId), templates[id := t.(issuedCount := t.issuedCount + |holders|)])
    case CreateTemplate(id, t) =>
      if id in templates then (map[], templates)
      else (map[], templates[id := t.(issuedCount := 0, usedCount := 0, enabled := true)])
    case UpdateTemplate(id, tenantId, t) =>
      if id !in templates || templates[id].tenantId != tenantId then (map[], templates)
      else
        var kept := templates[id];
        (map[], templates[id := t.(tenantId := tenantId, issuedCount := kept.issuedCount, usedCount := kept.usedCount)])
    case DeleteTemplate(id, tenantId) =>
      if id !in templates || templates[id].tenantId != tenantId || CouponsOf(rows, id) != {} then (map[], templates)
      else (map[], templates - {id})
    case _ => (map[], templates)
  }

  function CouponRules(): Rules<nat, Op, Coupon, Templates> {
    Rules((op: Op) => KeyOf(op),
          (op: Op, seen: Option<Coupon>, current: Option<Coupon>) => Updated(op, seen, current),
          (op: Op, seen: Option<Coupon>, row: Coupon, templates: Templates) => Counted(op, row, templates),
          (op: Op, rows: Rows, templates: Templates) => AtOnce(op, rows, templates))
  }

  function KeyOf(op: Op): nat {
    match op
    case Redeem(c) => c.couponId
    case Expire(id, _, _) => id
    case _ => 0
  }

  // ----- counters -----

  function CouponsOf(rows: Rows, templateId: nat): set<nat> {
    set id | id in rows && rows[id].templateId == templateId
  }

  function UsedOf(rows: Rows, templateId: nat): set<nat> {
    set id | id in rows && rows[id].templateId == templateId && rows[id].status.Used?
  }

  predicate CountersMatch(rows: Rows, templates: Templates, id: nat) {
    id in templates ==>
      templates[id].issuedCount == |CouponsOf(rows, id)| && templates[id].usedCount == |UsedOf(rows, id)|
  }

  ghost predicate Inv(rows: Rows, templates: Templates) {
    && (forall id :: id in rows ==> rows[id].templateId in templates)
    && (forall t :: CountersMatch(rows, templates, t))
  }

  lemma StatusChangeCounts(rows: Rows, id: nat, row: Coupon, t: nat)
    requires id in rows && row.templateId == rows[id].templateId && rows[id].status.Unused?
    ensures CouponsOf(rows[id := row], t) == CouponsOf(rows, t)
    ensures |UsedOf(rows[id := row], t)| == |UsedOf(rows, t)| + if row.status.Used? && row.templateId == t then 1 else 0
  {
    var after := UsedOf(rows[id := row], t);
    if row.status.Used? && row.templateId == t {
      assert after == UsedOf(rows, t) + {id};
    } else {
      assert after == UsedOf(rows, t);
    }
  }

  lemma RowUpdateKeepsInv(rows: Rows, templates: Templates, op: Op, seen: Option<Coupon>)
    requires Inv(rows, templates) && Updated(op, seen, Find(rows, KeyOf(op))).Some?
    ensures
      var row := Updated(op, seen, Find(rows, KeyOf(op))).value;
      Inv(rows[KeyOf(op) := row], Counted(op, row, templates))
  {
    var id := KeyOf(op);
    var row := Updated(op, seen, Find(rows, id)).value;
    var rows', templates' := rows[id := row], Counted(op, row, templates);
    forall t: nat
      ensures CountersMatch(rows', templates', t)
    {
      assert CountersMatch(rows, templates, t);
      StatusChangeCounts(rows, id, row, t);
    }
  }

  lemma AddedCoupons(rows: Rows, added: Rows, id: nat, other: nat)
    requires added.Keys !! rows.Keys
    requires forall c :: c in added ==> added[c].templateId == id
    ensures |CouponsOf(rows + added, other)| == |CouponsOf(rows, other)| + if other == id then |added.Keys| else 0
  {
    var own := if other == id then added.Keys else {};
    assert CouponsOf(rows + added, other) == CouponsOf(rows, other) + own;
    assert CouponsOf(rows, other) !! own;
  }

  lemma AddedUnused(rows: Rows, added: Rows, other: nat)
    requires added.Keys !! rows.Keys
    requires forall c :: c in added ==> added[c].status.Unused?
    ensures UsedOf(rows + added, other) == UsedOf(rows, other)
  {
  }

  lemma NewRows(t: Template, id: nat, holders: seq<nat>, firstId: nat, now: int)
    ensures
      var added := Numbered(NewCoupons(t, id, holders, now), firstId);
      && |added.Keys| == |holders|
      && forall c :: c in added ==> added[c].templateId == id && added[c].status.Unused?
  {
    hide Numbered;
    var items := NewCoupons(t, id, holders, now);
    NumberedFacts(items, firstId);
    forall c | c in Numbered(items, firstId)
      ensures Numbered(items, firstId)[c].templateId == id && Numbered(items, firstId)[c].status.Unused?
    {
      NumberedRows(items, firstId, c);
    }
  }

  lemma IssueCounts(rows: Rows, t: Template, id: nat, holders: seq<nat>, firstId: nat, now: int, other: nat)
    requires Numbered(NewCoupons(t, id, holders, now), firstId).Keys !! rows.Keys
    ensures
      var rows' := rows + Numbered(NewCoupons(t, id, holders, now), firstId);
      && |CouponsOf(rows', other)| == |CouponsOf(rows, other)| + (if other == id then |holders| else 0)
      && UsedOf(rows', other) == UsedOf(rows, other)
  {
    hide Numbered, CouponsOf, UsedOf;
    var added := Numbered(NewCoupons(t, id, holders, now), firstId);
    NewRows(t, id, holders, firstId, now);
    AddedCoupons(rows, added, id, other);
    AddedUnused(rows, added, other);
  }

  lemma IssueKeepsInv(rows: Rows, templates: Templates, op: Op)
    requires Inv(rows, templates) && op.Issue?
    requires AtOnce(op, rows, templates).0.Keys !! rows.Keys
    ensures Inv(rows + AtOnce(op, rows, templates).0, AtOnce(op, rows, templates).1)
  {
    hide CouponsOf, UsedOf, Numbered, NewCoupons;
    var Issue(id, tenantId, holders, firstId, now) := op;
    var (added, templates') := AtOnce(op, rows, templates);
    var rows' := rows + added;
    if IssueRefusal(templates, id, tenantId, |holders|).None? {
      forall other: nat
        ensures CountersMatch(rows', templates', other)
      {
        assert CountersMatch(rows, templates, other);
        IssueCounts(rows, templates[id], id, holders, firstId, now, other);
      }
      NewRows(templates[id], id, holders, firstId, now);
      forall c | c in rows'
        ensures rows'[c].templateId in templates'
      {
        assert c in rows || c in added;
      }
    } else {
      assert rows' == rows;
    }
  }

  lemma TemplateStepKeepsInv(rows: Rows, templates: Templates, op: Op)
    requires Inv(rows, templates) && !op.Issue?
    ensures AtOnce(op, rows, templates).0 == map[] && Inv(rows, AtOnce(op, rows, templates).1)
  {
    var templates' := AtOnce(op, rows, templates).1;
    forall t: nat
      ensures CountersMatch(rows, templates', t)
    {
      assert CountersMatch(rows, templates, t);
      if op.CreateTemplate? && t == op.templateId && t !in templates && t in templates' {
        assert CouponsOf(rows, t) == {} && UsedOf(rows, t) == {};
      }
    }
    forall id | id in rows
      ensures rows[id].templateId in templates'
    {
      assert id in CouponsOf(rows, rows[id].templateId);
    }
  }

  lemma ApplyKeepsInv(rows: Rows, templates: Templates, e: Effect<Op, Coupon>)
    requires Inv(rows, templates)
    ensures
      var after := Apply(CouponRules(), rows, templates, e);
      Inv(after.0, after.1)
  {
    hide Inv, CouponsOf, UsedOf, AtOnce, Updated, Counted;
    match e
    case Committed(op, seen) =>
      if Updated(op, seen, Find(rows, KeyOf(op))).Some? {
        RowUpdateKeepsInv(rows, templates, op, seen);
      }
    case Done(op) =>
      if op.Issue? {
        if AtOnce(op, rows, templates).0.Keys !! rows.Keys {
          IssueKeepsInv(rows, templates, op);
        }
      } else {
        TemplateStepKeepsInv(rows, templates, op);
        assert rows + map[] == rows;
      }
  }

  lemma {:induction false} SerialKeepsInv(rows: Rows, templates: Templates, es: seq<Effect<Op, Coupon>>)
    requires Inv(rows, templates)
    ensures
      var after := Serial(CouponRules(), rows, templates, es);
      Inv(after.0, after.1)
    decreases |es|
  {
    hide Inv, Apply;
    if es != [] {
      var before := Serial(CouponRules(), rows, templates, es[..|es| - 1]);
      SerialKeepsInv(rows, templates, es[..|es| - 1]);
      ApplyKeepsInv(before.0, before.1, es[|es| - 1]);
    }
  }

  const Start: Db<nat, Op, Coupon, Templates> := Db(map[], map[], map[])

  lemma StartIsOk()
    ensures Inv(Start.rows, Start.side) && LocksOk(CouponRules(), Start)
  {
    forall t: nat
      ensures CountersMatch(Start.rows, Start.side, t)
    {
      assert CouponsOf(Start.rows, t) == {} && UsedOf(Start.rows, t) == {};
    }
  }

  /** In every interleaved run each template's counters are the number of its coupons and of its used
      coupons, and no coupon outlives its template. */
  lemma CountersMatchAlways(steps: seq<Step<Op>>, templateId: nat)
    ensures
      var s := Run(CouponRules(), Start, steps);
      && (templateId in s.side ==>
            && s.side[templateId].issuedCount == |CouponsOf(s.rows, templateId)|
            && s.side[templateId].usedCount == |UsedOf(s.rows, templateId)|)
      && (forall id :: id in s.rows ==> s.rows[id].templateId in s.side)
  {
    hide Run, Serial, Effects;
    StartIsOk();
    RunIsSerial(CouponRules(), Start, steps);
    SerialKeepsInv(Start.rows, Start.side, Effects(CouponRules(), Start, steps));
    var s := Run(CouponRules(), Start, steps);
    assert CountersMatch(s.rows, s.side, templateId);
  }

  /** An issue that goes through leaves a limited template within its limit, whatever came before. */
  lemma IssueWithinLimit(rows: Rows, templates: Templates, op: Op)
    requires op.Issue? && AtOnce(op, rows, templates).1 != templates
    ensures
      var t := AtOnce(op, rows, templates).1[op.templateId];
      && op.templateId in templates && t.issuedCount == templates[op.templateId].issuedCount + |op.holders|
      && (t.totalCount > 0 ==> t.issuedCount <= t.totalCount)
      && AtOnce(op, rows, templates).0 ==
           Numbered(NewCoupons(templates[op.templateId], op.templateId, op.holders, op.now), op.firstId)
  {
  }

  predicate WithinLimit(templates: Templates, id: nat) {
    id in templates && templates[id].totalCount > 0 ==> templates[id].issuedCount <= templates[id].totalCount
  }

  /** An update that sets a limit below what has been issued. */
  predicate Lowers(e: Effect<Op, Coupon>, templates: Templates, id: nat) {
    && e.Done? && e.op.UpdateTemplate? && e.op.templateId == id
    && id in templates && templates[id].tenantId == e.op.tenantId
    && 0 < e.op.template.totalCount < templates[id].issuedCount
  }

  /** One operation takes a template over its limit exactly when it is such an update; no issue ever does. */
  lemma OnlyUpdatesExceed(rows: Rows, templates: Templates, e: Effect<Op, Coupon>, id: nat)
    requires WithinLimit(templates, id)
    ensures WithinLimit(Apply(CouponRules(), rows, templates, e).1, id) <==> !Lowers(e, templates, id)
  {
    hide Numbered, NewCoupons;
    assert rows + map[] == rows;
  }

  /** The i-th effect lowered the limit. */
  ghost predicate LoweredAt(es: seq<Effect<Op, Coupon>>, i: nat, id: nat) {
    i < |es| && Lowers(es[i], Serial(CouponRules(), Start.rows, Start.side, es[..i]).1, id)
  }

  lemma {:induction false} OverLimitWasLowered(es: seq<Effect<Op, Coupon>>, id: nat)
    ensures WithinLimit(Serial(CouponRules(), Start.rows, Start.side, es).1, id) || exists i: nat :: LoweredAt(es, i, id)
    decreases |es|
  {
    hide Apply, WithinLimit, Lowers;
    if es == [] {
      assert WithinLimit(Start.side, id) by { StartWithinLimit(id); }
    } else {
      var front := es[..|es| - 1];
      OverLimitWasLowered(front, id);
      var before := Serial(CouponRules(), Start.rows, Start.side, front);
      if WithinLimit(before.1, id) {
        OnlyUpdatesExceed(before.0, before.1, es[|es| - 1], id);
        if Lowers(es[|es| - 1], before.1, id) {
          assert LoweredAt(es, |es| - 1, id);
        }
      } else {
        var i: nat :| LoweredAt(front, i, id);
        assert es[..i] == front[..i];
        assert LoweredAt(es, i, id);
      }
    }
  }

  lemma StartWithinLimit(id: nat)
    ensures WithinLimit(Start.side, id)
  {
  }

  /** In every interleaved run a template has issued more than its limit only if some update set the limit
      below what had been issued by then. */
  lemma IssuedWithinLimit(steps: seq<Step<Op>>, id: nat)
    ensures WithinLimit(Run(CouponRules(), Start, steps).side, id)
      || exists i: nat :: LoweredAt(Effects(CouponRules(), Start, steps), i, id)
  {
    hide Run, Effects, Serial, WithinLimit, LoweredAt;
    StartIsOk();
    RunIsSerial(CouponRules(), Start, steps);
    OverLimitWasLowered(Effects(CouponRules(), Start, steps), id);
  }

  // ----- a coupon is used at most once -----

  lemma ApplyKeepsSettled(rows: Rows, templates: Templates, e: Effect<Op, Coupon>, id: nat)
    requires id in rows && !rows[id].status.Unused?
    ensures
      var after := Apply(CouponRules(), rows, templates, e);
      id in after.0 && after.0[id] == rows[id]
  {
    hide AtOnce;
  }

  lemma {:induction false} SerialKeepsSettled(rows: Rows, templates: Templates, es: seq<Effect<Op, Coupon>>, id: nat)
    requires id in rows && !rows[id].status.Unused?
    ensures
      var after := Serial(CouponRules(), rows, templates, es);
      id in after.0 && after.0[id] == rows[id]
    decreases |es|
  {
    hide Apply;
    if es != [] {
      var before := Serial(CouponRules(), rows, templates, es[..|es| - 1]);
      SerialKeepsSettled(rows, templates, es[..|es| - 1], id);
      ApplyKeepsSettled(before.0, before.1, es[|es| - 1], id);
    }
  }

  predicate Redeems(e: Effect<Op, Coupon>, id: nat) {
    e.Committed? && e.op.Redeem? && e.op.claim.couponId == id
  }

  lemma RedeemedIsUsed(rows: Rows, templates: Templates, e: Effect<Op, Coupon>, id: nat)
    requires Redeems(e, id) && Bites(CouponRules(), rows, e)
    ensures
      var after := Apply(CouponRules(), rows, templates, e);
      id in after.0 && after.0[id].status.Used? && after.0[id].ref == e.op.claim.ref
  {
  }

  /** No interleaving commits two claims of one coupon: a claim that read the coupon while it was still
      free loses when another commits first. The coupon keeps the reference of the claim that won. */
  lemma ClaimedAtMostOnce(steps: seq<Step<Op>>, id: nat, i: nat, j: nat)
    requires
      var es := Effects(CouponRules(), Start, steps);
      i <= j < |es| && Redeems(es[i], id) && Redeems(es[j], id)
    ensures i == j
    ensures
      var s := Run(CouponRules(), Start, steps);
      id in s.rows && s.rows[id].status.Used? && s.rows[id].ref == Effects(CouponRules(), Start, steps)[i].op.claim.ref
  {
    hide Run, Effects, Serial, Apply, Bites, AllBite;
    StartIsOk();
    RunIsSerial(CouponRules(), Start, steps);
    var es := Effects(CouponRules(), Start, steps);
    BitesAt(es, i);
    BitesAt(es, j);
    SerialOneMore(es, i);
    var before := Serial(CouponRules(), Start.rows, Start.side, es[..i]);
    var after := Serial(CouponRules(), Start.rows, Start.side, es[..i + 1]);
    RedeemedIsUsed(before.0, before.1, es[i], id);
    SerialConcat(CouponRules(), Start.rows, Start.side, es[..i + 1], es[i + 1..]);
    assert es[..i + 1] + es[i + 1..] == es;
    SerialKeepsSettled(after.0, after.1, es[i + 1..], id);
    if i < j {
      SerialConcat(CouponRules(), Start.rows, Start.side, es[..i + 1], es[i + 1..j]);
      assert es[..i + 1] + es[i + 1..j] == es[..j];
      SerialKeepsSettled(after.0, after.1, es[i + 1..j], id);
      UsedRefuses(Serial(CouponRules(), Start.rows, Start.side, es[..j]).0, es[j], id);
    }
  }

  lemma BitesAt(es: seq<Effect<Op, Coupon>>, i: nat)
    requires AllBite(CouponRules(), Start.rows, Start.side, es) && i < |es|
    ensures Bites(CouponRules(), Serial(CouponRules(), Start.rows, Start.side, es[..i]).0, es[i])
  {
  }

  lemma UsedRefuses(rows: Rows, e: Effect<Op, Coupon>, id: nat)
    requires Redeems(e, id) && id in rows && !rows[id].status.Unused?
    ensures !Bites(CouponRules(), rows, e)
  {
  }

  lemma SerialOneMore(es: seq<Effect<Op, Coupon>>, i: nat)
    requires i < |es|
    ensures
      var before := Serial(CouponRules(), Start.rows, Start.side, es[..i]);
      Serial(CouponRules(), Start.rows, Start.side, es[..i + 1]) == Apply(CouponRules(), before.0, before.1, es[i])
  {
    assert es[..i + 1][..i] == es[..i];
  }

  // ----- a claim against a sweep -----

  /** A claim reads its coupon, a sweep expires what it finds stale, then the claim comes to its update. */
  function ClaimAroundSweep(claimTx: nat, sweepTx: nat, c: Claim, tenantId: nat, sweptAt: int): seq<Step<Op>> {
    [Begin(claimTx, Redeem(c)), Begin(sweepTx, Expire(c.couponId, tenantId, sweptAt)),
     Update(sweepTx), Commit(sweepTx), Update(claimTx)]
  }

  /** The sweep's two statements: they expire the coupon if it is stale and leave everything else. */
  lemma SweepCommits(s: Db<nat, Op, Coupon, Templates>, sweepTx: nat, id: nat, tenantId: nat, sweptAt: int)
    requires sweepTx in s.txs && s.txs[sweepTx] == Reading(Expire(id, tenantId, sweptAt), Find(s.rows, id))
    requires id in s.rows && !Locked(CouponRules(), s, id)
    ensures
      var e := Next(CouponRules(), Next(CouponRules(), s, Update(sweepTx)), Commit(sweepTx));
      && e.txs == s.txs - {sweepTx}
      && e.rows == if Stale(s.rows[id], tenantId, sweptAt) then s.rows[id := s.rows[id].(status := Expired)] else s.rows
  {
    hide AtOnce;
  }

  /** A claim whose check has passed loses to a sweep in between exactly when the sweep is its tenant's and comes
      after the coupon's validity; the coupon is then expired, otherwise the claim holds it. */
  lemma SweepStopsAClaim(s: Db<nat, Op, Coupon, Templates>, claimTx: nat, sweepTx: nat, c: Claim, tenantId: nat, sweptAt: int)
    requires claimTx != sweepTx && claimTx !in s.txs && sweepTx !in s.txs
    requires !Locked(CouponRules(), s, c.couponId) && Refusal(Find(s.rows, c.couponId), c).None?
    ensures
      var e := Run(CouponRules(), s, ClaimAroundSweep(claimTx, sweepTx, c, tenantId, sweptAt));
      var late := s.rows[c.couponId].tenantId == tenantId && s.rows[c.couponId].validUntil < sweptAt;
      && (claimTx !in e.txs <==> late)
      && c.couponId in e.rows && (e.rows[c.couponId].status.Expired? <==> late)
      && (!late ==> e.txs[claimTx].Holding? && e.txs[claimTx].row == AsUsed(s.rows[c.couponId], c))
  {
    var steps := ClaimAroundSweep(claimTx, sweepTx, c, tenantId, sweptAt);
    RunFive(s, steps);
    hide AtOnce, Run, Counted;
    var e1 := Next(CouponRules(), s, steps[0]);
    var e2 := Next(CouponRules(), e1, steps[1]);
    assert e2.rows == s.rows && e2.txs[claimTx] == Reading(Redeem(c), Find(s.rows, c.couponId));
    assert !Locked(CouponRules(), e2, c.couponId);
    SweepCommits(e2, sweepTx, c.couponId, tenantId, sweptAt);
    var e4 := Next(CouponRules(), Next(CouponRules(), e2, steps[2]), steps[3]);
    assert !Locked(CouponRules(), e4, c.couponId);
  }

  lemma RunFive(s: Db<nat, Op, Coupon, Templates>, steps: seq<Step<Op>>)
    requires |steps| == 5
    ensures Run(CouponRules(), s, steps) ==
      Next(CouponRules(), Next(CouponRules(), Next(CouponRules(), Next(CouponRules(), Next(CouponRules(), s, steps[0]), steps[1]),
           steps[2]), steps[3]), steps[4])
  {
    hide Next;
    assert steps[..4][..3] == steps[..3] && steps[..3][..2] == steps[..2] && steps[..2][..1] == steps[..1] && steps[..1][..0] == [];
    assert Run(CouponRules(), s, steps[..1]) == Next(CouponRules(), s, steps[0]);
    assert Run(CouponRules(), s, steps[..2]) == Next(CouponRules(), Run(CouponRules(), s, steps[..1]), steps[1]);
    assert Run(CouponRules(), s, steps[..3]) == Next(CouponRules(), Run(CouponRules(), s, steps[..2]), steps[2]);
    assert Run(CouponRules(), s, steps[..4]) == Next(CouponRules(), Run(CouponRules(), s, steps[..3]), steps[3]);
  }
}
