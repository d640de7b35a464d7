/** The coupon store call by call: sweeping expired coupons late, early or never makes no difference that
    a caller can see. */
module CouponStore {
  import opened Wrappers
  import opened Transactions
  import opened Numbering
  import opened LazyExpiry
  import opened Coupons

  datatype Store = Store(rows: Rows, templates: Templates)

  /** A holder of 0 lists every holder. */
  datatype Call =
    | DoClaim(claim: Claim)
    | DoIssue(templateId: nat, tenantId: nat, holders: seq<nat>, firstId: nat, now: int)
    | DoList(tenantId: nat, holderId: nat, status: Option<Status>, now: int)
    | DoSweep(tenantId: nat, now: int)

  datatype Outcome =
    | Claimed(claimed: Result<(int, string), Error>)
    | Issued(issued: Result<nat, Error>)
    | Listed(coupons: Rows)
    | Quiet

  // ----- one call at a time -----

  function SweptRow(coupon: Coupon, tenantId: nat, now: int): Coupon {
    if Stale(coupon, tenantId, now) then coupon.(status := Expired) else coupon
  }

  function Swept(rows: Rows, tenantId: nat, now: int): Rows {
    map id | id in rows :: SweptRow(rows[id], tenantId, now)
  }

  predicate Wanted(coupon: Coupon, tenantId: nat, holderId: nat, status: Option<Status>) {
    coupon.tenantId == tenantId && (holderId > 0 ==> coupon.holderId == holderId)
    && (status.Some? ==> coupon.status == status.value)
  }

  function Listing(rows: Rows, tenantId: nat, holderId: nat, status: Option<Status>): Rows {
    map id | id in rows && Wanted(rows[id], tenantId, holderId, status) :: rows[id]
  }

  function ClaimResult(rows: Rows, c: Claim): Result<(int, string), Error> {
    var seen := Find(rows, c.couponId);
    match Refusal(seen, c)
    case Some(error) => Failure(error)
    case None => Success((seen.value.amount, seen.value.name))
  }

  function IssueResult(templates: Templates, templateId: nat, tenantId: nat, n: nat): Result<nat, Error> {
    match IssueRefusal(templates, templateId, tenantId, n)
    case Some(error) => Failure(error)
    case None => Success(n)
  }

  /** The state a call leaves, and what it returns. */
  function Do(s: Store, call: Call): (Store, Outcome) {
    match call
    case DoClaim(c) =>
      var after := Apply(CouponRules(), s.rows, s.templates, Committed(Redeem(c), Find(s.rows, c.couponId)));
      (Store(after.0, after.1), Claimed(ClaimResult(s.rows, c)))
    case DoIssue(id, tenantId, holders, firstId, now) =>
      var after := Apply(CouponRules(), s.rows, s.templates, Done(Issue(id, tenantId, holders, firstId, now)));
      (Store(after.0, after.1), Issued(IssueResult(s.templates, id, tenantId, |holders|)))
    case DoList(tenantId, holderId, status, now) =>
      var rows := Swept(s.rows, tenantId, now);
      (s.(rows := rows), Listed(Listing(rows, tenantId, holderId, status)))
    case DoSweep(tenantId, now) => (s.(rows := Swept(s.rows, tenantId, now)), Quiet)
  }

  function Time(call: Call): int {
    match call
    case DoClaim(c) => c.now
    case _ => call.now
  }

  function CouponMachine(): Machine<Store, Call, Outcome> {
    Machine((s: Store, call: Call) => Do(s, call), (call: Call) => call.DoSweep?, (call: Call) => Time(call))
  }

  // ----- the status computed from use and validity -----

  function Shown(coupon: Coupon, now: int): Coupon {
    coupon.(status := if coupon.status.Used? then Used else if coupon.validUntil < now then Expired else Unused)
  }

  /** Only coupons past their validity are marked expired. */
  predicate HonestRow(coupon: Coupon, now: int) {
    coupon.status.Expired? ==> coupon.validUntil < now
  }

  ghost predicate Honest(rows: Rows, now: int) {
    forall id :: id in rows ==> HonestRow(rows[id], now)
  }

  /** Two stores that differ only in which out-of-date coupons have been swept. */
  ghost predicate Alike(a: Store, b: Store, now: int) {
    && a.templates == b.templates && a.rows.Keys == b.rows.Keys
    && Honest(a.rows, now) && Honest(b.rows, now)
    && (forall id :: id in a.rows ==> Shown(a.rows[id], now) == Shown(b.rows[id], now))
  }

  lemma LaterAlike(a: Store, b: Store, now: int, later: int)
    requires Alike(a, b, now) && now <= later
    ensures Alike(a, b, later)
  {
    forall id | id in a.rows
      ensures HonestRow(a.rows[id], later) && HonestRow(b.rows[id], later)
      ensures Shown(a.rows[id], later) == Shown(b.rows[id], later)
    {
      assert Shown(a.rows[id], now) == Shown(b.rows[id], now);
    }
  }

  lemma SweptAlike(a: Store, b: Store, tenantId: nat, now: int)
    requires Alike(a, b, now)
    ensures Alike(a.(rows := Swept(a.rows, tenantId, now)), b, now)
  {
  }

  lemma SweepIsInvisible(a: Store, b: Store, call: Call)
    requires call.DoSweep? && Alike(a, b, call.now)
    ensures Alike(Do(a, call).0, b, call.now)
  {
    SweptAlike(a, b, call.tenantId, call.now);
  }

  lemma AlikeIsSymmetric(a: Store, b: Store, now: int)
    requires Alike(a, b, now)
    ensures Alike(b, a, now)
  {
  }

  /** A listing shows a coupon of the tenant under the computed status exactly when the coupon is honest; when all
      are, it is the listing of the computed ones, swept or not. */
  lemma ListingShowsComputedStatus(s: Store, tenantId: nat, holderId: nat, status: Option<Status>, now: int)
    ensures forall id :: id in s.rows && s.rows[id].tenantId == tenantId ==>
      && id in Do(s, DoList(tenantId, 0, None, now)).1.coupons
      && (Do(s, DoList(tenantId, 0, None, now)).1.coupons[id] == Shown(s.rows[id], now) <==> HonestRow(s.rows[id], now))
    ensures Honest(s.rows, now) ==>
      Do(s, DoList(tenantId, holderId, status, now)).1
      == Listed(map id | id in s.rows && Wanted(Shown(s.rows[id], now), tenantId, holderId, status) :: Shown(s.rows[id], now))
  {
    var rows := Swept(s.rows, tenantId, now);
    forall id | id in s.rows && s.rows[id].tenantId == tenantId
      ensures rows[id] == Shown(s.rows[id], now) <==> HonestRow(s.rows[id], now)
    {
      ShownIffHonest(s.rows[id], now);
    }
    if Honest(s.rows, now) {
      HonestListing(s, tenantId, holderId, status, now);
    }
  }

  lemma ShownIffHonest(coupon: Coupon, now: int)
    ensures SweptRow(coupon, coupon.tenantId, now) == Shown(coupon, now) <==> HonestRow(coupon, now)
  {
  }

  lemma HonestListing(s: Store, tenantId: nat, holderId: nat, status: Option<Status>, now: int)
    requires Honest(s.rows, now)
    ensures Do(s, DoList(tenantId, holderId, status, now)).1 ==
      Listed(map id | id in s.rows && Wanted(Shown(s.rows[id], now), tenantId, holderId, status) :: Shown(s.rows[id], now))
  {
    var rows := Swept(s.rows, tenantId, now);
    forall id | id in s.rows && s.rows[id].tenantId == tenantId
      ensures rows[id] == Shown(s.rows[id], now)
    {
      assert HonestRow(s.rows[id], now);
    }
  }

  /** A claim succeeds exactly for the coupons that a listing made at the same moment shows as unused, when
      the holder, the minimum spend and the shop are right. */
  lemma ClaimableIffListed(s: Store, c: Claim)
    requires Honest(s.rows, c.now)
    ensures
      var listed := Do(s, DoList(c.tenantId, 0, Some(Unused), c.now)).1.coupons;
      Do(s, DoClaim(c)).1.claimed.Success? <==>
        && c.couponId in listed
        && listed[c.couponId].holderId == c.holderId
        && listed[c.couponId].minSpend <= c.orderAmount
        && (c.shop.Some? && listed[c.couponId].shopScoped ==> listed[c.couponId].verifyShopId == c.shop.value)
    ensures Do(s, DoClaim(c)).1.claimed.Success? ==>
      var before, after := s.rows[c.couponId], Do(s, DoClaim(c)).0.rows[c.couponId];
      Do(s, DoClaim(c)).1.claimed.value == (before.amount, before.name) && after.status.Used? && after.ref == c.ref
    ensures Do(s, DoClaim(c)).1.claimed.Failure? ==> Do(s, DoClaim(c)).0 == s
  {
    HonestListing(s, c.tenantId, 0, Some(Unused), c.now);
    if c.couponId in s.rows {
      assert HonestRow(s.rows[c.couponId], c.now);
    }
  }

  lemma ListsAlike(a: Store, b: Store, tenantId: nat, holderId: nat, status: Option<Status>, now: int)
    requires Alike(a, b, now)
    ensures
      var call := DoList(tenantId, holderId, status, now);
      Do(a, call).1 == Do(b, call).1 && Alike(Do(a, call).0, Do(b, call).0, now)
  {
    HonestListing(a, tenantId, holderId, status, now);
    HonestListing(b, tenantId, holderId, status, now);
    var call := DoList(tenantId, holderId, status, now);
    SweptAlike(a, b, tenantId, now);
    AlikeIsSymmetric(Do(a, call).0, b, now);
    SweptAlike(b, Do(a, call).0, tenantId, now);
    AlikeIsSymmetric(Do(b, call).0, Do(a, call).0, now);
    assert Listed(Do(a, call).1.coupons) == Listed(Do(b, call).1.coupons) by {
      assert Do(a, call).1.coupons.Keys == Do(b, call).1.coupons.Keys;
    }
  }

  lemma RefusedAlike(x: Coupon, y: Coupon, c: Claim)
    requires Shown(x, c.now) == Shown(y, c.now) && HonestRow(x, c.now) && HonestRow(y, c.now)
    ensures Refusal(Some(x), c) == Refusal(Some(y), c)
    ensures Refusal(Some(x), c).None? ==> x == y
  {
  }

  lemma ClaimsAlike(a: Store, b: Store, c: Claim)
    requires Alike(a, b, c.now)
    ensures Do(a, DoClaim(c)).1 == Do(b, DoClaim(c)).1
    ensures Alike(Do(a, DoClaim(c)).0, Do(b, DoClaim(c)).0, c.now)
  {
    hide Shown;
    var id := c.couponId;
    if id in a.rows {
      RefusedAlike(a.rows[id], b.rows[id], c);
      SameFace(a.rows[id], b.rows[id], c.now);
    }
  }

  lemma SameFace(x: Coupon, y: Coupon, now: int)
    requires Shown(x, now) == Shown(y, now)
    ensures x.amount == y.amount && x.name == y.name && x.templateId == y.templateId && x.tenantId == y.tenantId
  {
  }

  lemma AddedAlike(a: Store, b: Store, added: Rows, templates: Templates, now: int)
    requires Alike(a, b, now)
    requires forall id :: id in added ==> added[id].status.Unused?
    ensures Alike(Store(a.rows + added, templates), Store(b.rows + added, templates), now)
  {
    hide Shown;
  }

  /** What an issue adds depends on the template alone. */
  lemma IssueIgnoresRows(op: Op, x: Rows, y: Rows, templates: Templates)
    requires op.Issue?
    ensures AtOnce(op, x, templates) == AtOnce(op, y, templates)
    ensures forall id :: id in AtOnce(op, x, templates).0 ==> AtOnce(op, x, templates).0[id].status.Unused?
  {
    hide Numbered;
    if op.templateId in templates {
      NewRows(templates[op.templateId], op.templateId, op.holders, op.firstId, op.now);
    }
  }

  lemma IssuesAlike(a: Store, b: Store, call: Call)
    requires call.DoIssue? && Alike(a, b, call.now)
    ensures Do(a, call).1 == Do(b, call).1 && Alike(Do(a, call).0, Do(b, call).0, call.now)
  {
    hide AtOnce, Shown;
    var op := Issue(call.templateId, call.tenantId, call.holders, call.firstId, call.now);
    IssueIgnoresRows(op, a.rows, b.rows, a.templates);
    var (added, templates) := AtOnce(op, a.rows, a.templates);
    AddedAlike(a, b, added, templates, call.now);
  }

  lemma CallsAlike(a: Store, b: Store, call: Call)
    requires Alike(a, b, Time(call)) && !call.DoSweep?
    ensures Do(a, call).1 == Do(b, call).1 && Alike(Do(a, call).0, Do(b, call).0, Time(call))
  {
    hide Alike, Do;
    match call
    case DoClaim(c) => ClaimsAlike(a, b, c);
    case DoIssue(_, _, _, _, _) => IssuesAlike(a, b, call);
    case DoList(tenantId, holderId, status, now) => ListsAlike(a, b, tenantId, holderId, status, now);
  }

  ghost function AlikeAt(): (Store, Store, int) -> bool {
    (a: Store, b: Store, now: int) => Alike(a, b, now)
  }

  lemma ToleratesSweeps()
    ensures Tolerates(CouponMachine(), AlikeAt())
  {
    hide Alike, Do;
    forall a, b, t, u | AlikeAt()(a, b, t) && t <= u
      ensures AlikeAt()(a, b, u)
    {
      LaterAlike(a, b, t, u);
    }
    var m := CouponMachine();
    forall a, b, call: Call | AlikeAt()(a, b, m.time(call)) && m.isSweep(call)
      ensures AlikeAt()(m.call(a, call).0, b, m.time(call))
    {
      SweepIsInvisible(a, b, call);
    }
    forall a, b, call: Call | AlikeAt()(a, b, m.time(call)) && !m.isSweep(call)
      ensures m.call(a, call).1 == m.call(b, call).1 && AlikeAt()(m.call(a, call).0, m.call(b, call).0, m.time(call))
    {
      CallsAlike(a, b, call);
    }
  }

  /** Under a clock that never runs back, two call sequences that differ only in their sweeps give every
      caller the same answers. */
  lemma SweepsAreInvisible(s: Store, calls: seq<Call>, others: seq<Call>, from: int)
    requires Honest(s.rows, from)
    requires Ascending(CouponMachine(), calls, from) && Ascending(CouponMachine(), others, from)
    requires WithoutSweeps(CouponMachine(), calls) == WithoutSweeps(CouponMachine(), others)
    ensures Outcomes(CouponMachine(), s, calls) == Outcomes(CouponMachine(), s, others)
  {
    hide Ascending, WithoutSweeps, Outcomes, Tolerates;
    ToleratesSweeps();
    SameAnswers(CouponMachine(), AlikeAt(), s, calls, others, from);
  }

  /** Calls that run one after another keep a store honest that starts without coupons. */
  lemma HonestAlways(templates: Templates, calls: seq<Call>, from: int)
    requires Ascending(CouponMachine(), calls, from)
    ensures Honest(Final(CouponMachine(), Store(map[], templates), calls).rows, LastTime(CouponMachine(), calls, from))
  {
    hide Final, Ascending, LastTime, Tolerates;
    ToleratesSweeps();
    forall a, b, t | AlikeAt()(a, b, t)
      ensures AlikeAt()(b, a, t)
    {
      AlikeIsSymmetric(a, b, t);
    }
    StaysAlike(CouponMachine(), AlikeAt(), Store(map[], templates), calls, from);
  }

  // ----- issuing -----

  lemma IssueKeepsCounters(s: Store, call: Call)
    requires call.DoIssue? && Inv(s.rows, s.templates)
    ensures Inv(Do(s, call).0.rows, Do(s, call).0.templates)
  {
    hide Inv, Apply;
    ApplyKeepsInv(s.rows, s.templates, Done(Issue(call.templateId, call.tenantId, call.holders, call.firstId, call.now)));
  }

  /** The store after an issue whose ids are new. */
  function IssuedStore(s: Store, call: Call): Store
    requires call.DoIssue?
  {
    if IssueRefusal(s.templates, call.templateId, call.tenantId, |call.holders|).Some? then s
    else
      var t := s.templates[call.templateId];
      Store(Grown(s.rows, NewCoupons(t, call.templateId, call.holders, call.now), call.firstId),
            s.templates[call.templateId := t.(issuedCount := t.issuedCount + |call.holders|)])
  }

  lemma IssueOutcome(s: Store, call: Call)
    requires call.DoIssue? && forall id :: id in s.rows ==> id < call.firstId
    ensures Do(s, call) ==
      (IssuedStore(s, call), Issued(IssueResult(s.templates, call.templateId, call.tenantId, |call.holders|)))
  {
    hide Apply, Numbered, NewCoupons, IssueResult;
    var op := Issue(call.templateId, call.tenantId, call.holders, call.firstId, call.now);
    var (added, templates) := AtOnce(op, s.rows, s.templates);
    if IssueRefusal(s.templates, call.templateId, call.tenantId, |call.holders|).None? {
      GrownIds(s.rows, NewCoupons(s.templates[call.templateId], call.templateId, call.holders, call.now), call.firstId);
    }
    DoneAdds(CouponRules(), s.rows, s.templates, op, added, templates);
    NothingAdded(s.rows);
  }

  // ----- the store as it runs -----

  class GormStore {
    var rows: Rows
    var templates: Templates
    var nextId: nat

    ghost predicate Valid()
      reads this
    {
      Inv(rows, templates) && forall id :: id in rows ==> id < nextId
    }

    ghost function State(): Store
      reads this
    {
      Store(rows, templates)
    }

    constructor ()
      ensures Valid() && rows == map[] && templates == map[]
    {
      rows, templates, nextId := map[], map[], 1;
      new;
      StartIsOk();
    }

    method CreateCoupons(template: Template, templateId: nat, holders: seq<nat>, now: int) returns (issued: nat)
      modifies this`rows, this`nextId
      ensures issued == |holders| && nextId == old(nextId) + |holders|
      ensures rows == Grown(old(rows), NewCoupons(template, templateId, holders, now), old(nextId))
    {
      hide NewCoupon, Grown;
      ghost var before, firstId, coupons := rows, nextId, NewCoupons(template, templateId, holders, now);
      issued := 0;
      GrownStart(before, coupons, firstId);
      while issued < |holders|
        invariant 0 <= issued <= |holders| && nextId == firstId + issued
        invariant rows == Grown(before, coupons[..issued], firstId)
      {
        GrownStep(before, coupons, issued, firstId);
        rows := rows[nextId := NewCoupon(template, templateId, holders[issued], now)];
        nextId := nextId + 1;
        issued := issued + 1;
      }
      assert coupons[..|holders|] == coupons;
    }

    /** All coupons and the counter together, or nothing. */
    method IssueCoupons(tenantId: nat, templateId: nat, holders: seq<nat>, now: int) returns (result: Result<nat, Error>)
      requires Valid()
      modifies this
      ensures Valid()
      ensures (State(), Issued(result)) == Do(old(State()), DoIssue(templateId, tenantId, holders, old(nextId), now))
      ensures nextId == old(nextId) + if result.Success? then |holders| else 0
    {
      hide Do, Grown, Inv;
      ghost var call := DoIssue(templateId, tenantId, holders, nextId, now);
      IssueKeepsCounters(State(), call);
      IssueOutcome(State(), call);
      if templateId !in templates || templates[templateId].tenantId != tenantId {
        return Failure(TemplateNotFound);
      }
      var template := templates[templateId];
      if !template.enabled {
        return Failure(TemplateDisabled);
      }
      if template.totalCount > 0 && template.issuedCount + |holders| > template.totalCount {
        return Failure(IssueLimit);
      }
      GrownIds(rows, NewCoupons(template, templateId, holders, now), nextId);
      var issued := CreateCoupons(template, templateId, holders, now);
      templates := templates[templateId := template.(issuedCount := template.issuedCount + |holders|)];
      result := Success(issued);
    }

    method ExpireStaleCoupons(tenantId: nat, now: int)
      requires Valid()
      modifies this`rows
      ensures Valid()
      ensures State() == Do(old(State()), DoSweep(tenantId, now)).0
    {
      hide Inv;
      ghost var before := rows;
      var ids := rows.Keys;
      while ids != {}
        invariant ids <= before.Keys == rows.Keys
        invariant Inv(rows, templates)
        invariant forall id :: id in before ==> rows[id] == if id in ids then before[id] else Swept(before, tenantId, now)[id]
        decreases |ids|
      {
        var id :| id in ids;
        if Stale(rows[id], tenantId, now) {
          RowUpdateKeepsInv(rows, templates, Expire(id, tenantId, now), None);
          rows := rows[id := rows[id].(status := Expired)];
        }
        ids := ids - {id};
      }
      assert rows == Swept(before, tenantId, now);
    }

    method ListCoupons(tenantId: nat, holderId: nat, status: Option<Status>, now: int) returns (coupons: Rows)
      requires Valid()
      modifies this`rows
      ensures Valid()
      ensures (State(), Listed(coupons)) == Do(old(State()), DoList(tenantId, holderId, status, now))
    {
      ExpireStaleCoupons(tenantId, now);
      coupons := Listing(rows, tenantId, holderId, status);
    }

    /** Both kinds of claim; the shop is checked only when one is given. */
    method ClaimCoupon(c: Claim) returns (result: Result<(int, string), Error>)
      requires Valid()
      modifies this
      ensures Valid() && nextId == old(nextId)
      ensures (State(), Claimed(result)) == Do(old(State()), DoClaim(c))
    {
      if c.couponId !in rows || rows[c.couponId].tenantId != c.tenantId {
        return Failure(CouponNotFound);
      }
      var coupon := rows[c.couponId];
      if coupon.holderId != c.holderId || !coupon.status.Unused? || coupon.validUntil < c.now || coupon.minSpend > c.orderAmount {
        return Failure(CouponNotAvailable);
      }
      if c.shop.Some? && coupon.shopScoped && coupon.verifyShopId != c.shop.value {
        return Failure(CouponShopMismatch);
      }
      RowUpdateKeepsInv(rows, templates, Redeem(c), Find(rows, c.couponId));
      if !rows[c.couponId].status.Unused? {
        return Failure(CouponNotAvailable);
      }
      rows := rows[c.couponId := AsUsed(rows[c.couponId], c)];
      if coupon.templateId in templates {
        var template := templates[coupon.templateId];
        templates := templates[coupon.templateId := template.(usedCount := template.usedCount + 1)];
      }
      result := Success((coupon.amount, coupon.name));
    }
  }
}
